/**
 * Classification and ranking of nutrient names, as the CSV importer derives
 * the `category` and `sort_order` columns of the `nutrients` table.
 */
module Nutrients {
  import opened Strings

  /** The closed set of category labels. */
  datatype Category =
    | Energy | Vitamins | FattyAcids | Lipids | Macronutrients
    | Carbohydrates | Minerals | AminoAcids | Other
  {
    /** The text stored in the `category` column. */
    function Label(): string {
      match this
      case Energy => "Energy"
      case Vitamins => "Vitamins"
      case FattyAcids => "Fatty Acids"
      case Lipids => "Lipids"
      case Macronutrients => "Macronutrients"
      case Carbohydrates => "Carbohydrates"
      case Minerals => "Minerals"
      case AminoAcids => "Amino Acids"
      case Other => "Other"
    }
  }

  /** The nine labels a nutrient can be filed under. */
  const CategoryLabels: set<string> :=
    {"Energy", "Vitamins", "Fatty Acids", "Lipids", "Macronutrients",
     "Carbohydrates", "Minerals", "Amino Acids", "Other"}

  /** The `minerals` list. */
  const MineralNames: seq<string> :=
    ["Calcium", "Iron", "Magnesium", "Phosphorus", "Potassium",
     "Sodium", "Zinc", "Copper", "Manganese", "Selenium"]

  /** The `aminoAcids` list. */
  const AminoAcidNames: seq<string> :=
    ["Tryptophan", "Threonine", "Isoleucine", "Leucine", "Lysine", "Methionine",
     "Phenylalanine", "Tyrosine", "Valine", "Histidine", "Alanine", "Arginine",
     "Aspartic acid", "Glutamic acid", "Glycine", "Proline", "Serine", "Cystine"]

  /** The three names the macronutrient rule compares against, case-sensitively. */
  const MacronutrientNames: seq<string> :=
    ["Protein", "Total lipid (fat)", "Carbohydrate, by difference"]

  /** The lowercased name contains `word`. */
  predicate Mentions(name: string, word: string) {
    Contains(ToLower(name), word)
  }

  /**
   * getCategory: a first-match-wins decision list of case-insensitive
   * substring tests and case-sensitive exact-name tests, with `Other` last.
   */
  function GetCategory(name: string): Category {
    var n := ToLower(name);
    if Contains(n, "energy") then Energy
    else if Contains(n, "vitamin") then Vitamins
    else if Contains(n, "fatty acid") then FattyAcids
    else if Contains(n, "cholesterol") then Lipids
    else if name == "Protein" || name == "Total lipid (fat)" || name == "Carbohydrate, by difference" then Macronutrients
    else if Contains(n, "sugar") || Contains(n, "fiber") || Contains(n, "starch") then Carbohydrates
    else if name in MineralNames then Minerals
    else if name in AminoAcidNames then AminoAcids
    else Other
  }

  /** The label getCategory returns: always one of the nine, whatever the name (the empty one included). */
  function CategoryLabel(name: string): (text: string)
    ensures text in CategoryLabels
  {
    GetCategory(name).Label()
  }

  /** Different categories have different labels, so each name has exactly one label. */
  lemma LabelsDistinct(c: Category, d: Category)
    ensures c.Label() == d.Label() <==> c == d
  {
  }

  // ---------------------------------------------------------------------
  // The decision list as data: an independent statement of first-match-wins.
  // ---------------------------------------------------------------------

  /** A test of one rule: a word of the lowercased name, or exactly one of some names. */
  datatype Test = Word(word: string) | ExactName(names: seq<string>)

  /** A rule of the decision list. */
  datatype Rule = Rule(test: Test, category: Category)

  /**
   * The rules in the order getCategory tries them; the carbohydrate test,
   * a short-circuit `||` of three words, is three rules with one category.
   */
  const DecisionList: seq<Rule> := [
    Rule(Word("energy"), Energy),
    Rule(Word("vitamin"), Vitamins),
    Rule(Word("fatty acid"), FattyAcids),
    Rule(Word("cholesterol"), Lipids),
    Rule(ExactName(MacronutrientNames), Macronutrients),
    Rule(Word("sugar"), Carbohydrates),
    Rule(Word("fiber"), Carbohydrates),
    Rule(Word("starch"), Carbohydrates),
    Rule(ExactName(MineralNames), Minerals),
    Rule(ExactName(AminoAcidNames), AminoAcids)
  ]

  /** Whether a test accepts a name. */
  predicate Passes(t: Test, name: string) {
    match t
    case Word(w) => Mentions(name, w)
    case ExactName(names) => name in names
  }

  /** The category of the first rule that accepts the name, `Other` when none does. */
  function FirstMatch(rules: seq<Rule>, name: string): Category {
    if rules == [] then Other
    else if Passes(rules[0].test, name) then rules[0].category
    else FirstMatch(rules[1..], name)
  }

  /** One step of the decision list: the head rule decides when it accepts, the rest otherwise. */
  lemma FirstMatchStep(rules: seq<Rule>, name: string, r: Rule)
    requires rules != [] && rules[0] == r
    ensures FirstMatch(rules, name) == if Passes(r.test, name) then r.category else FirstMatch(rules[1..], name)
  {
  }

  /** The rules after the substring rules: the carbohydrate words, the two lists, then `Other`. */
  lemma {:induction false} FirstMatchOfLaterRules(name: string)
    ensures FirstMatch(DecisionList[5..], name) ==
      if Mentions(name, "sugar") || Mentions(name, "fiber") || Mentions(name, "starch") then Carbohydrates
      else if name in MineralNames then Minerals
      else if name in AminoAcidNames then AminoAcids
      else Other
  {
    var rules := DecisionList[5..];
    FirstMatchStep(rules, name, Rule(Word("sugar"), Carbohydrates));
    FirstMatchStep(rules[1..], name, Rule(Word("fiber"), Carbohydrates));
    FirstMatchStep(rules[2..], name, Rule(Word("starch"), Carbohydrates));
    FirstMatchStep(rules[3..], name, Rule(ExactName(MineralNames), Minerals));
    FirstMatchStep(rules[4..], name, Rule(ExactName(AminoAcidNames), AminoAcids));
    assert rules[5..] == [];
  }

  /** getCategory is the decision list read first to last. */
  lemma {:induction false} GetCategoryIsFirstMatch(name: string)
    ensures GetCategory(name) == FirstMatch(DecisionList, name)
  {
    var rules := DecisionList;
    FirstMatchStep(rules, name, Rule(Word("energy"), Energy));
    FirstMatchStep(rules[1..], name, Rule(Word("vitamin"), Vitamins));
    FirstMatchStep(rules[2..], name, Rule(Word("fatty acid"), FattyAcids));
    FirstMatchStep(rules[3..], name, Rule(Word("cholesterol"), Lipids));
    FirstMatchStep(rules[4..], name, Rule(ExactName(MacronutrientNames), Macronutrients));
    assert rules[4..][1..] == rules[5..];
    FirstMatchOfLaterRules(name);
  }

  /** A name whose lowercase contains `energy` is `Energy`, whatever else it contains. */
  lemma EnergyTakesPrecedence(name: string)
    ensures Mentions(name, "energy") <==> GetCategory(name) == Energy
  {
  }

  /** `Vitamins` exactly for names that mention `vitamin` but not `energy`, in any case. */
  lemma VitaminRule(name: string)
    ensures GetCategory(name) == Vitamins <==> !Mentions(name, "energy") && Mentions(name, "vitamin")
  {
  }

  /** `Fatty Acids` and `Lipids` need their word and none of the words tried before it. */
  lemma LipidRules(name: string)
    ensures GetCategory(name) == FattyAcids <==>
      !Mentions(name, "energy") && !Mentions(name, "vitamin") && Mentions(name, "fatty acid")
    ensures GetCategory(name) == Lipids <==>
      !Mentions(name, "energy") && !Mentions(name, "vitamin") && !Mentions(name, "fatty acid")
      && Mentions(name, "cholesterol")
  {
  }

  /** The four substring rules depend only on the lowercased name. */
  lemma {:induction false} SubstringRulesIgnoreCase(a: string, b: string)
    requires ToLower(a) == ToLower(b)
    requires GetCategory(a) in {Energy, Vitamins, FattyAcids, Lipids}
    ensures GetCategory(b) == GetCategory(a)
  {
  }

  // ---------------------------------------------------------------------
  // The keywords, and which names avoid them.
  // ---------------------------------------------------------------------

  /** `s` contains none of the four words tested before the macronutrient rule. */
  predicate FreeOfEarlyKeywords(s: string) {
    !Contains(s, "energy") && !Contains(s, "vitamin") && !Contains(s, "fatty acid") && !Contains(s, "cholesterol")
  }

  /** `s` contains none of the seven words getCategory looks for. */
  predicate FreeOfKeywords(s: string) {
    FreeOfEarlyKeywords(s) && !Contains(s, "sugar") && !Contains(s, "fiber") && !Contains(s, "starch")
  }

  /**
   * A name whose lowercase mentions none of the first four words is decided
   * by the rules from the macronutrient rule on.
   */
  lemma LaterRulesDecide(name: string)
    requires FreeOfEarlyKeywords(ToLower(name))
    ensures GetCategory(name) ==
      if name in MacronutrientNames then Macronutrients
      else if Mentions(name, "sugar") || Mentions(name, "fiber") || Mentions(name, "starch") then Carbohydrates
      else if name in MineralNames then Minerals
      else if name in AminoAcidNames then AminoAcids
      else Other
  {
  }

  /** A name whose lowercase mentions none of the seven words is decided by the exact-name rules alone. */
  lemma ExactRulesDecide(name: string)
    requires FreeOfKeywords(ToLower(name))
    ensures GetCategory(name) ==
      if name in MacronutrientNames then Macronutrients
      else if name in MineralNames then Minerals
      else if name in AminoAcidNames then AminoAcids
      else Other
  {
    LaterRulesDecide(name);
  }

  /**
   * A string lacking one character of each keyword (`e` of "energy",
   * `v` of "vitamin", and so on) contains none of the keywords.
   */
  lemma {:induction false} FreeByProbes(lower: string, e: char, v: char, fa: char, ch: char, su: char, fi: char, st: char)
    requires e in "energy" && v in "vitamin" && fa in "fatty acid" && ch in "cholesterol"
    requires su in "sugar" && fi in "fiber" && st in "starch"
    requires e !in lower && v !in lower && fa !in lower && ch !in lower
    requires su !in lower && fi !in lower && st !in lower
    ensures FreeOfKeywords(lower)
  {
    MissingCharExcludes(lower, "energy", e);
    MissingCharExcludes(lower, "vitamin", v);
    MissingCharExcludes(lower, "fatty acid", fa);
    MissingCharExcludes(lower, "cholesterol", ch);
    MissingCharExcludes(lower, "sugar", su);
    MissingCharExcludes(lower, "fiber", fi);
    MissingCharExcludes(lower, "starch", st);
  }

  /** MineralNames[0], "Calcium", lowercases to a string free of every keyword. */
  lemma {:induction false} CalciumIsKeywordFree()
    ensures FreeOfKeywords(ToLower(MineralNames[0]))
  {
    var lower := ToLower(MineralNames[0]);
    assert lower == "calcium";
    FreeByProbes(lower, 'e', 'v', 'f', 'h', 's', 'f', 's');
  }

  /** MineralNames[1], "Iron", lowercases to a string free of every keyword. */
  lemma {:induction false} IronIsKeywordFree()
    ensures FreeOfKeywords(ToLower(MineralNames[1]))
  {
    var lower := ToLower(MineralNames[1]);
    assert lower == "iron";
    FreeByProbes(lower, 'e', 'v', 'f', 'c', 's', 'f', 's');
  }

  /** MineralNames[2], "Magnesium", lowercases to a string free of every keyword. */
  lemma {:induction false} MagnesiumIsKeywordFree()
    ensures FreeOfKeywords(ToLower(MineralNames[2]))
  {
    var lower := ToLower(MineralNames[2]);
    assert lower == "magnesium";
    FreeByProbes(lower, 'r', 'v', 'f', 'c', 'r', 'f', 't');
  }

  /** MineralNames[3], "Phosphorus", lowercases to a string free of every keyword. */
  lemma {:induction false} PhosphorusIsKeywordFree()
    ensures FreeOfKeywords(ToLower(MineralNames[3]))
  {
    var lower := ToLower(MineralNames[3]);
    assert lower == "phosphorus";
    FreeByProbes(lower, 'e', 'v', 'f', 'c', 'g', 'f', 't');
  }

  /** MineralNames[4], "Potassium", lowercases to a string free of every keyword. */
  lemma {:induction false} PotassiumIsKeywordFree()
    ensures FreeOfKeywords(ToLower(MineralNames[4]))
  {
    var lower := ToLower(MineralNames[4]);
    assert lower == "potassium";
    FreeByProbes(lower, 'e', 'v', 'f', 'c', 'g', 'f', 'r');
  }

  /** MineralNames[5], "Sodium", lowercases to a string free of every keyword. */
  lemma {:induction false} SodiumIsKeywordFree()
    ensures FreeOfKeywords(ToLower(MineralNames[5]))
  {
    var lower := ToLower(MineralNames[5]);
    assert lower == "sodium";
    FreeByProbes(lower, 'e', 'v', 'f', 'c', 'g', 'f', 't');
  }

  /** MineralNames[6], "Zinc", lowercases to a string free of every keyword. */
  lemma {:induction false} ZincIsKeywordFree()
    ensures FreeOfKeywords(ToLower(MineralNames[6]))
  {
    var lower := ToLower(MineralNames[6]);
    assert lower == "zinc";
    FreeByProbes(lower, 'e', 'v', 'f', 'h', 's', 'f', 's');
  }

  /** MineralNames[7], "Copper", lowercases to a string free of every keyword. */
  lemma {:induction false} CopperIsKeywordFree()
    ensures FreeOfKeywords(ToLower(MineralNames[7]))
  {
    var lower := ToLower(MineralNames[7]);
    assert lower == "copper";
    FreeByProbes(lower, 'n', 'v', 'f', 'h', 's', 'f', 's');
  }

  /** MineralNames[8], "Manganese", lowercases to a string free of every keyword. */
  lemma {:induction false} ManganeseIsKeywordFree()
    ensures FreeOfKeywords(ToLower(MineralNames[8]))
  {
    var lower := ToLower(MineralNames[8]);
    assert lower == "manganese";
    FreeByProbes(lower, 'r', 'v', 'f', 'c', 'u', 'f', 't');
  }

  /** MineralNames[9], "Selenium", lowercases to a string free of every keyword. */
  lemma {:induction false} SeleniumIsKeywordFree()
    ensures FreeOfKeywords(ToLower(MineralNames[9]))
  {
    var lower := ToLower(MineralNames[9]);
    assert lower == "selenium";
    FreeByProbes(lower, 'r', 'v', 'f', 'c', 'g', 'f', 't');
  }

  /** AminoAcidNames[0], "Tryptophan", lowercases to a string free of every keyword. */
  lemma {:induction false} TryptophanIsKeywordFree()
    ensures FreeOfKeywords(ToLower(AminoAcidNames[0]))
  {
    var lower := ToLower(AminoAcidNames[0]);
    assert lower == "tryptophan";
    FreeByProbes(lower, 'e', 'v', 'f', 'c', 's', 'f', 's');
  }

  /** AminoAcidNames[1], "Threonine", lowercases to a string free of every keyword. */
  lemma {:induction false} ThreonineIsKeywordFree()
    ensures FreeOfKeywords(ToLower(AminoAcidNames[1]))
  {
    var lower := ToLower(AminoAcidNames[1]);
    assert lower == "threonine";
    FreeByProbes(lower, 'g', 'v', 'f', 'c', 's', 'f', 's');
  }

  /** AminoAcidNames[2], "Isoleucine", lowercases to a string free of every keyword. */
  lemma {:induction false} IsoleucineIsKeywordFree()
    ensures FreeOfKeywords(ToLower(AminoAcidNames[2]))
  {
    var lower := ToLower(AminoAcidNames[2]);
    assert lower == "isoleucine";
    FreeByProbes(lower, 'r', 'v', 'f', 'h', 'g', 'f', 't');
  }

  /** AminoAcidNames[3], "Leucine", lowercases to a string free of every keyword. */
  lemma {:induction false} LeucineIsKeywordFree()
    ensures FreeOfKeywords(ToLower(AminoAcidNames[3]))
  {
    var lower := ToLower(AminoAcidNames[3]);
    assert lower == "leucine";
    FreeByProbes(lower, 'r', 'v', 'f', 'h', 's', 'f', 's');
  }

  /** AminoAcidNames[4], "Lysine", lowercases to a string free of every keyword. */
  lemma {:induction false} LysineIsKeywordFree()
    ensures FreeOfKeywords(ToLower(AminoAcidNames[4]))
  {
    var lower := ToLower(AminoAcidNames[4]);
    assert lower == "lysine";
    FreeByProbes(lower, 'r', 'v', 'f', 'c', 'u', 'f', 't');
  }

  /** AminoAcidNames[5], "Methionine", lowercases to a string free of every keyword. */
  lemma {:induction false} MethionineIsKeywordFree()
    ensures FreeOfKeywords(ToLower(AminoAcidNames[5]))
  {
    var lower := ToLower(AminoAcidNames[5]);
    assert lower == "methionine";
    FreeByProbes(lower, 'r', 'v', 'f', 'c', 's', 'f', 's');
  }

  /** AminoAcidNames[6], "Phenylalanine", lowercases to a string free of every keyword. */
  lemma {:induction false} PhenylalanineIsKeywordFree()
    ensures FreeOfKeywords(ToLower(AminoAcidNames[6]))
  {
    var lower := ToLower(AminoAcidNames[6]);
    assert lower == "phenylalanine";
    FreeByProbes(lower, 'r', 'v', 'f', 'c', 's', 'f', 's');
  }

  /** AminoAcidNames[7], "Tyrosine", lowercases to a string free of every keyword. */
  lemma {:induction false} TyrosineIsKeywordFree()
    ensures FreeOfKeywords(ToLower(AminoAcidNames[7]))
  {
    var lower := ToLower(AminoAcidNames[7]);
    assert lower == "tyrosine";
    FreeByProbes(lower, 'g', 'v', 'f', 'c', 'u', 'f', 'a');
  }

  /** AminoAcidNames[8], "Valine", lowercases to a string free of every keyword. */
  lemma {:induction false} ValineIsKeywordFree()
    ensures FreeOfKeywords(ToLower(AminoAcidNames[8]))
  {
    var lower := ToLower(AminoAcidNames[8]);
    assert lower == "valine";
    FreeByProbes(lower, 'r', 't', 'f', 'c', 's', 'f', 's');
  }

  /** AminoAcidNames[9], "Histidine", lowercases to a string free of every keyword. */
  lemma {:induction false} HistidineIsKeywordFree()
    ensures FreeOfKeywords(ToLower(AminoAcidNames[9]))
  {
    var lower := ToLower(AminoAcidNames[9]);
    assert lower == "histidine";
    FreeByProbes(lower, 'r', 'v', 'f', 'c', 'u', 'f', 'a');
  }

  /** AminoAcidNames[10], "Alanine", lowercases to a string free of every keyword. */
  lemma {:induction false} AlanineIsKeywordFree()
    ensures FreeOfKeywords(ToLower(AminoAcidNames[10]))
  {
    var lower := ToLower(AminoAcidNames[10]);
    assert lower == "alanine";
    FreeByProbes(lower, 'r', 'v', 'f', 'c', 's', 'f', 's');
  }

  /** AminoAcidNames[11], "Arginine", lowercases to a string free of every keyword. */
  lemma {:induction false} ArginineIsKeywordFree()
    ensures FreeOfKeywords(ToLower(AminoAcidNames[11]))
  {
    var lower := ToLower(AminoAcidNames[11]);
    assert lower == "arginine";
    FreeByProbes(lower, 'y', 'v', 'f', 'c', 's', 'f', 's');
  }

  /** AminoAcidNames[12], "Aspartic acid", lowercases to a string free of every keyword. */
  lemma {:induction false} AsparticAcidIsKeywordFree()
    ensures FreeOfKeywords(ToLower(AminoAcidNames[12]))
  {
    var lower := ToLower(AminoAcidNames[12]);
    assert lower == "aspartic acid";
    FreeByProbes(lower, 'e', 'v', 'f', 'h', 'u', 'f', 'h');
  }

  /** AminoAcidNames[13], "Glutamic acid", lowercases to a string free of every keyword. */
  lemma {:induction false} GlutamicAcidIsKeywordFree()
    ensures FreeOfKeywords(ToLower(AminoAcidNames[13]))
  {
    var lower := ToLower(AminoAcidNames[13]);
    assert lower == "glutamic acid";
    FreeByProbes(lower, 'e', 'v', 'f', 'h', 's', 'f', 's');
  }

  /** AminoAcidNames[14], "Glycine", lowercases to a string free of every keyword. */
  lemma {:induction false} GlycineIsKeywordFree()
    ensures FreeOfKeywords(ToLower(AminoAcidNames[14]))
  {
    var lower := ToLower(AminoAcidNames[14]);
    assert lower == "glycine";
    FreeByProbes(lower, 'r', 'v', 'f', 'h', 's', 'f', 's');
  }

  /** AminoAcidNames[15], "Proline", lowercases to a string free of every keyword. */
  lemma {:induction false} ProlineIsKeywordFree()
    ensures FreeOfKeywords(ToLower(AminoAcidNames[15]))
  {
    var lower := ToLower(AminoAcidNames[15]);
    assert lower == "proline";
    FreeByProbes(lower, 'g', 'v', 'f', 'c', 's', 'f', 's');
  }

  /** AminoAcidNames[16], "Serine", lowercases to a string free of every keyword. */
  lemma {:induction false} SerineIsKeywordFree()
    ensures FreeOfKeywords(ToLower(AminoAcidNames[16]))
  {
    var lower := ToLower(AminoAcidNames[16]);
    assert lower == "serine";
    FreeByProbes(lower, 'g', 'v', 'f', 'c', 'u', 'f', 't');
  }

  /** AminoAcidNames[17], "Cystine", lowercases to a string free of every keyword. */
  lemma {:induction false} CystineIsKeywordFree()
    ensures FreeOfKeywords(ToLower(AminoAcidNames[17]))
  {
    var lower := ToLower(AminoAcidNames[17]);
    assert lower == "cystine";
    FreeByProbes(lower, 'r', 'v', 'f', 'h', 'u', 'f', 'a');
  }

  /** No mineral name mentions any keyword, in any case. */
  lemma {:induction false} MineralNamesAreKeywordFree()
    ensures forall i :: 0 <= i < |MineralNames| ==> FreeOfKeywords(ToLower(MineralNames[i]))
  {
    forall i | 0 <= i < |MineralNames|
      ensures FreeOfKeywords(ToLower(MineralNames[i]))
    {
      if i == 0 { CalciumIsKeywordFree(); }
      else if i == 1 { IronIsKeywordFree(); }
      else if i == 2 { MagnesiumIsKeywordFree(); }
      else if i == 3 { PhosphorusIsKeywordFree(); }
      else if i == 4 { PotassiumIsKeywordFree(); }
      else if i == 5 { SodiumIsKeywordFree(); }
      else if i == 6 { ZincIsKeywordFree(); }
      else if i == 7 { CopperIsKeywordFree(); }
      else if i == 8 { ManganeseIsKeywordFree(); }
      else { SeleniumIsKeywordFree(); }
    }
  }

  /** No amino-acid name mentions any keyword, in any case. */
  lemma {:induction false} AminoAcidNamesAreKeywordFree()
    ensures forall i :: 0 <= i < |AminoAcidNames| ==> FreeOfKeywords(ToLower(AminoAcidNames[i]))
  {
    forall i | 0 <= i < |AminoAcidNames|
      ensures FreeOfKeywords(ToLower(AminoAcidNames[i]))
    {
      if i == 0 { TryptophanIsKeywordFree(); }
      else if i == 1 { ThreonineIsKeywordFree(); }
      else if i == 2 { IsoleucineIsKeywordFree(); }
      else if i == 3 { LeucineIsKeywordFree(); }
      else if i == 4 { LysineIsKeywordFree(); }
      else if i == 5 { MethionineIsKeywordFree(); }
      else if i == 6 { PhenylalanineIsKeywordFree(); }
      else if i == 7 { TyrosineIsKeywordFree(); }
      else if i == 8 { ValineIsKeywordFree(); }
      else if i == 9 { HistidineIsKeywordFree(); }
      else if i == 10 { AlanineIsKeywordFree(); }
      else if i == 11 { ArginineIsKeywordFree(); }
      else if i == 12 { AsparticAcidIsKeywordFree(); }
      else if i == 13 { GlutamicAcidIsKeywordFree(); }
      else if i == 14 { GlycineIsKeywordFree(); }
      else if i == 15 { ProlineIsKeywordFree(); }
      else if i == 16 { SerineIsKeywordFree(); }
      else { CystineIsKeywordFree(); }
    }
  }

  /** MacronutrientNames[0], "Protein", lowercases to a string free of every keyword. */
  lemma {:induction false} ProteinIsKeywordFree()
    ensures FreeOfKeywords(ToLower(MacronutrientNames[0]))
  {
    var lower := ToLower(MacronutrientNames[0]);
    assert lower == "protein";
    FreeByProbes(lower, 'g', 'v', 'f', 'c', 's', 'f', 's');
  }

  /** MacronutrientNames[1], "Total lipid (fat)", lowercases to a string free of every keyword. */
  lemma {:induction false} TotalLipidIsKeywordFree()
    ensures FreeOfKeywords(ToLower(MacronutrientNames[1]))
  {
    var lower := ToLower(MacronutrientNames[1]);
    assert lower == "total lipid (fat)";
    FreeByProbes(lower, 'e', 'v', 'y', 'c', 's', 'b', 's');
  }

  /** "carbohydrate, by difference" has every letter of "fatty acid", but no `f` early enough to start it. */
  lemma CarbohydrateLacksFattyAcid()
    ensures !Contains("carbohydrate, by difference", "fatty acid")
  {
    LeadCharExcludes("carbohydrate, by d", "ifference", "fatty acid");
    assert "carbohydrate, by d" + "ifference" == "carbohydrate, by difference";
  }

  /** MacronutrientNames[2] is "Carbohydrate, by difference"; this is its lowercase. */
  lemma CarbohydrateLowercase()
    ensures ToLower(MacronutrientNames[2]) == "carbohydrate, by difference"
  {
  }

  /** The lowercase of "Carbohydrate, by difference" lacks `g`, `v` and `l`, and the run "fatty acid". */
  lemma CarbohydrateLowercaseFacts()
    ensures 'g' !in ToLower(MacronutrientNames[2]) && 'v' !in ToLower(MacronutrientNames[2])
    ensures 'l' !in ToLower(MacronutrientNames[2])
    ensures !Contains(ToLower(MacronutrientNames[2]), "fatty acid")
  {
    CarbohydrateLowercase();
    CarbohydrateLacksFattyAcid();
  }

  /** MacronutrientNames[2], "Carbohydrate, by difference", mentions none of the first four words. */
  lemma {:induction false} CarbohydrateIsEarlyKeywordFree()
    ensures FreeOfEarlyKeywords(ToLower(MacronutrientNames[2]))
  {
    var lower := ToLower(MacronutrientNames[2]);
    CarbohydrateLowercaseFacts();
    MissingCharExcludes(lower, "energy", 'g');
    MissingCharExcludes(lower, "vitamin", 'v');
    MissingCharExcludes(lower, "cholesterol", 'l');
  }

  /** No name is on two of the three lists. */
  lemma ListsDisjoint()
    ensures forall i, j :: 0 <= i < |MineralNames| && 0 <= j < |AminoAcidNames| ==> MineralNames[i] != AminoAcidNames[j]
    ensures forall i, j :: 0 <= i < |MacronutrientNames| && 0 <= j < |MineralNames| ==> MacronutrientNames[i] != MineralNames[j]
    ensures forall i, j :: 0 <= i < |MacronutrientNames| && 0 <= j < |AminoAcidNames| ==> MacronutrientNames[i] != AminoAcidNames[j]
  {
  }

  /** Every name on the `minerals` list is filed under `Minerals`. */
  lemma {:induction false} MineralsClassified()
    ensures forall n :: n in MineralNames ==> GetCategory(n) == Minerals
  {
    MineralNamesAreKeywordFree();
    ListsDisjoint();
    forall n | n in MineralNames
      ensures GetCategory(n) == Minerals
    {
      var i :| 0 <= i < |MineralNames| && MineralNames[i] == n;
      ExactRulesDecide(n);
    }
  }

  /** Every name on the `aminoAcids` list is filed under `Amino Acids`. */
  lemma {:induction false} AminoAcidsClassified()
    ensures forall n :: n in AminoAcidNames ==> GetCategory(n) == AminoAcids
  {
    AminoAcidNamesAreKeywordFree();
    ListsDisjoint();
    forall n | n in AminoAcidNames
      ensures GetCategory(n) == AminoAcids
    {
      var i :| 0 <= i < |AminoAcidNames| && AminoAcidNames[i] == n;
      ExactRulesDecide(n);
    }
  }

  /** The three macronutrient names are filed under `Macronutrients`. */
  lemma {:induction false} MacronutrientsClassified()
    ensures forall n :: n in MacronutrientNames ==> GetCategory(n) == Macronutrients
  {
    ProteinIsKeywordFree();
    TotalLipidIsKeywordFree();
    CarbohydrateIsEarlyKeywordFree();
    forall n | n in MacronutrientNames
      ensures GetCategory(n) == Macronutrients
    {
      var i :| 0 <= i < |MacronutrientNames| && MacronutrientNames[i] == n;
      LaterRulesDecide(n);
    }
  }

  /** `Minerals` is returned for the listed minerals and nothing else. */
  lemma MineralsExactly(name: string)
    ensures GetCategory(name) == Minerals <==> name in MineralNames
  {
    MineralsClassified();
  }

  /** `Amino Acids` is returned for the listed amino acids and nothing else. */
  lemma AminoAcidsExactly(name: string)
    ensures GetCategory(name) == AminoAcids <==> name in AminoAcidNames
  {
    AminoAcidsClassified();
  }

  /** `Macronutrients` is returned for the three exact names and nothing else. */
  lemma MacronutrientsExactly(name: string)
    ensures GetCategory(name) == Macronutrients <==> name in MacronutrientNames
  {
    MacronutrientsClassified();
  }

  /** The macronutrient test compares case-sensitively: "protein" falls through to `Other`. */
  lemma {:induction false} ProteinIsCaseSensitive()
    ensures GetCategory("Protein") == Macronutrients
    ensures GetCategory("protein") == Other
  {
    MacronutrientsClassified();
    ProteinIsKeywordFree();
    assert ToLower("protein") == ToLower(MacronutrientNames[0]);
    ExactRulesDecide("protein");
  }

  /** The empty name, getCategory's default argument, is filed under `Other`. */
  lemma EmptyNameIsOther()
    ensures GetCategory("") == Other
  {
  }

  // ---------------------------------------------------------------------
  // getSortOrder
  // ---------------------------------------------------------------------

  /**
   * The `rank` field of a CSV row as getSortOrder sees it: `NoRank` when it
   * is falsy (absent or empty), `NonNumeric` when `isNaN` holds for it, and
   * `Numeric(v)` when it is truthy and `Number` turns it into the integer `v`.
   */
  datatype RankHint = NoRank | NonNumeric | Numeric(value: int)

  /** The cap on a rank taken from the CSV. */
  const MaxSortOrder: int := 9999

  /** The sort order of a name with no usable rank. */
  const DefaultSortOrder: int := 999

  /** The names whose sort order is fixed, in the order 1, 2, 3, 4. */
  const HeadlineNames: seq<string> := ["Energy", "Protein", "Total lipid (fat)", "Carbohydrate, by difference"]

  /** getSortOrder: four fixed positions, else the rank capped at 9999, else 999. */
  function GetSortOrder(name: string, rank: RankHint): (order: int)
    ensures order <= MaxSortOrder
    ensures order < 1 ==> rank.Numeric? && order == rank.value
  {
    if name == "Energy" then 1
    else if name == "Protein" then 2
    else if name == "Total lipid (fat)" then 3
    else if name == "Carbohydrate, by difference" then 4
    else if rank.Numeric? then (if rank.value < MaxSortOrder then rank.value else MaxSortOrder)
    else DefaultSortOrder
  }

  /** The four headline names sit at positions 1 to 4 whatever rank the row carries. */
  lemma HeadlineOrders(rank: RankHint)
    ensures forall i :: 0 <= i < |HeadlineNames| ==> GetSortOrder(HeadlineNames[i], rank) == i + 1
  {
  }

  /**
   * For any other name the rank decides: a usable rank is kept up to the cap
   * and replaced by the cap above it; a missing or non-numeric rank gives 999.
   */
  lemma RankRule(name: string, rank: RankHint)
    requires name !in HeadlineNames
    ensures rank.Numeric? && rank.value <= MaxSortOrder ==> GetSortOrder(name, rank) == rank.value
    ensures rank.Numeric? && rank.value >= MaxSortOrder ==> GetSortOrder(name, rank) == MaxSortOrder
    ensures !rank.Numeric? ==> GetSortOrder(name, rank) == DefaultSortOrder
  {
  }

  /** A larger rank never moves a nutrient earlier. */
  lemma SortOrderMonotone(name: string, r: int, s: int)
    requires r <= s
    ensures GetSortOrder(name, Numeric(r)) <= GetSortOrder(name, Numeric(s))
  {
  }

  /** The overrides compare case-sensitively: "energy" keeps the rank it is given. */
  lemma EnergyOverrideIsCaseSensitive()
    ensures GetSortOrder("Energy", Numeric(5)) == 1
    ensures GetSortOrder("energy", Numeric(5)) == 5
    ensures GetSortOrder("Zinc", Numeric(50000)) == MaxSortOrder
    ensures GetSortOrder("Zinc", NonNumeric) == DefaultSortOrder
  {
  }
}
