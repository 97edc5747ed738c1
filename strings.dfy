/**
 * The JavaScript string operations the importer and the lookup handler rely on:
 * `toLowerCase` (restricted to ASCII letters), `includes` and `trim`.
 */
module Strings {

  /** `toLowerCase` on one character, restricted to the ASCII letters A-Z. */
  function LowerChar(c: char): char {
    if 'A' <= c <= 'Z' then (c as int + 32) as char else c
  }

  /** `String.prototype.toLowerCase`, restricted to ASCII letters. */
  function ToLower(s: string): string {
    seq(|s|, i requires 0 <= i < |s| => LowerChar(s[i]))
  }

  /** No ASCII upper-case letter occurs in `s`. */
  predicate IsLowerCase(s: string) {
    forall i :: 0 <= i < |s| ==> !('A' <= s[i] <= 'Z')
  }

  /**
   * Lowercasing keeps the length, maps each upper-case letter to the lower-case
   * letter at the same position in the alphabet, keeps every other character,
   * and so changes nothing already lower-case.
   */
  lemma ToLowerFacts(s: string)
    ensures |ToLower(s)| == |s| && IsLowerCase(ToLower(s))
    ensures forall i :: 0 <= i < |s| && 'A' <= s[i] <= 'Z' ==>
      'a' <= ToLower(s)[i] <= 'z' && ToLower(s)[i] as int - 'a' as int == s[i] as int - 'A' as int
    ensures forall i :: 0 <= i < |s| && !('A' <= s[i] <= 'Z') ==> ToLower(s)[i] == s[i]
    ensures IsLowerCase(s) ==> ToLower(s) == s
    ensures ToLower(ToLower(s)) == ToLower(s)
  {
  }

  /** `sub` occurs in `s` starting at index `i`. */
  predicate OccursAt(s: string, sub: string, i: int) {
    0 <= i && i + |sub| <= |s| && s[i..i + |sub|] == sub
  }

  /** Characters `j..` of `sub` agree with `s` from index `i + j` on. */
  function MatchFrom(s: string, sub: string, i: nat, j: nat): bool
    requires i + |sub| <= |s| && j <= |sub|
    decreases |sub| - j
  {
    j == |sub| || (s[i + j] == sub[j] && MatchFrom(s, sub, i, j + 1))
  }

  /** Some occurrence of `sub` in `s` starts at index `i` or later. */
  function ContainsFrom(s: string, sub: string, i: nat): bool
    decreases |s| - i
  {
    if i + |sub| > |s| then false
    else MatchFrom(s, sub, i, 0) || ContainsFrom(s, sub, i + 1)
  }

  /** `String.prototype.includes`: whether `sub` occurs in `s`. */
  function Contains(s: string, sub: string): bool {
    ContainsFrom(s, sub, 0)
  }

  /** The character-by-character comparison agrees with slice equality. */
  lemma {:induction false} MatchFromMeansEqual(s: string, sub: string, i: nat, j: nat)
    requires i + |sub| <= |s| && j <= |sub|
    ensures MatchFrom(s, sub, i, j) <==> s[i + j..i + |sub|] == sub[j..]
    decreases |sub| - j
  {
    if j < |sub| {
      MatchFromMeansEqual(s, sub, i, j + 1);
      assert s[i + j..i + |sub|] == [s[i + j]] + s[i + j + 1..i + |sub|];
      assert sub[j..] == [sub[j]] + sub[j + 1..];
    }
  }

  /** The scan from index `i` finds exactly the occurrences that start at `i` or later. */
  lemma {:induction false} ContainsFromMeansOccurs(s: string, sub: string, i: nat)
    ensures ContainsFrom(s, sub, i) <==> exists k :: i <= k && OccursAt(s, sub, k)
    decreases |s| - i
  {
    if i + |sub| <= |s| {
      MatchFromMeansEqual(s, sub, i, 0);
      ContainsFromMeansOccurs(s, sub, i + 1);
      assert MatchFrom(s, sub, i, 0) <==> OccursAt(s, sub, i);
    }
  }

  /** `includes` is true exactly when `sub` occurs somewhere in `s`; the empty string occurs in every string. */
  lemma ContainsMeansOccurs(s: string, sub: string)
    ensures Contains(s, sub) <==> exists k :: OccursAt(s, sub, k)
  {
    ContainsFromMeansOccurs(s, sub, 0);
  }

  /** A string that lacks one of the characters of `sub` does not contain `sub`. */
  lemma MissingCharExcludes(s: string, sub: string, c: char)
    requires c in sub && c !in s
    ensures !Contains(s, sub)
  {
    ContainsMeansOccurs(s, sub);
    var j :| 0 <= j < |sub| && sub[j] == c;
    forall k: int
      ensures !OccursAt(s, sub, k)
    {
      if 0 <= k && k + |sub| <= |s| {
        assert s[k..k + |sub|][j] == s[k + j];
      }
    }
  }

  /**
   * `sub` does not occur in `a + b` when its first character is not in `a`
   * and `b` is too short to hold it.
   */
  lemma LeadCharExcludes(a: string, b: string, sub: string)
    requires sub != [] && sub[0] !in a && |b| < |sub|
    ensures !Contains(a + b, sub)
  {
    ContainsMeansOccurs(a + b, sub);
    forall k: int
      ensures !OccursAt(a + b, sub, k)
    {
      if 0 <= k && k + |sub| <= |a + b| {
        assert (a + b)[k..k + |sub|][0] == a[k];
      }
    }
  }

  /** The characters `String.prototype.trim` removes: ECMAScript WhiteSpace and LineTerminator. */
  predicate IsJsWhitespace(c: char) {
    || c == '\t' || c == '\n' || c == '\U{000B}' || c == '\U{000C}' || c == '\r' || c == ' '
    || c == '\U{00A0}' || c == '\U{1680}' || '\U{2000}' <= c <= '\U{200A}'
    || c == '\U{2028}' || c == '\U{2029}' || c == '\U{202F}' || c == '\U{205F}'
    || c == '\U{3000}' || c == '\U{FEFF}'
  }

  /** Every character of `s` is whitespace. */
  predicate AllWhitespace(s: string) {
    forall i :: 0 <= i < |s| ==> IsJsWhitespace(s[i])
  }

  /** `s` without its leading whitespace. */
  function TrimStart(s: string): string {
    if s != [] && IsJsWhitespace(s[0]) then TrimStart(s[1..]) else s
  }

  /** `s` without its trailing whitespace. */
  function TrimEnd(s: string): string {
    if s != [] && IsJsWhitespace(s[|s| - 1]) then TrimEnd(s[..|s| - 1]) else s
  }

  /** `String.prototype.trim`: `s` without its leading and its trailing whitespace. */
  function Trim(s: string): string {
    TrimEnd(TrimStart(s))
  }

  /** TrimStart removes a whitespace prefix and leaves a suffix that does not start with whitespace. */
  lemma {:induction false} TrimStartFacts(s: string)
    ensures |TrimStart(s)| <= |s| && TrimStart(s) == s[|s| - |TrimStart(s)|..]
    ensures AllWhitespace(s[..|s| - |TrimStart(s)|])
    ensures TrimStart(s) != [] ==> !IsJsWhitespace(TrimStart(s)[0])
  {
    if s != [] && IsJsWhitespace(s[0]) {
      var p := s[1..];
      TrimStartFacts(p);
      assert s[..|s| - |TrimStart(s)|] == [s[0]] + p[..|p| - |TrimStart(p)|];
    }
  }

  /** TrimEnd removes a whitespace suffix and leaves a prefix that does not end with whitespace. */
  lemma {:induction false} TrimEndFacts(s: string)
    ensures |TrimEnd(s)| <= |s| && TrimEnd(s) == s[..|TrimEnd(s)|]
    ensures AllWhitespace(s[|TrimEnd(s)|..])
    ensures TrimEnd(s) != [] ==> !IsJsWhitespace(TrimEnd(s)[|TrimEnd(s)| - 1])
  {
    if s != [] && IsJsWhitespace(s[|s| - 1]) {
      var p := s[..|s| - 1];
      TrimEndFacts(p);
      assert s[|TrimEnd(s)|..] == p[|TrimEnd(p)|..] + [s[|s| - 1]];
    }
  }

  /**
   * The trimmed string is a run of `s` with only whitespace before and after
   * it, and neither of its ends is whitespace.
   */
  lemma TrimFacts(s: string)
    ensures exists i :: OccursAt(s, Trim(s), i) && AllWhitespace(s[..i]) && AllWhitespace(s[i + |Trim(s)|..])
    ensures Trim(s) != [] ==> !IsJsWhitespace(Trim(s)[0]) && !IsJsWhitespace(Trim(s)[|Trim(s)| - 1])
  {
    var t := TrimStart(s);
    TrimStartFacts(s);
    TrimEndFacts(t);
    var r := Trim(s);
    var i := |s| - |t|;
    assert s[i..i + |r|] == r;
    assert s[i + |r|..] == t[|r|..];
    assert OccursAt(s, r, i) && AllWhitespace(s[..i]) && AllWhitespace(s[i + |r|..]);
  }

  /** Trimming twice is trimming once. */
  lemma TrimIdempotent(s: string)
    ensures Trim(Trim(s)) == Trim(s)
  {
    TrimFacts(s);
  }
}
