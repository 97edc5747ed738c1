# Nutrient importer and food lookup, modelled in Dafny

This project models two parts of a small nutrition back end.

The first is the nutrient importer (`importnutrients.js`). It reads USDA nutrient rows and files each nutrient under a name in a `nutrients` table. The model covers:

- the category a nutrient gets (`getCategory`): four case-insensitive keyword tests, then an exact test for three macronutrient names, then a keyword test for carbohydrates, then the fixed `minerals` and `aminoAcids` lists, with `Other` as the fallback;
- its sort order (`getSortOrder`): four fixed positions, then the CSV rank capped at 9999, then 999;
- the row loop of `importNutrients`, which skips rows without a name or an id, trims the name, lowercases the unit, upserts the row and counts the rows that went in.

The second is the `/giveas-items` handler (`index.js`, lines 94-130). It checks that the request holds a non-empty `foods` array. It then splits the requested items into the ones the store knows, compared case-insensitively, and the names it does not know, and picks the response shape.

Files:

- `strings.dfy` (module `Strings`): the JavaScript string operations these rely on, namely ASCII `toLowerCase`, `includes` and `trim`. Lemmas state what each computes: `includes` and `trim` are tied to plain statements about slices and whitespace, and lowercasing is described character by character.
- `nutrients.dfy` (module `Nutrients`): the lists, `GetCategory`, `GetSortOrder` and their properties.
  - The classification is restated as an explicit first-match decision list, and `GetCategoryIsFirstMatch` proves the two agree.
  - Every listed mineral, amino acid and macronutrient is proved to land in its own category. That rests on per-name lemmas showing that no mineral, amino-acid, "Protein" or "Total lipid (fat)" name contains any of the seven keywords, in any case. For "Carbohydrate, by difference" they show only that the four keywords tested before the macronutrient rule are absent, which is all its classification needs.
- `importer.dfy` (module `Importer`):
  - the class `NutrientTable`, whose `entries` map is the `nutrients` table;
  - an `Upsert` method that may fail;
  - the `ImportNutrients` loop, proved equal to the functions `Imported` and `SuccessCount`;
  - lemmas about what the table and the counter hold afterwards: which keys exist, last writer wins for `unit`, `category` and `sort_order`, the first insert's `usda_nutrient_number` and `is_visible` are kept, untouched entries stay as they were, and a second import over the same rows changes nothing.
- `food_lookup.dfy` (module `FoodLookup`): the partition into available items and missing names, its order and size properties, and the handler's responses.

Behaviour worth knowing, as the code shows it:

- A row whose name is only whitespace passes the `!row.name` check and is stored under the empty name, because the name is trimmed only after the check.
- A rank of `"0"` read from the CSV is a non-empty string, so it is truthy and gives sort order 0. Only an absent, empty or non-numeric rank takes the 999 default.
- A negative rank is kept as is, so it can sort before the four fixed nutrients.
- The macronutrient and `getSortOrder` overrides compare case-sensitively, while the keyword tests ignore case.

## Model

| member | source | states |
|---|---|---|
| Strings.ToLowerFacts | importnutrients.js:60 | lowercasing keeps the length, maps each upper-case ASCII letter to the lower-case letter at the same place in the alphabet, keeps every other character, changes nothing already lower-case and is idempotent |
| Strings.ContainsMeansOccurs | importnutrients.js:62 | the `includes` scan is true exactly when the word occurs at some index; the empty word occurs in every string |
| Strings.MissingCharExcludes | importnutrients.js:62 | a string lacking one character of a word does not include the word |
| Strings.LeadCharExcludes | importnutrients.js:64 | a word whose first character is absent from every position where it could start is not included |
| Strings.TrimFacts | importnutrients.js:130 | the trimmed name is a run of the original with only whitespace before and after it, and neither of its ends is whitespace |
| Strings.TrimIdempotent | importnutrients.js:130 | trimming a trimmed name changes nothing |
| Nutrients.CategoryLabel | importnutrients.js:59-81 | getCategory is total: every name, the empty one included, gets one of the nine labels |
| Nutrients.LabelsDistinct | importnutrients.js:59-81 | the nine categories have nine different labels, so each name has exactly one |
| Nutrients.GetCategoryIsFirstMatch | importnutrients.js:59-81 | getCategory equals the decision list of its ten tests read first to last, with `Other` when none accepts |
| Nutrients.EnergyTakesPrecedence | importnutrients.js:60-62 | a name is `Energy` exactly when its lowercase contains `energy`, whatever else it contains |
| Nutrients.VitaminRule | importnutrients.js:62-63 | a name is `Vitamins` exactly when its lowercase contains `vitamin` and not `energy` |
| Nutrients.LipidRules | importnutrients.js:63-65 | `Fatty Acids` and `Lipids` exactly when their word occurs and none of the words tested earlier |
| Nutrients.SubstringRulesIgnoreCase | importnutrients.js:60-65 | two names with the same lowercase get the same category when a keyword rule decides it |
| Nutrients.LaterRulesDecide | importnutrients.js:67-80 | a name free of the first four keywords is decided by the macronutrient, carbohydrate, mineral and amino-acid rules in that order |
| Nutrients.ExactRulesDecide | importnutrients.js:67-80 | a name free of all seven keywords is decided by exact membership in the three name lists alone |
| Nutrients.FreeByProbes | importnutrients.js:62-74 | a string that lacks one chosen character of each keyword contains none of the keywords |
| Nutrients.MineralNamesAreKeywordFree | importnutrients.js:23-34 | no mineral name contains any of the seven keywords, in any case |
| Nutrients.AminoAcidNamesAreKeywordFree | importnutrients.js:36-55 | no amino-acid name contains any of the seven keywords, in any case |
| Nutrients.ProteinIsKeywordFree | importnutrients.js:68 | "Protein" contains none of the keywords, in any case |
| Nutrients.TotalLipidIsKeywordFree | importnutrients.js:69 | "Total lipid (fat)" contains none of the keywords, in any case |
| Nutrients.CarbohydrateIsEarlyKeywordFree | importnutrients.js:70 | "Carbohydrate, by difference" contains none of the four keywords tested before the macronutrient rule |
| Nutrients.ListsDisjoint | importnutrients.js:23-55 | no name is on two of the mineral, amino-acid and macronutrient lists |
| Nutrients.MineralsClassified | importnutrients.js:77 | every element of `minerals` is classified `Minerals` |
| Nutrients.AminoAcidsClassified | importnutrients.js:78 | every element of `aminoAcids` is classified `Amino Acids` |
| Nutrients.MacronutrientsClassified | importnutrients.js:67-72 | the three exact names are classified `Macronutrients` |
| Nutrients.MineralsExactly | importnutrients.js:77 | `Minerals` exactly for the names on the list |
| Nutrients.AminoAcidsExactly | importnutrients.js:78 | `Amino Acids` exactly for the names on the list |
| Nutrients.MacronutrientsExactly | importnutrients.js:67-72 | `Macronutrients` exactly for the three names |
| Nutrients.ProteinIsCaseSensitive | importnutrients.js:67-72 | "Protein" is `Macronutrients` and "protein" is `Other` |
| Nutrients.EmptyNameIsOther | importnutrients.js:59 | the empty name, the default argument, is `Other` |
| Nutrients.GetSortOrder | importnutrients.js:85-93 | the sort order is never above 9999, and it is below 1 only when it is the rank itself |
| Nutrients.HeadlineOrders | importnutrients.js:86-89 | Energy, Protein, Total lipid (fat) and Carbohydrate, by difference get 1, 2, 3 and 4 whatever the rank |
| Nutrients.RankRule | importnutrients.js:91-92 | for other names a numeric rank up to 9999 is kept, one above is capped at 9999, and an absent, empty or non-numeric rank gives 999 |
| Nutrients.SortOrderMonotone | importnutrients.js:91 | a larger rank never gives an earlier position |
| Nutrients.EnergyOverrideIsCaseSensitive | importnutrients.js:86-92 | "Energy" gets 1 but "energy" keeps its rank; rank 50000 is capped and a non-numeric rank gives 999 |
| Importer.UnitOf | importnutrients.js:131 | the stored unit is empty without a `unit_name`; otherwise it is the lower-case string of the same length that lowercases to what the `unit_name` lowercases to, i.e. the lowercased `unit_name` |
| Importer.ValuesOf | importnutrients.js:130-141 | a row is inserted with one of the nine labels, a sort order at most 9999, its id as `usda_nutrient_number` and `is_visible` 1 |
| Importer.Upserted | importnutrients.js:114-122 | an upsert adds its name to the keys and leaves every other entry as it was |
| Importer.UpsertIdempotent | importnutrients.js:114-122 | upserting the same values twice is upserting them once |
| Importer.SuccessCount | importnutrients.js:124-146 | `success` is never more than the number of rows |
| Importer.IgnoredRow | importnutrients.js:127-146 | a row without a name or an id, or whose query fails, changes neither the table nor the count |
| Importer.StoredRow | importnutrients.js:129-143 | a stored row upserts its trimmed name with its values and adds one to the count |
| Importer.SuccessCountIsStoredRows | importnutrients.js:124-146 | `success` equals the number of rows that have a name and an id and whose query did not fail |
| Importer.ImportedKeys | importnutrients.js:126-147 | afterwards the table holds its old names plus one entry per distinct trimmed name stored |
| Importer.UntouchedEntries | importnutrients.js:126-147 | an entry no stored row names keeps its value, and an absent name stays absent |
| Importer.LastWriteWins | importnutrients.js:118-121 | `unit`, `category` and `sort_order` of a name are those of the last row stored under it |
| Importer.PresentEntriesKeepInsertFields | importnutrients.js:114-122 | an entry already in the table keeps its `usda_nutrient_number` and `is_visible` |
| Importer.FirstInsertKept | importnutrients.js:114-122 | a new name keeps the `usda_nutrient_number` of the first row stored under it, and `is_visible` 1 |
| Importer.NotStoredBefore | importnutrients.js:126-147 | the rows before a name's first stored row do not store that name |
| Importer.LastWriteExists | importnutrients.js:126-147 | every stored name has a last row stored under it |
| Importer.ReimportChangesNothing | importnutrients.js:111-151 | importing the same rows again, with the same failures, leaves the table as it is |
| Importer.NutrientTable.Upsert | importnutrients.js:134-141 | a failing query leaves the table unchanged and reports failure; otherwise the table is the upserted one |
| Importer.NutrientTable.ImportNutrients | importnutrients.js:124-147 | after the loop the table is `Imported` of the old table and the rows, and the result is `SuccessCount` |
| FoodLookup.FoundIgnoresCase | index.js:108-114 | a name counts as found exactly when some returned name equals it up to ASCII case |
| FoodLookup.MissingNames | index.js:109-111 | the missing names are at most as many as the requested ones |
| FoodLookup.AvailableFoods | index.js:112-114 | the available items are at most as many as the requested ones |
| FoodLookup.MissingMembership | index.js:109-111 | a name is missing exactly when it was requested and its lowercase is not among the found names |
| FoodLookup.AvailableMembership | index.js:112-114 | an item is available exactly when it was requested, unchanged, and its name was found |
| FoodLookup.AvailableKeepsOrder | index.js:112-114 | the available side keeps request order: filtering a concatenation concatenates the filtered parts |
| FoodLookup.MissingKeepsOrder | index.js:109-111 | the missing side keeps request order in the same way |
| FoodLookup.FoodNamesConcat | index.js:100 | the names of concatenated requests are the concatenated names |
| FoodLookup.PartitionSizes | index.js:109-114 | every requested item lands on one side: the two sides are together as long as the request |
| FoodLookup.OneItem | index.js:109-114 | a single item goes whole to the available side when found and by name to the missing side otherwise |
| FoodLookup.GiveasItems | index.js:94-130 | an absent, non-array or empty `foods` gives 400 "foods array is required" without a query, a failing query gives 500 with its message, and 200 comes only from a successful query |
| FoodLookup.ResponseShape | index.js:116-127 | the body reports `success: true` and "All foods are available" exactly when every item was found, then with all items; otherwise the body is the `missing-foods`/`available-foods` shape, carrying exactly the missing names and the available items |
| FoodLookup.AllFoundKeepsAll | index.js:112-120 | when every item is found, the available side is the whole request |

## Left out

- Reading the CSV (`readCSV`, the file stream, the CSV parser) is file I/O. The model takes the parsed rows, restricted to `id`, `name`, `unit_name` and `rank`.
- The MySQL pools, `pool.query` and `pool.end` are database I/O. The upsert is a map update keyed by name. Whether a row's query throws is an input: the set of row indices that fail. The table schema is not part of this model; the name is taken to be its unique key.
- Table keys are compared as exact strings, as under a binary collation. Under a case- or accent-insensitive collation MySQL would treat "Protein" and "PROTEIN" as one row that keeps its first spelling. `ImportedKeys`, `LastWriteWins` and `ReimportChangesNothing` are stated for exact-string keys only.
- Console logging, `dotenv`, `process.exit` and the crash handler of the import script are left out, because they change nothing the model states.
- The number coercion in `rank && !isNaN(rank)` is left out because it is JavaScript `Number` parsing. The rank is one of three cases: absent or empty, non-numeric, or an integer. Fractional ranks, `"Infinity"` and whitespace-only ranks (which coerce to 0) are not modelled.
- `toLowerCase` is modelled for ASCII letters only. Unicode case mapping is left out.
- The found names are an input: a function from the requested names to the query's rows or error. The `IN` query and the database collation that decides which rows it returns are not modelled.
- Request items are a string `name` plus a map of other fields. An item whose `name` is not a string, which makes the handler throw and answer 500, is not modelled.
- The Express app, CORS, routing, `app.listen`, `searchFoods` and the `/search-foods` route are HTTP plumbing and calls to an outside API, so they are left out.
- The awaits of the import loop run one after another, so the model is sequential. Concurrent imports into the same table are not modelled.
