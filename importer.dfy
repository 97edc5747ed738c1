/**
 * The row loop of importNutrients: every CSV row that has a name and an id
 * is upserted into the `nutrients` table under its trimmed name, a row whose
 * query fails is logged and passed over, and the rows that went in are
 * counted.
 */
module Importer {
  import opened Strings
  import opened Nutrients

  /** A CSV cell: absent from the row, or present with some text. */
  datatype Field = Missing | Text(text: string)

  /** JavaScript truthiness of a cell: present and not empty. */
  predicate Truthy(f: Field) {
    f.Text? && f.text != []
  }

  /** One parsed CSV row, restricted to the columns the importer reads. */
  datatype CsvRow = CsvRow(id: Field, name: Field, unitName: Field, rank: RankHint)

  /** A row of the `nutrients` table apart from its key, the `name` column. */
  datatype Nutrient = Nutrient(unit: string, category: string, usdaNumber: string, isVisible: int, sortOrder: int)

  /** The `is_visible` value every insert carries. */
  const Visible: int := 1

  /** The loop goes on to the next row unless both `name` and `id` are truthy. */
  predicate Usable(row: CsvRow) {
    Truthy(row.name) && Truthy(row.id)
  }

  /** The table key of a usable row: its name with surrounding whitespace removed. */
  function KeyOf(row: CsvRow): string
    requires Usable(row)
  {
    Trim(row.name.text)
  }

  /** The `unit` column: the lowercased `unit_name`, or the empty string when there is none. */
  function UnitOf(row: CsvRow): (unit: string)
    ensures IsLowerCase(unit)
    ensures row.unitName.Missing? ==> unit == ""
    ensures row.unitName.Text? ==> |unit| == |row.unitName.text| && ToLower(unit) == ToLower(row.unitName.text)
  {
    match row.unitName
    case Missing => ""
    case Text(u) => ToLowerFacts(u); ToLower(u)
  }

  /** The values a usable row is inserted with. */
  function ValuesOf(row: CsvRow): (v: Nutrient)
    requires Usable(row)
    ensures v.category in CategoryLabels && v.sortOrder <= MaxSortOrder
    ensures v.usdaNumber == row.id.text && v.isVisible == Visible
  {
    var name := KeyOf(row);
    Nutrient(UnitOf(row), CategoryLabel(name), row.id.text, Visible, GetSortOrder(name, row.rank))
  }

  /**
   * The upsert statement: a new name is inserted with all its values; for a
   * name already present only `unit`, `category` and `sort_order` change.
   */
  function Upserted(table: map<string, Nutrient>, name: string, v: Nutrient): (t: map<string, Nutrient>)
    ensures t.Keys == table.Keys + {name}
    ensures forall k :: k in table && k != name ==> t[k] == table[k]
  {
    if name in table then table[name := table[name].(unit := v.unit, category := v.category, sortOrder := v.sortOrder)]
    else table[name := v]
  }

  /** Upserting the same values twice leaves the table as upserting them once. */
  lemma UpsertIdempotent(table: map<string, Nutrient>, name: string, v: Nutrient)
    ensures Upserted(Upserted(table, name, v), name, v) == Upserted(table, name, v)
  {
  }

  /** Row `j` reaches the table with key `key`: it is usable and its query does not fail. */
  predicate WritesKey(rows: seq<CsvRow>, failing: set<nat>, j: nat, key: string) {
    j < |rows| && Usable(rows[j]) && j !in failing && KeyOf(rows[j]) == key
  }

  /** Row `j` is stored and no later row is stored under the same key. */
  ghost predicate IsLastWrite(rows: seq<CsvRow>, failing: set<nat>, j: nat, key: string) {
    WritesKey(rows, failing, j, key) && forall k: nat :: j < k ==> !WritesKey(rows, failing, k, key)
  }

  /** Row `j` is stored and no earlier row is stored under the same key. */
  ghost predicate IsFirstWrite(rows: seq<CsvRow>, failing: set<nat>, j: nat, key: string) {
    WritesKey(rows, failing, j, key) && forall k: nat :: k < j ==> !WritesKey(rows, failing, k, key)
  }

  /** The indices of the rows that are stored. */
  function StoredRows(rows: seq<CsvRow>, failing: set<nat>): set<nat> {
    set j: nat | j < |rows| && Usable(rows[j]) && j !in failing
  }

  /** The names the loop stores. */
  function StoredNames(rows: seq<CsvRow>, failing: set<nat>): set<string> {
    set j: nat | j < |rows| && Usable(rows[j]) && j !in failing :: KeyOf(rows[j])
  }

  /** The table after the loop has run over `rows`, row `j` failing exactly when `j in failing`. */
  function Imported(table: map<string, Nutrient>, rows: seq<CsvRow>, failing: set<nat>): map<string, Nutrient>
    decreases |rows|
  {
    if rows == [] then table
    else
      var n := |rows| - 1;
      var before := Imported(table, rows[..n], failing);
      if Usable(rows[n]) && n !in failing then Upserted(before, KeyOf(rows[n]), ValuesOf(rows[n])) else before
  }

  /** The value of `success` after the loop has run over `rows`. */
  function SuccessCount(rows: seq<CsvRow>, failing: set<nat>): (count: nat)
    ensures count <= |rows|
    decreases |rows|
  {
    if rows == [] then 0
    else
      var n := |rows| - 1;
      SuccessCount(rows[..n], failing) + if Usable(rows[n]) && n !in failing then 1 else 0
  }

  /**
   * A row without a name or an id, or whose query fails, changes neither the
   * table nor the count; the rows after it are still processed.
   */
  lemma IgnoredRow(table: map<string, Nutrient>, rows: seq<CsvRow>, row: CsvRow, failing: set<nat>)
    requires !Usable(row) || |rows| in failing
    ensures Imported(table, rows + [row], failing) == Imported(table, rows, failing)
    ensures SuccessCount(rows + [row], failing) == SuccessCount(rows, failing)
  {
    assert (rows + [row])[..|rows|] == rows;
  }

  /** A stored row adds its name to the table and one to the count. */
  lemma StoredRow(table: map<string, Nutrient>, rows: seq<CsvRow>, row: CsvRow, failing: set<nat>)
    requires Usable(row) && |rows| !in failing
    ensures Imported(table, rows + [row], failing) == Upserted(Imported(table, rows, failing), KeyOf(row), ValuesOf(row))
    ensures SuccessCount(rows + [row], failing) == SuccessCount(rows, failing) + 1
  {
    assert (rows + [row])[..|rows|] == rows;
  }

  /** The stored rows of a prefix are those of the whole below its length. */
  lemma StoredRowsStep(rows: seq<CsvRow>, failing: set<nat>)
    requires rows != []
    ensures var n := |rows| - 1;
      StoredRows(rows, failing) ==
        StoredRows(rows[..n], failing) + if Usable(rows[n]) && n !in failing then {n} else {}
  {
    var n := |rows| - 1;
    var extra: set<nat> := if Usable(rows[n]) && n !in failing then {n} else {};
    forall j: nat
      ensures j in StoredRows(rows, failing) <==> j in StoredRows(rows[..n], failing) + extra
    {
      if j < n {
        assert rows[..n][j] == rows[j];
      }
    }
  }

  /** `success` counts exactly the usable rows whose query did not fail; skipped rows never count. */
  lemma {:induction false} SuccessCountIsStoredRows(rows: seq<CsvRow>, failing: set<nat>)
    ensures SuccessCount(rows, failing) == |StoredRows(rows, failing)|
    decreases |rows|
  {
    if rows != [] {
      var n := |rows| - 1;
      SuccessCountIsStoredRows(rows[..n], failing);
      StoredRowsStep(rows, failing);
      assert n !in StoredRows(rows[..n], failing);
    }
  }

  /** The names stored by a prefix, and by its last row. */
  lemma StoredNamesStep(rows: seq<CsvRow>, failing: set<nat>)
    requires rows != []
    ensures var n := |rows| - 1;
      StoredNames(rows, failing) ==
        StoredNames(rows[..n], failing) + if Usable(rows[n]) && n !in failing then {KeyOf(rows[n])} else {}
  {
    var n := |rows| - 1;
    var extra: set<string> := if Usable(rows[n]) && n !in failing then {KeyOf(rows[n])} else {};
    forall key
      ensures key in StoredNames(rows, failing) <==> key in StoredNames(rows[..n], failing) + extra
    {
      if key in StoredNames(rows, failing) {
        var j: nat :| j < |rows| && Usable(rows[j]) && j !in failing && KeyOf(rows[j]) == key;
        if j < n {
          assert rows[..n][j] == rows[j];
        }
      }
      if key in StoredNames(rows[..n], failing) {
        var j: nat :| j < n && Usable(rows[..n][j]) && j !in failing && KeyOf(rows[..n][j]) == key;
        assert rows[..n][j] == rows[j];
      }
    }
  }

  /** After the loop the table holds the names it held before and one entry per stored trimmed name. */
  lemma {:induction false} ImportedKeys(table: map<string, Nutrient>, rows: seq<CsvRow>, failing: set<nat>)
    ensures Imported(table, rows, failing).Keys == table.Keys + StoredNames(rows, failing)
    decreases |rows|
  {
    if rows != [] {
      ImportedKeys(table, rows[..|rows| - 1], failing);
      StoredNamesStep(rows, failing);
    }
  }

  /** An entry whose name no stored row carries keeps its old value, or stays absent. */
  lemma {:induction false} UntouchedEntries(table: map<string, Nutrient>, rows: seq<CsvRow>, failing: set<nat>, key: string)
    requires key !in StoredNames(rows, failing)
    ensures key in Imported(table, rows, failing) <==> key in table
    ensures key in table ==> Imported(table, rows, failing)[key] == table[key]
    decreases |rows|
  {
    if rows != [] {
      StoredNamesStep(rows, failing);
      UntouchedEntries(table, rows[..|rows| - 1], failing, key);
    }
  }

  /**
   * A name's `unit`, `category` and `sort_order` are those of the last row
   * stored under it: a later row with the same name overwrites them.
   */
  lemma {:induction false} LastWriteWins(table: map<string, Nutrient>, rows: seq<CsvRow>, failing: set<nat>, j: nat, key: string)
    requires IsLastWrite(rows, failing, j, key)
    ensures key in Imported(table, rows, failing)
    ensures var e := Imported(table, rows, failing)[key];
      e.unit == UnitOf(rows[j]) && e.category == CategoryLabel(key) && e.sortOrder == GetSortOrder(key, rows[j].rank)
    decreases |rows|
  {
    var n := |rows| - 1;
    var prefix := rows[..n];
    if j < n {
      assert !WritesKey(rows, failing, n, key);
      assert IsLastWrite(prefix, failing, j, key) by {
        assert prefix[j] == rows[j];
        forall k: nat | j < k
          ensures !WritesKey(prefix, failing, k, key)
        {
          assert !WritesKey(rows, failing, k, key);
          if k < n {
            assert prefix[k] == rows[k];
          }
        }
      }
      LastWriteWins(table, prefix, failing, j, key);
    }
  }

  /**
   * `usda_nutrient_number` and `is_visible` are never updated: an entry that
   * was in the table keeps them.
   */
  lemma {:induction false} PresentEntriesKeepInsertFields(table: map<string, Nutrient>, rows: seq<CsvRow>, failing: set<nat>, key: string)
    requires key in table
    ensures key in Imported(table, rows, failing)
    ensures Imported(table, rows, failing)[key].usdaNumber == table[key].usdaNumber
    ensures Imported(table, rows, failing)[key].isVisible == table[key].isVisible
    decreases |rows|
  {
    if rows != [] {
      PresentEntriesKeepInsertFields(table, rows[..|rows| - 1], failing, key);
    }
  }

  /** A name first stored by row `j` is not among the names the rows before `j` store. */
  lemma NotStoredBefore(rows: seq<CsvRow>, failing: set<nat>, j: nat, key: string)
    requires IsFirstWrite(rows, failing, j, key)
    ensures key !in StoredNames(rows[..j], failing)
  {
    if key in StoredNames(rows[..j], failing) {
      var k: nat :| k < j && Usable(rows[..j][k]) && k !in failing && KeyOf(rows[..j][k]) == key;
      assert rows[..j][k] == rows[k];
      assert WritesKey(rows, failing, k, key);
    }
  }

  /**
   * A name that was not in the table keeps the `usda_nutrient_number` of the
   * first row stored under it, and `is_visible` 1.
   */
  lemma {:induction false} FirstInsertKept(table: map<string, Nutrient>, rows: seq<CsvRow>, failing: set<nat>, j: nat, key: string)
    requires key !in table && IsFirstWrite(rows, failing, j, key)
    ensures key in Imported(table, rows, failing)
    ensures Imported(table, rows, failing)[key].usdaNumber == rows[j].id.text
    ensures Imported(table, rows, failing)[key].isVisible == Visible
    decreases |rows|
  {
    var n := |rows| - 1;
    var prefix := rows[..n];
    if j < n {
      assert IsFirstWrite(prefix, failing, j, key) by {
        assert prefix[j] == rows[j];
        forall k: nat | k < j
          ensures !WritesKey(prefix, failing, k, key)
        {
          assert !WritesKey(rows, failing, k, key);
          assert prefix[k] == rows[k];
        }
      }
      FirstInsertKept(table, prefix, failing, j, key);
    } else {
      NotStoredBefore(rows, failing, j, key);
      UntouchedEntries(table, prefix, failing, key);
    }
  }

  /** Every stored name has a last row stored under it. */
  lemma {:induction false} LastWriteExists(rows: seq<CsvRow>, failing: set<nat>, key: string)
    requires key in StoredNames(rows, failing)
    ensures exists j: nat :: IsLastWrite(rows, failing, j, key)
    decreases |rows|
  {
    var n := |rows| - 1;
    var prefix := rows[..n];
    if WritesKey(rows, failing, n, key) {
      assert IsLastWrite(rows, failing, n, key);
    } else {
      StoredNamesStep(rows, failing);
      LastWriteExists(prefix, failing, key);
      var j: nat :| IsLastWrite(prefix, failing, j, key);
      assert prefix[j] == rows[j];
      forall k: nat | j < k
        ensures !WritesKey(rows, failing, k, key)
      {
        if k < n {
          assert prefix[k] == rows[k];
          assert !WritesKey(prefix, failing, k, key);
        }
      }
      assert IsLastWrite(rows, failing, j, key);
    }
  }

  /** Running the import a second time over the same rows, with the same failures, changes nothing. */
  lemma ReimportChangesNothing(table: map<string, Nutrient>, rows: seq<CsvRow>, failing: set<nat>)
    ensures Imported(Imported(table, rows, failing), rows, failing) == Imported(table, rows, failing)
  {
    var once := Imported(table, rows, failing);
    var twice := Imported(once, rows, failing);
    ImportedKeys(table, rows, failing);
    ImportedKeys(once, rows, failing);
    forall key | key in twice
      ensures twice[key] == once[key]
    {
      if key in StoredNames(rows, failing) {
        LastWriteExists(rows, failing, key);
        var j: nat :| IsLastWrite(rows, failing, j, key);
        LastWriteWins(table, rows, failing, j, key);
        LastWriteWins(once, rows, failing, j, key);
        PresentEntriesKeepInsertFields(once, rows, failing, key);
      } else {
        UntouchedEntries(once, rows, failing, key);
      }
    }
  }

  /** The `nutrients` table, keyed by name. */
  class NutrientTable {
    var entries: map<string, Nutrient>

    /** A table holding `initial`. */
    constructor (initial: map<string, Nutrient>)
      ensures entries == initial
    {
      entries := initial;
    }

    /**
     * The upsert query for one row. `fails` says whether the query throws;
     * then the table is as it was and the caller sees `ok == false`.
     */
    method Upsert(name: string, values: Nutrient, fails: bool) returns (ok: bool)
      modifies this
      ensures ok == !fails
      ensures entries == if fails then old(entries) else Upserted(old(entries), name, values)
    {
      if fails {
        return false;
      }
      if name in entries {
        var present := entries[name];
        entries := entries[name := present.(unit := values.unit, category := values.category, sortOrder := values.sortOrder)];
      } else {
        entries := entries[name := values];
      }
      ok := true;
    }

    /**
     * importNutrients over the parsed rows: row `i`'s query fails exactly when
     * `i in failing`. Returns the final value of `success`.
     */
    method ImportNutrients(rows: seq<CsvRow>, failing: set<nat>) returns (success: nat)
      modifies this
      ensures entries == Imported(old(entries), rows, failing)
      ensures success == SuccessCount(rows, failing)
    {
      success := 0;
      var i := 0;
      while i < |rows|
        invariant 0 <= i <= |rows|
        invariant entries == Imported(old(entries), rows[..i], failing)
        invariant success == SuccessCount(rows[..i], failing)
      {
        assert rows[..i + 1][..i] == rows[..i];
        var row := rows[i];
        if !Truthy(row.name) || !Truthy(row.id) {
          i := i + 1;
          continue;
        }
        var name := Trim(row.name.text);
        var unit := match row.unitName case Missing => "" case Text(u) => ToLower(u);
        var category := CategoryLabel(name);
        var ok := Upsert(name, Nutrient(unit, category, row.id.text, Visible, GetSortOrder(name, row.rank)), i in failing);
        if ok {
          success := success + 1;
        }
        i := i + 1;
      }
      assert rows[..|rows|] == rows;
    }
  }
}
