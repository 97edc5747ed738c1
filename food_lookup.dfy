/**
 * The `/giveas-items` handler: it checks that the request carries a
 * non-empty `foods` array, asks the store which of the requested names it
 * knows, and splits the request into available items and missing names,
 * comparing names case-insensitively.
 */
module FoodLookup {
  import opened Strings

  /** One requested item: its `name` and its other fields, passed back unchanged. */
  datatype Food = Food(name: string, fields: map<string, string>)

  /**
   * The `foods` member of the request body: `Absent` for a missing or other
   * falsy value, `NotAnArray` for a truthy value that is not an array.
   */
  datatype FoodsValue = Absent | NotAnArray | FoodArray(items: seq<Food>)

  /** What the name query returns: the `name` column of the matching rows, or an error. */
  datatype QueryResult = Rows(names: seq<string>) | QueryError(message: string)

  /** The JSON bodies the handler sends. */
  datatype Body =
    | Failure(error: string)
    | AllAvailable(message: string, available: seq<Food>)
    | SomeMissing(missing: seq<string>, available: seq<Food>)

  /** An HTTP status with its JSON body. */
  datatype Response = Response(status: int, body: Body)

  /** The error text of the 400 response. */
  const RequiredMessage: string := "foods array is required"

  /** The message sent when every requested item was found. */
  const AllAvailableMessage: string := "All foods are available"

  /** `foods.map(f => f.name)`. */
  function FoodNames(items: seq<Food>): seq<string> {
    seq(|items|, i requires 0 <= i < |items| => items[i].name)
  }

  /** `rows.map(row => row.name.toLowerCase())`. */
  function LowerNames(names: seq<string>): seq<string> {
    seq(|names|, i requires 0 <= i < |names| => ToLower(names[i]))
  }

  /** `foundFoods.includes(name.toLowerCase())`. */
  predicate IsFound(found: seq<string>, name: string) {
    ToLower(name) in LowerNames(found)
  }

  /** A name is found exactly when some returned name equals it up to ASCII case. */
  lemma FoundIgnoresCase(found: seq<string>, name: string)
    ensures IsFound(found, name) <==> exists f :: f in found && ToLower(f) == ToLower(name)
  {
    if IsFound(found, name) {
      var i :| 0 <= i < |found| && LowerNames(found)[i] == ToLower(name);
      assert found[i] in found;
    }
    if exists f :: f in found && ToLower(f) == ToLower(name) {
      var f :| f in found && ToLower(f) == ToLower(name);
      var i :| 0 <= i < |found| && found[i] == f;
      assert LowerNames(found)[i] == ToLower(name);
    }
  }

  /** `missingFoods`: the requested names not found, in request order. */
  function MissingNames(names: seq<string>, found: seq<string>): (missing: seq<string>)
    ensures |missing| <= |names|
  {
    if names == [] then []
    else (if IsFound(found, names[0]) then [] else [names[0]]) + MissingNames(names[1..], found)
  }

  /** `availableFoods`: the requested items whose name was found, whole and in request order. */
  function AvailableFoods(items: seq<Food>, found: seq<string>): (available: seq<Food>)
    ensures |available| <= |items|
  {
    if items == [] then []
    else (if IsFound(found, items[0].name) then [items[0]] else []) + AvailableFoods(items[1..], found)
  }

  /** A name is reported missing exactly when it was requested and not found. */
  lemma {:induction false} MissingMembership(names: seq<string>, found: seq<string>, x: string)
    ensures x in MissingNames(names, found) <==> x in names && !IsFound(found, x)
    decreases |names|
  {
    if names != [] {
      MissingMembership(names[1..], found, x);
      assert names == [names[0]] + names[1..];
    }
  }

  /** An item is reported available exactly when it was requested and its name was found. */
  lemma {:induction false} AvailableMembership(items: seq<Food>, found: seq<string>, f: Food)
    ensures f in AvailableFoods(items, found) <==> f in items && IsFound(found, f.name)
    decreases |items|
  {
    if items != [] {
      AvailableMembership(items[1..], found, f);
      assert items == [items[0]] + items[1..];
    }
  }

  /** The available side keeps request order: filtering a concatenation concatenates the filtered parts. */
  lemma {:induction false} AvailableKeepsOrder(a: seq<Food>, b: seq<Food>, found: seq<string>)
    ensures AvailableFoods(a + b, found) == AvailableFoods(a, found) + AvailableFoods(b, found)
    decreases |a|
  {
    if a == [] {
      assert a + b == b;
    } else {
      var head := if IsFound(found, a[0].name) then [a[0]] else [];
      assert (a + b)[0] == a[0] && (a + b)[1..] == a[1..] + b;
      AvailableKeepsOrder(a[1..], b, found);
      assert AvailableFoods(a + b, found) == head + AvailableFoods(a[1..] + b, found);
      assert AvailableFoods(a, found) == head + AvailableFoods(a[1..], found);
    }
  }

  /** The missing side keeps request order in the same way. */
  lemma {:induction false} MissingKeepsOrder(a: seq<string>, b: seq<string>, found: seq<string>)
    ensures MissingNames(a + b, found) == MissingNames(a, found) + MissingNames(b, found)
    decreases |a|
  {
    if a == [] {
      assert a + b == b;
    } else {
      assert (a + b)[1..] == a[1..] + b;
      MissingKeepsOrder(a[1..], b, found);
    }
  }

  /** The requested names of a concatenation are the concatenated names. */
  lemma FoodNamesConcat(a: seq<Food>, b: seq<Food>)
    ensures FoodNames(a + b) == FoodNames(a) + FoodNames(b)
  {
  }

  /** Every requested item lands on exactly one side, so the two sides together are as long as the request. */
  lemma {:induction false} PartitionSizes(items: seq<Food>, found: seq<string>)
    ensures |MissingNames(FoodNames(items), found)| + |AvailableFoods(items, found)| == |items|
    decreases |items|
  {
    if items != [] {
      assert FoodNames(items)[1..] == FoodNames(items[1..]);
      PartitionSizes(items[1..], found);
    }
  }

  /** One item on its own goes to the available side when found and to the missing side otherwise. */
  lemma OneItem(food: Food, found: seq<string>)
    ensures AvailableFoods([food], found) == if IsFound(found, food.name) then [food] else []
    ensures MissingNames(FoodNames([food]), found) == if IsFound(found, food.name) then [] else [food.name]
  {
    assert FoodNames([food]) == [food.name];
  }

  /** The handler, given the request's `foods` and the store's answer to a name query. */
  function GiveasItems(foods: FoodsValue, query: seq<string> -> QueryResult): (r: Response)
    ensures !(foods.FoodArray? && foods.items != []) ==> r == Response(400, Failure(RequiredMessage))
    ensures foods.FoodArray? && foods.items != [] && query(FoodNames(foods.items)).QueryError? ==>
      r == Response(500, Failure(query(FoodNames(foods.items)).message))
    ensures r.status == 200 ==> foods.FoodArray? && foods.items != [] && query(FoodNames(foods.items)).Rows?
    ensures r.body.AllAvailable? ==> r.body.message == AllAvailableMessage
    ensures r.body.SomeMissing? ==> r.body.missing != []
  {
    if !foods.FoodArray? || foods.items == [] then Response(400, Failure(RequiredMessage))
    else
      var names := FoodNames(foods.items);
      match query(names)
      case QueryError(message) => Response(500, Failure(message))
      case Rows(rows) =>
        var missing := MissingNames(names, rows);
        var available := AvailableFoods(foods.items, rows);
        if |missing| == 0 then Response(200, AllAvailable(AllAvailableMessage, available))
        else Response(200, SomeMissing(missing, available))
  }

  /**
   * With a valid request and a successful query, the body reports success
   * exactly when every requested name was found; either way it carries the
   * available items, and otherwise also the missing names.
   */
  lemma {:induction false} ResponseShape(items: seq<Food>, query: seq<string> -> QueryResult)
    requires items != [] && query(FoodNames(items)).Rows?
    ensures var found := query(FoodNames(items)).names;
      var r := GiveasItems(FoodArray(items), query);
      r.status == 200
      && (r.body.AllAvailable? <==> forall f :: f in items ==> IsFound(found, f.name))
      && (r.body.AllAvailable? ==> r.body.available == items)
      && (!r.body.AllAvailable? ==>
            r.body.SomeMissing?
            && r.body.missing == MissingNames(FoodNames(items), found)
            && r.body.available == AvailableFoods(items, found))
  {
    var found := query(FoodNames(items)).names;
    var missing := MissingNames(FoodNames(items), found);
    forall f | f in items
      ensures f.name in FoodNames(items)
    {
      var i :| 0 <= i < |items| && items[i] == f;
      assert FoodNames(items)[i] == f.name;
    }
    if missing == [] {
      forall f | f in items
        ensures IsFound(found, f.name)
      {
        MissingMembership(FoodNames(items), found, f.name);
      }
      AllFoundKeepsAll(items, found);
    } else {
      var x := missing[0];
      MissingMembership(FoodNames(items), found, x);
      var i :| 0 <= i < |items| && FoodNames(items)[i] == x;
      assert items[i] in items && !IsFound(found, items[i].name);
    }
  }

  /** When every item is found, the available side is the whole request. */
  lemma {:induction false} AllFoundKeepsAll(items: seq<Food>, found: seq<string>)
    requires forall f :: f in items ==> IsFound(found, f.name)
    ensures AvailableFoods(items, found) == items
    decreases |items|
  {
    if items != [] {
      AllFoundKeepsAll(items[1..], found);
    }
  }
}
