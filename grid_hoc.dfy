/** The grid controller (`GridHOC`): it owns a local row store, sorts the
    store's array in place when a sortable column header is clicked, and keeps
    the rows it displays in its `data` state. */
module GridHOC {
  import opened Js
  import opened ColumnModel
  import SortEngine

  // ---------------------------------------------------------------------------
  // Comparators that subtract keys: the `number` and `date` formats

  /** `isAscending ? key(x) - key(y) : key(y) - key(x)` */
  function Difference(x: Row, y: Row, key: Row -> Number, isAscending: bool): Number
  {
    if isAscending then Minus(key(x), key(y)) else Minus(key(y), key(x))
  }

  /** Where a subtracting comparator puts `x` strictly before `y`. */
  function SubtractionBefore(key: Row -> Number, isAscending: bool): (Row, Row) -> bool
  {
    (x, y) => Negative(Difference(x, y, key, isAscending))
  }

  /** Every row has a key that is a number, not `NaN`. */
  predicate AllFinite(s: seq<Row>, key: Row -> Number)
  {
    forall r :: r in s ==> key(r).Int?
  }

  /** Keys are non-decreasing (ascending) or non-increasing (descending). */
  predicate KeysOrdered(s: seq<Row>, key: Row -> Number, isAscending: bool)
  {
    forall i, j :: 0 <= i < j < |s| ==>
      key(s[i]).Int? && key(s[j]).Int? &&
      (if isAscending then key(s[i]).i <= key(s[j]).i else key(s[i]).i >= key(s[j]).i)
  }

  /** Subtracting keys puts rows in a strict weak order as long as no key is
      `NaN`. */
  lemma SubtractionStrictWeakOrder(s: seq<Row>, key: Row -> Number, isAscending: bool)
    requires AllFinite(s, key)
    ensures SortEngine.StrictWeakOrder(SubtractionBefore(key, isAscending), multiset(s))
  {
    var before := SubtractionBefore(key, isAscending);
    forall x, y | x in multiset(s) && y in multiset(s)
      ensures before(x, y) ==> !before(y, x)
    {
      assert x in s && y in s;
    }
    forall x, y, z | x in multiset(s) && y in multiset(s) && z in multiset(s)
      ensures !before(x, y) && !before(y, z) ==> !before(x, z)
    {
      assert x in s && y in s && z in s;
    }
  }

  /** With no `NaN` key, the subtracting comparator is consistent in
      ECMAScript's sense: a row compares equal to itself, swapping the
      operands flips the sign, and both "less" and "equal" are transitive. */
  lemma SubtractionConsistentComparator(s: seq<Row>, key: Row -> Number, isAscending: bool)
    requires AllFinite(s, key)
    ensures forall x | x in s :: Difference(x, x, key, isAscending) == Int(0)
    ensures forall x, y | x in s && y in s ::
      Difference(x, y, key, isAscending).Int? && Difference(y, x, key, isAscending).Int? &&
      Difference(x, y, key, isAscending).i == 0 - Difference(y, x, key, isAscending).i
    ensures forall x, y, z | x in s && y in s && z in s ::
      Difference(x, y, key, isAscending).i < 0 && Difference(y, z, key, isAscending).i < 0 ==>
      Difference(x, z, key, isAscending).i < 0
    ensures forall x, y, z | x in s && y in s && z in s ::
      Difference(x, y, key, isAscending).i == 0 && Difference(y, z, key, isAscending).i == 0 ==>
      Difference(x, z, key, isAscending).i == 0
  {
  }

  /** With finite keys, being sorted by the subtracting comparator is exactly
      having the keys in order. */
  lemma SubtractionSortedIff(s: seq<Row>, key: Row -> Number, isAscending: bool)
    requires AllFinite(s, key)
    ensures SortEngine.SortedBy(s, SubtractionBefore(key, isAscending)) <==> KeysOrdered(s, key, isAscending)
  {
    var before := SubtractionBefore(key, isAscending);
    if SortEngine.SortedBy(s, before) {
      forall i, j | 0 <= i < j < |s|
        ensures key(s[i]).Int? && key(s[j]).Int?
        ensures if isAscending then key(s[i]).i <= key(s[j]).i else key(s[i]).i >= key(s[j]).i
      {
        assert s[i] in s && s[j] in s;
        assert !before(s[j], s[i]);
      }
    }
    if KeysOrdered(s, key, isAscending) {
      OrderedIsSorted(s, key, isAscending);
    }
  }

  /** Rows whose keys are in order are sorted for the subtracting comparator. */
  lemma OrderedIsSorted(s: seq<Row>, key: Row -> Number, isAscending: bool)
    requires KeysOrdered(s, key, isAscending)
    ensures SortEngine.SortedBy(s, SubtractionBefore(key, isAscending))
  {
  }

  /** The `number` format's key (`parseFloat` of `row[property] || 0`, through
      `getValue` when the column has one). */
  function NumberKey(row: Row, property: string, getValue: Option<Extractor>): (k: Number)
    ensures getValue.None? && Falsy(Get(row, property)) ==> k == Int(0)
    ensures getValue.None? && Get(row, property).Num? ==> k == Int(Get(row, property).n)
  {
    var v := Or(Get(row, property), Num(0));
    if getValue.Some? then ParseFloat(getValue.value.apply(v))
    else ParseFloatOfNumber(if v.Num? then v.n else 0); ParseFloat(v)
  }

  function NumberKeyOf(property: string, getValue: Option<Extractor>): Row -> Number
  {
    r => NumberKey(r, property, getValue)
  }

  /** The `date` format's key: the time value of `new Date(row[property])`, as
      given by the caller's `dateOf` (JavaScript date parsing is not modelled). */
  function DateKeyOf(property: string, dateOf: Value -> Number): Row -> Number
  {
    r => dateOf(Get(r, property))
  }

  /** Without `getValue`, a number column whose values are numbers or falsy
      always has finite keys, so the `number` sort orders it. */
  lemma NumberColumnFinite(s: seq<Row>, property: string)
    requires forall r :: r in s ==> Get(r, property).Num? || Falsy(Get(r, property))
    ensures AllFinite(s, NumberKeyOf(property, None))
  {
    forall r | r in s
      ensures NumberKeyOf(property, None)(r).Int?
    {
      assert NumberKeyOf(property, None)(r) == NumberKey(r, property, None);
    }
  }

  // ---------------------------------------------------------------------------
  // The `string` format

  /** `(getValue ? getValue(row[property]) : row[property]).toLowerCase()`;
      `None` when the value is not a string and the call throws. */
  function StringKey(row: Row, property: string, getValue: Option<Extractor>): (k: Option<string>)
    ensures var w := if getValue.Some? then getValue.value.apply(Get(row, property)) else Get(row, property);
      && (k.Some? <==> w.Text?)
      && (k.Some? ==> k.value == ToLowerCase(w.s))
  {
    var v := Get(row, property);
    var w := if getValue.Some? then getValue.value.apply(v) else v;
    if w.Text? then Some(ToLowerCase(w.s)) else None
  }

  /** The string comparator exactly as written: with `first` the key of `b` and
      `second` the key of `a`, ascending gives `first > second ? -1 : 1` and
      descending gives `second > first ? -1 : 1`. */
  function StringCompare(a: Row, b: Row, property: string, isAscending: bool, getValue: Option<Extractor>): (r: int)
    requires StringKey(a, property, getValue).Some? && StringKey(b, property, getValue).Some?
  {
    var first := StringKey(b, property, getValue).value;
    var second := StringKey(a, property, getValue).value;
    var ascending := if StrLess(second, first) then -1 else 1;
    var descending := if StrLess(first, second) then -1 else 1;
    if isAscending then ascending else descending
  }

  function StringBefore(property: string, isAscending: bool, getValue: Option<Extractor>): (Row, Row) -> bool
  {
    (x, y) =>
      StringKey(x, property, getValue).Some? && StringKey(y, property, getValue).Some? &&
      StringCompare(x, y, property, isAscending, getValue) < 0
  }

  /** The asymmetric-looking comparator is the plain order on lower-cased keys
      in either direction; equal keys give `1` both ways, so neither row is
      put before the other. */
  lemma StringBeforeMeans(x: Row, y: Row, property: string, isAscending: bool, getValue: Option<Extractor>)
    requires StringKey(x, property, getValue).Some? && StringKey(y, property, getValue).Some?
    ensures var kx, ky := StringKey(x, property, getValue).value, StringKey(y, property, getValue).value;
      StringBefore(property, isAscending, getValue)(x, y) <==> (if isAscending then StrLess(kx, ky) else StrLess(ky, kx))
    ensures StringKey(x, property, getValue) == StringKey(y, property, getValue) ==>
      StringCompare(x, y, property, isAscending, getValue) == 1 && StringCompare(y, x, property, isAscending, getValue) == 1
  {
    StrLessIrreflexive(StringKey(x, property, getValue).value);
  }

  /** Every row's value is a string, so no comparison throws. */
  predicate AllText(s: seq<Row>, property: string, getValue: Option<Extractor>)
  {
    forall r :: r in s ==> StringKey(r, property, getValue).Some?
  }

  /** Lower-cased keys are non-decreasing (ascending) or non-increasing (descending). */
  predicate StringsOrdered(s: seq<Row>, property: string, isAscending: bool, getValue: Option<Extractor>)
  {
    forall i, j :: 0 <= i < j < |s| ==> InStringOrder(s[i], s[j], property, isAscending, getValue)
  }

  /** `x` may come before `y`: both values are strings, and `x`'s lower-cased
      key is not above (ascending) or not below (descending) `y`'s. */
  predicate InStringOrder(x: Row, y: Row, property: string, isAscending: bool, getValue: Option<Extractor>)
  {
    StringKey(x, property, getValue).Some? && StringKey(y, property, getValue).Some? &&
    var kx, ky := StringKey(x, property, getValue).value, StringKey(y, property, getValue).value;
    if isAscending then !StrLess(ky, kx) else !StrLess(kx, ky)
  }

  /** The string comparator's negative results put rows in a strict weak
      order when every value is a string. The comparator is still not
      consistent in ECMAScript's sense: equal keys give `1` both ways (see
      `StringBeforeMeans`). */
  lemma StringStrictWeakOrder(s: seq<Row>, property: string, isAscending: bool, getValue: Option<Extractor>)
    requires AllText(s, property, getValue)
    ensures SortEngine.StrictWeakOrder(StringBefore(property, isAscending, getValue), multiset(s))
  {
    var before := StringBefore(property, isAscending, getValue);
    forall x, y | x in multiset(s) && y in multiset(s)
      ensures before(x, y) ==> !before(y, x)
    {
      assert x in s && y in s;
      StringBeforeMeans(x, y, property, isAscending, getValue);
      StringBeforeMeans(y, x, property, isAscending, getValue);
      var kx, ky := StringKey(x, property, getValue).value, StringKey(y, property, getValue).value;
      if StrLess(kx, ky) {
        StrLessAsymmetric(kx, ky);
      }
    }
    forall x, y, z | x in multiset(s) && y in multiset(s) && z in multiset(s)
      ensures !before(x, y) && !before(y, z) ==> !before(x, z)
    {
      assert x in s && y in s && z in s;
      StringBeforeMeans(x, y, property, isAscending, getValue);
      StringBeforeMeans(y, z, property, isAscending, getValue);
      StringBeforeMeans(x, z, property, isAscending, getValue);
      var kx, ky, kz := StringKey(x, property, getValue).value, StringKey(y, property, getValue).value, StringKey(z, property, getValue).value;
      if !before(x, y) && !before(y, z) {
        if isAscending {
          StrNotLessTransitive(kx, ky, kz);
        } else {
          StrNotLessTransitive(kz, ky, kx);
        }
      }
    }
  }

  /** When every value is a string, being sorted by the string comparator is
      exactly having the lower-cased keys in order. */
  lemma StringSortedIff(s: seq<Row>, property: string, isAscending: bool, getValue: Option<Extractor>)
    requires AllText(s, property, getValue)
    ensures SortEngine.SortedBy(s, StringBefore(property, isAscending, getValue)) <==> StringsOrdered(s, property, isAscending, getValue)
  {
    var before := StringBefore(property, isAscending, getValue);
    forall i, j | 0 <= i < j < |s|
      ensures !before(s[j], s[i]) <==>
        var ki, kj := StringKey(s[i], property, getValue).value, StringKey(s[j], property, getValue).value;
        if isAscending then !StrLess(kj, ki) else !StrLess(ki, kj)
    {
      assert s[i] in s && s[j] in s;
      StringBeforeMeans(s[j], s[i], property, isAscending, getValue);
    }
    if SortEngine.SortedBy(s, before) {
      forall i, j | 0 <= i < j < |s|
        ensures StringKey(s[i], property, getValue).Some? && StringKey(s[j], property, getValue).Some?
      {
        assert s[i] in s && s[j] in s;
      }
    }
  }

  /** Rows whose lower-cased keys are in order are sorted for the string comparator. */
  lemma StringsOrderedIsSorted(s: seq<Row>, property: string, isAscending: bool, getValue: Option<Extractor>)
    requires StringsOrdered(s, property, isAscending, getValue)
    ensures SortEngine.SortedBy(s, StringBefore(property, isAscending, getValue))
  {
    var before := StringBefore(property, isAscending, getValue);
    forall i, j | 0 <= i < j < |s|
      ensures !before(s[j], s[i])
    {
      StringBeforeMeans(s[j], s[i], property, isAscending, getValue);
    }
  }

  /** No two rows have the same lower-cased key. */
  predicate DistinctKeys(s: seq<Row>, property: string, getValue: Option<Extractor>)
  {
    forall i, j :: 0 <= i < j < |s| ==> StringKey(s[i], property, getValue) != StringKey(s[j], property, getValue)
  }

  /** Two or more rows in key order all have string values. */
  lemma OrderedHasText(s: seq<Row>, property: string, isAscending: bool, getValue: Option<Extractor>)
    requires |s| >= 2 && StringsOrdered(s, property, isAscending, getValue)
    ensures AllText(s, property, getValue)
  {
    forall r | r in s
      ensures StringKey(r, property, getValue).Some?
    {
      var i :| 0 <= i < |s| && s[i] == r;
      var j := if i == 0 then 1 else 0;
      assert StringKey(s[j], property, getValue).Some? && StringKey(s[i], property, getValue).Some? by {
        if i == 0 {
          assert 0 < 1 < |s|;
        } else {
          assert 0 < i < |s|;
        }
      }
    }
  }

  /** Two ordered arrangements of the same rows with distinct keys start
      with the same row: each one's first row has the least key (the greatest
      when descending). */
  lemma SameFirst(s: seq<Row>, t: seq<Row>, property: string, isAscending: bool, getValue: Option<Extractor>)
    requires s != [] && multiset(s) == multiset(t)
    requires StringsOrdered(s, property, isAscending, getValue) && StringsOrdered(t, property, isAscending, getValue)
    requires DistinctKeys(s, property, getValue)
    ensures t != [] && s[0] == t[0]
  {
    assert s[0] in multiset(t);
    if s[0] != t[0] {
      assert t[0] in multiset(s);
      var k :| 0 <= k < |s| && s[k] == t[0];
      var m :| 0 <= m < |t| && t[m] == s[0];
      assert 0 < k && 0 < m;
      var a, b := StringKey(s[0], property, getValue).value, StringKey(s[k], property, getValue).value;
      StrLessTotal(a, b);
      assert false;
    }
  }

  lemma OrderedTail(s: seq<Row>, property: string, isAscending: bool, getValue: Option<Extractor>)
    requires s != [] && StringsOrdered(s, property, isAscending, getValue)
    ensures StringsOrdered(s[1..], property, isAscending, getValue)
  {
    var u := s[1..];
    forall i, j | 0 <= i < j < |u|
      ensures InStringOrder(u[i], u[j], property, isAscending, getValue)
    {
      assert u[i] == s[i + 1] && u[j] == s[j + 1];
    }
  }

  lemma DistinctTail(s: seq<Row>, property: string, getValue: Option<Extractor>)
    requires s != [] && DistinctKeys(s, property, getValue)
    ensures DistinctKeys(s[1..], property, getValue)
  {
    var u := s[1..];
    forall i, j | 0 <= i < j < |u|
      ensures StringKey(u[i], property, getValue) != StringKey(u[j], property, getValue)
    {
      assert u[i] == s[i + 1] && u[j] == s[j + 1];
    }
  }

  /** Two arrangements of the same rows that start with the same row continue
      with the same rows. */
  lemma SameTail(s: seq<Row>, t: seq<Row>)
    requires s != [] && t != [] && s[0] == t[0] && multiset(s) == multiset(t)
    ensures multiset(s[1..]) == multiset(t[1..])
  {
    assert s == [s[0]] + s[1..] && t == [t[0]] + t[1..];
    assert multiset(s) == multiset{s[0]} + multiset(s[1..]);
    assert multiset(t) == multiset{t[0]} + multiset(t[1..]);
    assert multiset(s[1..]) == multiset(s) - multiset{s[0]};
    assert multiset(t[1..]) == multiset(t) - multiset{t[0]};
  }

  /** When no two rows share a key, key order leaves no freedom: two
      arrangements of the same rows that are both in key order are the same
      arrangement, whichever way the engine treats equal keys. */
  lemma {:induction false} StringOrderUnique(s: seq<Row>, t: seq<Row>, property: string, isAscending: bool,
                                              getValue: Option<Extractor>)
    requires multiset(s) == multiset(t)
    requires StringsOrdered(s, property, isAscending, getValue) && StringsOrdered(t, property, isAscending, getValue)
    requires DistinctKeys(s, property, getValue)
    ensures s == t
    decreases |s|
  {
    if s == [] {
      assert |t| == |multiset(t)| == 0;
    } else {
      SameFirst(s, t, property, isAscending, getValue);
      SameTail(s, t);
      OrderedTail(s, property, isAscending, getValue);
      OrderedTail(t, property, isAscending, getValue);
      DistinctTail(s, property, getValue);
      StringOrderUnique(s[1..], t[1..], property, isAscending, getValue);
      assert s == [s[0]] + s[1..] && t == [t[0]] + t[1..];
    }
  }

  /** Whether sorting by the `string` format throws: with two or more rows
      every row is compared, and any row whose value is not a string throws. */
  predicate StringSortThrows(s: seq<Row>, property: string, getValue: Option<Extractor>)
  {
    |s| >= 2 && !AllText(s, property, getValue)
  }

  // ---------------------------------------------------------------------------
  // What one `updateGridColumnState` call does to the store's rows

  /** `rows` sorted into `sorted` with the given column, direction and format:
      a permutation; in key order for each recognised format whenever no key is
      `NaN` or every value is a string; unchanged for any other format, for a
      number or date column already in order, and for a string column already
      in order with distinct keys; and a `TypeError` (nothing changed) when a
      string sort throws. */
  ghost predicate SortResult(rows: seq<Row>, sorted: seq<Row>, outcome: Outcome, property: string,
                             isAscending: bool, format: string, getValue: Option<Extractor>, dateOf: Value -> Number)
  {
    && outcome == (if format == "string" && StringSortThrows(rows, property, getValue) then Fail(TypeError) else Pass)
    && multiset(sorted) == multiset(rows)
    && (outcome.Fail? ==> sorted == rows)
    && (format == "number" && AllFinite(rows, NumberKeyOf(property, getValue)) ==>
          KeysOrdered(sorted, NumberKeyOf(property, getValue), isAscending))
    && (format == "string" && outcome.Pass? ==> StringsOrdered(sorted, property, isAscending, getValue))
    && (format == "date" && AllFinite(rows, DateKeyOf(property, dateOf)) ==>
          KeysOrdered(sorted, DateKeyOf(property, dateOf), isAscending))
    && (format != "number" && format != "string" && format != "date" ==> sorted == rows)
    && (format == "number" && KeysOrdered(rows, NumberKeyOf(property, getValue), isAscending) ==> sorted == rows)
    && ((format == "string" && StringsOrdered(rows, property, isAscending, getValue)
         && DistinctKeys(rows, property, getValue)) ==> sorted == rows)
    && (format == "date" && KeysOrdered(rows, DateKeyOf(property, dateOf), isAscending) ==> sorted == rows)
  }

  lemma FiniteTransfers(s: seq<Row>, t: seq<Row>, key: Row -> Number)
    requires multiset(s) == multiset(t) && AllFinite(s, key)
    ensures AllFinite(t, key)
  {
    forall r | r in t ensures key(r).Int? {
      assert r in multiset(t);
    }
  }

  lemma TextTransfers(s: seq<Row>, t: seq<Row>, property: string, getValue: Option<Extractor>)
    requires multiset(s) == multiset(t) && AllText(s, property, getValue)
    ensures AllText(t, property, getValue)
  {
    forall r | r in t ensures StringKey(r, property, getValue).Some? {
      assert r in multiset(t);
    }
  }

  /** Sorts `a` with a subtracting comparator and establishes what `SortResult`
      promises for it. */
  method SortBySubtraction(a: array<Row>, key: Row -> Number, isAscending: bool)
    modifies a
    ensures multiset(a[..]) == multiset(old(a[..]))
    ensures AllFinite(old(a[..]), key) ==> KeysOrdered(a[..], key, isAscending)
    ensures KeysOrdered(old(a[..]), key, isAscending) ==> a[..] == old(a[..])
  {
    ghost var rows := a[..];
    if AllFinite(rows, key) {
      SubtractionStrictWeakOrder(rows, key, isAscending);
      SubtractionSortedIff(rows, key, isAscending);
    }
    if KeysOrdered(rows, key, isAscending) {
      OrderedIsSorted(rows, key, isAscending);
    }
    SortEngine.Sort(a, SubtractionBefore(key, isAscending));
    if AllFinite(rows, key) {
      FiniteTransfers(rows, a[..], key);
      SubtractionSortedIff(a[..], key, isAscending);
    }
  }

  /** Sorts `a` with the string comparator and establishes what `SortResult`
      promises for it when no comparison throws. */
  method SortByString(a: array<Row>, property: string, isAscending: bool, getValue: Option<Extractor>)
    modifies a
    ensures multiset(a[..]) == multiset(old(a[..]))
    ensures AllText(old(a[..]), property, getValue) ==> StringsOrdered(a[..], property, isAscending, getValue)
    ensures (StringsOrdered(old(a[..]), property, isAscending, getValue)
             && DistinctKeys(old(a[..]), property, getValue)) ==> a[..] == old(a[..])
  {
    ghost var rows := a[..];
    var order := StringBefore(property, isAscending, getValue);
    if AllText(rows, property, getValue) {
      StringStrictWeakOrder(rows, property, isAscending, getValue);
    }
    SortEngine.Sort(a, order);
    if AllText(rows, property, getValue) {
      TextTransfers(rows, a[..], property, getValue);
      StringSortedIff(a[..], property, isAscending, getValue);
    }
    if StringsOrdered(rows, property, isAscending, getValue) && DistinctKeys(rows, property, getValue) {
      if |rows| >= 2 {
        OrderedHasText(rows, property, isAscending, getValue);
      }
      StringOrderUnique(rows, a[..], property, isAscending, getValue);
    }
  }

  /** The three `if (format === ...)` blocks of `updateGridColumnState`: at
      most one of them sorts the rows. */
  method SortRows(rows: array<Row>, property: string, isAscending: bool, format: string,
                  getValue: Option<Extractor>, dateOf: Value -> Number) returns (outcome: Outcome)
    modifies rows
    ensures SortResult(old(rows[..]), rows[..], outcome, property, isAscending, format, getValue, dateOf)
  {
    if format == "number" {
      SortBySubtraction(rows, NumberKeyOf(property, getValue), isAscending);
    } else if format == "string" {
      if StringSortThrows(rows[..], property, getValue) {
        return Fail(TypeError);
      }
      ghost var input := rows[..];
      SortByString(rows, property, isAscending, getValue);
      assert |rows[..]| == |multiset(rows[..])| == |input|;
    } else if format == "date" {
      SortBySubtraction(rows, DateKeyOf(property, dateOf), isAscending);
    }
    outcome := Pass;
  }

  // ---------------------------------------------------------------------------
  // The store and the controller

  /** The local store: it keeps its own copy of the rows in an array that
      `getData()` hands out live. */
  class LocalStore {
    var rows: array<Row>

    constructor (data: seq<Row>)
      ensures fresh(rows) && rows[..] == data
    {
      rows := new Row[|data|](i requires 0 <= i < |data| => data[i]);
    }

    /** `clear()`: release every retained row. */
    method Clear()
      modifies this
      ensures fresh(rows) && rows.Length == 0
    {
      rows := new Row[0];
    }
  }

  class Grid {
    var propData: array<Row>       // props.data; its identity is what the update hook compares
    var propColumns: seq<Column>   // props.columnModel
    var colModel: seq<Column>      // this.colModel, whose items carry the live `sortable` flags
    var store: LocalStore          // state.store
    var data: seq<Row>             // state.data: the rows handed to the presentational grid
    var activeColumn: Option<string>  // state.activeColumn

    /** The component's constructor: a store built from the data prop, the
        prop's rows displayed, no active column. */
    constructor (rows: array<Row>, columns: seq<Column>)
      ensures propData == rows && propColumns == columns && colModel == columns
      ensures fresh(store) && fresh(store.rows) && store.rows[..] == rows[..]
      ensures data == rows[..] && activeColumn == None
    {
      propData := rows;
      propColumns := columns;
      colModel := columns;
      store := new LocalStore(rows[..]);
      data := rows[..];
      activeColumn := None;
    }

    /** `componentDidMount`: a second store is built from the data prop; the
        first one is dropped without being cleared. */
    method DidMount()
      modifies this
      ensures fresh(store) && fresh(store.rows) && store.rows[..] == propData[..]
      ensures propData == old(propData) && propColumns == old(propColumns) && colModel == old(colModel)
      ensures data == old(data) && activeColumn == old(activeColumn)
    {
      store := new LocalStore(propData[..]);
    }

    /** New props arrive and `componentDidUpdate` runs. A new data array
        (by identity) clears the old store and installs one built from it;
        the displayed `data` is not touched. The column model is rebuilt only
        when the new descriptor list is structurally unequal to the previous. */
    method DidUpdate(newData: array<Row>, newColumns: seq<Column>)
      modifies this, store
      ensures propData == newData && propColumns == newColumns
      ensures newData != old(propData) ==>
        old(store).rows.Length == 0 && fresh(store) && fresh(store.rows) && store.rows[..] == newData[..]
      ensures newData == old(propData) ==> store == old(store) && store.rows == old(store.rows)
      ensures colModel == if SameColumns(old(propColumns), newColumns) then old(colModel) else newColumns
      ensures data == old(data) && activeColumn == old(activeColumn)
    {
      var prevData, prevColumns := propData, propColumns;
      propData, propColumns := newData, newColumns;
      if prevData != newData {
        store.Clear();
        store := new LocalStore(newData[..]);
      }
      if !SameColumns(prevColumns, newColumns) {
        colModel := newColumns;
      }
    }

    /** `componentWillUnmount`: the store is cleared. */
    method WillUnmount()
      modifies store
      ensures store.rows.Length == 0
    {
      store.Clear();
    }

    /** `updateGridState(updateState)`: the displayed data becomes the
        updater's result when that is an array, and stays as it was otherwise. */
    method UpdateGridState(updateState: seq<Row> -> Option<seq<Row>>)
      modifies this
      ensures data == match updateState(store.rows[..]) case Some(rows) => rows case None => old(data)
      ensures store == old(store) && propData == old(propData) && propColumns == old(propColumns)
      ensures colModel == old(colModel) && activeColumn == old(activeColumn)
    {
      var result := updateState(store.rows[..]);
      if result.Some? {
        data := result.value;
      }
    }

    /** `updateGridColumnState(columnName, isAscending, format, getValue)`:
        sorts the store's own array in place by the column, then displays that
        array. A string sort that throws changes nothing. */
    method UpdateGridColumnState(columnName: string, isAscending: bool, format: string,
                                 getValue: Option<Extractor>, dateOf: Value -> Number)
      returns (outcome: Outcome)
      modifies this, store.rows
      ensures store == old(store) && store.rows == old(store.rows)
      ensures SortResult(old(store.rows[..]), store.rows[..], outcome, columnName, isAscending, format, getValue, dateOf)
      ensures data == if outcome.Pass? then store.rows[..] else old(data)
      ensures propData == old(propData) && propColumns == old(propColumns)
      ensures colModel == old(colModel) && activeColumn == old(activeColumn)
    {
      outcome := SortRows(store.rows, columnName, isAscending, format, getValue, dateOf);
      if outcome.Pass? {
        data := store.rows[..];
      }
    }

    /** The header cell's click handler for the column at `i`: a sortable
        column has its flag flipped, becomes the active column and is sorted
        in the new direction; a column whose flag is undefined ignores clicks. */
    method ClickHeader(i: nat, dateOf: Value -> Number) returns (outcome: Outcome)
      requires i < |colModel|
      modifies this, store.rows
      ensures store == old(store) && store.rows == old(store.rows)
      ensures propData == old(propData) && propColumns == old(propColumns)
      ensures old(colModel[i].sortable).None? ==>
        outcome == Pass && colModel == old(colModel) && activeColumn == old(activeColumn)
        && data == old(data) && store.rows[..] == old(store.rows[..])
      ensures old(colModel[i].sortable).Some? ==>
        var item := old(colModel[i]);
        var isAscending := !item.sortable.value;
        && colModel == old(colModel)[i := item.(sortable := Some(isAscending))]
        && activeColumn == Some(item.dataIndex)
        && SortResult(old(store.rows[..]), store.rows[..], outcome, item.dataIndex, isAscending,
                      item.sortingType, item.getValue, dateOf)
        && data == if outcome.Pass? then store.rows[..] else old(data)
    {
      var item := colModel[i];
      if item.sortable.Some? {
        var flipped := !item.sortable.value;
        colModel := colModel[i := item.(sortable := Some(flipped))];
        activeColumn := Some(item.dataIndex);
        outcome := UpdateGridColumnState(item.dataIndex, flipped, item.sortingType, item.getValue, dateOf);
      } else {
        outcome := Pass;
      }
    }
  }
}
