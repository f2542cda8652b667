/** `Array.prototype.sort(comparator)` as the grid uses it: an in-place sort of
    the store's own array. The engine's algorithm is not part of the source, so
    it is modelled by an insertion sort that, like the engine, only asks whether
    the comparator's result is negative. */
module SortEngine {
  import opened Js

  /** `before(x, y)`: comparing `x` with `y` gives a negative result, so `x`
      belongs strictly before `y`. This relation is a strict weak order on a
      collection of rows when it is asymmetric there and "not before" is
      transitive there. That is weaker than ECMAScript's consistent comparator,
      which also asks the comparator's sign to be antisymmetric and `x`
      compared with itself to give zero. */
  ghost predicate StrictWeakOrder(before: (Row, Row) -> bool, m: multiset<Row>)
  {
    && (forall x, y | x in m && y in m :: before(x, y) ==> !before(y, x))
    && (forall x, y, z | x in m && y in m && z in m :: !before(x, y) && !before(y, z) ==> !before(x, z))
  }

  /** No row is placed after a row it belongs strictly before. */
  predicate SortedBy(s: seq<Row>, before: (Row, Row) -> bool)
  {
    forall i, j {:trigger before(s[j], s[i])} :: 0 <= i < j < |s| ==> !before(s[j], s[i])
  }

  /** The first `n` rows are sorted. */
  ghost predicate SortedPrefix(s: seq<Row>, n: int, before: (Row, Row) -> bool)
    requires n <= |s|
  {
    forall k, l {:trigger before(s[l], s[k])} :: 0 <= k < l < n ==> !before(s[l], s[k])
  }

  /** The first `n + 1` rows are sorted, except possibly for the row at `j`. */
  ghost predicate SortedExcept(s: seq<Row>, n: int, j: int, before: (Row, Row) -> bool)
    requires n < |s|
  {
    forall k, l {:trigger before(s[l], s[k])} :: 0 <= k < l <= n && k != j && l != j ==> !before(s[l], s[k])
  }

  /** The row at `j` belongs strictly before every row after it, up to `n`. */
  ghost predicate BeforeRest(s: seq<Row>, n: int, j: int, before: (Row, Row) -> bool)
    requires 0 <= j <= n < |s|
  {
    forall l {:trigger before(s[j], s[l])} :: j < l <= n ==> before(s[j], s[l])
  }

  /** Moving the row at `j` one place left, past a row it belongs before. */
  lemma SwapStep(s: seq<Row>, n: int, j: int, before: (Row, Row) -> bool, sorted: bool)
    requires 0 < j <= n < |s|
    requires sorted ==> SortedExcept(s, n, j, before)
    requires BeforeRest(s, n, j, before)
    requires before(s[j], s[j - 1])
    ensures multiset(s[j - 1 := s[j]][j := s[j - 1]]) == multiset(s)
    ensures sorted ==> SortedExcept(s[j - 1 := s[j]][j := s[j - 1]], n, j - 1, before)
    ensures BeforeRest(s[j - 1 := s[j]][j := s[j - 1]], n, j - 1, before)
  {
    var t := s[j - 1 := s[j]][j := s[j - 1]];
    if sorted {
      forall k, l | 0 <= k < l <= n && k != j - 1 && l != j - 1
        ensures !before(t[l], t[k])
      {
        var k' := if k == j then j - 1 else k;
        var l' := if l == j then j - 1 else l;
        assert t[k] == s[k'] && t[l] == s[l'];
      }
    }
  }

  /** Once the row at `j` stops moving, the first `n + 1` rows are sorted. */
  lemma InsertDone(s: seq<Row>, n: int, j: int, before: (Row, Row) -> bool)
    requires 0 <= j <= n < |s|
    requires StrictWeakOrder(before, multiset(s))
    requires SortedExcept(s, n, j, before) && BeforeRest(s, n, j, before)
    requires j == 0 || !before(s[j], s[j - 1])
    ensures SortedPrefix(s, n + 1, before)
  {
    forall k, l | 0 <= k < l <= n
      ensures !before(s[l], s[k])
    {
      if l == j && k < j - 1 {
        assert s[j] in multiset(s) && s[j - 1] in multiset(s) && s[k] in multiset(s);
      } else if k == j {
        assert s[j] in multiset(s) && s[l] in multiset(s);
      }
    }
  }

  lemma SortedPrefixExcept(s: seq<Row>, n: int, before: (Row, Row) -> bool)
    requires 0 <= n < |s| && SortedPrefix(s, n, before)
    ensures SortedExcept(s, n, n, before)
  {
  }

  /** Exchanges the rows at `k - 1` and `k`. */
  method Swap(a: array<Row>, k: int)
    requires 0 < k < a.Length
    modifies a
    ensures a[..] == old(a[..])[k - 1 := old(a[k])][k := old(a[k - 1])]
  {
    a[k - 1], a[k] := a[k], a[k - 1];
  }

  /** Inserts the row at `i` into the rows before it, by moving it left past
      every row it belongs strictly before; `j` is where it stops. A row
      already in place is not moved. */
  method Insert(a: array<Row>, i: int, before: (Row, Row) -> bool, ghost sorted: bool) returns (ghost j: int)
    requires 0 <= i < a.Length
    requires sorted ==> SortedExcept(a[..], i, i, before)
    modifies a
    ensures 0 <= j <= i
    ensures multiset(a[..]) == multiset(old(a[..]))
    ensures sorted ==> SortedExcept(a[..], i, j, before)
    ensures BeforeRest(a[..], i, j, before)
    ensures j == 0 || !before(a[j], a[j - 1])
    ensures (i == 0 || !before(old(a[i]), old(a[i - 1]))) ==> a[..] == old(a[..])
  {
    if i == 0 || !before(a[i], a[i - 1]) {
      return i;
    }
    var k := i;
    while k > 0 && before(a[k], a[k - 1])
      invariant 0 <= k <= i
      invariant multiset(a[..]) == multiset(old(a[..]))
      invariant sorted ==> SortedExcept(a[..], i, k, before)
      invariant BeforeRest(a[..], i, k, before)
    {
      SwapStep(a[..], i, k, before, sorted);
      Swap(a, k);
      k := k - 1;
    }
    j := k;
  }

  /** Sorts `a` in place. The result is always a permutation of the input; it
      is sorted whenever `before` is a strict weak order on the rows; and an input
      that is already sorted is left exactly as it was. */
  method Sort(a: array<Row>, before: (Row, Row) -> bool)
    modifies a
    ensures multiset(a[..]) == multiset(old(a[..]))
    ensures StrictWeakOrder(before, multiset(a[..])) ==> SortedBy(a[..], before)
    ensures SortedBy(old(a[..]), before) ==> a[..] == old(a[..])
  {
    ghost var input := a[..];
    ghost var ok := StrictWeakOrder(before, multiset(input));
    ghost var wasSorted := SortedBy(input, before);
    var i := 0;
    while i < a.Length
      invariant 0 <= i <= a.Length
      invariant multiset(a[..]) == multiset(input)
      invariant ok ==> SortedPrefix(a[..], i, before)
      invariant wasSorted ==> a[..] == input
    {
      assert wasSorted && i > 0 ==> !before(input[i], input[i - 1]);
      if ok {
        SortedPrefixExcept(a[..], i, before);
      }
      ghost var j := Insert(a, i, before, ok);
      if ok {
        InsertDone(a[..], i, j, before);
      }
      i := i + 1;
    }
  }
}
