/** qsort, as far as its callers may rely on it: the order of items with equal keys is left open. */
module Sorting {

  predicate SortedBy<T>(items: seq<T>, key: T -> int) {
    forall i, j | 0 <= i < j < |items| :: key(items[i]) <= key(items[j])
  }

  lemma {:induction false} InsertedElements<T>(s: seq<T>, j: nat, x: T)
    requires j <= |s|
    ensures multiset(s[..j] + [x] + s[j..]) == multiset(s) + multiset{x}
  {
    assert s == s[..j] + s[j..];
  }

  lemma {:induction false} InsertedSorted<T>(s: seq<T>, j: nat, x: T, key: T -> int)
    requires SortedBy(s, key) && j <= |s|
    requires forall k | 0 <= k < j :: key(s[k]) < key(x)
    requires j < |s| ==> key(x) <= key(s[j])
    ensures SortedBy(s[..j] + [x] + s[j..], key)
  {
    assert forall k | j <= k < |s| :: key(x) <= key(s[k]);
  }

  method Insert<T(==)>(sorted: seq<T>, x: T, key: T -> int) returns (r: seq<T>)
    requires SortedBy(sorted, key)
    ensures multiset(r) == multiset(sorted) + multiset{x} && SortedBy(r, key)
  {
    var j := 0;
    while j < |sorted| && key(sorted[j]) < key(x)
      invariant 0 <= j <= |sorted|
      invariant forall k | 0 <= k < j :: key(sorted[k]) < key(x)
    {
      j := j + 1;
    }
    r := sorted[..j] + [x] + sorted[j..];
    InsertedElements(sorted, j, x);
    InsertedSorted(sorted, j, x, key);
  }

  method Qsort<T(==)>(items: seq<T>, key: T -> int) returns (sorted: seq<T>)
    ensures multiset(sorted) == multiset(items) && SortedBy(sorted, key)
  {
    sorted := [];
    for i := 0 to |items|
      invariant multiset(sorted) == multiset(items[..i]) && SortedBy(sorted, key)
    {
      assert items[..i+1] == items[..i] + [items[i]];
      sorted := Insert(sorted, items[i], key);
    }
    assert items[..|items|] == items;
  }
}
