/** Sorting by a string key, as Python's `sorted` does: stable, by code point order. */
module Sorting {
  import opened Text

  function Insert<T>(x: T, sorted: seq<T>, key: T -> string): seq<T> {
    if sorted == [] then [x]
    else if Less(key(x), key(sorted[0])) then [x] + sorted
    else [sorted[0]] + Insert(x, sorted[1..], key)
  }

  function Sort<T>(items: seq<T>, key: T -> string): seq<T> {
    if items == [] then [] else Insert(items[|items| - 1], Sort(items[..|items| - 1], key), key)
  }

  ghost predicate SortedBy<T>(items: seq<T>, key: T -> string) {
    forall i, j :: 0 <= i < j < |items| ==> Less(key(items[i]), key(items[j]))
  }

  ghost predicate DistinctBy<T, K>(items: seq<T>, key: T -> K) {
    forall i, j :: 0 <= i < j < |items| ==> key(items[i]) != key(items[j])
  }

  /** Both sequences have the same elements. */
  ghost predicate SameElements<T>(a: seq<T>, b: seq<T>) {
    && (forall i :: 0 <= i < |a| ==> a[i] in b)
    && (forall i :: 0 <= i < |b| ==> b[i] in a)
  }

  lemma {:induction false} InsertSorts<T>(x: T, sorted: seq<T>, key: T -> string)
    requires SortedBy(sorted, key) && forall i :: 0 <= i < |sorted| ==> key(sorted[i]) != key(x)
    ensures SortedBy(Insert(x, sorted, key), key)
    ensures SameElements(Insert(x, sorted, key), [x] + sorted)
    ensures |Insert(x, sorted, key)| == |sorted| + 1
  {
    if sorted != [] {
      LessIsTotal(key(x), key(sorted[0]));
      if Less(key(x), key(sorted[0])) {
        forall i | 0 < i < |sorted| ensures Less(key(x), key(sorted[i])) {
          LessIsTransitive(key(x), key(sorted[0]), key(sorted[i]));
        }
      } else {
        InsertBehindFirst(x, sorted, key);
      }
    }
  }

  lemma {:induction false} InsertBehindFirst<T>(x: T, sorted: seq<T>, key: T -> string)
    requires SortedBy(sorted, key) && forall i :: 0 <= i < |sorted| ==> key(sorted[i]) != key(x)
    requires sorted != [] && Less(key(sorted[0]), key(x)) && !Less(key(x), key(sorted[0]))
    ensures SortedBy(Insert(x, sorted, key), key)
    ensures SameElements(Insert(x, sorted, key), [x] + sorted)
    ensures |Insert(x, sorted, key)| == |sorted| + 1
    decreases sorted, 0
  {
    var rest := sorted[1..];
    var tail := Insert(x, rest, key);
    InsertSorts(x, rest, key);
    forall i | 0 <= i < |tail| ensures Less(key(sorted[0]), key(tail[i])) {
      assert tail[i] in [x] + rest;
    }
    forall y | y in [x] + rest ensures y in tail {
      var i :| 0 <= i < |[x] + rest| && ([x] + rest)[i] == y;
    }
  }

  /** Items with distinct keys come out in strictly increasing key order, and all of them do. */
  lemma {:induction false} SortSorts<T>(items: seq<T>, key: T -> string)
    requires DistinctBy(items, key)
    ensures SortedBy(Sort(items, key), key)
    ensures SameElements(Sort(items, key), items)
    ensures |Sort(items, key)| == |items|
  {
    if items != [] {
      var last, rest := items[|items| - 1], items[..|items| - 1];
      var sorted := Sort(rest, key);
      SortSorts(rest, key);
      forall i | 0 <= i < |sorted| ensures key(sorted[i]) != key(last) {
        assert sorted[i] in rest;
      }
      InsertSorts(last, sorted, key);
      forall i | 0 <= i < |Sort(items, key)| ensures Sort(items, key)[i] in items {
        assert Sort(items, key)[i] in [last] + sorted;
      }
      forall i | 0 <= i < |items| ensures items[i] in Sort(items, key) {
        assert items[i] == last || items[i] in rest;
        assert items[i] in [last] + sorted;
      }
    }
  }
}
