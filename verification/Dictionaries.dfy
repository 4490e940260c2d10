/** Insertion-ordered dictionaries, as the list of their values; the key of a value is part of it. */
module Dictionaries {
  import opened Sorting

  /** Assignment: a known key keeps its position. */
  function Put<T, K(==)>(dict: seq<T>, value: T, key: T -> K): seq<T> {
    if dict == [] then [value]
    else if key(dict[0]) == key(value) then [value] + dict[1..]
    else [dict[0]] + Put(dict[1..], value, key)
  }

  /** Assigning replaces the value under that key, if there is one, and keeps all others. */
  lemma {:induction false} PutReplaces<T, K>(dict: seq<T>, value: T, key: T -> K)
    requires DistinctBy(dict, key)
    ensures DistinctBy(Put(dict, value, key), key)
    ensures value in Put(dict, value, key)
    ensures forall x <- Put(dict, value, key) :: x == value || (x in dict && key(x) != key(value))
    ensures forall x <- dict :: key(x) != key(value) ==> x in Put(dict, value, key)
  {
    if dict != [] {
      var rest := dict[1..];
      OthersDiffer(dict, key);
      if key(dict[0]) != key(value) {
        PutReplaces(rest, value, key);
        var put := Put(rest, value, key);
        forall i | 0 <= i < |put| ensures key(put[i]) != key(dict[0]) {
          assert put[i] in put;
          assert put[i] == value || put[i] in rest;
        }
      }
    }
  }

  lemma OthersDiffer<T, K>(dict: seq<T>, key: T -> K)
    requires DistinctBy(dict, key) && dict != []
    ensures forall x <- dict[1..] :: key(x) != key(dict[0])
    ensures DistinctBy(dict[1..], key)
  {
    forall x | x in dict[1..] ensures key(x) != key(dict[0]) {
      var i :| 0 <= i < |dict| - 1 && dict[i + 1] == x;
    }
  }
}
