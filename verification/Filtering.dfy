/** List comprehensions with a condition: what is picked, and in which order. */
module Filtering {
  function Matching<T>(features: seq<T>, matches: T -> bool): seq<T> {
    if features == [] then [] else
    (if matches(features[0]) then [features[0]] else []) + Matching(features[1..], matches)
  }

  /** Some of a list, in its order. */
  ghost predicate PickedAt<T>(all: seq<T>, some: seq<T>, at: seq<nat>) {
    && |at| == |some|
    && (forall i :: 0 <= i < |at| ==> at[i] < |all| && some[i] == all[at[i]])
    && (forall i, j :: 0 <= i < j < |at| ==> at[i] < at[j])
  }

  /** The places are those of the features that match. */
  ghost predicate AreMatches<T>(features: seq<T>, matches: T -> bool, at: seq<nat>) {
    forall k: nat :: k < |features| ==> (k in at <==> matches(features[k]))
  }

  /** Exactly the features that match, each as often as it is listed and in the order listed. */
  lemma {:induction false} MatchingExactly<T>(features: seq<T>, matches: T -> bool) returns (at: seq<nat>)
    ensures PickedAt(features, Matching(features, matches), at)
    ensures AreMatches(features, matches, at)
  {
    at := [];
    if features != [] {
      var rest := MatchingExactly(features[1..], matches);
      var some := Matching(features[1..], matches);
      ShiftPicks(features, some, rest);
      ShiftMatches(features, matches, rest);
      at := Shift(rest);
      if matches(features[0]) {
        PickFirst(features, some, at);
        at := [0] + at;
      }
    }
  }

  lemma PickFirst<T>(all: seq<T>, some: seq<T>, at: seq<nat>)
    requires all != [] && PickedAt(all, some, at) && 0 !in at
    ensures PickedAt(all, [all[0]] + some, [0] + at)
  {
    forall j | 0 <= j < |at| ensures 0 < at[j] {
      assert at[j] in at;
    }
  }

  lemma ShiftMatches<T>(features: seq<T>, matches: T -> bool, at: seq<nat>)
    requires features != [] && AreMatches(features[1..], matches, at)
    ensures forall k: nat :: 0 < k < |features| ==> (k in Shift(at) <==> matches(features[k]))
    ensures 0 !in Shift(at)
  {
    forall k: nat | 0 < k < |features| ensures k in Shift(at) <==> matches(features[k]) {
      assert features[1..][k - 1] == features[k];
      assert k - 1 in at <==> matches(features[1..][k - 1]);
    }
  }

  /** The same places in a list with one more in front. */
  function Shift(at: seq<nat>): (shifted: seq<nat>)
    ensures |shifted| == |at| && forall i :: 0 <= i < |at| ==> shifted[i] == at[i] + 1
    ensures forall k: nat :: k in shifted <==> k > 0 && k - 1 in at
  {
    if at == [] then [] else [at[0] + 1] + Shift(at[1..])
  }

  lemma ShiftPicks<T>(all: seq<T>, some: seq<T>, at: seq<nat>)
    requires all != [] && PickedAt(all[1..], some, at)
    ensures PickedAt(all, some, Shift(at))
  {
    forall i | 0 <= i < |at| ensures Shift(at)[i] < |all| && some[i] == all[Shift(at)[i]] {
      assert all[1..][at[i]] == all[at[i] + 1];
    }
  }
}
