/** Subsequences: what is left of a sequence when some elements are dropped. */
module Sequences {
  predicate Subsequence<T(==)>(a: seq<T>, b: seq<T>) {
    if a == [] then true
    else if b == [] then false
    else
      || (a[|a| - 1] == b[|b| - 1] && Subsequence(a[..|a| - 1], b[..|b| - 1]))
      || Subsequence(a, b[..|b| - 1])
  }

  lemma SubsequenceAppend<T>(a: seq<T>, b: seq<T>, x: T)
    requires Subsequence(a, b)
    ensures Subsequence(a, b + [x]) && Subsequence(a + [x], b + [x])
  {
  }

  /** The elements of `a` are those of `b` at these increasing positions. */
  ghost predicate Picks<T>(a: seq<T>, b: seq<T>, at: seq<nat>) {
    && |at| == |a|
    && (forall i :: 0 <= i < |at| ==> at[i] < |b| && b[at[i]] == a[i])
    && (forall i, j :: 0 <= i < j < |at| ==> at[i] < at[j])
  }

  lemma {:induction false} SubsequencePicks<T>(a: seq<T>, b: seq<T>) returns (at: seq<nat>)
    requires Subsequence(a, b)
    ensures Picks(a, b, at)
  {
    if a == [] {
      at := [];
    } else if a[|a| - 1] == b[|b| - 1] && Subsequence(a[..|a| - 1], b[..|b| - 1]) {
      at := SubsequencePicks(a[..|a| - 1], b[..|b| - 1]);
      at := at + [|b| - 1];
    } else {
      at := SubsequencePicks(a, b[..|b| - 1]);
    }
  }

  lemma {:induction false} PicksSubsequence<T>(a: seq<T>, b: seq<T>, at: seq<nat>)
    requires Picks(a, b, at)
    ensures Subsequence(a, b)
    decreases |b|
  {
    if a != [] {
      var last := |a| - 1;
      if at[last] == |b| - 1 {
        PicksSubsequence(a[..last], b[..|b| - 1], at[..last]);
      } else {
        PicksSubsequence(a, b[..|b| - 1], at);
      }
    }
  }

  lemma SubsequenceMeans<T>(a: seq<T>, b: seq<T>)
    ensures Subsequence(a, b) <==> exists at :: Picks(a, b, at)
  {
    if Subsequence(a, b) {
      var at := SubsequencePicks(a, b);
    }
    if at :| Picks(a, b, at) {
      PicksSubsequence(a, b, at);
    }
  }
}
