/** Values picked out of a list, in order, and where they were found. */
module Picked {
  import opened Options

  predicate IsAmong(at: seq<nat>, k: nat) {
    exists i :: 0 <= i < |at| && at[i] == k
  }

  /** `ys` are the values of `xs` in order, found at these positions and at no other. */
  ghost predicate AreValues<T(!new)>(xs: seq<Option<T>>, ys: seq<T>, at: seq<nat>) {
    && |at| == |ys|
    && (forall i :: 0 <= i < |at| ==> at[i] < |xs| && xs[at[i]] == Some(ys[i]))
    && (forall i, j :: 0 <= i < j < |at| ==> at[i] < at[j])
    && (forall k :: 0 <= k < |xs| && xs[k].Some? ==> IsAmong(at, k))
  }

  lemma AmongMore(at: seq<nat>, last: nat, k: nat)
    requires k == last || IsAmong(at, k)
    ensures IsAmong(at + [last], k)
  {
    if k == last {
      assert (at + [last])[|at|] == k;
    } else {
      var i :| 0 <= i < |at| && at[i] == k;
      assert (at + [last])[i] == k;
    }
  }

  lemma ValuesGoOn<T(!new)>(xs: seq<Option<T>>, ys: seq<T>, at: seq<nat>, x: Option<T>) returns (at': seq<nat>)
    requires AreValues(xs, ys, at)
    ensures AreValues(xs + [x], if x.Some? then ys + [x.value] else ys, at')
  {
    at' := if x.Some? then at + [|xs|] else at;
    forall k | 0 <= k <= |xs| && (xs + [x])[k].Some? ensures IsAmong(at', k) {
      if x.Some? { AmongMore(at, |xs|, k); }
    }
  }

  function EachOf<S, T>(h: seq<S>, of: S -> Option<T>): (each: seq<Option<T>>)
    ensures |each| == |h| && forall k :: 0 <= k < |h| ==> each[k] == of(h[k])
  {
    seq(|h|, k requires 0 <= k < |h| => of(h[k]))
  }

  lemma EachGoesOn<S, T>(h: seq<S>, of: S -> Option<T>)
    requires h != []
    ensures EachOf(h, of) == EachOf(h[..|h| - 1], of) + [of(h[|h| - 1])]
  {
  }
}
