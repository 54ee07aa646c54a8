/** Finite sets of indices, and sequences of them. */
module Indices {
  lemma {:induction false} SubsetIsNoLarger(s: set<nat>, t: set<nat>)
    requires s <= t
    ensures |s| <= |t|
  {
    if s != {} {
      var x :| x in s;
      SubsetIsNoLarger(s - {x}, t - {x});
    }
  }

  lemma {:induction false} Greatest(s: set<nat>) returns (m: nat)
    requires s != {}
    ensures m in s && forall j :: j in s ==> j <= m
  {
    var x :| x in s;
    m := x;
    if s - {x} != {} {
      var other := Greatest(s - {x});
      m := if x < other then other else x;
    }
    assert forall j :: j in s ==> j == x || j in s - {x};
  }

  lemma {:induction false} SizeOfInterval(s: set<nat>, lo: nat, hi: nat)
    requires lo <= hi && forall j: nat :: j in s <==> lo <= j < hi
    ensures |s| == hi - lo
  {
    if lo == hi {
      assert s == {};
    } else {
      SizeOfInterval(s - {hi - 1}, lo, hi - 1);
    }
  }

  lemma {:induction false} SizeWithin(s: set<nat>, lo: nat, hi: nat)
    requires lo <= hi && forall j :: j in s ==> lo <= j < hi
    ensures |s| <= hi - lo
  {
    if lo == hi {
      assert s == {};
    } else {
      SizeWithin(s - {hi - 1}, lo, hi - 1);
    }
  }

  // ---------- readings of a clock ----------

  /** Which readings of a clock are seen one after the other; one may be seen several times, or not at all. */
  ghost predicate InOrder(at: seq<nat>, length: nat) {
    && (forall k :: 0 <= k < |at| ==> at[k] < length)
    && (forall k, l :: 0 <= k < l < |at| ==> at[k] <= at[l])
  }

  function Readings(clock: seq<int>, at: seq<nat>): (times: seq<int>)
    requires forall k :: 0 <= k < |at| ==> at[k] < |clock|
    ensures |times| == |at| && forall k :: 0 <= k < |at| ==> times[k] == clock[at[k]]
  {
    seq(|at|, k requires 0 <= k < |at| => clock[at[k]])
  }
}
