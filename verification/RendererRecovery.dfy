/** When a crashed renderer is reloaded: at most so often in a sliding window. */
module RendererRecovery {
  import opened Indices

  const DEFAULT_RECOVERY_WINDOW_MS := 60_000
  const DEFAULT_MAX_RECOVERIES := 3

  // ---------- the policy, on the attempts it remembers ----------

  function Kept(attempts: seq<int>, now: int, window: int): seq<int> {
    if attempts == [] then []
    else Kept(attempts[..|attempts| - 1], now, window)
         + if now - attempts[|attempts| - 1] < window then [attempts[|attempts| - 1]] else []
  }

  function Registered(attempts: seq<int>, now: int, max: nat, window: int): (seq<int>, bool) {
    var kept := Kept(attempts, now, window);
    if |kept| >= max then (kept, false) else (kept + [now], true)
  }

  class RendererRecoveryPolicy {
    var attempts: seq<int>
    const maxRecoveries: nat
    const recoveryWindowMs: int

    constructor (maxRecoveries: nat := DEFAULT_MAX_RECOVERIES, recoveryWindowMs: int := DEFAULT_RECOVERY_WINDOW_MS)
      ensures attempts == [] && this.maxRecoveries == maxRecoveries && this.recoveryWindowMs == recoveryWindowMs
    {
      attempts := [];
      this.maxRecoveries, this.recoveryWindowMs := maxRecoveries, recoveryWindowMs;
    }

    method RegisterAttempt(now: int) returns (accepted: bool)
      modifies this
      ensures (attempts, accepted) == Registered(old(attempts), now, maxRecoveries, recoveryWindowMs)
    {
      var kept: seq<int> := [];
      for i := 0 to |attempts|
        invariant attempts == old(attempts) && kept == Kept(attempts[..i], now, recoveryWindowMs)
      {
        assert attempts[..i + 1][..i] == attempts[..i];
        if now - attempts[i] < recoveryWindowMs {
          kept := kept + [attempts[i]];
        }
      }
      assert attempts[..|attempts|] == attempts;
      attempts := kept;
      if |attempts| >= maxRecoveries {
        return false;
      }
      attempts := attempts + [now];
      accepted := true;
    }
  }

  // ---------- runs ----------

  /** Attempts registered with a clock that does not go back. */
  ghost predicate Forward(times: seq<int>) {
    forall i, j :: 0 <= i < j < |times| ==> times[i] <= times[j]
  }

  /** What is remembered after the first n attempts. */
  function After(times: seq<int>, n: nat, max: nat, window: int): seq<int>
    requires n <= |times|
  {
    if n == 0 then [] else Registered(After(times, n - 1, max, window), times[n - 1], max, window).0
  }

  predicate Accepted(times: seq<int>, i: nat, max: nat, window: int)
    requires i < |times|
  {
    Registered(After(times, i, max, window), times[i], max, window).1
  }

  /** The recoveries accepted before n that are still inside the window that ends at `now`. */
  function Inside(times: seq<int>, n: nat, now: int, max: nat, window: int): set<nat>
    requires n <= |times|
  {
    set j: nat | j < n && Accepted(times, j, max, window) && now - times[j] < window
  }

  /** No attempt behind j and before n came a window or more after it. */
  ghost predicate Outlasts(times: seq<int>, j: nat, n: nat, window: int)
    requires j < n <= |times|
  {
    forall l :: j < l < n ==> times[l] - times[j] < window
  }

  /** The recoveries that are still remembered at `now`, after n attempts. */
  ghost function Remembered(times: seq<int>, n: nat, now: int, max: nat, window: int): set<nat>
    requires n <= |times|
  {
    set j: nat | j < n && Accepted(times, j, max, window) && now - times[j] < window && Outlasts(times, j, n, window)
  }

  /** The recoveries accepted in the half-open window that begins at `start`. */
  function AcceptedWithin(times: seq<int>, start: int, max: nat, window: int): set<nat> {
    set i: nat | i < |times| && Accepted(times, i, max, window) && start <= times[i] < start + window
  }

  /** The list holds the times of these attempts, in order. */
  ghost predicate Holds(attempts: seq<int>, times: seq<int>, indices: seq<nat>) {
    && |attempts| == |indices|
    && (forall k :: 0 <= k < |indices| ==> indices[k] < |times| && attempts[k] == times[indices[k]])
    && (forall k, l :: 0 <= k < l < |indices| ==> indices[k] < indices[l])
  }

  lemma HoldsOneMore(attempts: seq<int>, times: seq<int>, indices: seq<nat>, index: nat)
    requires Holds(attempts, times, indices) && index < |times|
    requires forall j :: j in indices ==> j < index
    ensures Holds(attempts + [times[index]], times, indices + [index])
  {
    forall k | 0 <= k < |indices| ensures indices[k] < index {
      assert indices[k] in indices;
    }
  }

  lemma HoldsPrefix(attempts: seq<int>, times: seq<int>, indices: seq<nat>)
    requires Holds(attempts, times, indices) && attempts != []
    ensures var n := |attempts| - 1;
      && Holds(attempts[..n], times, indices[..n]) && indices[n] < |times| && attempts[n] == times[indices[n]]
      && (forall j :: j in indices[..n] ==> j < indices[n])
      && (forall j :: j in indices <==> j in indices[..n] || j == indices[n])
  {
    var n := |attempts| - 1;
    assert indices == indices[..n] + [indices[n]];
  }

  lemma {:induction false} KeptHolds(attempts: seq<int>, times: seq<int>, indices: seq<nat>, now: int, window: int)
    returns (kept: seq<nat>)
    requires Holds(attempts, times, indices)
    ensures Holds(Kept(attempts, now, window), times, kept)
    ensures forall j :: j in kept <==> j in indices && now - times[j] < window
  {
    if attempts == [] {
      kept := [];
    } else {
      var n := |attempts| - 1;
      HoldsPrefix(attempts, times, indices);
      kept := KeptHolds(attempts[..n], times, indices[..n], now, window);
      if now - attempts[n] < window {
        HoldsOneMore(Kept(attempts[..n], now, window), times, kept, indices[n]);
        kept := kept + [indices[n]];
      }
    }
  }

  lemma RememberedLater(times: seq<int>, n: nat, now: int, max: nat, window: int, j: nat)
    requires j < n <= |times|
    ensures j in Remembered(times, n, now, max, window) <==>
              && now - times[j] < window
              && (|| j in Remembered(times, n - 1, times[n - 1], max, window)
                  || (j == n - 1 && Accepted(times, j, max, window)))
  {
    if j < n - 1 {
      assert Outlasts(times, j, n, window) <==>
             Outlasts(times, j, n - 1, window) && times[n - 1] - times[j] < window;
    }
  }

  /** What is left of the list at a later time, whatever the clock does. */
  lemma {:induction false} KeptIsRemembered(times: seq<int>, n: nat, now: int, max: nat, window: int)
    returns (indices: seq<nat>)
    requires n <= |times|
    ensures Holds(Kept(After(times, n, max, window), now, window), times, indices)
    ensures forall j :: j in indices <==> j in Remembered(times, n, now, max, window)
  {
    if n == 0 {
      indices := [];
    } else {
      var kept := KeptIsRemembered(times, n - 1, times[n - 1], max, window);
      var held := kept;
      if Accepted(times, n - 1, max, window) {
        HoldsOneMore(Kept(After(times, n - 1, max, window), times[n - 1], window), times, kept, n - 1);
        held := kept + [n - 1];
      }
      indices := KeptHolds(After(times, n, max, window), times, held, now, window);
      forall j: nat ensures j in indices <==> j in Remembered(times, n, now, max, window) {
        if j < n {
          RememberedLater(times, n, now, max, window, j);
        }
      }
    }
  }

  lemma {:induction false} SizeOfIncreasing(s: set<nat>, indices: seq<nat>)
    requires forall k, l :: 0 <= k < l < |indices| ==> indices[k] < indices[l]
    requires forall j :: j in s <==> j in indices
    ensures |s| == |indices|
  {
    if indices == [] {
      assert s == {};
    } else {
      var n := |indices| - 1;
      assert indices == indices[..n] + [indices[n]];
      SizeOfIncreasing(s - {indices[n]}, indices[..n]);
      assert s == s - {indices[n]} + {indices[n]};
    }
  }

  lemma KeptSize(times: seq<int>, i: nat, max: nat, window: int)
    requires i < |times|
    ensures |Kept(After(times, i, max, window), times[i], window)|
         == |Remembered(times, i, times[i], max, window)|
  {
    var indices := KeptIsRemembered(times, i, times[i], max, window);
    SizeOfIncreasing(Remembered(times, i, times[i], max, window), indices);
  }

  // ---------- which clocks will do ----------

  /** At attempt i just the recoveries of its window are remembered. */
  ghost predicate RemembersTheWindow(times: seq<int>, i: nat, max: nat, window: int)
    requires i < |times|
  {
    Remembered(times, i, times[i], max, window) == Inside(times, i, times[i], max, window)
  }

  /** Between an attempt and one less than a window later, the clock is not a window or more ahead. */
  ghost predicate IsSteady(times: seq<int>, window: int) {
    forall j, l, i :: 0 <= j < l < i < |times| && times[i] - times[j] < window ==> times[l] - times[j] < window
  }

  lemma ForwardIsSteady(times: seq<int>, window: int)
    requires Forward(times)
    ensures IsSteady(times, window)
  {
  }

  lemma SteadyRemembers(times: seq<int>, i: nat, max: nat, window: int)
    requires IsSteady(times, window) && i < |times|
    ensures RemembersTheWindow(times, i, max, window)
  {
  }

  lemma {:induction false} RoomForAll(times: seq<int>, n: nat, max: nat, window: int)
    requires n <= |times| < max
    ensures |After(times, n, max, window)| <= n
    ensures forall j :: 0 <= j < n ==> Accepted(times, j, max, window)
  {
    if n > 0 {
      RoomForAll(times, n - 1, max, window);
      KeptIsShorter(After(times, n - 1, max, window), times[n - 1], window);
    }
  }

  lemma {:induction false} KeptIsShorter(attempts: seq<int>, now: int, window: int)
    ensures |Kept(attempts, now, window)| <= |attempts|
  {
    if attempts != [] {
      KeptIsShorter(attempts[..|attempts| - 1], now, window);
    }
  }

  lemma UnsteadyForgets(times: seq<int>, j: nat, l: nat, i: nat, window: int)
    requires j < l < i < |times| && times[i] - times[j] < window <= times[l] - times[j]
    ensures !RemembersTheWindow(times, i, |times| + 1, window)
  {
    var max := |times| + 1;
    RoomForAll(times, i, max, window);
    assert j in Inside(times, i, times[i], max, window);
    assert !Outlasts(times, j, i, window);
  }

  ghost predicate AlwaysRemembers(times: seq<int>, window: int) {
    forall i, max: nat :: 0 <= i < |times| ==> RemembersTheWindow(times, i, max, window)
  }

  /** Under every maximum the policy remembers exactly the recoveries of the window, at every attempt of
      a run, if and only if the clock is steady. */
  lemma RemembersExactlyIff(times: seq<int>, window: int)
    ensures AlwaysRemembers(times, window) <==> IsSteady(times, window)
  {
    if IsSteady(times, window) {
      forall i, max: nat | 0 <= i < |times| ensures RemembersTheWindow(times, i, max, window) {
        SteadyRemembers(times, i, max, window);
      }
    } else {
      var j, l, i :| 0 <= j < l < i < |times| && times[i] - times[j] < window <= times[l] - times[j];
      UnsteadyForgets(times, j, l, i, window);
    }
  }

  /** An attempt is accepted exactly if fewer than the maximum are still inside the window. */
  lemma AcceptedExactlyIfRoom(times: seq<int>, i: nat, max: nat, window: int)
    requires IsSteady(times, window) && i < |times|
    ensures Accepted(times, i, max, window) <==> |Inside(times, i, times[i], max, window)| < max
  {
    KeptSize(times, i, max, window);
    SteadyRemembers(times, i, max, window);
  }

  lemma {:induction false} NeverTooMany(times: seq<int>, n: nat, max: nat, window: int)
    requires n <= |times|
    ensures |After(times, n, max, window)| <= max
  {
    if n > 0 {
      NeverTooMany(times, n - 1, max, window);
      KeptIsShorter(After(times, n - 1, max, window), times[n - 1], window);
    }
  }

  /** An attempt is refused only when just as many as the maximum are still inside the window. */
  lemma RefusedOnlyWhenFull(times: seq<int>, i: nat, max: nat, window: int)
    requires IsSteady(times, window) && i < |times| && !Accepted(times, i, max, window)
    ensures |Inside(times, i, times[i], max, window)| == max
  {
    KeptSize(times, i, max, window);
    SteadyRemembers(times, i, max, window);
    NeverTooMany(times, i, max, window);
    KeptIsShorter(After(times, i, max, window), times[i], window);
  }

  // ---------- how often, whatever the clock does ----------

  predicate IsWithin(s: int, t: int, window: int) {
    s - window < t < s + window
  }

  /** Between two attempts less than a window from each other the clock is never a window or more ahead
      of the first. */
  ghost predicate KeepsClose(times: seq<int>, window: int) {
    forall j, l, i :: 0 <= j < l < i < |times| && IsWithin(times[j], times[i], window) ==>
      times[l] - times[j] < window
  }

  lemma SteadyKeepsClose(times: seq<int>, window: int)
    requires IsSteady(times, window)
    ensures KeepsClose(times, window)
  {
  }

  ghost predicate NeverMoreThan(times: seq<int>, max: nat, window: int) {
    forall start :: |AcceptedWithin(times, start, max, window)| <= max
  }

  /** Recoveries all remembered at m, which is one more: at most the maximum. */
  lemma FewUpTo(times: seq<int>, s: set<nat>, m: nat, max: nat, window: int)
    requires m < |times| && m in s && Accepted(times, m, max, window)
    requires forall j :: j in s ==> j == m || j in Remembered(times, m, times[m], max, window)
    ensures |s| <= max
  {
    KeptSize(times, m, max, window);
    SubsetIsNoLarger(s - {m}, Remembered(times, m, times[m], max, window));
  }

  /** No half-open window, wherever it begins, sees more recoveries than the maximum. */
  lemma AtMostMaxRecoveries(times: seq<int>, start: int, max: nat, window: int)
    requires KeepsClose(times, window)
    ensures |AcceptedWithin(times, start, max, window)| <= max
  {
    var accepted := AcceptedWithin(times, start, max, window);
    if accepted != {} {
      var last := Greatest(accepted);
      forall j | j in accepted ensures j == last || j in Remembered(times, last, times[last], max, window) {
        if j < last {
          assert IsWithin(times[j], times[last], window);
          assert Outlasts(times, j, last, window);
        }
      }
      FewUpTo(times, accepted, last, max, window);
    }
  }

  // ---------- a maximum of one ----------

  /** A single remembered recovery is only replaced by one that is a window or more later. */
  lemma KeptOfOne(t: int, now: int, window: int)
    ensures Kept([t], now, window) == if now - t < window then [t] else []
  {
    assert [t][..0] == [];
  }

  lemma {:induction false} OneAtATime(times: seq<int>, n: nat, window: int)
    requires n <= |times| && window > 0
    ensures n > 0 ==>
      && |After(times, n, 1, window)| == 1
      && forall j :: 0 <= j < n && Accepted(times, j, 1, window) ==> times[j] <= After(times, n, 1, window)[0]
  {
    if n > 0 {
      OneAtATime(times, n - 1, window);
      var before := After(times, n - 1, 1, window);
      if n > 1 {
        assert before == [before[0]];
        KeptOfOne(before[0], times[n - 1], window);
      }
    }
  }

  lemma OneIsApart(times: seq<int>, j: nat, i: nat, window: int)
    requires j < i < |times| && window > 0
    requires Accepted(times, j, 1, window) && Accepted(times, i, 1, window)
    ensures times[i] - times[j] >= window
  {
    OneAtATime(times, i, window);
    var before := After(times, i, 1, window);
    assert before == [before[0]];
    KeptOfOne(before[0], times[i], window);
  }

  /** With a maximum of one, or none, no clock whatever breaks the bound. */
  lemma OneIsNeverExceeded(times: seq<int>, start: int, max: nat, window: int)
    requires max <= 1
    ensures |AcceptedWithin(times, start, max, window)| <= max
  {
    var accepted := AcceptedWithin(times, start, max, window);
    if accepted != {} {
      var last := Greatest(accepted);
      forall j | j in accepted ensures j == last {
        if j < last { OneIsApart(times, j, last, window); }
      }
      assert accepted == {last};
    }
  }

  // ---------- a clock that is set back ----------

  function Copies(n: nat, a: int): (copies: seq<int>)
    ensures |copies| == n && forall k :: 0 <= k < n ==> copies[k] == a
  {
    if n == 0 then [] else Copies(n - 1, a) + [a]
  }

  /** So many attempts at one time, one at a later and one at a third. */
  function ManyAndTwo(a: int, b: int, c: int, max: nat): seq<int> {
    Copies(max, a) + [b, c]
  }

  lemma {:induction false} CopiesKept(n: nat, a: int, now: int, window: int)
    ensures Kept(Copies(n, a), now, window) == if now - a < window then Copies(n, a) else []
  {
    if n > 0 {
      CopiesKept(n - 1, a, now, window);
      assert Copies(n, a)[..n - 1] == Copies(n - 1, a);
    }
  }

  lemma {:induction false} ManyAreAccepted(times: seq<int>, a: int, max: nat, window: int, n: nat)
    requires n <= max && n <= |times| && window > 0 && forall j :: 0 <= j < n ==> times[j] == a
    ensures After(times, n, max, window) == Copies(n, a)
    ensures forall j :: 0 <= j < n ==> Accepted(times, j, max, window)
  {
    if n > 0 {
      ManyAreAccepted(times, a, max, window, n - 1);
      CopiesKept(n - 1, a, a, window);
    }
  }

  lemma LastTwo(a: int, b: int, c: int, max: nat, window: int)
    requires b - a >= window && IsWithin(a, c, window) && max > 1
    ensures Accepted(ManyAndTwo(a, b, c, max), max + 1, max, window)
  {
    var times := ManyAndTwo(a, b, c, max);
    ManyAreAccepted(times, a, max, window, max);
    CopiesKept(max, a, b, window);
    assert times[max] == b && times[max + 1] == c;
    assert After(times, max + 1, max, window) == [b];
    KeptOfOne(b, c, window);
  }

  /** A clock that is a window or more ahead and set back earns one recovery more in one window. */
  lemma ClockSetBackEarnsMore(a: int, b: int, c: int, max: nat, window: int)
    requires b - a >= window && IsWithin(a, c, window) && max > 1
    ensures !NeverMoreThan(ManyAndTwo(a, b, c, max), max, window)
  {
    var times, start := ManyAndTwo(a, b, c, max), if a <= c then a else c;
    ManyAreAccepted(times, a, max, window, max);
    LastTwo(a, b, c, max, window);
    var first := set j: nat | j < max && Accepted(times, j, max, window);
    SizeOfInterval(first, 0, max);
    forall j | j in first + {max + 1} ensures j in AcceptedWithin(times, start, max, window) {
      assert j < max ==> times[j] == a;
    }
    assert max + 1 !in first;
    SubsetIsNoLarger(first + {max + 1}, AcceptedWithin(times, start, max, window));
  }

  // ---------- the exact condition ----------

  lemma ReadingsAreBounded(clock: seq<int>, at: seq<nat>, max: nat, window: int)
    requires KeepsClose(clock, window) && InOrder(at, |clock|)
    ensures NeverMoreThan(Readings(clock, at), max, window)
  {
    var times := Readings(clock, at);
    forall j, l, i | 0 <= j < l < i < |times| && IsWithin(times[j], times[i], window)
      ensures times[l] - times[j] < window
    {
      assert at[j] <= at[l] <= at[i];
    }
    forall start ensures |AcceptedWithin(times, start, max, window)| <= max {
      AtMostMaxRecoveries(times, start, max, window);
    }
  }

  lemma ReadingsExceed(clock: seq<int>, j: nat, l: nat, i: nat, max: nat, window: int) returns (at: seq<nat>)
    requires j < l < i < |clock| && IsWithin(clock[j], clock[i], window) && clock[l] - clock[j] >= window
    requires max > 1
    ensures InOrder(at, |clock|) && !NeverMoreThan(Readings(clock, at), max, window)
  {
    at := seq(max, _ => j) + [l, i];
    assert Readings(clock, at) == ManyAndTwo(clock[j], clock[l], clock[i], max);
    ClockSetBackEarnsMore(clock[j], clock[l], clock[i], max, window);
  }

  ghost predicate BoundHolds(clock: seq<int>, max: nat, window: int) {
    forall at: seq<nat> :: InOrder(at, |clock|) ==> NeverMoreThan(Readings(clock, at), max, window)
  }

  /** The bound holds of all attempts made at readings of a clock, in any number at each, if and only if
      the maximum is one at most or the clock keeps close. */
  lemma BoundHoldsIff(clock: seq<int>, max: nat, window: int)
    ensures BoundHolds(clock, max, window) <==> max <= 1 || KeepsClose(clock, window)
  {
    if max <= 1 {
      forall at: seq<nat> | InOrder(at, |clock|) ensures NeverMoreThan(Readings(clock, at), max, window) {
        forall start ensures |AcceptedWithin(Readings(clock, at), start, max, window)| <= max {
          OneIsNeverExceeded(Readings(clock, at), start, max, window);
        }
      }
    } else if KeepsClose(clock, window) {
      forall at: seq<nat> | InOrder(at, |clock|) ensures NeverMoreThan(Readings(clock, at), max, window) {
        ReadingsAreBounded(clock, at, max, window);
      }
    } else {
      var j, l, i :| 0 <= j < l < i < |clock| && IsWithin(clock[j], clock[i], window)
                     && clock[l] - clock[j] >= window;
      var at := ReadingsExceed(clock, j, l, i, max, window);
    }
  }

  /** A run of the object gives the answers of the runs above. */
  method Run(times: seq<int>, max: nat, window: int) returns (answers: seq<bool>)
    ensures |answers| == |times| && forall i :: 0 <= i < |times| ==> answers[i] == Accepted(times, i, max, window)
  {
    var policy := new RendererRecoveryPolicy(max, window);
    answers := [];
    for i := 0 to |times|
      invariant |answers| == i && forall j :: 0 <= j < i ==> answers[j] == Accepted(times, j, max, window)
      invariant policy.attempts == After(times, i, max, window)
      invariant policy.maxRecoveries == max && policy.recoveryWindowMs == window
    {
      var answer := policy.RegisterAttempt(times[i]);
      answers := answers + [answer];
    }
  }
}
