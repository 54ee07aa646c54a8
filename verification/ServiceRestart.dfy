/** When a crashed service is restarted: at most so often in a sliding window, ever more slowly. */
module ServiceRestart {
  import opened Indices
  import opened Options

  const RESTART_DELAYS_MS := [1_000, 2_000, 5_000, 10_000, 30_000]
  const CRASH_WINDOW_MS := 2 * 60_000

  datatype Decision = Decision(attempt: nat, delayMs: nat)

  /** The timestamps without those before the cutoff at their front. */
  function Shifted(timestamps: seq<int>, cutoff: int): seq<int> {
    if timestamps != [] && timestamps[0] < cutoff then Shifted(timestamps[1..], cutoff) else timestamps
  }

  function Registered(timestamps: seq<int>, now: int): seq<int> {
    Shifted(timestamps, now - CRASH_WINDOW_MS) + [now]
  }

  function DecisionFor(timestamps: seq<int>): Option<Decision> {
    if timestamps == [] || |timestamps| > |RESTART_DELAYS_MS| then None
    else Some(Decision(|timestamps|, RESTART_DELAYS_MS[|timestamps| - 1]))
  }

  // ---------- runs without reset ----------

  /** Crashes reported with a clock that does not go back. */
  ghost predicate Forward(times: seq<int>) {
    forall i, j :: 0 <= i < j < |times| ==> times[i] <= times[j]
  }

  /** What the policy remembers after the first n crashes. */
  function After(times: seq<int>, n: nat): seq<int>
    requires n <= |times|
  {
    if n == 0 then [] else Registered(After(times, n - 1), times[n - 1])
  }

  /** What it answers to crash i. */
  function Answer(times: seq<int>, i: nat): Option<Decision>
    requires i < |times|
  {
    DecisionFor(After(times, i + 1))
  }

  /** The crashes up to i in the closed window that ends at i. */
  function Recent(times: seq<int>, i: nat): set<nat>
    requires i < |times|
  {
    set j: nat | j <= i && times[i] - CRASH_WINDOW_MS <= times[j]
  }

  /** The restarts granted in the closed window that begins at `start`. */
  function GrantedWithin(times: seq<int>, start: int): set<nat> {
    set i: nat | i < |times| && Answer(times, i).Some? && start <= times[i] <= start + CRASH_WINDOW_MS
  }

  /** How many timestamps at the front are before the cutoff. */
  function OldAtFront(timestamps: seq<int>, cutoff: int): (k: nat)
    ensures k <= |timestamps|
    ensures forall j :: 0 <= j < k ==> timestamps[j] < cutoff
    ensures k < |timestamps| ==> timestamps[k] >= cutoff
  {
    if timestamps != [] && timestamps[0] < cutoff then 1 + OldAtFront(timestamps[1..], cutoff) else 0
  }

  lemma {:induction false} ShiftedIsSuffix(timestamps: seq<int>, cutoff: int)
    ensures Shifted(timestamps, cutoff) == timestamps[OldAtFront(timestamps, cutoff)..]
  {
    if timestamps != [] && timestamps[0] < cutoff {
      ShiftedIsSuffix(timestamps[1..], cutoff);
    }
  }

  /** The first crash still remembered after crash i. */
  function First(times: seq<int>, i: nat): (k: nat)
    requires i < |times|
    ensures k <= i
  {
    if i == 0 then 0 else
      var before := First(times, i - 1);
      before + OldAtFront(times[before..i], times[i] - CRASH_WINDOW_MS)
  }

  lemma SuffixAndNext(times: seq<int>, before: nat, dropped: nat, i: nat)
    requires before + dropped <= i < |times|
    ensures times[before..i][dropped..] + [times[i]] == times[before + dropped..i + 1]
  {
  }

  /** Whatever the clock does, the policy remembers the latest crashes, oldest first. */
  lemma {:induction false} RemembersFromFirst(times: seq<int>, i: nat)
    requires i < |times|
    ensures After(times, i + 1) == times[First(times, i)..i + 1]
  {
    var cutoff := times[i] - CRASH_WINDOW_MS;
    if i == 0 {
      assert Shifted([], cutoff) == [];
      assert times[0..1] == [times[0]];
    } else {
      var before := First(times, i - 1);
      RemembersFromFirst(times, i - 1);
      ShiftedIsSuffix(times[before..i], cutoff);
      SuffixAndNext(times, before, OldAtFront(times[before..i], cutoff), i);
    }
  }

  lemma FirstMovesOn(times: seq<int>, i: nat)
    requires 0 < i < |times|
    ensures First(times, i - 1) <= First(times, i)
    ensures forall j :: First(times, i - 1) <= j < First(times, i) ==> times[j] < times[i] - CRASH_WINDOW_MS
    ensures First(times, i) < i ==> times[First(times, i)] >= times[i] - CRASH_WINDOW_MS
  {
    var before := First(times, i - 1);
    assert forall j :: before <= j < i ==> times[j] == times[before..i][j - before];
  }

  lemma {:induction false} FirstNeverGoesBack(times: seq<int>, l: nat, i: nat)
    requires l <= i < |times|
    ensures First(times, l) <= First(times, i)
  {
    if l < i {
      FirstNeverGoesBack(times, l, i - 1);
      FirstMovesOn(times, i);
    }
  }

  // ---------- which clocks will do ----------

  /** The crashes from k on are exactly those of the window that ends with crash i. */
  ghost predicate BeginsWindow(times: seq<int>, i: nat, k: nat)
    requires i < |times|
  {
    forall j :: 0 <= j <= i ==> (k <= j <==> times[i] - CRASH_WINDOW_MS <= times[j])
  }

  /** After crash i the policy remembers exactly the crashes of the window that ends with it. */
  ghost predicate RemembersTheWindow(times: seq<int>, i: nat)
    requires i < |times|
  {
    BeginsWindow(times, i, First(times, i))
  }

  /** Crashes reported between two that are within one window are within the window of both: they are not
      older than that of the later one, and the earlier one was not yet too old for them. */
  ghost predicate IsSteady(times: seq<int>) {
    forall j, l, i :: 0 <= j < l < i < |times| ==> IsSteadyAt(times, j, l, i)
  }

  predicate IsSteadyAt(times: seq<int>, j: nat, l: nat, i: nat)
    requires j < l < i < |times|
  {
    times[i] - CRASH_WINDOW_MS <= times[j] ==>
      times[i] - CRASH_WINDOW_MS <= times[l] && times[l] - CRASH_WINDOW_MS <= times[j]
  }

  lemma ForwardIsSteady(times: seq<int>)
    requires Forward(times)
    ensures IsSteady(times)
  {
  }

  /** What `FirstMovesOn` says, of the two numbers alone. */
  ghost predicate IsNextFirst(times: seq<int>, i: nat, before: nat, k: nat)
    requires 0 < i < |times|
  {
    && before < i && before <= k <= i
    && (forall l :: before <= l < k ==> times[l] < times[i] - CRASH_WINDOW_MS)
    && (k < i ==> times[k] >= times[i] - CRASH_WINDOW_MS)
  }

  lemma FirstIsNext(times: seq<int>, i: nat)
    requires 0 < i < |times|
    ensures IsNextFirst(times, i, First(times, i - 1), First(times, i))
  {
    FirstMovesOn(times, i);
  }

  /** The window moves on to the first crash that is not too old. */
  lemma WindowMovesOn(times: seq<int>, i: nat, before: nat, k: nat)
    requires IsSteady(times) && 0 < i < |times| && IsNextFirst(times, i, before, k)
    requires BeginsWindow(times, i - 1, before)
    ensures BeginsWindow(times, i, k)
  {
    forall j | 0 <= j < i ensures k <= j <==> times[i] - CRASH_WINDOW_MS <= times[j] {
      if j < before {
        assert j < i - 1 && times[i - 1] - CRASH_WINDOW_MS > times[j];
        assert IsSteadyAt(times, j, i - 1, i);
      }
      if k < j {
        assert times[i] - CRASH_WINDOW_MS <= times[k];
        assert IsSteadyAt(times, k, j, i);
      }
    }
  }

  lemma {:induction false} SteadyRemembers(times: seq<int>, i: nat)
    requires IsSteady(times) && i < |times|
    ensures RemembersTheWindow(times, i)
  {
    if i > 0 {
      SteadyRemembers(times, i - 1);
      FirstIsNext(times, i);
      WindowMovesOn(times, i, First(times, i - 1), First(times, i));
    }
  }

  lemma UnsteadyForgets(times: seq<int>, j: nat, l: nat, i: nat)
    requires j < l < i < |times| && times[i] - CRASH_WINDOW_MS <= times[j]
    requires RemembersTheWindow(times, i) && RemembersTheWindow(times, l)
    ensures times[i] - CRASH_WINDOW_MS <= times[l] && times[l] - CRASH_WINDOW_MS <= times[j]
  {
    FirstNeverGoesBack(times, l, i);
  }

  /** The policy remembers exactly the window at every crash of a run if and only if the clock is steady. */
  lemma RemembersExactlyIff(times: seq<int>)
    ensures (forall i :: 0 <= i < |times| ==> RemembersTheWindow(times, i)) <==> IsSteady(times)
  {
    if IsSteady(times) {
      forall i | 0 <= i < |times| ensures RemembersTheWindow(times, i) {
        SteadyRemembers(times, i);
      }
    } else if forall i :: 0 <= i < |times| ==> RemembersTheWindow(times, i) {
      forall j, l, i | 0 <= j < l < i < |times| ensures IsSteadyAt(times, j, l, i) {
        if times[i] - CRASH_WINDOW_MS <= times[j] { UnsteadyForgets(times, j, l, i); }
      }
    }
  }

  // ---------- how often ----------

  lemma AnswerCountsTheWindow(times: seq<int>, i: nat)
    requires IsSteady(times) && i < |times|
    ensures |After(times, i + 1)| == |Recent(times, i)| >= 1
  {
    RemembersFromFirst(times, i);
    SteadyRemembers(times, i);
    SizeOfInterval(Recent(times, i), First(times, i), i + 1);
  }

  /** A restart is granted exactly if this is no more than the fifth crash in the two minutes that end
      with it; and the attempt and the delay are those of that number. */
  lemma GrantedExactlyIfFew(times: seq<int>, i: nat)
    requires IsSteady(times) && i < |times|
    ensures Answer(times, i).Some? <==> |Recent(times, i)| <= |RESTART_DELAYS_MS|
    ensures Answer(times, i).Some? ==>
              var d := Answer(times, i).value;
              d.attempt == |Recent(times, i)| && 1 <= d.attempt <= 5 && d.delayMs == RESTART_DELAYS_MS[d.attempt - 1]
  {
    AnswerCountsTheWindow(times, i);
  }

  // ---------- how often, whatever the clock does ----------

  /** Between two crashes within one window of each other the clock is never a window ahead of the first. */
  ghost predicate KeepsClose(times: seq<int>) {
    forall j, l, i :: 0 <= j < l < i < |times| && IsWithin(times[j], times[i]) ==>
      times[l] <= times[j] + CRASH_WINDOW_MS
  }

  predicate IsWithin(s: int, t: int) {
    s - CRASH_WINDOW_MS <= t <= s + CRASH_WINDOW_MS
  }

  lemma SteadyKeepsClose(times: seq<int>)
    requires IsSteady(times)
    ensures KeepsClose(times)
  {
    forall j, l, i | 0 <= j < l < i < |times| && IsWithin(times[j], times[i])
      ensures times[l] <= times[j] + CRASH_WINDOW_MS
    {
      assert IsSteadyAt(times, j, l, i);
    }
  }

  /** What was not too old for any crash behind it is not forgotten. */
  lemma {:induction false} NotForgotten(times: seq<int>, j: nat, i: nat)
    requires j <= i < |times| && forall l :: j < l <= i ==> times[l] - CRASH_WINDOW_MS <= times[j]
    ensures First(times, i) <= j
  {
    if j < i {
      NotForgotten(times, j, i - 1);
      FirstMovesOn(times, i);
    }
  }

  lemma CloseIsRemembered(times: seq<int>, j: nat, i: nat)
    requires KeepsClose(times) && j < i < |times| && IsWithin(times[j], times[i])
    ensures First(times, i) <= j
  {
    NotForgotten(times, j, i);
  }

  ghost predicate NeverMoreThanFive(times: seq<int>) {
    forall start :: |GrantedWithin(times, start)| <= |RESTART_DELAYS_MS|
  }

  /** No closed window of two minutes, wherever it begins, sees more than five restarts. */
  lemma AtMostFiveRestarts(times: seq<int>, start: int)
    requires KeepsClose(times)
    ensures |GrantedWithin(times, start)| <= |RESTART_DELAYS_MS|
  {
    var granted := GrantedWithin(times, start);
    if granted != {} {
      var last := Greatest(granted);
      var first := First(times, last);
      RemembersFromFirst(times, last);
      forall j | j in granted ensures first <= j < last + 1 {
        if j < last { CloseIsRemembered(times, j, last); }
      }
      SizeWithin(granted, first, last + 1);
    }
  }

  /** Five crashes at one time, one at a later and one at a third. */
  function FiveAndTwo(a: int, b: int, c: int): seq<int> {
    [a, a, a, a, a, b, c]
  }

  lemma FirstFive(a: int, b: int, c: int)
    ensures var times := FiveAndTwo(a, b, c);
      && After(times, 1) == [a] && After(times, 2) == [a, a] && After(times, 3) == [a, a, a]
      && After(times, 4) == [a, a, a, a] && After(times, 5) == [a, a, a, a, a]
  {
    var times := FiveAndTwo(a, b, c);
    assert After(times, 1) == [a];
    assert After(times, 2) == [a, a];
    assert After(times, 3) == [a, a, a];
    assert After(times, 4) == [a, a, a, a];
  }

  lemma LastTwo(a: int, b: int, c: int)
    requires a + CRASH_WINDOW_MS < b && IsWithin(a, c)
    ensures After(FiveAndTwo(a, b, c), 6) == [b] && After(FiveAndTwo(a, b, c), 7) == [b, c]
  {
    FirstFive(a, b, c);
    var five, cutoff := [a, a, a, a, a], b - CRASH_WINDOW_MS;
    ShiftedIsSuffix(five, cutoff);
    assert forall k :: 0 <= k < 5 ==> five[k] == a < cutoff;
    assert five[5..] == [];
    assert Registered(five, b) == [b];
  }

  lemma GrantedAt(times: seq<int>, i: nat, start: int)
    requires i < |times| && 1 <= |After(times, i + 1)| <= 5 && start <= times[i] <= start + CRASH_WINDOW_MS
    ensures i in GrantedWithin(times, start)
  {
  }

  /** A clock that is ahead by more than a window and set back earns a sixth restart in one window. */
  lemma ClockSetBackEarnsMore(a: int, b: int, c: int)
    requires a + CRASH_WINDOW_MS < b && IsWithin(a, c)
    ensures var start := if a <= c then a else c;
      {0, 1, 2, 3, 4, 6} <= GrantedWithin(FiveAndTwo(a, b, c), start)
  {
    var times, start := FiveAndTwo(a, b, c), if a <= c then a else c;
    FirstFive(a, b, c);
    LastTwo(a, b, c);
    GrantedAt(times, 0, start);
    GrantedAt(times, 1, start);
    GrantedAt(times, 2, start);
    GrantedAt(times, 3, start);
    GrantedAt(times, 4, start);
    GrantedAt(times, 6, start);
  }

  lemma SetBackExceeds(a: int, b: int, c: int)
    requires a + CRASH_WINDOW_MS < b && IsWithin(a, c)
    ensures !NeverMoreThanFive(FiveAndTwo(a, b, c))
  {
    var times, start := FiveAndTwo(a, b, c), if a <= c then a else c;
    var six: set<nat> := {0, 1, 2, 3, 4, 6};
    assert |six| == 6;
    ClockSetBackEarnsMore(a, b, c);
    SubsetIsNoLarger(six, GrantedWithin(times, start));
  }

  lemma ReadingsKeepClose(clock: seq<int>, at: seq<nat>)
    requires KeepsClose(clock) && InOrder(at, |clock|)
    ensures KeepsClose(Readings(clock, at))
  {
    var times := Readings(clock, at);
    forall j, l, i | 0 <= j < l < i < |times| && IsWithin(times[j], times[i])
      ensures times[l] <= times[j] + CRASH_WINDOW_MS
    {
      assert at[j] <= at[l] <= at[i];
    }
  }

  lemma ReadingsAreBounded(clock: seq<int>, at: seq<nat>)
    requires KeepsClose(clock) && InOrder(at, |clock|)
    ensures NeverMoreThanFive(Readings(clock, at))
  {
    ReadingsKeepClose(clock, at);
    forall start ensures |GrantedWithin(Readings(clock, at), start)| <= |RESTART_DELAYS_MS| {
      AtMostFiveRestarts(Readings(clock, at), start);
    }
  }

  lemma ReadingsExceed(clock: seq<int>, j: nat, l: nat, i: nat) returns (at: seq<nat>)
    requires j < l < i < |clock| && IsWithin(clock[j], clock[i]) && clock[l] > clock[j] + CRASH_WINDOW_MS
    ensures InOrder(at, |clock|) && !NeverMoreThanFive(Readings(clock, at))
  {
    at := [j, j, j, j, j, l, i];
    assert Readings(clock, at) == FiveAndTwo(clock[j], clock[l], clock[i]);
    SetBackExceeds(clock[j], clock[l], clock[i]);
  }

  ghost predicate BoundHolds(clock: seq<int>) {
    forall at: seq<nat> :: InOrder(at, |clock|) ==> NeverMoreThanFive(Readings(clock, at))
  }

  /** The bound holds of all crashes reported at readings of a clock, in any number at each, if and only
      if the clock keeps close. */
  lemma BoundHoldsIff(clock: seq<int>)
    ensures BoundHolds(clock) <==> KeepsClose(clock)
  {
    if KeepsClose(clock) {
      forall at: seq<nat> | InOrder(at, |clock|) ensures NeverMoreThanFive(Readings(clock, at)) {
        ReadingsAreBounded(clock, at);
      }
    } else {
      var j, l, i :| 0 <= j < l < i < |clock| && IsWithin(clock[j], clock[i])
                     && clock[l] > clock[j] + CRASH_WINDOW_MS;
      var at := ReadingsExceed(clock, j, l, i);
    }
  }

  // ---------- the policy object ----------

  class ServiceRestartPolicy {
    var crashTimestamps: seq<int>

    constructor ()
      ensures crashTimestamps == []
    {
      crashTimestamps := [];
    }

    method RegisterCrash(now: int) returns (decision: Option<Decision>)
      modifies this
      ensures crashTimestamps == Registered(old(crashTimestamps), now)
      ensures decision == DecisionFor(crashTimestamps)
    {
      var cutoff := now - CRASH_WINDOW_MS;
      while crashTimestamps != [] && crashTimestamps[0] < cutoff
        invariant Shifted(crashTimestamps, cutoff) == Shifted(old(crashTimestamps), cutoff)
        decreases |crashTimestamps|
      {
        crashTimestamps := crashTimestamps[1..];
      }
      crashTimestamps := crashTimestamps + [now];
      if |crashTimestamps| > |RESTART_DELAYS_MS| {
        return None;
      }
      var attempt := |crashTimestamps|;
      decision := Some(Decision(attempt, RESTART_DELAYS_MS[attempt - 1]));
    }

    method Reset()
      modifies this
      ensures crashTimestamps == []
    {
      crashTimestamps := [];
    }
  }

  /** A run of the object without reset gives the answers of the run above. */
  method Run(times: seq<int>) returns (answers: seq<Option<Decision>>)
    ensures |answers| == |times| && forall i :: 0 <= i < |times| ==> answers[i] == Answer(times, i)
  {
    var policy := new ServiceRestartPolicy();
    answers := [];
    for i := 0 to |times|
      invariant |answers| == i && forall j :: 0 <= j < i ==> answers[j] == Answer(times, j)
      invariant policy.crashTimestamps == After(times, i)
    {
      var answer := policy.RegisterCrash(times[i]);
      answers := answers + [answer];
    }
  }
}
