/** `ApplicationQuitCoordinator`: dirty windows are asked one after the other before the application
    quits. Asking may re-enter `remove` at once, when the window turns out to be destroyed. */
module QuitCoordinator {
  import opened Options

  datatype Reason = ExplicitQuit | LastWindowClosed | Relaunch | SystemShutdown | UpdateRestart

  datatype Decision = Cancel | Discard

  datatype Record = Record(isDirty: bool, allowClose: bool, closeRequestPending: bool, destroyed: bool)

  datatype Pending = Pending(reason: Reason, remaining: seq<nat>, resolved: seq<nat>, current: Option<nat>)

  /** How a window of the current round was dealt with. */
  datatype Settlement = Discarded | Removed | FoundClosable

  /** History of one quit round: the windows that were dirty and unapproved at the request, and what
      became of each of them so far. */
  datatype Round = Round(asked: set<nat>, settled: map<nat, Settlement>)

  /** `finalized` lists the rounds whose `finalize` was started. */
  datatype State = State(
    records: map<nat, Record>,
    pending: Option<Pending>,
    finalizing: bool,
    round: Round,
    finalized: seq<Round>)

  predicate NeedsDecision(r: Record) {
    r.isDirty && !r.allowClose
  }

  function Without(ws: seq<nat>, w: nat): (rest: seq<nat>)
    ensures |rest| <= |ws|
    ensures forall v :: v in rest <==> v in ws && v != w
    ensures w !in ws ==> rest == ws
  {
    if ws == [] then []
    else if ws[0] == w then Without(ws[1..], w)
    else [ws[0]] + Without(ws[1..], w)
  }

  predicate Distinct(ws: seq<nat>) {
    forall i, j :: 0 <= i < j < |ws| ==> ws[i] != ws[j]
  }

  lemma {:induction false} WithoutKeepsDistinct(ws: seq<nat>, w: nat)
    requires Distinct(ws)
    ensures Distinct(Without(ws, w))
  {
    if ws != [] {
      assert forall i :: 0 <= i < |ws[1..]| ==> ws[1..][i] == ws[i + 1];
      WithoutKeepsDistinct(ws[1..], w);
      var rest := Without(ws[1..], w);
      assert forall i :: 0 <= i < |rest| ==> rest[i] in ws[1..];
    }
  }

  function Settle(s: State, w: nat, how: Settlement): Round {
    if w in s.round.asked then s.round.(settled := s.round.settled[w := how]) else s.round
  }

  function Ask(r: Record): Record {
    r.(closeRequestPending := true)
  }

  // ---------- the methods, as functions of the state ----------

  function BeginFinalize(s: State): State {
    s.(pending := None, finalizing := true, finalized := s.finalized + [s.round])
  }

  predicate KnowsAll(s: State) {
    s.pending.Some? ==> forall w :: w in s.pending.value.remaining ==> w in s.records
  }

  /** `#requestNextDecision`. */
  function RequestNext(s: State): State
    requires KnowsAll(s)
    decreases if s.pending.Some? then |s.pending.value.remaining| else 0, 0
  {
    if s.pending.None? then s
    else
      var p := s.pending.value;
      if p.remaining == [] then BeginFinalize(s)
      else
        var next, rest := p.remaining[0], p.(remaining := p.remaining[1..]);
        if !NeedsDecision(s.records[next]) then
          RequestNext(s.(pending := Some(rest), round := Settle(s, next, FoundClosable)))
        else
          var asked :=
            s.(pending := Some(rest.(current := Some(next))), records := s.records[next := Ask(s.records[next])]);
          if s.records[next].destroyed then Remove(asked, next) else asked
  }

  /** `remove`. */
  function Remove(s: State, w: nat): State
    requires KnowsAll(s) && w in s.records
    decreases if s.pending.Some? then |s.pending.value.remaining| else 0, 1
  {
    if s.pending.None? then s
    else
      var p := s.pending.value;
      var fewer := p.(remaining := Without(p.remaining, w), resolved := Without(p.resolved, w));
      var removed := s.(pending := Some(fewer), round := Settle(s, w, Removed));
      if p.current != Some(w) then removed
      else
        RequestNext(removed.(pending := Some(fewer.(current := None)),
                             records := s.records[w := s.records[w].(closeRequestPending := false)]))
  }

  function NeedingDecision(records: map<nat, Record>, windows: seq<nat>): (ws: seq<nat>)
    requires forall w :: w in windows ==> w in records
    ensures forall w :: w in ws <==> w in windows && NeedsDecision(records[w])
  {
    if windows == [] then []
    else (if NeedsDecision(records[windows[0]]) then [windows[0]] else []) + NeedingDecision(records, windows[1..])
  }

  /** `request`, given the windows that are registered then. */
  function Request(s: State, reason: Reason, windows: seq<nat>): State
    requires forall w :: w in windows ==> w in s.records
  {
    if s.pending.Some? || s.finalizing then s
    else
      var remaining := NeedingDecision(s.records, windows);
      var started := s.(round := Round(set w | w in remaining, map[]));
      if remaining == [] then BeginFinalize(started)
      else RequestNext(started.(pending := Some(Pending(reason, remaining, [], None))))
  }

  function Disallow(records: map<nat, Record>, ws: seq<nat>): map<nat, Record> {
    map w | w in records :: if w in ws then records[w].(allowClose := false) else records[w]
  }

  /** `resolve`; the boolean is its result. */
  function Resolve(s: State, w: nat, decision: Decision): (State, bool)
    requires KnowsAll(s) && w in s.records
  {
    if s.pending.None? || s.pending.value.current != Some(w) then (s, false)
    else
      var p := s.pending.value;
      var answered := s.records[w].(closeRequestPending := false);
      if decision == Cancel then
        (s.(pending := None, records := Disallow(s.records[w := answered], p.resolved)), true)
      else
        (RequestNext(s.(pending := Some(p.(current := None, resolved := p.resolved + [w])),
                        records := s.records[w := answered.(allowClose := true)],
                        round := Settle(s, w, Discarded))), true)
  }

  // ---------- the invariant ----------

  /** The windows of the round are dealt with, still to come, or being asked: each exactly one. */
  ghost predicate RoundSplit(s: State, p: Pending) {
    && Distinct(p.remaining)
    && (forall w :: w in s.round.asked <==> w in s.round.settled || w in p.remaining || p.current == Some(w))
    && (forall w :: w in p.remaining ==> w !in s.round.settled && p.current != Some(w))
    && (p.current.Some? ==> p.current.value !in s.round.settled)
    && (forall w :: w in p.resolved <==> w in s.round.settled && s.round.settled[w] == Discarded)
    && (forall w :: w in s.round.asked ==> w in s.records)
  }

  /** Between two events a pending quit always has a current window, which is being asked. */
  ghost predicate Inv(s: State) {
    && (s.pending.Some? ==>
          && RoundSplit(s, s.pending.value) && !s.finalizing
          && s.pending.value.current.Some?)
    && (forall i :: 0 <= i < |s.finalized| ==> s.finalized[i].settled.Keys == s.finalized[i].asked)
  }

  /** In the middle of an event: nobody is being asked. */
  ghost predicate Between(s: State) {
    && s.pending.Some? && RoundSplit(s, s.pending.value) && !s.finalizing && s.pending.value.current.None?
    && (forall i :: 0 <= i < |s.finalized| ==> s.finalized[i].settled.Keys == s.finalized[i].asked)
  }

  lemma {:induction false} RequestNextKeepsInv(s: State)
    requires Between(s)
    ensures Inv(RequestNext(s))
    decreases |s.pending.value.remaining|
  {
    var p := s.pending.value;
    if p.remaining != [] {
      var next, rest := p.remaining[0], p.(remaining := p.remaining[1..]);
      assert forall w :: w in p.remaining <==> w == next || w in rest.remaining;
      assert next !in rest.remaining;
      if !NeedsDecision(s.records[next]) {
        RequestNextKeepsInv(s.(pending := Some(rest), round := Settle(s, next, FoundClosable)));
      } else if s.records[next].destroyed {
        var asked :=
          s.(pending := Some(rest.(current := Some(next))), records := s.records[next := Ask(s.records[next])]);
        RemoveStep(asked, next);
        var fewer := rest.(remaining := Without(rest.remaining, next), resolved := Without(rest.resolved, next));
        var closed := asked.records[next].(closeRequestPending := false);
        RequestNextKeepsInv(asked.(pending := Some(fewer.(current := None)), round := Settle(asked, next, Removed),
                                   records := asked.records[next := closed]));
      }
    } else {
      assert s.round.settled.Keys == s.round.asked;
    }
  }

  /** Taking a window out of the pending lists keeps the split; it counts as removed. */
  lemma RemoveStep(s: State, w: nat)
    requires s.pending.Some? && RoundSplit(s, s.pending.value) && w in s.records
    ensures var p := s.pending.value;
      var fewer := p.(remaining := Without(p.remaining, w), resolved := Without(p.resolved, w));
      var current := if p.current == Some(w) then None else p.current;
      RoundSplit(
        s.(pending := Some(fewer.(current := current)), round := Settle(s, w, Removed)), fewer.(current := current))
  {
    WithoutKeepsDistinct(s.pending.value.remaining, w);
  }

  lemma RemoveKeepsInv(s: State, w: nat)
    requires Inv(s) && w in s.records
    ensures Inv(Remove(s, w))
  {
    if s.pending.Some? {
      RemoveStep(s, w);
      var p := s.pending.value;
      if p.current == Some(w) {
        var fewer := p.(remaining := Without(p.remaining, w), resolved := Without(p.resolved, w), current := None);
        RequestNextKeepsInv(s.(pending := Some(fewer), round := Settle(s, w, Removed),
                               records := s.records[w := s.records[w].(closeRequestPending := false)]));
      }
    }
  }

  lemma ResolveKeepsInv(s: State, w: nat, decision: Decision)
    requires Inv(s) && w in s.records
    ensures Inv(Resolve(s, w, decision).0)
  {
    if s.pending.Some? && s.pending.value.current == Some(w) && decision == Discard {
      var p := s.pending.value;
      RequestNextKeepsInv(s.(pending := Some(p.(current := None, resolved := p.resolved + [w])),
                             records := s.records[w := s.records[w].(closeRequestPending := false, allowClose := true)],
                             round := Settle(s, w, Discarded)));
    }
  }

  lemma {:induction false} NeedingDecisionDistinct(records: map<nat, Record>, windows: seq<nat>)
    requires Distinct(windows) && forall w :: w in windows ==> w in records
    ensures Distinct(NeedingDecision(records, windows))
  {
    if windows != [] {
      assert forall i :: 0 <= i < |windows[1..]| ==> windows[1..][i] == windows[i + 1];
      NeedingDecisionDistinct(records, windows[1..]);
      var rest := NeedingDecision(records, windows[1..]);
      assert forall i :: 0 <= i < |rest| ==> rest[i] in windows[1..];
    }
  }

  lemma RequestKeepsInv(s: State, reason: Reason, windows: seq<nat>)
    requires Inv(s) && Distinct(windows) && forall w :: w in windows ==> w in s.records
    ensures Inv(Request(s, reason, windows))
  {
    NeedingDecisionDistinct(s.records, windows);
    var remaining := NeedingDecision(s.records, windows);
    var started := s.(round := Round(set w | w in remaining, map[]));
    if s.pending.None? && !s.finalizing && remaining != [] {
      RequestNextKeepsInv(started.(pending := Some(Pending(reason, remaining, [], None))));
    }
  }

  // ---------- what a turn comes to ----------

  /** The first window that still has to be asked and is still there. */
  function FirstToAsk(records: map<nat, Record>, ws: seq<nat>): (k: nat)
    requires forall w :: w in ws ==> w in records
    ensures k <= |ws|
    ensures k < |ws| ==> NeedsDecision(records[ws[k]]) && !records[ws[k]].destroyed
    ensures forall i :: 0 <= i < k ==> !NeedsDecision(records[ws[i]]) || records[ws[i]].destroyed
  {
    if ws == [] || (NeedsDecision(records[ws[0]]) && !records[ws[0]].destroyed) then 0
    else 1 + FirstToAsk(records, ws[1..])
  }

  function FirstOf(s: State): nat
    requires KnowsAll(s) && s.pending.Some?
  {
    FirstToAsk(s.records, s.pending.value.remaining)
  }

  /** The state after the first remaining window has been passed over. */
  function Skip(s: State): State
    requires KnowsAll(s) && s.pending.Some? && s.pending.value.remaining != []
  {
    var p := s.pending.value;
    var next := p.remaining[0];
    var r := s.records[next];
    s.(pending := Some(p.(remaining := p.remaining[1..])),
       round := Settle(s, next, if NeedsDecision(r) then Removed else FoundClosable),
       records := if NeedsDecision(r) then s.records[next := r.(closeRequestPending := false)] else s.records)
  }

  lemma SkippedFirst(s: State)
    requires Between(s) && s.pending.value.remaining != [] && FirstOf(s) > 0
    ensures Between(Skip(s)) && FirstOf(s) == FirstOf(Skip(s)) + 1
  {
    var p := s.pending.value;
    var next, rest := p.remaining[0], p.remaining[1..];
    assert forall w :: w in p.remaining <==> w == next || w in rest;
    assert next !in rest && next !in p.resolved;
    FirstUnaffected(s.records, Skip(s).records, rest, next);
  }

  lemma SkippedIsRequested(s: State)
    requires Between(s) && s.pending.value.remaining != [] && FirstOf(s) > 0 && Between(Skip(s))
    ensures RequestNext(s) == RequestNext(Skip(s))
  {
    var p := s.pending.value;
    var next, rest := p.remaining[0], p.remaining[1..];
    if NeedsDecision(s.records[next]) {
      assert next !in rest && next !in p.resolved;
      assert Without(rest, next) == rest && Without(p.resolved, next) == p.resolved;
      assert s.records[next := Ask(s.records[next])][next := Ask(s.records[next]).(closeRequestPending := false)]
          == Skip(s).records;
    }
  }

  lemma SkipStep(s: State)
    requires Between(s) && s.pending.value.remaining != [] && FirstOf(s) > 0
    ensures Between(Skip(s)) && RequestNext(s) == RequestNext(Skip(s))
    ensures FirstOf(s) == FirstOf(Skip(s)) + 1
  {
    SkippedFirst(s);
    SkippedIsRequested(s);
  }

  lemma {:induction false} FirstUnaffected(before: map<nat, Record>, after: map<nat, Record>, ws: seq<nat>, w: nat)
    requires w !in ws && (forall v :: v in ws ==> v in before && v in after && after[v] == before[v])
    ensures FirstToAsk(before, ws) == FirstToAsk(after, ws)
  {
    if ws != [] {
      FirstUnaffected(before, after, ws[1..], w);
    }
  }

  /** Where `#requestNextDecision` ends, re-entrant or not: at the first window that still has to be
      asked and is there, or at the start of `finalize` if there is none. */
  lemma {:induction false} RequestNextEndsAtFirst(s: State)
    requires Between(s)
    ensures var p, k, s' := s.pending.value, FirstOf(s), RequestNext(s);
      && s'.round.asked == s.round.asked
      && if k < |p.remaining| then
           && s'.pending == Some(p.(remaining := p.remaining[k + 1..], current := Some(p.remaining[k])))
           && s'.finalizing == s.finalizing && s'.finalized == s.finalized
         else
           s'.pending.None? && s'.finalizing && s'.finalized == s.finalized + [s'.round]
    decreases |s.pending.value.remaining|
  {
    if s.pending.value.remaining != [] && FirstOf(s) > 0 {
      SkipStep(s);
      RequestNextEndsAtFirst(Skip(s));
    }
  }

  /** The windows that are passed over are settled: clean or approved ones as closable, destroyed ones
      as removed; what was settled before stays. */
  lemma {:induction false} PassedOverAreSettled(s: State, i: nat)
    requires Between(s) && i < FirstOf(s)
    ensures var w := s.pending.value.remaining[i];
      && w in RequestNext(s).round.settled
      && RequestNext(s).round.settled[w] == if NeedsDecision(s.records[w]) then Removed else FoundClosable
    decreases i
  {
    SkipStep(s);
    if i == 0 {
      SettledStays(Skip(s), s.pending.value.remaining[0]);
    } else {
      PassedOverAreSettled(Skip(s), i - 1);
    }
  }

  lemma {:induction false} SettledStays(s: State, w: nat)
    requires Between(s) && w in s.round.settled
    ensures w in RequestNext(s).round.settled && RequestNext(s).round.settled[w] == s.round.settled[w]
    decreases |s.pending.value.remaining|
  {
    if s.pending.value.remaining != [] && FirstOf(s) > 0 {
      SkipStep(s);
      SettledStays(Skip(s), w);
    }
  }

  /** Only `closeRequestPending` changes: set on the window that is asked, cleared on destroyed ones that
      were passed over, and untouched elsewhere. Nobody's approval is affected. */
  lemma {:induction false} OnlyTheAskedIsMarked(s: State, w: nat)
    requires Between(s) && w in s.records
    ensures w in RequestNext(s).records
    ensures var r, r' := s.records[w], RequestNext(s).records[w];
      r'.(closeRequestPending := false) == r.(closeRequestPending := false)
    ensures RequestNext(s).pending.Some? && RequestNext(s).pending.value.current == Some(w) ==>
      RequestNext(s).records[w].closeRequestPending
    ensures w !in s.pending.value.remaining ==> RequestNext(s).records[w] == s.records[w]
    decreases |s.pending.value.remaining|
  {
    if s.pending.value.remaining != [] && FirstOf(s) > 0 {
      SkipStep(s);
      OnlyTheAskedIsMarked(Skip(s), w);
    }
  }

  /** `cancel` withdraws every approval that this round gave, and nothing else changes but the mark of
      the window that answered. */
  lemma CancelWithdrawsApprovals(s: State, w: nat)
    requires Inv(s) && s.pending.Some? && s.pending.value.current == Some(w) && w in s.records
    ensures var s' := Resolve(s, w, Cancel).0;
      && s'.pending.None? && s'.finalizing == s.finalizing && s'.finalized == s.finalized
      && s'.records.Keys == s.records.Keys
      && forall v :: v in s.records ==>
           if v in s.round.settled && s.round.settled[v] == Discarded
           then !s'.records[v].allowClose
           else s'.records[v].allowClose == s.records[v].allowClose
  {
  }

  /** `discard` approves the window that answered, and the next one in line is asked. */
  lemma DiscardApproves(s: State, w: nat)
    requires Inv(s) && s.pending.Some? && s.pending.value.current == Some(w) && w in s.records
    ensures var s' := Resolve(s, w, Discard).0;
      && w in s'.records && s'.records[w].allowClose && !s'.records[w].closeRequestPending
      && w in s'.round.settled && s'.round.settled[w] == Discarded
      && (s'.pending.None? ==> s'.finalizing && s'.finalized == s.finalized + [s'.round])
  {
    var p := s.pending.value;
    var after := s.(pending := Some(p.(current := None, resolved := p.resolved + [w])),
                    records := s.records[w := s.records[w].(closeRequestPending := false, allowClose := true)],
                    round := Settle(s, w, Discarded));
    assert Between(after);
    OnlyTheAskedIsMarked(after, w);
    SettledStays(after, w);
    RequestNextEndsAtFirst(after);
  }

  /** `request` asks exactly the windows that are dirty and unapproved at that moment. */
  lemma RequestAsksTheDirty(s: State, reason: Reason, windows: seq<nat>)
    requires Inv(s) && s.pending.None? && !s.finalizing
    requires Distinct(windows) && forall w :: w in windows ==> w in s.records
    ensures var s' := Request(s, reason, windows);
      && s'.round.asked == (set w | w in windows && s.records[w].isDirty && !s.records[w].allowClose)
      && (s'.pending.Some? ==> s'.pending.value.reason == reason)
      && (s'.pending.None? ==> s'.finalizing && s'.finalized == s.finalized + [s'.round])
  {
    NeedingDecisionDistinct(s.records, windows);
    var remaining := NeedingDecision(s.records, windows);
    if remaining != [] {
      RequestNextEndsAtFirst(s.(round := Round(set w | w in remaining, map[]),
                                pending := Some(Pending(reason, remaining, [], None))));
    }
  }

  ghost predicate ComesBefore(ws: seq<nat>, v: nat, w: nat) {
    exists i, j :: 0 <= i < j < |ws| && ws[i] == v && ws[j] == w
  }

  lemma OneMoreInFront(first: nat, ws: seq<nat>, v: nat, w: nat)
    requires ComesBefore(ws, v, w) || (v == first && w in ws)
    ensures ComesBefore([first] + ws, v, w)
  {
    var all := [first] + ws;
    if ComesBefore(ws, v, w) {
      var i, j :| 0 <= i < j < |ws| && ws[i] == v && ws[j] == w;
      assert all[i + 1] == v && all[j + 1] == w;
    } else {
      var j :| 0 <= j < |ws| && ws[j] == w;
      assert all[0] == v && all[j + 1] == w;
    }
  }

  /** Windows that need a decision are asked in the order in which they were given. */
  lemma {:induction false} AskedInOrder(records: map<nat, Record>, windows: seq<nat>, i: nat, j: nat)
    requires (forall w :: w in windows ==> w in records) && i < j < |windows|
    requires NeedsDecision(records[windows[i]]) && NeedsDecision(records[windows[j]])
    ensures ComesBefore(NeedingDecision(records, windows), windows[i], windows[j])
  {
    var rest := NeedingDecision(records, windows[1..]);
    if i == 0 {
      assert windows[j] == windows[1..][j - 1];
      OneMoreInFront(windows[0], rest, windows[i], windows[j]);
    } else {
      AskedInOrder(records, windows[1..], i - 1, j - 1);
      if NeedsDecision(records[windows[0]]) {
        OneMoreInFront(windows[0], rest, windows[i], windows[j]);
      } else {
        assert NeedingDecision(records, windows) == rest;
      }
    }
  }

  /** An answer counts if and only if it comes from the window that is asked; else nothing changes. */
  lemma OnlyTheAskedAnswers(s: State, w: nat, decision: Decision)
    requires Inv(s) && w in s.records
    ensures var (after, counts) := Resolve(s, w, decision);
      && (counts <==> s.pending.Some? && s.pending.value.current == Some(w))
      && (!counts ==> after == s)
      && (counts && decision == Cancel ==> after.pending.None? && after.finalized == s.finalized)
  {
  }

  // ---------- every interleaving ----------

  /** `Change` stands for everything else that happens to a window record: it appears, becomes dirty or
      clean, is approved, is destroyed. */
  datatype Event =
    | RequestQuit(reason: Reason, windows: seq<nat>)
    | ResolveWindow(w: nat, decision: Decision)
    | RemoveWindow(w: nat)
    | Change(w: nat, record: Record)
    | FinalizeEnded

  predicate Enabled(s: State, e: Event) {
    match e
    case RequestQuit(_, windows) => Distinct(windows) && forall w :: w in windows ==> w in s.records
    case ResolveWindow(w, _) => w in s.records
    case RemoveWindow(w) => w in s.records
    case Change(_, _) => true
    case FinalizeEnded => s.finalizing
  }

  ghost predicate Next(s: State, e: Event, s': State) {
    && KnowsAll(s) && Enabled(s, e)
    && match e
       case RequestQuit(reason, windows) => s' == Request(s, reason, windows)
       case ResolveWindow(w, decision) => s' == Resolve(s, w, decision).0
       case RemoveWindow(w) => s' == Remove(s, w)
       case Change(w, record) => s' == s.(records := s.records[w := record])
       case FinalizeEnded => s' == s.(finalizing := false)
  }

  lemma NextKeepsInv(s: State, e: Event, s': State)
    requires Inv(s) && Next(s, e, s')
    ensures Inv(s')
  {
    match e {
      case RequestQuit(reason, windows) => RequestKeepsInv(s, reason, windows);
      case ResolveWindow(w, decision) => ResolveKeepsInv(s, w, decision);
      case RemoveWindow(w) => RemoveKeepsInv(s, w);
      case Change(w, record) =>
      case FinalizeEnded =>
    }
  }

  const Idle := State(map[], None, false, Round({}, map[]), [])

  /** A run from the start of the application, driven by any events that its callers may send. */
  ghost predicate IsRun(states: seq<State>, events: seq<Event>) {
    && |states| == |events| + 1 && states[0] == Idle
    && forall i :: 0 <= i < |events| ==> Next(states[i], events[i], states[i + 1])
  }

  /** In every run: a pending quit always has a window that is being asked, and it is not finalizing;
      every round that was ever finalized had settled all the windows it was asked about. */
  lemma {:induction false} NeverStuckNeverEarly(states: seq<State>, events: seq<Event>, i: nat)
    requires IsRun(states, events) && i < |states|
    ensures Inv(states[i])
    ensures states[i].pending.Some? ==>
      && !states[i].finalizing
      && states[i].pending.value.current.Some? && states[i].pending.value.current.value in states[i].records
    ensures forall k :: 0 <= k < |states[i].finalized| ==>
      states[i].finalized[k].settled.Keys == states[i].finalized[k].asked
  {
    if i > 0 {
      NeverStuckNeverEarly(states, events, i - 1);
      NextKeepsInv(states[i - 1], events[i - 1], states[i]);
    }
    if states[i].pending.Some? {
      assert states[i].pending.value.current.value in states[i].round.asked;
    }
  }

  // ---------- a round from its request to its end ----------

  /** While a quit is pending or being finalized, another request changes nothing. */
  lemma SecondRequestIsIgnored(s: State, reason: Reason, windows: seq<nat>)
    requires forall w :: w in windows ==> w in s.records
    requires s.pending.Some? || s.finalizing
    ensures Request(s, reason, windows) == s
  {
  }

  ghost predicate IsDiscarded(s: State, w: nat) {
    w in s.round.settled && s.round.settled[w] == Discarded
  }

  lemma RequestNextGoesOn(s: State, w: nat)
    requires Between(s)
    ensures RequestNext(s).round.asked == s.round.asked
    ensures RequestNext(s).pending.Some? ==> RequestNext(s).pending.value.reason == s.pending.value.reason
    ensures IsDiscarded(s, w) ==> IsDiscarded(RequestNext(s), w)
  {
    RequestNextEndsAtFirst(s);
    if IsDiscarded(s, w) { SettledStays(s, w); }
  }

  /** One event of a round: it stays about the same windows, for the same reason, and what was discarded
      stays so unless that window is removed. */
  lemma RoundGoesOn(s: State, e: Event, s': State, w: nat)
    requires Inv(s) && Next(s, e, s') && s.pending.Some? && s'.pending.Some?
    ensures s'.round.asked == s.round.asked && s'.pending.value.reason == s.pending.value.reason
    ensures IsDiscarded(s, w) && e != RemoveWindow(w) ==> IsDiscarded(s', w)
  {
    var p := s.pending.value;
    match e
    case RequestQuit(reason, windows) => SecondRequestIsIgnored(s, reason, windows);
    case ResolveWindow(v, decision) =>
      if p.current == Some(v) {
        RequestNextGoesOn(
          s.(pending := Some(p.(current := None, resolved := p.resolved + [v])),
             records := s.records[v := s.records[v].(closeRequestPending := false, allowClose := true)],
             round := Settle(s, v, Discarded)), w);
      }
    case RemoveWindow(v) =>
      if p.current == Some(v) {
        RemoveStep(s, v);
        RequestNextGoesOn(
          s.(pending := Some(Pending(p.reason, Without(p.remaining, v), Without(p.resolved, v), None)),
             round := Settle(s, v, Removed),
             records := s.records[v := s.records[v].(closeRequestPending := false)]), w);
      }
    case Change(_, _) =>
    case FinalizeEnded =>
  }

  /** No round ends between step a and step b. */
  ghost predicate WithinRound(states: seq<State>, a: nat, b: nat) {
    b < |states| && forall k :: a <= k <= b ==> states[k].pending.Some?
  }

  /** From the request that opens a round to its end, whatever is requested in between, the round is
      about the same windows and for the same reason. */
  lemma {:induction false} RoundIsAboutTheSame(states: seq<State>, events: seq<Event>, a: nat, b: nat)
    requires IsRun(states, events) && a <= b && WithinRound(states, a, b)
    ensures states[b].round.asked == states[a].round.asked
    ensures states[b].pending.value.reason == states[a].pending.value.reason
  {
    if a < b {
      RoundIsAboutTheSame(states, events, a, b - 1);
      NeverStuckNeverEarly(states, events, b - 1);
      assert Next(states[b - 1], events[b - 1], states[b - 1 + 1]);
      RoundGoesOn(states[b - 1], events[b - 1], states[b], 0);
    }
  }

  lemma {:induction false} DiscardedStays(states: seq<State>, events: seq<Event>, a: nat, b: nat, w: nat)
    requires IsRun(states, events) && a <= b && WithinRound(states, a, b) && IsDiscarded(states[a], w)
    requires forall k :: a <= k < b ==> events[k] != RemoveWindow(w)
    ensures IsDiscarded(states[b], w)
  {
    if a < b {
      DiscardedStays(states, events, a, b - 1, w);
      NeverStuckNeverEarly(states, events, b - 1);
      assert Next(states[b - 1], events[b - 1], states[b - 1 + 1]);
      RoundGoesOn(states[b - 1], events[b - 1], states[b], w);
    }
  }

  /** A cancel leaves no window approved that was discarded since the request that opened the round,
      however many other requests came in between; only a window that was removed is left alone. */
  lemma CancelLeavesNoApproval(states: seq<State>, events: seq<Event>, a: nat, b: nat, w: nat, v: nat)
    requires IsRun(states, events) && a < b < |events| && WithinRound(states, a, b)
    requires events[a] == ResolveWindow(w, Discard) && states[a].pending.value.current == Some(w)
    requires forall k :: a < k < b ==> events[k] != RemoveWindow(w)
    requires events[b] == ResolveWindow(v, Cancel) && states[b].pending.value.current == Some(v)
    ensures states[b + 1].pending.None? && w in states[b + 1].records && !states[b + 1].records[w].allowClose
  {
    NeverStuckNeverEarly(states, events, a);
    NeverStuckNeverEarly(states, events, b);
    assert Next(states[a], events[a], states[a + 1]) && Next(states[b], events[b], states[b + 1]);
    DiscardApproves(states[a], w);
    DiscardedStays(states, events, a + 1, b, w);
    CancelWithdrawsApprovals(states[b], v);
    assert w in states[b].round.asked;
  }

  // ---------- the program ----------

  class ApplicationQuitCoordinator {
    var records: map<nat, Record>
    var pending: Option<Pending>
    var finalizing: bool
    ghost var round: Round
    ghost var finalized: seq<Round>

    ghost function View(): State
      reads this
    {
      State(records, pending, finalizing, round, finalized)
    }

    constructor ()
      ensures View() == Idle
    {
      records, pending, finalizing, round, finalized := map[], None, false, Round({}, map[]), [];
    }

    method RequestQuit(reason: Reason, windows: seq<nat>)
      requires Inv(View()) && Distinct(windows) && forall w :: w in windows ==> w in records
      modifies this
      ensures Inv(View()) && View() == Request(old(View()), reason, windows)
    {
      RequestKeepsInv(View(), reason, windows);
      if pending.Some? || finalizing {
        return;
      }
      var remaining := NeedingDecision(records, windows);
      NeedingDecisionDistinct(records, windows);
      round := Round(set w | w in remaining, map[]);
      if |remaining| == 0 {
        StartFinalize();
        return;
      }
      pending := Some(Pending(reason, remaining, [], None));
      RequestNextDecision();
    }

    method ResolveDecision(w: nat, decision: Decision) returns (handled: bool)
      requires Inv(View()) && w in records
      modifies this
      ensures Inv(View()) && (View(), handled) == Resolve(old(View()), w, decision)
    {
      ResolveKeepsInv(View(), w, decision);
      if pending.None? || pending.value.current != Some(w) {
        return false;
      }
      records := records[w := records[w].(closeRequestPending := false)];
      if decision == Cancel {
        records := Disallow(records, pending.value.resolved);
        pending := None;
        return true;
      }
      records := records[w := records[w].(allowClose := true)];
      round := Settle(View(), w, Discarded);
      pending := Some(pending.value.(current := None, resolved := pending.value.resolved + [w]));
      assert records == old(records)[w := old(records)[w].(closeRequestPending := false, allowClose := true)];
      RequestNextDecision();
      handled := true;
    }

    method RemoveRecord(w: nat)
      requires KnowsAll(View()) && w in records
      modifies this
      ensures View() == Remove(old(View()), w)
      decreases if pending.Some? then |pending.value.remaining| else 0, 1
    {
      if pending.None? {
        return;
      }
      var p := pending.value;
      round := Settle(View(), w, Removed);
      pending := Some(p.(remaining := Without(p.remaining, w), resolved := Without(p.resolved, w)));
      if p.current == Some(w) {
        records := records[w := records[w].(closeRequestPending := false)];
        pending := Some(pending.value.(current := None));
        RequestNextDecision();
      }
    }

    method RequestNextDecision()
      requires KnowsAll(View())
      modifies this
      ensures View() == RequestNext(old(View()))
      decreases if pending.Some? then |pending.value.remaining| else 0, 0
    {
      if pending.None? {
        return;
      }
      var p := pending.value;
      if |p.remaining| == 0 {
        StartFinalize();
        return;
      }
      var next := p.remaining[0];
      pending := Some(p.(remaining := p.remaining[1..]));
      if !records[next].isDirty || records[next].allowClose {
        round := Settle(View(), next, FoundClosable);
        RequestNextDecision();
        return;
      }
      pending := Some(pending.value.(current := Some(next)));
      records := records[next := records[next].(closeRequestPending := true)];
      RequestWindowQuitDecision(next);
    }

    /** The callback of the main process: a destroyed window is removed at once, re-entering the
        coordinator; another one is sent the question. */
    method RequestWindowQuitDecision(w: nat)
      requires KnowsAll(View()) && w in records
      modifies this
      ensures View() == if old(records)[w].destroyed then Remove(old(View()), w) else old(View())
      decreases if pending.Some? then |pending.value.remaining| else 0, 2
    {
      if records[w].destroyed {
        RemoveRecord(w);
      }
    }

    method StartFinalize()
      modifies this
      ensures View() == BeginFinalize(old(View()))
    {
      pending := None;
      finalizing := true;
      finalized := finalized + [round];
    }
  }
}
