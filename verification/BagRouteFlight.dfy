/** The single-flight protocol for one bag: concurrent calls of `resolve_cached_bag_route`, their
    leases and waiters, cancellation at any await, and a clock that moves on. */
module BagRouteFlight {
  import opened Options
  import opened BagRouteCache

  /** Where a call is. `Returned` and `Cancelled` calls are over. */
  datatype Point =
    | Started
    | Looking
    | Beginning
    | Waiting(ticket: nat)
    | Leading(lease: nat)
    | Fetching(lease: nat)
    | Storing(lease: nat, fetched: Option<Route>)
    | Dropping(lease: nat, result: Option<Route>)
    | Returned(result: Option<Route>)
    | Cancelled

  /** One call: its manifest route (read once), `force_refresh`, `known_route`, and the number of
      upstream fetches it has made. */
  datatype Call = Call(manifest: Option<Route>, force: bool, known: Option<Route>, fetches: nat, point: Point)

  /** `detached` holds stores whose caller was cancelled while the blocking task went on. */
  datatype World = World(
    now: nat,
    row: Option<Row>,
    inFlight: Option<nat>,
    nextLease: nat,
    calls: seq<Call>,
    detached: multiset<Option<Route>>)

  predicate Holds(call: Call, lease: nat) {
    || call.point == Leading(lease) || call.point == Fetching(lease)
    || (call.point.Storing? && call.point.lease == lease)
    || (call.point.Dropping? && call.point.lease == lease)
  }

  predicate HoldsLease(call: Call) {
    call.point.Leading? || call.point.Fetching? || call.point.Storing? || call.point.Dropping?
  }

  predicate Over(call: Call) {
    call.point.Returned? || call.point.Cancelled?
  }

  // ---------- begin_fetch and the lease ----------

  /** `notify_waiters` reaches every waiter registered for this lease; each looks again, unforced. */
  function Woken(call: Call, lease: nat): Call {
    if call.point == Waiting(lease) then call.(force := false, point := Looking) else call
  }

  function WakeAll(calls: seq<Call>, lease: nat): (woken: seq<Call>)
    ensures |woken| == |calls|
    ensures forall i :: 0 <= i < |calls| ==> woken[i] == Woken(calls[i], lease)
  {
    seq(|calls|, i requires 0 <= i < |calls| => Woken(calls[i], lease))
  }

  /** `Drop`: the entry goes only if it is still this lease's own; the waiters are always woken. */
  function DropLease(w: World, lease: nat): World {
    w.(inFlight := if w.inFlight == Some(lease) then None else w.inFlight, calls := WakeAll(w.calls, lease))
  }

  function AtCall(w: World, i: nat, call: Call): World
    requires i < |w.calls|
  {
    w.(calls := w.calls[i := call])
  }

  function BeginFetch(w: World, i: nat): World
    requires i < |w.calls|
  {
    match w.inFlight
    case Some(lease) => AtCall(w, i, w.calls[i].(point := Waiting(lease)))
    case None =>
      AtCall(w, i, w.calls[i].(point := Leading(w.nextLease)))
        .(inFlight := Some(w.nextLease), nextLease := w.nextLease + 1)
  }

  /** The head of the retry loop: read the cache, and return or go on to `begin_fetch`. */
  function Look(w: World, i: nat): World
    requires i < |w.calls|
  {
    var call := w.calls[i];
    var entry := Read(w.row, w.now);
    var known := if entry.Some? then entry.value.route else call.known;
    var answered := !call.force && ((entry.Some? && !RetryDue(entry.value, w.now)) || IsComplete(call.manifest));
    var point := if answered then Returned(Select(known, call.manifest)) else Beginning;
    AtCall(w, i, call.(known := known, point := point)).(row := AfterRead(w.row, w.now))
  }

  // ---------- steps ----------

  /** A step of call `i` that is not a cancellation. */
  ghost predicate CallStep(w: World, i: nat, w': World)
    requires i < |w.calls|
  {
    var call := w.calls[i];
    match call.point
    case Started => exists manifest :: w' == AtCall(w, i, call.(manifest := manifest, point := Looking))
    case Looking => w' == Look(w, i)
    case Beginning => w' == BeginFetch(w, i)
    case Waiting(_) => false
    case Leading(lease) =>
      || w' == AtCall(w, i, call.(point := Fetching(lease)))
      || w' == AtCall(w, i, call.(point := Dropping(lease, Select(call.known, call.manifest))))
    case Fetching(lease) =>
      exists fetched :: w' == AtCall(w, i, call.(fetches := call.fetches + 1, point := Storing(lease, fetched)))
    case Storing(lease, fetched) =>
      var row := Recorded(w.row, fetched, w.now);
      w' == AtCall(w, i, call.(point := Dropping(lease, Select(row.route, call.manifest)))).(row := Some(row))
    case Dropping(lease, result) => w' == DropLease(AtCall(w, i, call.(point := Returned(result))), lease)
    case Returned(_) => false
    case Cancelled => false
  }

  /** The call is cancelled: a held lease is dropped; a store already handed to a blocking task may
      still happen later. */
  ghost predicate CancelStep(w: World, i: nat, w': World)
    requires i < |w.calls|
  {
    var call := w.calls[i];
    var gone := AtCall(w, i, call.(point := Cancelled));
    && !Over(call)
    && if !HoldsLease(call) then w' == gone
       else
         var dropped := DropLease(gone, call.point.lease);
         || w' == dropped
         || (call.point.Storing? && w' == dropped.(detached := dropped.detached + multiset{call.point.fetched}))
  }

  /** The clock moves on, a detached store happens, or the row goes: expired, or for capacity. */
  ghost predicate OutsideStep(w: World, w': World, evicts: bool) {
    || (exists now :: now >= w.now && w' == w.(now := now))
    || (exists fetched :: fetched in w.detached &&
          w' == w.(row := Some(Recorded(w.row, fetched, w.now)), detached := w.detached - multiset{fetched}))
    || (w.row.Some? && (evicts || IsPruned(w.row.value, w.now)) && w' == w.(row := None))
  }

  ghost predicate Step(w: World, w': World) {
    || OutsideStep(w, w', true)
    || exists i :: 0 <= i < |w.calls| && (CallStep(w, i, w') || CancelStep(w, i, w'))
  }

  ghost predicate Init(w: World) {
    && w.inFlight.None? && w.detached == multiset{}
    && (w.row.Some? ==> RowSound(w.row.value))
    && forall i :: 0 <= i < |w.calls| ==>
         w.calls[i].point == Started && w.calls[i].fetches == 0 && w.calls[i].known.None?
  }

  ghost predicate IsRun(run: seq<World>) {
    && |run| > 0 && Init(run[0])
    && forall i :: 0 <= i < |run| - 1 ==> Step(run[i], run[i + 1])
  }

  // ---------- the invariant ----------

  predicate CallSound(call: Call, inFlight: Option<nat>) {
    && (HoldsLease(call) ==> inFlight == Some(call.point.lease))
    && (call.point.Waiting? ==> inFlight == Some(call.point.ticket))
    && call.fetches <= 1
    && (call.fetches == 1 ==> call.point.Storing? || call.point.Dropping? || Over(call))
  }

  ghost predicate Inv(w: World) {
    && (forall i :: 0 <= i < |w.calls| ==> CallSound(w.calls[i], w.inFlight))
    && (forall i, j :: 0 <= i < |w.calls| && 0 <= j < |w.calls| && HoldsLease(w.calls[i]) && HoldsLease(w.calls[j])
          ==> i == j)
    && (w.inFlight.Some? ==> exists i :: 0 <= i < |w.calls| && HoldsLease(w.calls[i]))
    && (w.inFlight.Some? ==> w.inFlight.value < w.nextLease)
    && (w.row.Some? ==> RowSound(w.row.value))
  }

  /** A step that changes one call only, and not whether it holds the lease. */
  lemma ReplacementKeepsInv(w: World, i: nat, call: Call, w': World)
    requires Inv(w) && i < |w.calls| && w'.calls == w.calls[i := call]
    requires w'.inFlight == w.inFlight && w'.nextLease == w.nextLease
    requires CallSound(call, w.inFlight) && HoldsLease(call) == HoldsLease(w.calls[i])
    requires w'.row.Some? ==> RowSound(w'.row.value)
    ensures Inv(w')
  {
    if w.inFlight.Some? {
      var holder :| 0 <= holder < |w.calls| && HoldsLease(w.calls[holder]);
      assert HoldsLease(w'.calls[holder]);
    }
  }

  lemma BeginKeepsInv(w: World, i: nat, w': World)
    requires Inv(w) && i < |w.calls| && w.calls[i].point.Beginning? && w' == BeginFetch(w, i)
    ensures Inv(w')
  {
    match w.inFlight {
      case Some(lease) => ReplacementKeepsInv(w, i, w.calls[i].(point := Waiting(lease)), w');
      case None =>
        assert HoldsLease(w'.calls[i]);
        assert forall j :: 0 <= j < |w.calls| ==> !HoldsLease(w.calls[j]);
    }
  }

  lemma DropKeepsInv(w: World, i: nat, over: Call, w': World)
    requires Inv(w) && i < |w.calls| && HoldsLease(w.calls[i]) && Over(over) && over.fetches <= 1
    requires w'.calls == DropLease(AtCall(w, i, over), w.calls[i].point.lease).calls
    requires w'.inFlight == DropLease(AtCall(w, i, over), w.calls[i].point.lease).inFlight
    requires w'.nextLease == w.nextLease && w'.row == w.row
    ensures Inv(w')
  {
    assert CallSound(w.calls[i], w.inFlight);
    forall j | 0 <= j < |w.calls| ensures CallSound(w'.calls[j], None) && !HoldsLease(w'.calls[j]) {
      if j != i {
        assert CallSound(w.calls[j], w.inFlight);
      }
    }
  }

  lemma StoreKeepsInv(w: World, i: nat, w': World)
    requires Inv(w) && i < |w.calls| && w.calls[i].point.Storing? && CallStep(w, i, w')
    ensures Inv(w')
  {
    RecordedIsSound(w.row, w.calls[i].point.fetched, w.now);
    ReplacementKeepsInv(w, i, w'.calls[i], w');
  }

  lemma CallKeepsInv(w: World, i: nat, w': World)
    requires Inv(w) && i < |w.calls| && CallStep(w, i, w')
    ensures Inv(w')
  {
    var call := w.calls[i];
    assert CallSound(call, w.inFlight);
    match call.point {
      case Beginning => BeginKeepsInv(w, i, w');
      case Dropping(lease, result) => DropKeepsInv(w, i, call.(point := Returned(result)), w');
      case Storing(_, _) => StoreKeepsInv(w, i, w');
      case Started => ReplacementKeepsInv(w, i, w'.calls[i], w');
      case Looking => ReplacementKeepsInv(w, i, w'.calls[i], w');
      case Leading(_) => ReplacementKeepsInv(w, i, w'.calls[i], w');
      case Fetching(_) => ReplacementKeepsInv(w, i, w'.calls[i], w');
      case Waiting(_) =>
      case Returned(_) =>
      case Cancelled =>
    }
  }

  lemma CancelKeepsInv(w: World, i: nat, w': World)
    requires Inv(w) && i < |w.calls| && CancelStep(w, i, w')
    ensures Inv(w')
  {
    var gone := w.calls[i].(point := Cancelled);
    assert CallSound(w.calls[i], w.inFlight);
    if HoldsLease(w.calls[i]) { DropKeepsInv(w, i, gone, w'); } else { ReplacementKeepsInv(w, i, gone, w'); }
  }

  lemma OutsideKeepsInv(w: World, w': World)
    requires Inv(w) && OutsideStep(w, w', true)
    ensures Inv(w')
  {
    forall fetched ensures RowSound(Recorded(w.row, fetched, w.now)) {
      RecordedIsSound(w.row, fetched, w.now);
    }
  }

  lemma StepKeepsInv(w: World, w': World)
    requires Inv(w) && Step(w, w')
    ensures Inv(w')
  {
    if OutsideStep(w, w', true) {
      OutsideKeepsInv(w, w');
    } else {
      var i :| 0 <= i < |w.calls| && (CallStep(w, i, w') || CancelStep(w, i, w'));
      if CallStep(w, i, w') { CallKeepsInv(w, i, w'); } else { CancelKeepsInv(w, i, w'); }
    }
  }

  lemma {:induction false} RunKeepsInv(run: seq<World>, k: nat)
    requires IsRun(run) && k < |run|
    ensures Inv(run[k])
  {
    if k > 0 {
      RunKeepsInv(run, k - 1);
      assert Step(run[k - 1], run[k - 1 + 1]);
      StepKeepsInv(run[k - 1], run[k]);
    }
  }

  // ---------- at most one lease, at most one fetch ----------

  /** In every reachable state: one live lease at most, nobody waits for a lease that is not live, and
      no call has fetched twice. */
  lemma SingleFlight(run: seq<World>, k: nat)
    requires IsRun(run) && k < |run|
    ensures forall i, j :: 0 <= i < j < |run[k].calls| ==> !HoldsLease(run[k].calls[i]) || !HoldsLease(run[k].calls[j])
    ensures forall i :: 0 <= i < |run[k].calls| && run[k].calls[i].point.Waiting? ==>
      exists leader :: 0 <= leader < |run[k].calls| && Holds(run[k].calls[leader], run[k].calls[i].point.ticket)
    ensures forall i :: 0 <= i < |run[k].calls| ==> run[k].calls[i].fetches <= 1
  {
    RunKeepsInv(run, k);
    var w := run[k];
    forall i | 0 <= i < |w.calls| ensures CallSound(w.calls[i], w.inFlight) {}
    forall i | 0 <= i < |w.calls| && w.calls[i].point.Waiting?
      ensures exists leader :: 0 <= leader < |w.calls| && Holds(w.calls[leader], w.calls[i].point.ticket)
    {
      assert CallSound(w.calls[i], w.inFlight);
      var leader :| 0 <= leader < |w.calls| && HoldsLease(w.calls[leader]);
      assert CallSound(w.calls[leader], w.inFlight);
      assert Holds(w.calls[leader], w.calls[i].point.ticket);
    }
  }

  // ---------- no lost wakeup ----------

  /** Every call that was waiting for `lease` is looking again, unforced; none waits for it any more. */
  ghost predicate AllWoken(w: World, w': World, lease: nat) {
    && |w'.calls| == |w.calls|
    && (forall j :: 0 <= j < |w.calls| && w.calls[j].point == Waiting(lease) ==>
          w'.calls[j] == w.calls[j].(force := false, point := Looking))
    && (forall j :: 0 <= j < |w'.calls| ==> w'.calls[j].point != Waiting(lease))
  }

  lemma DropWakes(w: World, i: nat, over: Call, lease: nat)
    requires i < |w.calls| && w.calls[i].point != Waiting(lease) && Over(over)
    ensures AllWoken(w, DropLease(AtCall(w, i, over), lease), lease)
  {
  }

  lemma ReturnWakes(w: World, i: nat, w': World, lease: nat)
    requires Inv(w) && i < |w.calls| && CallStep(w, i, w')
    requires w.inFlight == Some(lease) && w'.inFlight != Some(lease)
    ensures AllWoken(w, w', lease)
  {
    var call := w.calls[i];
    assert CallSound(call, w.inFlight);
    if call.point.Dropping? {
      DropWakes(w, i, call.(point := Returned(call.point.result)), lease);
    }
  }

  lemma CancelWakes(w: World, i: nat, w': World, lease: nat)
    requires Inv(w) && i < |w.calls| && CancelStep(w, i, w')
    requires w.inFlight == Some(lease) && w'.inFlight != Some(lease)
    ensures AllWoken(w, w', lease)
  {
    assert CallSound(w.calls[i], w.inFlight);
    DropWakes(w, i, w.calls[i].(point := Cancelled), lease);
  }

  /** Whatever ends a lease, a return or a cancellation, wakes everybody who waits for it. */
  lemma NoLostWakeup(w: World, w': World, lease: nat)
    requires Inv(w) && Step(w, w')
    requires w.inFlight == Some(lease) && w'.inFlight != Some(lease)
    ensures AllWoken(w, w', lease)
  {
    var i :| 0 <= i < |w.calls| && (CallStep(w, i, w') || CancelStep(w, i, w'));
    if CallStep(w, i, w') { ReturnWakes(w, i, w', lease); } else { CancelWakes(w, i, w', lease); }
  }

  // ---------- progress and termination ----------

  /** As long as a call is not over, some call can take a step: waiting is never circular. */
  lemma NoDeadlock(w: World, i: nat) returns (j: nat, w': World)
    requires Inv(w) && i < |w.calls| && !Over(w.calls[i])
    ensures j < |w.calls| && CallStep(w, j, w')
  {
    j := i;
    if w.calls[i].point.Waiting? {
      assert CallSound(w.calls[i], w.inFlight);
      var leader :| 0 <= leader < |w.calls| && HoldsLease(w.calls[leader]);
      j := leader;
    }
    var call := w.calls[j];
    match call.point {
      case Started => w' := AtCall(w, j, call.(manifest := None, point := Looking));
      case Looking => w' := Look(w, j);
      case Beginning => w' := BeginFetch(w, j);
      case Leading(lease) => w' := AtCall(w, j, call.(point := Fetching(lease)));
      case Fetching(lease) => w' := AtCall(w, j, call.(fetches := call.fetches + 1, point := Storing(lease, None)));
      case Storing(lease, fetched) =>
        var row := Recorded(w.row, fetched, w.now);
        w' := AtCall(w, j, call.(point := Dropping(lease, Select(row.route, call.manifest)))).(row := Some(row));
      case Dropping(lease, result) => w' := DropLease(AtCall(w, j, call.(point := Returned(result))), lease);
    }
  }

  const MAX_RANK := 8

  /** How far a call is from being over, not counting the rounds that waiting may add. */
  function Rank(call: Call): (rank: nat)
    ensures rank <= MAX_RANK
  {
    match call.point
    case Started => 8
    case Looking => 7
    case Beginning => 6
    case Leading(_) => 5
    case Fetching(_) => 4
    case Storing(_, _) => 3
    case Dropping(_, _) => 2
    case Waiting(_) => 1
    case Returned(_) => 0
    case Cancelled => 0
  }

  function Ranks(calls: seq<Call>): nat {
    if calls == [] then 0 else Rank(calls[0]) + Ranks(calls[1..])
  }

  function Unfinished(calls: seq<Call>): nat {
    if calls == [] then 0 else (if Over(calls[0]) then 0 else 1) + Unfinished(calls[1..])
  }

  /** Every lease that ends takes its call with it, which pays for all the rounds it starts. */
  function Potential(calls: seq<Call>): nat {
    Unfinished(calls) * (MAX_RANK * |calls| + 1) + Ranks(calls)
  }

  lemma {:induction false} RanksBounded(calls: seq<Call>)
    ensures Ranks(calls) <= MAX_RANK * |calls|
  {
    if calls != [] {
      RanksBounded(calls[1..]);
    }
  }

  lemma {:induction false} Replaced(calls: seq<Call>, i: nat, call: Call)
    requires i < |calls|
    ensures Ranks(calls[i := call]) == Ranks(calls) - Rank(calls[i]) + Rank(call)
    ensures Unfinished(calls[i := call])
         == Unfinished(calls) - (if Over(calls[i]) then 0 else 1) + (if Over(call) then 0 else 1)
  {
    if i == 0 {
      assert calls[i := call][1..] == calls[1..];
    } else {
      assert calls[i := call][1..] == calls[1..][i - 1 := call];
      Replaced(calls[1..], i - 1, call);
    }
  }

  lemma {:induction false} WakingFinishesNobody(calls: seq<Call>, lease: nat)
    ensures Unfinished(WakeAll(calls, lease)) == Unfinished(calls)
  {
    if calls != [] {
      assert WakeAll(calls, lease)[1..] == WakeAll(calls[1..], lease);
      WakingFinishesNobody(calls[1..], lease);
    }
  }

  lemma {:induction false} OneFactorLess(u: nat, v: nat, k: nat)
    requires v < u
    ensures v * k + k <= u * k
  {
    if u > v + 1 {
      OneFactorLess(u - 1, v, k);
      assert (u - 1) * k + k == u * k;
    } else {
      assert (v + 1) * k == v * k + k;
    }
  }

  lemma FewerUnfinished(a: seq<Call>, b: seq<Call>)
    requires |a| == |b| && Unfinished(b) < Unfinished(a)
    ensures Potential(b) < Potential(a)
  {
    RanksBounded(b);
    OneFactorLess(Unfinished(a), Unfinished(b), MAX_RANK * |a| + 1);
  }

  lemma DropDecreases(w: World, i: nat, over: Call, lease: nat)
    requires i < |w.calls| && !Over(w.calls[i]) && Over(over)
    ensures Potential(DropLease(AtCall(w, i, over), lease).calls) < Potential(w.calls)
    ensures Potential(AtCall(w, i, over).calls) < Potential(w.calls)
  {
    Replaced(w.calls, i, over);
    WakingFinishesNobody(w.calls[i := over], lease);
    FewerUnfinished(w.calls, WakeAll(w.calls[i := over], lease));
    FewerUnfinished(w.calls, w.calls[i := over]);
  }

  lemma CallStepDecreases(w: World, i: nat, w': World)
    requires i < |w.calls| && CallStep(w, i, w')
    ensures |w'.calls| == |w.calls| && Potential(w'.calls) < Potential(w.calls)
  {
    var call := w.calls[i];
    if call.point.Dropping? {
      DropDecreases(w, i, call.(point := Returned(call.point.result)), call.point.lease);
    } else {
      var after := w'.calls[i];
      assert w'.calls == w.calls[i := after];
      Replaced(w.calls, i, after);
      if Over(after) { FewerUnfinished(w.calls, w'.calls); }
    }
  }

  lemma CancelDecreases(w: World, i: nat, w': World)
    requires i < |w.calls| && CancelStep(w, i, w')
    ensures |w'.calls| == |w.calls| && Potential(w'.calls) < Potential(w.calls)
  {
    var call := w.calls[i];
    DropDecreases(w, i, call.(point := Cancelled), if HoldsLease(call) then call.point.lease else 0);
  }

  /** Every step of a call, cancelled or not, uses up potential; the outside world never adds any. */
  lemma StepDecreases(w: World, w': World)
    requires Step(w, w')
    ensures |w'.calls| == |w.calls|
    ensures w'.calls == w.calls || Potential(w'.calls) < Potential(w.calls)
  {
    if !OutsideStep(w, w', true) {
      var i :| 0 <= i < |w.calls| && (CallStep(w, i, w') || CancelStep(w, i, w'));
      if CallStep(w, i, w') { CallStepDecreases(w, i, w'); } else { CancelDecreases(w, i, w'); }
    }
  }

  /** How often the calls change in a run. */
  function Changes(run: seq<World>): nat {
    if |run| <= 1 then 0 else (if run[0].calls == run[1].calls then 0 else 1) + Changes(run[1..])
  }

  /** Any finite set of calls is done after finitely many steps, under every interleaving: no run
      contains more call steps than the potential it starts with. */
  lemma {:induction false} CallStepsAreBounded(run: seq<World>)
    requires |run| > 0 && forall i :: 0 <= i < |run| - 1 ==> Step(run[i], run[i + 1])
    ensures Changes(run) + Potential(run[|run| - 1].calls) <= Potential(run[0].calls)
  {
    if |run| > 1 {
      assert Step(run[0], run[0 + 1]);
      StepDecreases(run[0], run[1]);
      forall i | 0 <= i < |run[1..]| - 1 ensures Step(run[1..][i], run[1..][i + 1]) {
        assert Step(run[i + 1], run[i + 1 + 1]);
      }
      CallStepsAreBounded(run[1..]);
    }
  }

  // ---------- a recorded outcome is used ----------

  /** An outcome stored at `since` or later is in the table. */
  predicate RecordedSince(w: World, since: nat) {
    since <= w.now && w.row.Some? && w.row.value.fetchedAt >= since
  }

  /** A step that does not evict the row for capacity. */
  ghost predicate RetainingStep(w: World, w': World) {
    || OutsideStep(w, w', false)
    || exists i :: 0 <= i < |w.calls| && (CallStep(w, i, w') || CancelStep(w, i, w'))
  }

  lemma StoringRecords(w: World, i: nat, w': World)
    requires i < |w.calls| && w.calls[i].point.Storing? && CallStep(w, i, w')
    ensures RecordedSince(w', w.now)
  {
  }

  lemma CallRetains(w: World, i: nat, w': World, since: nat)
    requires i < |w.calls| && CallStep(w, i, w') && RecordedSince(w, since) && w.now < since + RETRY_TTL_MS
    ensures RecordedSince(w', since) && w'.now == w.now
  {
  }

  lemma OutsideRetains(w: World, w': World, since: nat)
    requires OutsideStep(w, w', false) && RecordedSince(w, since)
    requires 0 < since && w'.now < since + RETRY_TTL_MS
    ensures RecordedSince(w', since) && w'.now >= w.now
  {
  }

  lemma RecordPersists(w: World, w': World, since: nat)
    requires RetainingStep(w, w') && RecordedSince(w, since)
    requires 0 < since && w.now < since + RETRY_TTL_MS && w'.now < since + RETRY_TTL_MS
    ensures RecordedSince(w', since) && w'.now >= w.now
  {
    if OutsideStep(w, w', false) {
      OutsideRetains(w, w', since);
    } else {
      var i :| 0 <= i < |w.calls| && (CallStep(w, i, w') || CancelStep(w, i, w'));
      if CallStep(w, i, w') { CallRetains(w, i, w', since); }
    }
  }

  lemma {:induction false} RecordIsFoundLater(run: seq<World>, since: nat)
    requires |run| > 0 && forall k :: 0 <= k < |run| - 1 ==> RetainingStep(run[k], run[k + 1])
    requires RecordedSince(run[0], since) && 0 < since
    requires forall k :: 0 <= k < |run| ==> run[k].now < since + RETRY_TTL_MS
    ensures RecordedSince(run[|run| - 1], since)
  {
    if |run| > 1 {
      assert RetainingStep(run[0], run[0 + 1]);
      RecordPersists(run[0], run[1], since);
      forall k | 0 <= k < |run[1..]| - 1 ensures RetainingStep(run[1..][k], run[1..][k + 1]) {
        assert RetainingStep(run[k + 1], run[k + 1 + 1]);
      }
      RecordIsFoundLater(run[1..], since);
    }
  }

  /** A call that looks returns if and only if it is not forced, and the row is there and complete or younger
      than the retry window, or the manifest's route has both parts. Otherwise it goes on to `begin_fetch`.
      It prefers what is stored to what it knew before, and a complete route to any other. */
  lemma LookReturnsIff(w: World, i: nat, w': World)
    requires i < |w.calls| && w.calls[i].point == Looking && CallStep(w, i, w')
    requires w.row.Some? ==> RowSound(w.row.value)
    ensures var call, call' := w.calls[i], w'.calls[i];
      var young := w.row.Some? && w.now < w.row.value.fetchedAt + RETRY_TTL_MS;
      var found := w.row.Some? && (young || w.row.value.status == Status.Complete || w.row.value.status == Partial);
      && call' == call.(known := if found then w.row.value.route else call.known, point := call'.point)
      && (call'.point.Returned? <==>
            && !call.force
            && (|| (found && (young || w.row.value.status == Status.Complete))
                || (call.manifest.Some? && call.manifest.value.origin.Some? && call.manifest.value.destination.Some?)))
      && (!call'.point.Returned? ==> call'.point == Beginning)
      && (call'.point.Returned? ==> call'.point.result == Select(call'.known, call.manifest))
  {
  }

  /** A leader that has stored its outcome returns the best of what is then recorded and of the manifest's
      route, and has fetched once for it. */
  lemma LeaderReturnsWhatItStored(w: World, i: nat, stored: World, later: World, returned: World)
    requires i < |w.calls| && w.calls[i].point.Storing? && CallStep(w, i, stored)
    requires w.row.Some? ==> RowSound(w.row.value)
    requires i < |later.calls| && later.calls[i] == stored.calls[i] && CallStep(later, i, returned)
    ensures stored.row.Some? && stored.row.value.fetchedAt == w.now
    ensures returned.calls[i].point == Returned(Select(stored.row.value.route, w.calls[i].manifest))
    ensures returned.calls[i].fetches == w.calls[i].fetches
    ensures var newer :=
        if w.calls[i].point.fetched.Some? then Normalize(w.calls[i].point.fetched.value) else Route(None, None, "");
      Known(stored.row) == (Or(newer.origin, Known(w.row).0), Or(newer.destination, Known(w.row).1))
  {
    MergeKeepsKnowledge(w.row, w.calls[i].point.fetched, w.now);
  }

  lemma UnforcedLookReturns(w: World, since: nat, i: nat, w': World)
    requires RecordedSince(w, since) && w.now < since + RETRY_TTL_MS
    requires i < |w.calls| && w.calls[i].point == Looking && !w.calls[i].force && CallStep(w, i, w')
    ensures w'.calls[i].point.Returned? && w'.calls[i].fetches == w.calls[i].fetches
    ensures RowSound(w.row.value) ==>
              w'.calls[i].point.result == Select(w.row.value.route, w.calls[i].manifest)
  {
  }

  /** Once a leader has stored its outcome, a result or a failure, every call that then looks unforced, as
      every woken waiter does, returns at its next step without fetching, with what is recorded; until the
      retry window has passed, and unless the row is evicted for capacity. */
  lemma WaitersReuseTheOutcome(run: seq<World>, k: nat, leader: nat, m: nat, i: nat, w': World)
    requires IsRun(run) && k + 1 <= m < |run|
    requires leader < |run[k].calls| && run[k].calls[leader].point.Storing? && CallStep(run[k], leader, run[k + 1])
    requires forall n :: k < n < m ==> RetainingStep(run[n], run[n + 1])
    requires 0 < run[k].now && forall n :: k <= n <= m ==> run[n].now < run[k].now + RETRY_TTL_MS
    requires i < |run[m].calls| && run[m].calls[i].point == Looking && !run[m].calls[i].force && CallStep(run[m], i, w')
    ensures w'.calls[i].fetches == run[m].calls[i].fetches && run[m].row.Some?
    ensures w'.calls[i].point == Returned(Select(run[m].row.value.route, run[m].calls[i].manifest))
  {
    var since, behind := run[k].now, run[k + 1..m + 1];
    StoringRecords(run[k], leader, run[k + 1]);
    forall n | 0 <= n < |behind| - 1 ensures RetainingStep(behind[n], behind[n + 1]) {
      assert RetainingStep(run[k + 1 + n], run[k + 1 + n + 1]);
    }
    RecordIsFoundLater(behind, since);
    RunKeepsInv(run, m);
    UnforcedLookReturns(run[m], since, i, w');
  }

  // ---------- the in-flight table ----------

  /** Where `begin_fetch` sends its caller. */
  function Directed(action: FetchAction): Point {
    match action
    case Start(lease) => Leading(lease)
    case Wait(lease) => Waiting(lease)
  }

  datatype FetchAction = Start(lease: nat) | Wait(ticket: nat)

  /** The table of all bags; the world of one bag sees its own entry. */
  class BagRouteInFlight {
    var inFlight: map<string, nat>
    var nextLease: nat
    var notified: set<nat>

    predicate Valid()
      reads this
    {
      forall bag :: bag in inFlight ==> inFlight[bag] < nextLease
    }

    function Entry(bag: string): Option<nat>
      reads this
    {
      if bag in inFlight then Some(inFlight[bag]) else None
    }

    constructor ()
      ensures Valid() && inFlight == map[] && notified == {}
    {
      inFlight, nextLease, notified := map[], 0, {};
    }

    /** Takes the step `BeginFetch` for call i of this bag's world, and touches no other bag. */
    method Begin(bag: string, ghost w: World, ghost i: nat) returns (action: FetchAction)
      requires Valid() && i < |w.calls| && w.inFlight == Entry(bag) && w.nextLease == nextLease
      modifies this
      ensures Valid() && nextLease >= old(nextLease) && notified == old(notified)
      ensures BeginFetch(w, i).inFlight == Entry(bag) && BeginFetch(w, i).nextLease == nextLease
      ensures BeginFetch(w, i).calls[i].point == Directed(action)
      ensures BeginFetch(w, i).calls[i].point ==
              if bag in old(inFlight) then Waiting(old(inFlight)[bag]) else Leading(old(nextLease))
      ensures inFlight == if bag in old(inFlight) then old(inFlight) else old(inFlight)[bag := old(nextLease)]
    {
      if bag in inFlight {
        return Wait(inFlight[bag]);
      }
      action := Start(nextLease);
      inFlight := inFlight[bag := nextLease];
      nextLease := nextLease + 1;
    }

    /** `Drop` takes the entry away only if it is this lease's own, and notifies the lease in any case:
        just the calls that wait for a notified lease are woken by the step `DropLease`. */
    method Drop(bag: string, lease: nat, ghost w: World)
      requires Valid() && w.inFlight == Entry(bag)
      modifies this
      ensures Valid() && nextLease == old(nextLease) && DropLease(w, lease).inFlight == Entry(bag)
      ensures notified == old(notified) + {lease}
      ensures forall i :: 0 <= i < |w.calls| ==>
                DropLease(w, lease).calls[i] ==
                if w.calls[i].point == Waiting(lease) then w.calls[i].(force := false, point := Looking) else w.calls[i]
      ensures inFlight ==
              if bag in old(inFlight) && old(inFlight)[bag] == lease then old(inFlight) - {bag} else old(inFlight)
    {
      if bag in inFlight && inFlight[bag] == lease {
        inFlight := inFlight - {bag};
      }
      notified := notified + {lease};
    }
  }
}
