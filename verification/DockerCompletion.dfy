/** Recovery never gets stuck: from every reachable state with a pending operation some run of
    `recover` completes, if the engine and the process let it. */
module DockerCompletion {
  import opened Options
  import opened DockerWorld
  import opened DockerProtocol
  import opened DockerInvariant
  import opened DockerSteps
  import opened DockerRecovery

  predicate InRecovery(pc: PC) {
    || Maintaining(pc, RecoveryStart) || Sweeping(pc) || pc.StopOld?
    || Restoring(pc) || Returning(pc) || pc.ClosePending?
  }

  function PathRank(pc: PC): nat {
    match pc
    case StopMaintenance(RecoveryStart) => 18
    case RemoveMaintenance(RecoveryStart) => 17
    case FindCandidate(name) => if name == Next then 16 else 14
    case RemoveCandidate(name, _) => if name == Next then 15 else 13
    case StopOld => 12
    case StopMaintenance(BeforeRestore) => 11
    case RemoveMaintenance(BeforeRestore) => 10
    case RunRestore => 9
    case AwaitRestore => 8
    case StopMaintenance(AfterRestore) => 7
    case RemoveMaintenance(AfterRestore) => 6
    case RestoreName => 5
    case RestartOld => 4
    case ProbeOld => 3
    case ClosePending => 2
    case _ => 0
  }

  /** What the restore script has left to do. */
  function ScriptRank(w: World): nat {
    var d := w.docker;
    if d.helper.None? || w.disk.pending.None? || w.disk.pending.value.id !in d.backups then 0
    else
      var tar := d.backups[w.disk.pending.value.id];
      match d.helper.value.script
      case Clearing => |tar.Keys| + 2 + |d.data.Keys|
      case Copying => |tar.Keys - d.data.Keys| + 1
      case Exited(_) => 0
  }

  predicate ScriptSound(w: World) {
    w.process.Alive? && w.process.pc == AwaitRestore ==>
      w.docker.helper.Some? && w.docker.helper.value.script != Exited(false)
  }

  predicate NearerToTheEnd(w: World, move: Move)
    requires w.process.Alive?
  {
    match move
    case Command(after, ok, _) =>
      && InRecovery(ok) && PathRank(ok) < PathRank(w.process.pc)
      && (ok == AwaitRestore ==> after.helper.Some? && !after.helper.value.script.Exited?)
    case Persist(journal, ok) => w.process.pc == ClosePending && journal == Journal(w.disk.active, None) && ok == Idle
    case _ => false
  }

  lemma CleanupMoves(w: World, move: Move)
    requires Moves(w, move) && Maintaining(w.process.pc, RecoveryStart)
    ensures NearerToTheEnd(w, move)
  {
    assert KnowsHelper(w.docker, w.process.pc);
  }

  lemma SweepMoves(w: World, move: Move)
    requires Moves(w, move) && Sweeping(w.process.pc)
    ensures NearerToTheEnd(w, move)
  {
    assert KnowsCandidate(w.docker, w.disk.active, w.process.pc);
  }

  lemma StopOldMoves(w: World, move: Move)
    requires Moves(w, move) && w.process.pc.StopOld?
    ensures NearerToTheEnd(w, move)
  {
    assert KnowsJournal(w.disk.active, w.disk.pending, StopOld);
  }

  lemma RestoreCleanupMoves(w: World, move: Move, caller: Caller)
    requires Moves(w, move) && Maintaining(w.process.pc, caller) && (caller.BeforeRestore? || caller.AfterRestore?)
    ensures NearerToTheEnd(w, move)
  {
    assert KnowsHelper(w.docker, w.process.pc);
  }

  lemma RunRestoreMoves(w: World, move: Move)
    requires Moves(w, move) && w.process.pc.RunRestore?
    ensures NearerToTheEnd(w, move)
  {
    assert KnowsHelper(w.docker, RunRestore) && KnowsJournal(w.disk.active, w.disk.pending, RunRestore);
  }

  lemma AwaitRestoreMoves(w: World, move: Move)
    requires Moves(w, move) && w.process.pc.AwaitRestore? && ScriptSound(w) && !HelperRunning(w.docker)
    ensures NearerToTheEnd(w, move)
  {
    assert KnowsJournal(w.disk.active, w.disk.pending, AwaitRestore);
  }

  lemma ReturnMoves(w: World, move: Move)
    requires Moves(w, move) && (Returning(w.process.pc) || w.process.pc.ClosePending?)
    ensures NearerToTheEnd(w, move)
  {
    assert KnowsJournal(w.disk.active, w.disk.pending, w.process.pc);
    if w.process.pc == RestoreName {
      assert NoCandidate(w.docker, w.disk.active);
    }
  }

  /** A failure-free move of `recover` is always there, and it is one step nearer to the end. */
  lemma RecoveryMoves(w: World, move: Move)
    requires Moves(w, move) && InRecovery(w.process.pc) && ScriptSound(w)
    requires w.process.pc == AwaitRestore ==> !HelperRunning(w.docker)
    ensures NearerToTheEnd(w, move)
  {
    if Maintaining(w.process.pc, RecoveryStart) {
      CleanupMoves(w, move);
    } else if Sweeping(w.process.pc) {
      SweepMoves(w, move);
    } else if w.process.pc.StopMaintenance? || w.process.pc.RemoveMaintenance? {
      RestoreCleanupMoves(w, move, w.process.pc.caller);
    } else if w.process.pc.StopOld? {
      StopOldMoves(w, move);
    } else if w.process.pc.RunRestore? {
      RunRestoreMoves(w, move);
    } else if w.process.pc.AwaitRestore? {
      AwaitRestoreMoves(w, move);
    } else {
      ReturnMoves(w, move);
    }
  }

  lemma ClearingAdvances(d: Docker, h: Helper) returns (d': Docker)
    requires d.helper == Some(h) && h.restore && h.script.Clearing? && h.op in d.backups
    ensures RestoreStep(d, h, d') && d'.at == d.at && d'.backups == d.backups
    ensures d'.helper.Some? && d'.helper.value.op == h.op
    ensures d'.helper.value.script == Copying || (d'.helper == d.helper && |d'.data.Keys| < |d.data.Keys|)
  {
    if d.data == map[] {
      d' := At(d, Copying);
    } else {
      var s :| s in d.data;
      d' := d.(data := d.data - {s});
      assert d'.data.Keys == d.data.Keys - {s};
    }
  }

  lemma CopyingAdvances(d: Docker, h: Helper) returns (d': Docker)
    requires d.helper == Some(h) && h.restore && h.script.Copying? && h.op in d.backups
    requires SubMap(d.data, d.backups[h.op])
    ensures RestoreStep(d, h, d') && d'.at == d.at && d'.backups == d.backups
    ensures d'.helper == At(d, Exited(true)).helper
         || (d'.helper == d.helper && |d.backups[h.op].Keys - d'.data.Keys| < |d.backups[h.op].Keys - d.data.Keys|)
  {
    var tar := d.backups[h.op];
    if s :| s in tar && s !in d.data {
      d' := d.(data := d.data[s := tar[s]]);
      assert tar.Keys - d'.data.Keys == (tar.Keys - d.data.Keys) - {s};
    } else {
      assert tar.Keys == d.data.Keys;
      d' := At(d, Exited(true));
    }
  }

  lemma FewerLeft(a: set<Store>, b: set<Store>)
    ensures |a - b| <= |a|
  {
    if a - b != a {
      var s :| s in a && s in b;
      FewerLeft(a - {s}, b);
      assert (a - {s}) - b == a - b;
    }
  }

  predicate RestoreUnderWay(w: World) {
    && w.disk.pending.Some? && HelperRunning(w.docker)
    && w.disk.pending.value.id in w.docker.backups
    && RestoreInProgress(w.docker, w.disk.pending.value, w.docker.helper.value)
  }

  lemma AwaitFindsRestore(w: World)
    requires Inv(w) && w.process.Alive? && w.process.pc == AwaitRestore && HelperRunning(w.docker)
    ensures RestoreUnderWay(w)
  {
    assert KnowsJournal(w.disk.active, w.disk.pending, AwaitRestore);
  }

  lemma ClearingGoesOn(w: World) returns (w': World)
    requires RestoreUnderWay(w) && w.docker.helper.value.script.Clearing?
    ensures EngineStep(w, w') && w'.process == w.process && w'.disk == w.disk
    ensures ScriptSound(w') && ScriptRank(w') < ScriptRank(w)
  {
    var d := w.docker;
    var d' := ClearingAdvances(d, d.helper.value);
    FewerLeft(d.backups[w.disk.pending.value.id].Keys, d'.data.Keys);
    w' := w.(docker := d');
  }

  lemma CopyingGoesOn(w: World) returns (w': World)
    requires RestoreUnderWay(w) && w.docker.helper.value.script.Copying?
    ensures EngineStep(w, w') && w'.process == w.process && w'.disk == w.disk
    ensures ScriptSound(w') && ScriptRank(w') < ScriptRank(w)
  {
    var d' := CopyingAdvances(w.docker, w.docker.helper.value);
    w' := w.(docker := d');
  }

  /** The restoring script, left alone, always has a step that brings it nearer to its end. */
  lemma ScriptAdvances(w: World) returns (w': World)
    requires RestoreUnderWay(w)
    ensures EngineStep(w, w') && w'.process == w.process && w'.disk == w.disk
    ensures ScriptSound(w') && ScriptRank(w') < ScriptRank(w)
  {
    if w.docker.helper.value.script.Clearing? {
      w' := ClearingGoesOn(w);
    } else {
      w' := CopyingGoesOn(w);
    }
  }

  function Succeeded(w: World, move: Move): World
    requires w.process.Alive?
  {
    match move
    case Command(after, ok, _) => w.(docker := after, process := w.process.(pc := ok))
    case Persist(journal, ok) => Persisted(w, journal, ok)
    case _ => w
  }

  /** `run` ends with the step that closes the pending operation of its first state. */
  ghost predicate Completes(run: seq<World>) {
    && |run| > 1
    && IsRun(run)
    && var last := |run| - 1;
       && run[0].disk.pending.Some?
       && (forall i :: 0 <= i < last ==> run[i].disk == run[0].disk)
       && run[last - 1].process == Alive(run[0].disk, ClosePending)
       && run[last].process == Alive(run[last].disk, Idle)
       && run[last].disk == Journal(run[0].disk.active, None)
  }

  lemma Prepend(w: World, run: seq<World>)
    requires Completes(run) && Step(w, run[0]) && w.disk == run[0].disk
    ensures Completes([w] + run)
  {
    var all := [w] + run;
    forall i | 0 < i < |all| ensures StepAt(all, i) {
      if i > 1 { assert StepAt(run, i - 1); }
    }
  }

  lemma {:induction false} RecoveryCompletes(w: World) returns (run: seq<World>)
    requires Inv(w) && w.process.Alive? && InRecovery(w.process.pc) && ScriptSound(w)
    ensures Completes(run) && run[0] == w
    decreases PathRank(w.process.pc), ScriptRank(w)
  {
    if w.process.pc == AwaitRestore && HelperRunning(w.docker) {
      AwaitFindsRestore(w);
      var w' := ScriptAdvances(w);
      EngineKeepsInv(w, w');
      var rest := RecoveryCompletes(w');
      Prepend(w, rest);
      run := [w] + rest;
    } else {
      var move := Program(w.docker, w.process.journal, w.process.pc);
      RecoveryMoves(w, move);
      var w' := Succeeded(w, move);
      assert ProcessStep(w, w');
      if move.Persist? {
        run := [w, w'];
      } else {
        ProcessKeepsInv(w, w');
        var rest := RecoveryCompletes(w');
        Prepend(w, rest);
        run := [w] + rest;
      }
    }
  }

  lemma RecoveryThrows(w: World)
    requires Inv(w) && w.process.Alive? && InRecovery(w.process.pc) && !ScriptSound(w)
    ensures w.disk.pending.Some? && ProcessStep(w, w.(process := Alive(w.disk, Idle)))
  {
    assert KnowsJournal(w.disk.active, w.disk.pending, AwaitRestore);
  }

  /** Also when the restore script has failed under it: that recovery throws, and can be chosen again. */
  lemma EveryRecoveryCompletes(w: World) returns (run: seq<World>)
    requires Inv(w) && w.process.Alive? && InRecovery(w.process.pc)
    ensures Completes(run) && run[0] == w
  {
    if ScriptSound(w) {
      run := RecoveryCompletes(w);
    } else {
      var thrown, again := w.(process := Alive(w.disk, Idle)), w.(process := Alive(w.disk, Catch));
      RecoveryThrows(w);
      assert again == thrown.(process := thrown.process.(pc := Entry(thrown.docker, thrown.disk, Recover)));
      assert LifecycleStep(thrown, again);
      FailureKeepsInv(again, again);
      var rest := RecoveryCompletes(again);
      Prepend(thrown, rest);
      Prepend(w, [thrown] + rest);
      run := [w] + ([thrown] + rest);
    }
  }

  lemma ReachableStep(w: World, w': World)
    requires Reachable(w) && Step(w, w')
    ensures Reachable(w')
  {
    var run :| IsRun(run) && Init(run[0]) && run[|run| - 1] == w;
    var longer := run + [w'];
    ChainGoesOn(run, w');
    assert longer[|longer| - 1] == w';
  }

  lemma {:induction false} ReachableRun(run: seq<World>, i: nat)
    requires IsRun(run) && Reachable(run[0]) && i < |run|
    ensures Reachable(run[i])
  {
    if i > 0 {
      ReachableRun(run, i - 1);
      assert StepAt(run, i);
      ReachableStep(run[i - 1], run[i]);
    }
  }

  /** What a crash leaves is enough for a recovery, whatever the manager held in memory. */
  lemma RecoveryPossible(w: World) returns (run: seq<World>)
    requires Recoverable(w.disk, w.docker, w.drained) && w.disk.pending.Some?
    ensures Completes(run) && run[0] == w
    ensures Restored(run[|run| - 2], run[|run| - 1])
  {
    var dead := w.(process := Dead);
    var idle := w.(process := Alive(w.disk, Idle));
    var started := w.(process := Alive(w.disk, Catch));
    assert Step(w, dead) && Step(dead, idle);
    assert started == idle.(process := idle.process.(pc := Entry(idle.docker, idle.disk, Recover)));
    assert Step(idle, started);
    FailureKeepsInv(started, started);
    var rest := RecoveryCompletes(started);
    RunKeepsInv(rest, |rest| - 2);
    assert StepAt(rest, |rest| - 1);
    PendingClosed(rest[|rest| - 2], rest[|rest| - 1]);
    Prepend(idle, rest);
    Prepend(dead, [idle] + rest);
    Prepend(w, [dead] + ([idle] + rest));
    run := [w] + ([dead] + ([idle] + rest));
  }

  /** Wherever a deploy or an earlier recovery broke off: the application can be restarted, `recover`
      can be chosen, and it can run to its end, with the old deployment restored. */
  lemma RecoveryAlwaysPossible(w: World) returns (run: seq<World>)
    requires Reachable(w) && w.disk.pending.Some?
    ensures Completes(run) && run[0] == w
    ensures Restored(run[|run| - 2], run[|run| - 1])
  {
    ReachableInv(w);
    run := RecoveryPossible(w);
  }

  // ---------- runs put together ----------

  lemma JoinedAt(first: seq<World>, second: seq<World>, i: nat)
    requires i < |first + second|
    ensures (first + second)[i] == if i < |first| then first[i] else second[i - |first|]
  {
  }

  lemma RunsJoinAt(first: seq<World>, second: seq<World>, i: nat)
    requires Chained(first) && Chained(second)
    requires |first| > 0 && |second| > 0 ==> Step(first[|first| - 1], second[0])
    requires 0 < i < |first + second|
    ensures StepAt(first + second, i)
  {
    JoinedAt(first, second, i - 1);
    JoinedAt(first, second, i);
    var n := |first|;
    if i < n { assert StepAt(first, i); }
    if i > n { assert StepAt(second, i - n); }
  }

  lemma RunsJoin(first: seq<World>, second: seq<World>)
    requires Chained(first) && Chained(second)
    requires |first| > 0 && |second| > 0 ==> Step(first[|first| - 1], second[0])
    ensures Chained(first + second)
  {
    forall i | 0 < i < |first + second| ensures StepAt(first + second, i) {
      RunsJoinAt(first, second, i);
    }
  }

  // ---------- what a second recovery discards ----------

  /** The restarted old service writes, its probe fails, and `recover` is chosen again. */
  function SecondTry(w: World, data: Stores, a: nat): seq<World> {
    var written, j := Written(w, data), w.disk;
    [ w,
      written,
      written.(process := Alive(j, Idle)),
      written.(process := Alive(j, Catch)),
      written.(process := Alive(j, RemoveMaintenance(RecoveryStart))),
      written.(process := Alive(j, FindCandidate(Next))),
      written.(process := Alive(j, FindCandidate(Canonical))),
      written.(process := Alive(j, StopOld)) ]
  }

  /** The recovery has stopped it again. */
  function StoppedAgain(w: World, data: Stores, a: nat): World {
    var written := Written(w, data);
    written.(docker := Stop(written.docker, a), process := Alive(w.disk, StopMaintenance(BeforeRestore)))
  }

  predicate JustRestarted(w: World, a: nat) {
    && w.process == Alive(w.disk, ProbeOld) && w.disk.active == Some(a) && SnapshotTaken(w.disk)
    && w.docker.helper.None? && w.docker.at.Keys == {Canonical} && w.docker.at[Canonical] == Container(a, true)
  }

  lemma SecondTryBegins(w: World, data: Stores, a: nat)
    requires JustRestarted(w, a)
    ensures forall i :: 0 < i <= 3 ==> Step(SecondTry(w, data, a)[i - 1], SecondTry(w, data, a)[i])
  {
    var run := SecondTry(w, data, a);
    assert EngineStep(run[0], run[1]);
    assert ProcessStep(run[1], run[2]);
    assert run[3] == run[2].(process := run[2].process.(pc := Entry(run[2].docker, run[2].process.journal, Recover)));
    assert LifecycleStep(run[2], run[3]);
  }

  lemma SecondTrySweeps(w: World, data: Stores, a: nat)
    requires JustRestarted(w, a)
    ensures forall i :: 3 < i <= 6 ==> Step(SecondTry(w, data, a)[i - 1], SecondTry(w, data, a)[i])
  {
    var run := SecondTry(w, data, a);
    assert ProcessStep(run[3], run[4]);
    assert ProcessStep(run[4], run[5]);
    assert ProcessStep(run[5], run[6]);
  }

  lemma SecondTryStops(w: World, data: Stores, a: nat)
    requires JustRestarted(w, a)
    ensures Step(SecondTry(w, data, a)[6], SecondTry(w, data, a)[7])
    ensures Step(SecondTry(w, data, a)[7], StoppedAgain(w, data, a))
    ensures !IsRunning(StoppedAgain(w, data, a).docker, Some(a))
  {
    var run := SecondTry(w, data, a);
    assert ProcessStep(run[6], run[7]);
    assert ProcessStep(run[7], StoppedAgain(w, data, a));
  }

  lemma {:induction false} StartsSomewhere(run: seq<World>, last: nat, active: Option<nat>) returns (k: nat)
    requires last < |run| && !IsRunning(run[0].docker, active) && IsRunning(run[last].docker, active)
    ensures k < last && !IsRunning(run[k].docker, active) && IsRunning(run[k + 1].docker, active)
  {
    assert last > 0;
    if IsRunning(run[last - 1].docker, active) {
      k := StartsSomewhere(run, last - 1, active);
    } else {
      k := last - 1;
    }
  }

  lemma {:induction false} DrainedStays(run: seq<World>, i: nat)
    requires IsRun(run) && i < |run| && SnapshotTaken(run[0].disk)
    requires forall k :: 0 <= k <= i ==> run[k].disk == run[0].disk
    ensures run[i].drained == run[0].drained
  {
    if i > 0 {
      DrainedStays(run, i - 1);
      assert StepAt(run, i);
    }
  }

  lemma ClosingFindsRunning(w: World)
    requires Inv(w) && w.process == Alive(w.disk, ClosePending)
    requires w.disk.pending.Some? && w.disk.active.Some?
    ensures IsRunning(w.docker, w.disk.active) == w.disk.pending.value.wasRunning
  {
    assert KnowsState(w, ClosePending);
  }

  lemma RecoveryEndsRunning(run: seq<World>)
    requires Completes(run) && Inv(run[0])
    requires run[0].disk.active.Some? && run[0].disk.pending.value.wasRunning
    ensures IsRunning(run[|run| - 2].docker, run[0].disk.active)
  {
    RunKeepsInv(run, |run| - 2);
    ClosingFindsRunning(run[|run| - 2]);
  }

  lemma StartedOnDrained(run: seq<World>, k: nat)
    requires Completes(run) && Inv(run[0]) && SnapshotTaken(run[0].disk) && k < |run| - 2
    requires run[0].disk.active.Some?
    requires !IsRunning(run[k].docker, run[0].disk.active) && IsRunning(run[k + 1].docker, run[0].disk.active)
    ensures run[k].process == Alive(run[0].disk, RestartOld)
    ensures run[k + 1].disk == run[k].disk == run[0].disk && run[k + 1].docker.data == run[0].drained
  {
    RunKeepsInv(run, k);
    DrainedStays(run, k);
    assert StepAt(run, k + 1);
    RestartsOnDrained(run[k], run[k + 1]);
  }

  /** A recovery that begins with the old service stopped starts it on the drained stores. */
  lemma RecoveryRestarts(run: seq<World>) returns (k: nat)
    requires Completes(run) && Inv(run[0]) && SnapshotTaken(run[0].disk)
    requires run[0].disk.active.Some? && run[0].disk.pending.value.wasRunning
    requires !IsRunning(run[0].docker, run[0].disk.active)
    ensures 0 < k < |run| && run[k - 1].process == Alive(run[0].disk, RestartOld)
    ensures run[k].disk == run[k - 1].disk == run[0].disk
    ensures IsRunning(run[k].docker, run[k].disk.active) && run[k].docker.data == run[0].drained
  {
    RecoveryEndsRunning(run);
    var start := StartsSomewhere(run, |run| - 2, run[0].disk.active);
    StartedOnDrained(run, start);
    k := start + 1;
  }

  lemma SecondTryRuns(w: World, data: Stores, a: nat)
    requires JustRestarted(w, a)
    ensures Chained(SecondTry(w, data, a))
    ensures Step(SecondTry(w, data, a)[7], StoppedAgain(w, data, a))
  {
    SecondTryBegins(w, data, a);
    SecondTrySweeps(w, data, a);
    SecondTryStops(w, data, a);
  }

  lemma SecondTryKeepsInv(w: World, data: Stores, a: nat)
    requires JustRestarted(w, a) && Inv(w)
    ensures Inv(StoppedAgain(w, data, a))
  {
    SecondTryRuns(w, data, a);
    RunKeepsInv(SecondTry(w, data, a), 7);
    StepKeepsInv(SecondTry(w, data, a)[7], StoppedAgain(w, data, a));
  }

  lemma PrefixRuns(run: seq<World>, n: nat)
    requires IsRun(run) && n <= |run|
    ensures Chained(run[..n])
  {
    forall i | 0 < i < n ensures StepAt(run[..n], i) {
      assert StepAt(run, i);
    }
  }

  /** The rest of that recovery, up to the restart. */
  lemma RestartFollows(w: World) returns (run: seq<World>)
    requires Inv(w) && w.process == Alive(w.disk, StopMaintenance(BeforeRestore))
    requires w.disk.active.Some? && SnapshotTaken(w.disk) && w.disk.pending.value.wasRunning
    requires !IsRunning(w.docker, w.disk.active)
    ensures Chained(run) && |run| > 1 && run[0] == w && RestartedOn(run[|run| - 1], w.disk, w.drained)
  {
    var rest := RecoveryCompletes(w);
    var k := RecoveryRestarts(rest);
    PrefixRuns(rest, k + 1);
    run := rest[..k + 1];
    assert run[|run| - 1] == rest[k];
  }

  predicate RestartedOn(w: World, disk: Journal, data: Stores) {
    w.disk == disk && IsRunning(w.docker, disk.active) && w.docker.data == data
  }

  lemma ProbeFindsRestarted(w: World)
    requires Inv(w) && w.process == Alive(w.disk, ProbeOld) && SnapshotTaken(w.disk)
    ensures w.disk.active.Some? && JustRestarted(w, w.disk.active.value) && w.disk.pending.value.wasRunning
  {
    assert AtPoint(w, ProbeOld);
  }

  lemma SecondTryEnds(w: World, data: Stores, a: nat) returns (rest: seq<World>)
    requires Inv(w) && JustRestarted(w, a) && w.disk.pending.value.wasRunning
    ensures Chained(rest) && |rest| > 1 && rest[0] == StoppedAgain(w, data, a)
    ensures RestartedOn(rest[|rest| - 1], w.disk, w.drained)
  {
    SecondTryStops(w, data, a);
    SecondTryKeepsInv(w, data, a);
    rest := RestartFollows(StoppedAgain(w, data, a));
  }

  /** Of an operation with a snapshot, and a restarted old service that has written anything at all
      before its probe fails: a second recovery can run until that service is up again, and then the
      stores are those of the snapshot and not what was written. */
  lemma SecondRecoveryDiscards(w: World, data: Stores) returns (run: seq<World>)
    requires Reachable(w) && w.process == Alive(w.disk, ProbeOld) && SnapshotTaken(w.disk)
    ensures IsRun(run) && |run| > 2 && run[0] == w
    ensures RestartedOn(run[1], w.disk, data) && RestartedOn(run[|run| - 1], w.disk, w.drained)
  {
    ReachableInv(w);
    ProbeFindsRestarted(w);
    var first := SecondTry(w, data, w.disk.active.value);
    SecondTryRuns(w, data, w.disk.active.value);
    var rest := SecondTryEnds(w, data, w.disk.active.value);
    assert RestartedOn(first[1], w.disk, data);
    run := first + rest;
    RunsJoin(first, rest);
    JoinedAt(first, rest, 1);
    JoinedAt(first, rest, |run| - 1);
  }
}
