/** Which journal writes may fail while the process lives on.

    Harmless are the write that opens an operation, the one that commits it, the one at the end of an
    action, and the one that closes an operation if the one at the end of that action is carried out or
    the process dies before: all that recovery needs still holds. Not harmless are the write that
    records the snapshot (see `DockerPersistFault`), and the closing one if the ends of actions are not
    written either. A write that only changes the phase or the error changes nothing that is modelled. */
module DockerWriteFaults {
  import opened Options
  import opened DockerWorld
  import opened DockerProtocol
  import opened DockerInvariant
  import opened DockerSteps
  import opened DockerRecovery
  import opened DockerCompletion

  // ---------- the harmless faults ----------

  /** Memory already holds the pending operation, outside of the try block: the action just ends. */
  ghost predicate OpeningFails(w: World, w': World) {
    && w.process.Alive? && w.process.pc.OpenPending?
    && w' == w.(process := Alive(Program(w.docker, w.process.journal, w.process.pc).journal, Idle))
  }

  /** What is written is a copy that memory takes over only afterwards: the catch block follows. */
  ghost predicate CommitFails(w: World, w': World) {
    && w.process.Alive? && w.process.pc.Commit?
    && w' == w.(process := w.process.(pc := Catch))
  }

  /** At the end of an action memory is written once more, and that may fail or not. */
  ghost predicate MemoryWritten(w: World, w': World) {
    && w.process.Alive? && w.process.pc.Idle?
    && w' == Persisted(w, w.process.journal, Idle)
  }

  /** Memory is closed before it is written; the error ends the action. */
  ghost predicate ClosingFails(w: World, w': World) {
    && w.process.Alive? && w.process.pc == ClosePending
    && w' == w.(process := Alive(w.process.journal.(pending := None), Idle))
  }

  /** The closing write has failed, and the action is about to write memory once more. */
  predicate Unclosed(w: World) {
    && w.process.Alive? && w.process.pc.Idle?
    && w.disk.pending.Some? && w.process.journal.pending.None?
  }

  /** A step, or a harmless fault. Behind a closing write that failed the engine goes on, until the end of
      the action is written or the process dies. */
  ghost predicate StepOrFault(w: World, w': World) {
    if Unclosed(w) then EngineStep(w, w') || MemoryWritten(w, w') || w' == w.(process := Dead)
    else
      || Step(w, w') || MemoryWritten(w, w')
      || OpeningFails(w, w') || CommitFails(w, w') || ClosingFails(w, w')
  }

  // ---------- a memory that is ahead of the disk ----------

  /** The world as it would be if the opening write had been carried out just now. */
  function Shadow(w: World): World
    requires w.process.Alive?
  {
    World(w.docker, w.process.journal, w.process, w.docker.data)
  }

  /** Memory holds an operation that the disk knows nothing of, and that has done nothing yet. */
  ghost predicate Ahead(w: World) {
    && w.process.Alive? && (w.process.pc.Idle? || InRecovery(w.process.pc))
    && w.disk.pending.None? && Quiescent(w.disk.active, w.docker)
    && w.process.journal.pending.Some? && !w.process.journal.pending.value.backup
    && w.process.journal.active == w.disk.active
    && Inv(Shadow(w))
  }

  lemma QuiescentDisk(w: World)
    requires Ahead(w)
    ensures Recoverable(w.disk, w.docker, w.drained)
  {
    assert Recoverable(w.process.journal, w.docker, w.docker.data);
  }

  lemma OpeningLeavesAhead(w: World, w': World)
    requires Inv(w) && OpeningFails(w, w')
    ensures Ahead(w')
  {
    var opened' := Succeeded(w, Program(w.docker, w.process.journal, w.process.pc));
    assert ProcessStep(w, opened');
    ProcessKeepsInv(w, opened');
    assert Shadow(w') == opened'.(process := opened'.process.(pc := Idle));
    FailureKeepsInv(opened', Shadow(w'));
  }

  lemma CommitLeavesInv(w: World, w': World)
    requires Inv(w) && CommitFails(w, w')
    ensures Inv(w')
  {
    FailureKeepsInv(w, w');
  }

  // ---------- a recovery of that memory ----------

  lemma AheadMoves(w: World, move: Move)
    requires Ahead(w) && InRecovery(w.process.pc) && move == Program(w.docker, w.process.journal, w.process.pc)
    ensures move.Command? ==>
      && Quiescent(w.disk.active, move.after) && move.after.data == w.docker.data
      && (InRecovery(move.ok) || move.ok.Idle?) && (move.failed.Idle? || InRecovery(move.failed))
    ensures move.Persist? ==> move.journal == w.disk && move.ok.Idle?
    ensures move.Throw? ==> move.to.Idle?
  {
    assert AtPoint(Shadow(w), w.process.pc);
  }

  lemma AheadCommand(w: World, w': World)
    requires Ahead(w) && ProcessStep(w, w') && InRecovery(w.process.pc)
    requires !Program(w.docker, w.process.journal, w.process.pc).Persist?
    ensures Ahead(w')
  {
    var move := Program(w.docker, w.process.journal, w.process.pc);
    AheadMoves(w, move);
    assert Taken(Shadow(w), move, Shadow(w'));
    assert ProcessStep(Shadow(w), Shadow(w'));
    ProcessKeepsInv(Shadow(w), Shadow(w'));
  }

  lemma DiskIsEnough(w: World, w': World)
    requires Ahead(w) && w' == w.(process := w'.process)
    requires w'.process == Dead || w'.process == Alive(w.disk, Idle)
    ensures Inv(w')
  {
    QuiescentDisk(w);
  }

  lemma AheadProcess(w: World, w': World)
    requires Ahead(w) && ProcessStep(w, w')
    ensures Ahead(w') || Inv(w')
  {
    var move := Program(w.docker, w.process.journal, w.process.pc);
    if move.Persist? {
      AheadMoves(w, move);
      DiskIsEnough(w, w');
    } else {
      AheadCommand(w, w');
    }
  }

  lemma AheadEngine(w: World, w': World)
    requires Ahead(w) && EngineStep(w, w')
    ensures Ahead(w')
  {
    assert !ScriptStep(w.docker, w'.docker);
    assert Shadow(w') == Written(Shadow(w), w'.docker.data);
    EngineKeepsInv(Shadow(w), Shadow(w'));
  }

  lemma AheadLifecycle(w: World, w': World)
    requires Ahead(w) && LifecycleStep(w, w')
    ensures Ahead(w') || Inv(w')
  {
    if w' == w.(process := Dead) {
      DiskIsEnough(w, w');
    } else {
      assert LifecycleStep(Shadow(w), Shadow(w'));
      LifecycleKeepsInv(Shadow(w), Shadow(w'));
    }
  }

  lemma AheadWritten(w: World, w': World)
    requires Ahead(w) && MemoryWritten(w, w')
    ensures Inv(w')
  {
    assert w' == Shadow(w);
  }

  lemma AheadClosing(w: World, w': World)
    requires Ahead(w) && ClosingFails(w, w')
    ensures Inv(w')
  {
    assert w'.process.journal == w.disk;
    DiskIsEnough(w, w');
  }

  // ---------- a memory that is closed before the disk ----------

  /** The operation is over but for the journal on disk. */
  ghost predicate Closed(w: World) {
    && Unclosed(w) && w.process.journal == w.disk.(pending := None)
    && Recoverable(w.disk, w.docker, w.drained) && Quiescent(w.disk.active, w.docker)
  }

  lemma ClosingLeavesClosed(w: World, w': World)
    requires Inv(w) && ClosingFails(w, w')
    ensures Closed(w')
  {
    assert AtPoint(w, ClosePending);
  }

  lemma ClosedEngine(w: World, w': World)
    requires Closed(w) && EngineStep(w, w')
    ensures Closed(w')
  {
    var dead := w.(process := Dead);
    assert Inv(dead) && !ScriptStep(w.docker, w'.docker);
    WriteKeepsRecoverable(dead, w'.(process := Dead));
  }

  lemma ClosedEnds(w: World, w': World)
    requires Closed(w) && (MemoryWritten(w, w') || w' == w.(process := Dead))
    ensures Inv(w')
  {
  }

  // ---------- every step and every harmless fault ----------

  ghost predicate Sound(w: World) {
    Inv(w) || Ahead(w) || Closed(w)
  }

  lemma InvGoesOn(w: World, w': World)
    requires Inv(w) && StepOrFault(w, w')
    ensures Sound(w')
  {
    if Step(w, w') { StepKeepsInv(w, w'); }
    else if OpeningFails(w, w') { OpeningLeavesAhead(w, w'); }
    else if CommitFails(w, w') { CommitLeavesInv(w, w'); }
    else if ClosingFails(w, w') { ClosingLeavesClosed(w, w'); }
    else { assert w' == w; }
  }

  lemma AheadGoesOn(w: World, w': World)
    requires Ahead(w) && StepOrFault(w, w')
    ensures Sound(w')
  {
    if MemoryWritten(w, w') { AheadWritten(w, w'); }
    else if ClosingFails(w, w') { AheadClosing(w, w'); }
    else if ProcessStep(w, w') { AheadProcess(w, w'); }
    else if EngineStep(w, w') { AheadEngine(w, w'); }
    else { AheadLifecycle(w, w'); }
  }

  lemma StepOrFaultKeepsSound(w: World, w': World)
    requires Sound(w) && StepOrFault(w, w')
    ensures Sound(w')
  {
    if Inv(w) { InvGoesOn(w, w'); }
    else if Ahead(w) { AheadGoesOn(w, w'); }
    else if EngineStep(w, w') { ClosedEngine(w, w'); }
    else { ClosedEnds(w, w'); }
  }

  // ---------- what still holds when those writes fail ----------

  ghost predicate IsFaultyRun(run: seq<World>) {
    && |run| > 0
    && forall i :: 0 < i < |run| ==> StepOrFault(run[i - 1], run[i])
  }

  /** Reached by steps of the protocol and harmless write faults, any number of them. */
  ghost predicate FaultReachable(w: World) {
    exists run :: IsFaultyRun(run) && Init(run[0]) && run[|run| - 1] == w
  }

  lemma {:induction false} FaultyRunIsSound(run: seq<World>, i: nat)
    requires IsFaultyRun(run) && Sound(run[0]) && i < |run|
    ensures Sound(run[i])
  {
    if i > 0 {
      FaultyRunIsSound(run, i - 1);
      StepOrFaultKeepsSound(run[i - 1], run[i]);
    }
  }

  lemma FaultReachableIsSound(w: World)
    requires FaultReachable(w)
    ensures Sound(w)
  {
    var run :| IsFaultyRun(run) && Init(run[0]) && run[|run| - 1] == w;
    InitInv(run[0]);
    FaultyRunIsSound(run, |run| - 1);
  }

  /** What a crash leaves is what recovery needs, so at most one writer and, if an operation is
      journalled, a run of `recover` to its end with the old deployment restored. */
  lemma RecoveryPossibleUnderFaults(w: World) returns (run: seq<World>)
    requires FaultReachable(w)
    ensures Recoverable(w.disk, w.docker, w.drained)
    ensures w.disk.pending.Some? ==>
      Completes(run) && run[0] == w && Restored(run[|run| - 2], run[|run| - 1])
  {
    FaultReachableIsSound(w);
    if Ahead(w) { QuiescentDisk(w); }
    run := [];
    if w.disk.pending.Some? { run := RecoveryPossible(w); }
  }

  lemma EngineStartsNothing(w: World, w': World, active: Option<nat>)
    requires EngineStep(w, w')
    ensures IsRunning(w'.docker, active) == IsRunning(w.docker, active)
  {
    assert w'.docker.at == w.docker.at;
  }

  lemma FaultsStartNothing(w: World, w': World)
    requires OpeningFails(w, w') || CommitFails(w, w') || ClosingFails(w, w') || MemoryWritten(w, w')
    ensures w'.docker == w.docker
  {
  }

  /** No fault starts anything, and neither does the engine. */
  lemma StartIsStep(w: World, w': World, active: Option<nat>)
    requires Sound(w) && w.disk.pending.Some? && StepOrFault(w, w')
    requires !IsRunning(w.docker, active) && IsRunning(w'.docker, active)
    ensures Step(w, w') && Inv(w)
  {
    if EngineStep(w, w') { EngineStartsNothing(w, w', active); }
    if OpeningFails(w, w') || CommitFails(w, w') || ClosingFails(w, w') || MemoryWritten(w, w') {
      FaultsStartNothing(w, w');
    }
  }

  /** The restart of a pending operation is on the drained stores, also when those writes fail. */
  lemma RestartsOnDrainedUnderFaults(w: World, w': World)
    requires FaultReachable(w) && StepOrFault(w, w')
    requires w.disk.pending.Some? && w.disk.active.Some?
    requires !IsRunning(w.docker, w.disk.active) && IsRunning(w'.docker, w'.disk.active)
    requires w'.disk.active == w.disk.active
    ensures w.process.Alive? && w.process.pc == RestartOld
    ensures w'.docker.data == w.drained == w'.drained
    ensures w'.docker.at.Keys == {Canonical} && w.disk.pending.value.wasRunning
  {
    FaultReachableIsSound(w);
    StartIsStep(w, w', w.disk.active);
    RestartsOnDrained(w, w');
  }

  // ---------- when the end of the action is not written either ----------

  /** The disk still holds an operation with its snapshot, memory does not. */
  predicate Behind(w: World, a: nat, running: bool) {
    && w.process == Alive(w.disk.(pending := None), Idle)
    && SnapshotTaken(w.disk) && w.disk.active == Some(a)
    && w.docker.at == map[Canonical := Container(a, running)]
  }

  function Point(w: World, pc: PC): World {
    w.(process := Alive(w.disk.(pending := None), pc))
  }

  /** `start`, if the service is not up. */
  function StartUp(w: World, a: nat, running: bool): seq<World> {
    if running then [w]
    else
      var up := w.(docker := Start(w.docker, a));
      [ w, Point(w, StartActive), Point(up, ProbeActive), Point(up, Idle) ]
  }

  /** The service writes, and is restarted by an ordinary action. */
  function Restart(w: World, data: Stores, a: nat): seq<World> {
    var written := Written(w, data);
    var down := written.(docker := Stop(written.docker, a));
    [ written,
      Point(written, StopActive(true)),
      Point(down, StartActive),
      Point(down.(docker := Start(down.docker, a)), ProbeActive) ]
  }

  lemma EntersAction(w: World, action: Action)
    requires w.process.Alive? && w.process.pc.Idle?
    ensures Step(w, w.(process := w.process.(pc := Entry(w.docker, w.process.journal, action))))
  {
    var w' := w.(process := w.process.(pc := Entry(w.docker, w.process.journal, action)));
    assert LifecycleStep(w, w');
  }

  lemma StartUpSteps(w: World, a: nat)
    requires Behind(w, a, false)
    ensures Chained(StartUp(w, a, false))
  {
    var run := StartUp(w, a, false);
    EntersAction(w, StartService);
    assert ProcessStep(run[1], run[2]);
    assert ProcessStep(run[2], run[3]);
  }

  lemma StartUpRuns(w: World, a: nat, running: bool)
    requires Behind(w, a, running)
    ensures var run := StartUp(w, a, running);
            Chained(run) && run[0] == w && Behind(run[|run| - 1], a, true)
            && run[|run| - 1].disk == w.disk && run[|run| - 1].drained == w.drained
  {
    if !running { StartUpSteps(w, a); }
  }

  lemma RestartRuns(w: World, data: Stores, a: nat)
    requires Behind(w, a, true)
    ensures Step(w, Restart(w, data, a)[0]) && Chained(Restart(w, data, a))
  {
    var run := Restart(w, data, a);
    assert EngineStep(w, run[0]);
    EntersAction(run[0], RestartService);
    assert ProcessStep(run[1], run[2]);
    assert ProcessStep(run[2], run[3]);
  }

  lemma ClosingFinds(w: World)
    requires Inv(w) && w.process == Alive(w.disk, ClosePending) && SnapshotTaken(w.disk)
    ensures w.disk.active.Some?
    ensures w.docker.at == map[Canonical := Container(w.disk.active.value, w.disk.pending.value.wasRunning)]
  {
    assert AtPoint(w, ClosePending);
    var d := w.docker;
    assert d.at == map[Canonical := d.at[Canonical]];
  }

  lemma BehindRestarts(w: World, data: Stores, a: nat, running: bool) returns (run: seq<World>)
    requires Behind(w, a, running)
    ensures IsRun(run) && |run| > 2 && run[0] == w
    ensures var before, after := run[|run| - 2], run[|run| - 1];
            && before.disk == after.disk == w.disk && after.drained == w.drained && after.docker.data == data
            && !IsRunning(before.docker, Some(a)) && IsRunning(after.docker, Some(a))
  {
    var first := StartUp(w, a, running);
    StartUpRuns(w, a, running);
    var second := Restart(first[|first| - 1], data, a);
    RestartRuns(first[|first| - 1], data, a);
    run := first + second;
    RunsJoin(first, second);
    JoinedAt(first, second, 0);
    JoinedAt(first, second, |run| - 2);
    JoinedAt(first, second, |run| - 1);
  }

  /** From every reachable state in which a recovery with a snapshot is about to be closed: if that
      write fails with the process living on, and the ends of actions do not write either, ordinary
      steps start the old service on whatever it has written since, while the disk still holds the
      operation. The stores then are not the drained ones, and a later recovery would discard them. */
  lemma LostCloseRestartsOnOtherStores(w: World, data: Stores) returns (run: seq<World>)
    requires Reachable(w) && w.process == Alive(w.disk, ClosePending) && SnapshotTaken(w.disk)
    requires data != w.drained
    ensures IsRun(run) && |run| > 2 && ClosingFails(w, run[0])
    ensures var before, after := run[|run| - 2], run[|run| - 1];
            && before.disk == after.disk == w.disk
            && !IsRunning(before.docker, w.disk.active) && IsRunning(after.docker, w.disk.active)
            && after.docker.data == data && after.docker.data != after.drained
  {
    ReachableInv(w);
    ClosingFinds(w);
    var closed := w.(process := Alive(w.disk.(pending := None), Idle));
    run := BehindRestarts(closed, data, w.disk.active.value, w.disk.pending.value.wasRunning);
  }
}
