/** One call of the manager: it always ends, and a deployment that fails has tried to recover before. */
module DockerCalls {
  import opened Options
  import opened DockerWorld
  import opened DockerProtocol
  import opened DockerInvariant
  import opened DockerSteps
  import opened DockerRecovery
  import opened DockerCompletion
  import opened DockerProgress

  /** How often the manager can move from here: deploying comes before recovering. */
  function CallRank(pc: PC): nat {
    match pc
    case Idle => 0
    case Preflight(_) => 34
    case RemovePrevious(_, _, _) => 33
    case OpenPending(_, _) => 32
    case Drain => 31
    case StopMaintenance(caller) => MaintenanceRank(caller) + 1
    case RemoveMaintenance(caller) => MaintenanceRank(caller)
    case RunBackup => 28
    case AwaitBackup => 27
    case MarkBackup => 24
    case RenameOld => 23
    case CreateCandidate => 22
    case StartCandidate(_) => 21
    case ProbeCandidate(_) => 20
    case RenameCandidate(_) => 19
    case Commit(_) => 18
    case FindCandidate(name) => if name == Next then 15 else 13
    case RemoveCandidate(name, _) => if name == Next then 14 else 12
    case StopOld => 11
    case RunRestore => 8
    case AwaitRestore => 7
    case RestoreName => 4
    case RestartOld => 3
    case ProbeOld => 2
    case ClosePending => 1
    case StopActive(_) => 3
    case StartActive => 2
    case ProbeActive => 1
  }

  function MaintenanceRank(caller: Caller): nat {
    match caller
    case BeforeBackup => 29
    case AfterBackup => 25
    case RecoveryStart => 16
    case BeforeRestore => 9
    case AfterRestore => 5
  }

  /** A call comes nearer to its end, and enters `recover` at its beginning. */
  ghost predicate GoesDown(pc: PC, to: PC) {
    CallRank(to) < CallRank(pc) && (InRecovery(to) ==> InRecovery(pc) || to == StopMaintenance(RecoveryStart))
  }

  ghost predicate MoveGoesDown(pc: PC, move: Move) {
    match move
    case Command(_, ok, failed) => GoesDown(pc, ok) && GoesDown(pc, failed)
    case Throw(to) => GoesDown(pc, to)
    case Persist(_, ok) => GoesDown(pc, ok)
    case Nothing => true
  }

  lemma StopMaintenanceGoesDown(d: Docker, j: Journal, caller: Caller)
    ensures MoveGoesDown(StopMaintenance(caller), Program(d, j, StopMaintenance(caller)))
  {
  }

  lemma AfterMaintenanceGoesDown(caller: Caller)
    ensures GoesDown(RemoveMaintenance(caller), AfterMaintenance(caller))
  {
  }

  lemma RemoveMaintenanceGoesDown(d: Docker, j: Journal, caller: Caller)
    ensures MoveGoesDown(RemoveMaintenance(caller), Program(d, j, RemoveMaintenance(caller)))
  {
    AfterMaintenanceGoesDown(caller);
  }

  lemma SweepingGoesDown(d: Docker, j: Journal, pc: PC)
    requires Sweeping(pc) && pc.name != Previous
    ensures MoveGoesDown(pc, Program(d, j, pc))
  {
  }

  lemma RestoringGoesDown(d: Docker, j: Journal, pc: PC)
    requires pc.StopOld? || pc.RunRestore? || pc.AwaitRestore?
    ensures MoveGoesDown(pc, Program(d, j, pc))
  {
  }

  lemma ReturningGoesDown(d: Docker, j: Journal, pc: PC)
    requires Returning(pc) || pc.ClosePending?
    ensures MoveGoesDown(pc, Program(d, j, pc))
  {
  }

  lemma OpeningGoesDown(d: Docker, j: Journal, pc: PC)
    requires Opening(pc)
    ensures MoveGoesDown(pc, Program(d, j, pc))
  {
  }

  lemma OperatingGoesDown(d: Docker, j: Journal, pc: PC)
    requires Operating(pc)
    ensures MoveGoesDown(pc, Program(d, j, pc))
  {
  }

  lemma BackupGoesDown(d: Docker, j: Journal, pc: PC)
    requires pc.Drain? || pc.RunBackup? || pc.AwaitBackup? || pc.MarkBackup? || pc.RenameOld?
    ensures MoveGoesDown(pc, Program(d, j, pc))
  {
  }

  lemma SwitchingGoesDown(d: Docker, j: Journal, pc: PC)
    requires Switching(pc)
    ensures MoveGoesDown(pc, Program(d, j, pc))
  {
  }

  lemma ProgramGoesDown(d: Docker, j: Journal, pc: PC)
    requires Sweeping(pc) ==> pc.name != Previous
    ensures MoveGoesDown(pc, Program(d, j, pc))
  {
    if pc.StopMaintenance? { StopMaintenanceGoesDown(d, j, pc.caller); }
    else if pc.RemoveMaintenance? { RemoveMaintenanceGoesDown(d, j, pc.caller); }
    else if Sweeping(pc) { SweepingGoesDown(d, j, pc); }
    else if Opening(pc) { OpeningGoesDown(d, j, pc); }
    else if Operating(pc) { OperatingGoesDown(d, j, pc); }
    else if Switching(pc) { SwitchingGoesDown(d, j, pc); }
    else if Returning(pc) || pc.ClosePending? { ReturningGoesDown(d, j, pc); }
    else if InRecovery(pc) { RestoringGoesDown(d, j, pc); }
    else if !pc.Idle? { BackupGoesDown(d, j, pc); }
  }

  lemma CallGoesOn(w: World, w': World)
    requires Inv(w) && ProcessStep(w, w')
    ensures w'.process.Alive? && GoesDown(w.process.pc, w'.process.pc)
  {
    assert KnowsCandidate(w.docker, w.disk.active, w.process.pc);
    ProgramGoesDown(w.docker, w.process.journal, w.process.pc);
  }

  /** Only `recover` ends a call with an operation that it leaves pending. */
  lemma OnlyRecoveryGivesUp(w: World, w': World)
    requires Inv(w) && ProcessStep(w, w') && !InRecovery(w.process.pc) && w'.process.pc.Idle?
    ensures w'.disk.pending.None?
  {
    assert KnowsJournal(w.disk.active, w.disk.pending, w.process.pc);
  }

  /** `deploy` begins only if the active container exists, no other one has its name, no candidate is left
      over and the superseded one does not run; looking changes nothing. */
  lemma PreflightRefuses(w: World, w': World)
    requires ProcessStep(w, w') && w.process.pc.Preflight?
    ensures w'.docker == w.docker && w'.disk == w.disk
    ensures w'.process.Alive? && !w'.process.pc.Idle? ==>
      var at, active := w.docker.at, w.process.journal.active;
      && (active.Some? ==> exists n :: n in at && at[n].id == active.value)
      && (Canonical in at ==> active == Some(at[Canonical].id))
      && Next !in at && (Previous in at ==> !at[Previous].running)
  {
  }

  // ---------- whole calls ----------

  /** From some point of a call until its end, or until the manager dies. */
  ghost predicate IsCall(run: seq<World>) {
    && IsRun(run)
    && forall k :: 0 <= k < |run| - 1 ==> run[k].process.Alive? && !run[k].process.pc.Idle?
  }

  /** How often the manager itself moves. */
  function Turns(run: seq<World>): nat {
    if |run| < 2 then 0
    else Turns(run[..|run| - 1]) + if run[|run| - 1].process == run[|run| - 2].process then 0 else 1
  }

  lemma CallPrefix(run: seq<World>)
    requires IsCall(run) && |run| > 1
    ensures IsCall(run[..|run| - 1])
  {
    var init := run[..|run| - 1];
    forall i | 0 < i < |init| ensures StepAt(init, i) { assert StepAt(run, i); }
  }

  lemma CallStep(run: seq<World>)
    requires IsCall(run) && |run| > 1 && Inv(run[|run| - 2])
    ensures var w, w' := run[|run| - 2], run[|run| - 1];
      Inv(w') && (ProcessStep(w, w') || w'.process == w.process || w'.process.Dead?)
  {
    assert StepAt(run, |run| - 1);
    StepKeepsInv(run[|run| - 2], run[|run| - 1]);
  }

  /** What is left of the call after `turns` moves of the manager. */
  ghost predicate IsBounded(start: PC, turns: nat, w: World) {
    Inv(w) && turns + (if w.process.Alive? then CallRank(w.process.pc) else 0) <= CallRank(start)
  }

  lemma TurnGoesDown(start: PC, turns: nat, w: World, w': World)
    requires IsBounded(start, turns, w) && w.process.Alive? && !w.process.pc.Idle? && Inv(w')
    requires ProcessStep(w, w') || w'.process == w.process || w'.process.Dead?
    ensures IsBounded(start, if w'.process == w.process then turns else turns + 1, w')
  {
    if ProcessStep(w, w') {
      CallGoesOn(w, w');
    }
    assert CallRank(w.process.pc) > 0;
  }

  lemma {:induction false} TurnsGoDown(run: seq<World>)
    requires IsCall(run) && Inv(run[0]) && run[0].process.Alive?
    ensures IsBounded(run[0].process.pc, Turns(run), run[|run| - 1])
  {
    if |run| > 1 {
      var init := run[..|run| - 1];
      CallPrefix(run);
      TurnsGoDown(init);
      CallStep(run);
      TurnGoesDown(run[0].process.pc, Turns(init), run[|run| - 2], run[|run| - 1]);
    }
  }

  /** No call makes the manager move more often than 34 times, whatever fails and whenever it dies. */
  lemma CallsEnd(run: seq<World>)
    requires IsCall(run) && Reachable(run[0]) && run[0].process.Alive?
    ensures Turns(run) <= 34
  {
    ReachableInv(run[0]);
    TurnsGoDown(run);
  }

  ghost predicate HasTriedToRecover(run: seq<World>) {
    exists k :: 0 < k < |run| && run[k].process.Alive? && run[k].process.pc == StopMaintenance(RecoveryStart)
  }

  lemma PrefixHasTried(run: seq<World>)
    requires |run| > 1 && HasTriedToRecover(run[..|run| - 1])
    ensures HasTriedToRecover(run)
  {
    var init := run[..|run| - 1];
    var k :| 0 < k < |init| && init[k].process.Alive? && init[k].process.pc == StopMaintenance(RecoveryStart);
    assert run[k] == init[k];
  }

  lemma LastStep(run: seq<World>) returns (init: seq<World>, w: World, w': World)
    requires IsCall(run) && Inv(run[0]) && run[0].process.Alive? && |run| > 1
    ensures init == run[..|run| - 1] && w == init[|init| - 1] == run[|run| - 2] && w' == run[|run| - 1]
    ensures IsCall(init) && Inv(w) && w.process.Alive?
    ensures ProcessStep(w, w') || w'.process == w.process || w'.process.Dead?
  {
    init, w, w' := run[..|run| - 1], run[|run| - 2], run[|run| - 1];
    CallPrefix(run);
    TurnsGoDown(init);
    CallStep(run);
  }

  lemma RecoveryBeginsAtCatch(w: World, w': World)
    requires Inv(w) && (ProcessStep(w, w') || w'.process == w.process)
    requires w.process.Alive? && w'.process.Alive? && !InRecovery(w.process.pc) && InRecovery(w'.process.pc)
    ensures w'.process.pc == StopMaintenance(RecoveryStart)
  {
    if ProcessStep(w, w') { CallGoesOn(w, w'); }
  }

  lemma {:induction false} RecoveryIsEntered(run: seq<World>)
    requires IsCall(run) && Inv(run[0]) && run[0].process.Alive? && !InRecovery(run[0].process.pc)
    requires run[|run| - 1].process.Alive? && InRecovery(run[|run| - 1].process.pc)
    ensures HasTriedToRecover(run)
  {
    var init, w, w' := LastStep(run);
    if InRecovery(w.process.pc) {
      RecoveryIsEntered(init);
      PrefixHasTried(run);
    } else {
      RecoveryBeginsAtCatch(w, w');
    }
  }

  lemma EndsInRecovery(w: World, w': World)
    requires Inv(w) && w.process.Alive? && !w.process.pc.Idle?
    requires ProcessStep(w, w') || w'.process == w.process || w'.process.Dead?
    requires w'.process == Alive(w'.disk, Idle) && w'.disk.pending.Some?
    ensures InRecovery(w.process.pc)
  {
    if !InRecovery(w.process.pc) { OnlyRecoveryGivesUp(w, w'); }
  }

  /** A deployment that comes to its end with its operation still pending has tried to recover. */
  lemma GivesUpOnlyAfterTrying(run: seq<World>)
    requires IsCall(run) && Reachable(run[0]) && run[0].process.Alive? && run[0].process.pc.Preflight?
    requires run[|run| - 1].process == Alive(run[|run| - 1].disk, Idle) && run[|run| - 1].disk.pending.Some?
    ensures HasTriedToRecover(run)
  {
    ReachableInv(run[0]);
    var init, w, w' := LastStep(run);
    EndsInRecovery(w, w');
    RecoveryIsEntered(init);
    PrefixHasTried(run);
  }
}
