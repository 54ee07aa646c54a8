/** `deploy`, `recover` and the start/stop/restart actions as a step relation, one program point
    for each docker command or journal write.

    Fault model: the manager process may die between any two steps, a docker command may fail with
    or without its effect, and a journal write is atomic: it takes effect, or the process dies. */
module DockerProtocol {
  import opened Options
  import opened DockerWorld

  /** Where `removeMaintenance` returns to. */
  datatype Caller = BeforeBackup | AfterBackup | RecoveryStart | BeforeRestore | AfterRestore

  datatype PC =
    | Idle
    // deploy
    | Preflight(op: nat)
    | RemovePrevious(op: nat, wasRunning: bool, previous: nat)
    | OpenPending(op: nat, wasRunning: bool)
    | Drain
    | RunBackup
    | AwaitBackup
    | MarkBackup
    | RenameOld
    | CreateCandidate
    | StartCandidate(id: nat)
    | ProbeCandidate(id: nat)
    | RenameCandidate(id: nat)
    | Commit(id: nat)
    // removeMaintenance, called from several places
    | StopMaintenance(caller: Caller)
    | RemoveMaintenance(caller: Caller)
    // recover
    | FindCandidate(name: Name)
    | RemoveCandidate(name: Name, id: nat)
    | StopOld
    | RunRestore
    | AwaitRestore
    | RestoreName
    | RestartOld
    | ProbeOld
    | ClosePending
    // start, stop, restart
    | StopActive(restart: bool)
    | StartActive
    | ProbeActive

  datatype Process = Dead | Alive(journal: Journal, pc: PC)

  /** `drained` is a history variable: what the active service had last left in the stores when the
      current operation's snapshot was taken. It starts at the contents found when the operation is
      journalled, follows the old service's own writes, and is frozen once the journal says that a
      snapshot exists. */
  datatype World = World(docker: Docker, disk: Journal, process: Process, drained: Stores)

  // ---------- the program ----------

  datatype Move =
    | Command(after: Docker, ok: PC, failed: PC)
    | Throw(to: PC)
    | Persist(journal: Journal, ok: PC)
    | Nothing

  /** Where a failed step of `deploy` continues: its catch block, which starts `recover`. */
  const Catch := StopMaintenance(RecoveryStart)

  function OnMaintenanceFailure(caller: Caller): PC {
    if caller == BeforeBackup || caller == AfterBackup then Catch else Idle
  }

  function AfterMaintenance(caller: Caller): PC {
    match caller
    case BeforeBackup => RunBackup
    case AfterBackup => MarkBackup
    case RecoveryStart => FindCandidate(Next)
    case BeforeRestore => RunRestore
    case AfterRestore => RestoreName
  }

  function AfterCandidate(name: Name, active: Option<nat>): PC {
    if name == Next then FindCandidate(Canonical)
    else if active.None? then ClosePending
    else StopOld
  }

  /** The checks of `deploy` before it writes anything. */
  predicate PreflightPasses(d: Docker, active: Option<nat>) {
    && (active.Some? ==> SlotOf(d, active.value).Some?)
    && (Canonical in d.at ==> active == Some(d.at[Canonical].id))
    && Next !in d.at
    && (Previous in d.at ==> !d.at[Previous].running)
  }

  predicate IsRunning(d: Docker, active: Option<nat>) {
    && active.Some?
    && SlotOf(d, active.value).Some?
    && d.at[SlotOf(d, active.value).value].running
  }

  /** The next move of a manager whose in-memory journal is `j`, at program point `pc`. */
  function Program(d: Docker, j: Journal, pc: PC): Move {
    match pc
    case Idle => Nothing
    case Preflight(op) =>
      if !PreflightPasses(d, j.active) then Throw(Idle)
      else if Previous in d.at then Command(d, RemovePrevious(op, IsRunning(d, j.active), d.at[Previous].id), Idle)
      else Command(d, OpenPending(op, IsRunning(d, j.active)), Idle)
    case RemovePrevious(op, wasRunning, previous) =>
      Command(Remove(d, previous), OpenPending(op, wasRunning), Idle)
    case OpenPending(op, wasRunning) =>
      Persist(j.(pending := Some(Pending(op, false, wasRunning))), if j.active.Some? then Drain else CreateCandidate)
    case StopMaintenance(caller) =>
      Command(StopHelper(d), RemoveMaintenance(caller), OnMaintenanceFailure(caller))
    case RemoveMaintenance(caller) =>
      if HelperRunning(d) then Throw(OnMaintenanceFailure(caller))
      else Command(d.(helper := None), AfterMaintenance(caller), OnMaintenanceFailure(caller))
    case Commit(id) => Persist(Journal(Some(id), None), Idle)
    case FindCandidate(name) =>
      if name in d.at && j.active != Some(d.at[name].id)
      then Command(Stop(d, d.at[name].id), RemoveCandidate(name, d.at[name].id), Idle)
      else Command(d, AfterCandidate(name, j.active), Idle)
    case RemoveCandidate(name, id) => Command(Remove(d, id), AfterCandidate(name, j.active), Idle)
    case ClosePending => Persist(j.(pending := None), Idle)
    case CreateCandidate =>
      if Next in d.at then Throw(Catch) else Command(Create(d), StartCandidate(d.created), Catch)
    case StartCandidate(id) => Command(Start(d, id), ProbeCandidate(id), Catch)
    case ProbeCandidate(id) => Command(d, RenameCandidate(id), Catch)
    case RenameCandidate(id) =>
      if Canonical in d.at then Throw(Catch) else Command(Rename(d, id, Canonical), Commit(id), Catch)
    case _ =>
      if j.active.None? then Nothing else ActiveProgram(d, j, j.active.value, pc)
  }

  /** The moves that exist only when there is an active deployment `a`. */
  function ActiveProgram(d: Docker, j: Journal, a: nat, pc: PC): Move {
    match pc
    case StopActive(restart) => Command(Stop(d, a), if restart then StartActive else Idle, Idle)
    case StartActive => Command(Start(d, a), ProbeActive, Idle)
    case ProbeActive => Command(d, Idle, Idle)
    case _ =>
      if j.pending.None? then Nothing else PendingProgram(d, j, a, j.pending.value, pc)
  }

  /** The moves that exist only for an active deployment `a` and a journalled operation `p`. */
  function PendingProgram(d: Docker, j: Journal, a: nat, p: Pending, pc: PC): Move {
    match pc
    case Drain =>
      Command(if p.wasRunning then Stop(d, a) else d, StopMaintenance(BeforeBackup), Catch)
    case RunBackup =>
      if d.helper.Some? then Throw(Catch)
      else Command(d.(helper := Some(Helper(false, p.id, Clearing))), AwaitBackup, Catch)
    case AwaitBackup =>
      if d.helper.Some? && d.helper.value.script == Exited(true)
      then Command(d, StopMaintenance(AfterBackup), Catch) else Throw(Catch)
    case MarkBackup => Persist(j.(pending := Some(p.(backup := true))), RenameOld)
    case RenameOld =>
      if Previous in d.at then Throw(Catch) else Command(Rename(d, a, Previous), CreateCandidate, Catch)
    case StopOld =>
      if SlotOf(d, a).None? then Throw(Idle)
      else Command(Stop(d, a), if p.backup then StopMaintenance(BeforeRestore) else RestoreName, Idle)
    case RunRestore =>
      if d.helper.Some? then Throw(Idle)
      else Command(d.(helper := Some(Helper(true, p.id, Clearing))), AwaitRestore, Idle)
    case AwaitRestore =>
      if d.helper.Some? && d.helper.value.script == Exited(true)
      then Command(d, StopMaintenance(AfterRestore), Idle) else Throw(Idle)
    case RestoreName =>
      var next := if p.wasRunning then RestartOld else ClosePending;
      if SlotOf(d, a) == Some(Canonical) then Command(d, next, Idle)
      else if Canonical in d.at then Throw(Idle)
      else Command(Rename(d, a, Canonical), next, Idle)
    case RestartOld => Command(Start(d, a), ProbeOld, Idle)
    case ProbeOld => Command(d, ClosePending, Idle)
    case _ => Nothing
  }

  // ---------- steps ----------

  function Persisted(w: World, journal: Journal, pc: PC): World {
    World(w.docker, journal, Alive(journal, pc),
      if w.disk.pending.None? && journal.pending.Some? then w.docker.data else w.drained)
  }

  /** `w'` is an outcome of the move: a command succeeds, or fails with or without its effect. */
  ghost predicate Taken(w: World, move: Move, w': World)
    requires w.process.Alive?
  {
    match move
    case Nothing => false
    case Throw(to) => w' == w.(process := w.process.(pc := to))
    case Persist(journal, ok) => w' == Persisted(w, journal, ok)
    case Command(after, ok, failed) =>
      || w' == w.(docker := after, process := w.process.(pc := ok))
      || w' == w.(process := w.process.(pc := failed))
      || w' == w.(docker := after, process := w.process.(pc := failed))
  }

  ghost predicate ProcessStep(w: World, w': World) {
    w.process.Alive? && Taken(w, Program(w.docker, w.process.journal, w.process.pc), w')
  }

  predicate SnapshotTaken(j: Journal) {
    j.pending.Some? && j.pending.value.backup
  }

  function Written(w: World, data: Stores): World {
    w.(docker := w.docker.(data := data), drained := if SnapshotTaken(w.disk) then w.drained else data)
  }

  /** A running service rewrites its stores, or the maintenance script advances. */
  ghost predicate EngineStep(w: World, w': World) {
    || (ServiceRunning(w.docker) && w' == Written(w, w'.docker.data))
    || (ScriptStep(w.docker, w'.docker) && w' == w.(docker := w'.docker))
  }

  datatype Action = Deploy(op: nat) | Recover | StartService | StopService | RestartService

  /** `action` at its first step: everything but `recover` is refused while an operation is pending. */
  function Entry(d: Docker, j: Journal, action: Action): PC {
    match action
    case Recover => if j.pending.Some? then Catch else Idle
    case Deploy(op) => if j.pending.Some? then Idle else Preflight(op)
    case _ =>
      if j.pending.Some? || j.active.None? || SlotOf(d, j.active.value).None? then Idle
      else if action.StartService? then StartActive
      else StopActive(action.RestartService?)
  }

  ghost predicate LifecycleStep(w: World, w': World) {
    || w' == w.(process := Dead)
    || (w.process.Dead? && w' == w.(process := Alive(w.disk, Idle)))
    || (w.process.Alive? && w.process.pc.Idle? &&
        exists action :: w' == w.(process := w.process.(pc := Entry(w.docker, w.process.journal, action))))
  }

  ghost predicate Step(w: World, w': World) {
    ProcessStep(w, w') || EngineStep(w, w') || LifecycleStep(w, w')
  }

  /** A fresh installation: no owned container, nothing journalled; the volumes may hold anything. */
  ghost predicate Init(w: World) {
    && w.docker.at == map[]
    && w.docker.helper.None?
    && w.disk == Journal(None, None)
    && w.process == Alive(w.disk, Idle)
  }

  ghost predicate StepAt(run: seq<World>, i: nat)
    requires 0 < i < |run|
  {
    Step(run[i - 1], run[i])
  }

  ghost predicate Chained(run: seq<World>) {
    forall i :: 0 < i < |run| ==> StepAt(run, i)
  }

  ghost predicate IsRun(run: seq<World>) {
    |run| > 0 && Chained(run)
  }

  lemma ChainGoesOn(run: seq<World>, w: World)
    requires Chained(run) && (|run| > 0 ==> Step(run[|run| - 1], w))
    ensures Chained(run + [w])
  {
    forall i | 0 < i < |run + [w]| ensures StepAt(run + [w], i) {
      if i < |run| { assert StepAt(run, i); }
    }
  }
}
