/** What the managed deployment promises, over every run with crashes and ambiguous failures. */
module DockerRecovery {
  import opened Options
  import opened DockerWorld
  import opened DockerProtocol
  import opened DockerInvariant
  import opened DockerSteps

  ghost predicate Reachable(w: World) {
    exists run :: IsRun(run) && Init(run[0]) && run[|run| - 1] == w
  }

  lemma {:induction false} RunKeepsInv(run: seq<World>, i: nat)
    requires IsRun(run) && Inv(run[0]) && i < |run|
    ensures Inv(run[i])
  {
    if i > 0 {
      RunKeepsInv(run, i - 1);
      assert StepAt(run, i);
      StepKeepsInv(run[i - 1], run[i]);
    }
  }

  lemma ReachableInv(w: World)
    requires Reachable(w)
    ensures Inv(w)
  {
    var run :| IsRun(run) && Init(run[0]) && run[|run| - 1] == w;
    InitInv(run[0]);
    RunKeepsInv(run, |run| - 1);
  }

  // ---------- single writer ----------

  /** Whoever has the data volume mounted writable and is running. */
  datatype Writer = Service(name: Name) | RestoringHelper

  predicate Writes(d: Docker, writer: Writer) {
    match writer
    case Service(n) => n in d.at && d.at[n].running
    case RestoringHelper => HelperRunning(d) && d.helper.value.restore
  }

  lemma SingleWriterAlways(w: World)
    requires Reachable(w)
    ensures forall x, y :: Writes(w.docker, x) && Writes(w.docker, y) ==> x == y
    ensures HelperRunning(w.docker) && !w.docker.helper.value.restore ==> forall x :: !Writes(w.docker, x)
  {
    ReachableInv(w);
    assert SingleWriter(w.docker);
    if w.docker.helper.Some? {
      assert forall n :: n in w.docker.at ==> !w.docker.at[n].running;
    }
  }

  // ---------- quiescence ----------

  lemma QuiescentJournal(w: World)
    requires Reachable(w) && w.disk.pending.None?
    ensures w.docker.helper.None? && Next !in w.docker.at
    ensures w.disk.active.None? ==> w.docker.at == map[]
    ensures w.disk.active.Some? ==> SlotOf(w.docker, w.disk.active.value) == Some(Canonical)
    ensures Previous in w.docker.at ==>
      !w.docker.at[Previous].running && w.disk.active != Some(w.docker.at[Previous].id)
  {
    ReachableInv(w);
  }

  /** The only container that a deploy deletes during its preflight is stopped and not the active one. */
  lemma PreflightRemovesOnlyTheSuperseded(w: World)
    requires Reachable(w) && w.process.Alive? && w.process.pc.RemovePrevious?
    ensures Previous in w.docker.at && w.docker.at[Previous] == Container(w.process.pc.previous, false)
    ensures w.disk.active != Some(w.process.pc.previous)
  {
    ReachableInv(w);
    assert AtPoint(w, w.process.pc);
    assert KnowsCandidate(w.docker, w.disk.active, w.process.pc);
  }

  // ---------- crash recovery ----------

  /** A completed recovery: the active deployment is the old one, under the canonical name and alone,
      running exactly if it was running before; a service that stays down has its old contents. */
  ghost predicate Restored(w: World, w': World)
    requires w.disk.pending.Some?
  {
    && w'.disk == Journal(w.disk.active, None)
    && match w.disk.active
       case None => w'.docker.at == map[]
       case Some(a) =>
         && w'.docker.at.Keys == {Canonical}
         && w'.docker.at[Canonical] == Container(a, w.disk.pending.value.wasRunning)
         && (!w.disk.pending.value.wasRunning ==> w'.docker.data == w.drained)
  }

  lemma PendingClosed(w: World, w': World)
    requires Inv(w) && w.process == Alive(w.disk, ClosePending) && Step(w, w')
    requires w.disk.pending.Some? && w'.disk.pending.None?
    ensures Restored(w, w')
  {
    assert AtPoint(w, ClosePending);
  }

  /** The step that clears the pending operation is either the commit of a probed candidate, or the
      end of a recovery. Nothing else ever removes it. */
  lemma PendingEnds(w: World, w': World)
    requires Reachable(w) && Step(w, w')
    requires w.disk.pending.Some? && w'.disk.pending.None?
    ensures w.process.Alive? && (w.process.pc.Commit? || w.process.pc == ClosePending)
    ensures w'.process == Alive(w'.disk, Idle) && w'.docker == w.docker
    ensures w.process.pc.Commit? ==>
      && w'.disk.active == Some(w.process.pc.id) && w.disk.active != w'.disk.active
      && Canonical in w.docker.at && w.docker.at[Canonical] == Container(w.process.pc.id, true)
      && (w.disk.active.Some? ==>
            Previous in w.docker.at && w.docker.at[Previous] == Container(w.disk.active.value, false))
    ensures w.process.pc == ClosePending ==> Restored(w, w')
  {
    ReachableInv(w);
    assert AtPoint(w, w.process.pc);
    if w.process.pc == ClosePending { PendingClosed(w, w'); }
  }

  lemma CommitReplaces(w: World, id: nat)
    requires Reachable(w) && w.process.Alive? && w.process.pc == Commit(id)
    ensures w.disk.active != Some(id)
  {
    ReachableInv(w);
    assert KnowsCandidate(w.docker, w.disk.active, Commit(id));
  }

  lemma StartedBy(w: World, move: Move)
    requires Moves(w, move) && move.Command?
    requires !IsRunning(w.docker, w.disk.active) && IsRunning(move.after, w.disk.active)
    ensures w.process.pc == RestartOld || w.process.pc == StartActive
  {
    assert KnowsCandidate(w.docker, w.disk.active, w.process.pc);
  }

  lemma RestartFinds(w: World)
    requires Inv(w) && w.process.Alive? && (w.process.pc == RestartOld || w.process.pc == StartActive)
    ensures w.disk.pending.Some? ==>
      && w.process.pc == RestartOld && w.docker.data == w.drained && w.disk.pending.value.wasRunning
      && Only(w.docker, w.disk.active.value)
  {
  }

  lemma RestartSteps(w: World)
    requires w.process == Alive(w.disk, RestartOld) && w.disk.pending.Some? && w.disk.active.Some?
    requires Only(w.docker, w.disk.active.value)
    ensures var move := Program(w.docker, w.process.journal, w.process.pc);
            move.Command? && move.after.data == w.docker.data && move.after.at.Keys == {Canonical}
  {
  }

  lemma OnlyMovesStart(w: World, w': World, active: Option<nat>)
    requires Step(w, w') && !IsRunning(w.docker, active) && IsRunning(w'.docker, active)
    ensures w.process.Alive?
    ensures var move := Program(w.docker, w.process.journal, w.process.pc);
            move.Command? && Taken(w, move, w') && w'.docker == move.after
            && w'.disk == w.disk && w'.drained == w.drained
  {
    assert w'.docker.at != w.docker.at;
    assert !LifecycleStep(w, w') && !EngineStep(w, w');
  }

  lemma RestartsOnDrained(w: World, w': World)
    requires Inv(w) && Step(w, w')
    requires w.disk.pending.Some? && w.disk.active.Some?
    requires !IsRunning(w.docker, w.disk.active) && IsRunning(w'.docker, w'.disk.active)
    requires w'.disk.active == w.disk.active
    ensures w.process.Alive? && w.process.pc == RestartOld
    ensures w'.docker.data == w.drained == w'.drained
    ensures w'.docker.at.Keys == {Canonical} && w.disk.pending.value.wasRunning
  {
    OnlyMovesStart(w, w', w.disk.active);
    StartedBy(w, Program(w.docker, w.process.journal, w.process.pc));
    RestartFinds(w);
    RestartSteps(w);
  }

  /** While an operation is pending, the old service is only ever restarted on exactly the stores
      that it had left when it was drained. */
  lemma RestartsOnDrainedStores(w: World, w': World)
    requires Reachable(w) && Step(w, w')
    requires w.disk.pending.Some? && w.disk.active.Some?
    requires !IsRunning(w.docker, w.disk.active) && IsRunning(w'.docker, w'.disk.active)
    requires w'.disk.active == w.disk.active
    ensures w.process.Alive? && w.process.pc == RestartOld
    ensures w'.docker.data == w.drained == w'.drained
    ensures w'.docker.at.Keys == {Canonical} && w.disk.pending.value.wasRunning
  {
    ReachableInv(w);
    RestartsOnDrained(w, w');
  }

  /** What `drained` means: the step that journals the snapshot finds the archive of this operation
      equal to the stores, with no service running, and `drained` equal to both. */
  lemma SnapshotIsWhatWasDrained(w: World, w': World)
    requires Reachable(w) && Step(w, w')
    requires !SnapshotTaken(w.disk) && SnapshotTaken(w'.disk)
    ensures !ServiceRunning(w'.docker)
    ensures w'.disk.pending.value.id in w'.docker.backups
    ensures w'.docker.backups[w'.disk.pending.value.id] == w'.docker.data == w'.drained
  {
    ReachableInv(w);
    assert AtPoint(w, w.process.pc);
    NobodyRunsOnlyOld(w.docker, w.disk.active);
  }

  lemma NobodyRunsOnlyOld(d: Docker, active: Option<nat>)
    ensures active.Some? && DistinctIds(d) && Only(d, active.value) && ActiveStopped(d, active) ==> !ServiceRunning(d)
  {
    if active.Some? && DistinctIds(d) && Only(d, active.value) && ActiveStopped(d, active) {
      NobodyRuns(d, active);
    }
  }

  /** Until the operation ends, that snapshot stays on the backup volume, whatever happens. */
  lemma SnapshotSurvives(w: World, w': World)
    requires Reachable(w) && Step(w, w') && SnapshotTaken(w.disk) && w.disk.active.Some?
    requires w'.disk.pending.Some?
    ensures w'.disk == w.disk
    ensures w'.drained == w.drained && w.disk.pending.value.id in w'.docker.backups
    ensures w'.docker.backups[w.disk.pending.value.id] == w.drained
  {
    ReachableInv(w);
    assert w.process.Alive? ==> AtPoint(w, w.process.pc);
    StepKeepsInv(w, w');
  }
}
