/** Why the journal write has to be atomic-or-fatal. If the write that records a finished snapshot
    fails and the process lives on, memory and disk disagree about the snapshot, and a crash in the
    restore that follows leaves stores that no later recovery repairs. */
module DockerPersistFault {
  import opened Options
  import opened DockerWorld
  import opened DockerProtocol
  import opened DockerInvariant
  import opened DockerRecovery
  import opened DockerCompletion

  /** The journal write throws without reaching the disk; `deploy` continues in its catch block with
      the journal that it holds in memory. */
  ghost predicate PersistFails(w: World, w': World) {
    && w.process.Alive?
    && var move := Program(w.docker, w.process.journal, w.process.pc);
       move.Persist? && w' == w.(process := Alive(move.journal, Catch))
  }

  /** The old service has been drained and archived; only the journal does not say so yet. */
  predicate SnapshotUnrecorded(w: World, a: nat, p: Pending) {
    && w.process == Alive(w.disk, MarkBackup)
    && w.disk == Journal(Some(a), Some(p)) && !p.backup
    && w.docker.at == map[Canonical := Container(a, false)]
    && w.docker.helper.None?
    && p.id in w.docker.backups && w.docker.backups[p.id] == w.docker.data == w.drained
  }

  lemma MarkBackupFinds(w: World)
    requires Inv(w) && w.process.Alive? && w.process.pc == MarkBackup
    ensures w.disk.pending.Some? && w.disk.active.Some?
    ensures SnapshotUnrecorded(w, w.disk.active.value, w.disk.pending.value)
  {
    assert AtPoint(w, MarkBackup);
    var d := w.docker;
    assert d.at == map[Canonical := d.at[Canonical]];
  }

  function Put(w: World, j: Journal, pc: PC, helper: Option<Helper>, data: Stores): World {
    World(w.docker.(helper := helper, data := data), w.disk, Alive(j, pc), w.drained)
  }

  function Marked(w: World): Journal {
    if w.disk.pending.None? then w.disk else w.disk.(pending := Some(w.disk.pending.value.(backup := true)))
  }

  /** The recovery inside the failed deploy: it believes in the snapshot and starts restoring. */
  function Restoration(w: World, p: Pending, s: Store): seq<World> {
    var j, data := Marked(w), w.docker.data;
    [ Put(w, j, Catch, None, data),
      Put(w, j, RemoveMaintenance(RecoveryStart), None, data),
      Put(w, j, FindCandidate(Next), None, data),
      Put(w, j, FindCandidate(Canonical), None, data),
      Put(w, j, StopOld, None, data),
      Put(w, j, StopMaintenance(BeforeRestore), None, data),
      Put(w, j, RemoveMaintenance(BeforeRestore), None, data),
      Put(w, j, RunRestore, None, data),
      Put(w, j, AwaitRestore, Some(Helper(true, p.id, Script.Clearing)), data),
      Put(w, j, AwaitRestore, Some(Helper(true, p.id, Script.Clearing)), data - {s}) ]
  }

  /** Crash, restart, and a recovery that knows only the journal on disk. */
  function SecondRecovery(w: World, p: Pending, s: Store): seq<World> {
    var j, data := w.disk, w.docker.data - {s};
    [ Put(w, j, Idle, Some(Helper(true, p.id, Script.Clearing)), data).(process := Dead),
      Put(w, j, Idle, Some(Helper(true, p.id, Script.Clearing)), data),
      Put(w, j, Catch, Some(Helper(true, p.id, Script.Clearing)), data),
      Put(w, j, RemoveMaintenance(RecoveryStart), Some(Helper(true, p.id, Exited(false))), data),
      Put(w, j, FindCandidate(Next), None, data),
      Put(w, j, FindCandidate(Canonical), None, data),
      Put(w, j, StopOld, None, data),
      Put(w, j, RestoreName, None, data),
      Put(w, j, if p.wasRunning then RestartOld else ClosePending, None, data) ]
  }

  lemma RestorationBegins(w: World, a: nat, p: Pending, s: Store)
    requires SnapshotUnrecorded(w, a, p) && s in w.docker.data
    ensures forall i :: 0 < i <= 2 ==> ProcessStep(Restoration(w, p, s)[i - 1], Restoration(w, p, s)[i])
  {
    var run := Restoration(w, p, s);
    assert ProcessStep(run[0], run[1]);
    assert ProcessStep(run[1], run[2]);
  }

  lemma RestorationSweeps(w: World, a: nat, p: Pending, s: Store)
    requires SnapshotUnrecorded(w, a, p) && s in w.docker.data
    ensures forall i :: 2 < i <= 4 ==> ProcessStep(Restoration(w, p, s)[i - 1], Restoration(w, p, s)[i])
  {
    var run := Restoration(w, p, s);
    assert ProcessStep(run[2], run[3]);
    assert ProcessStep(run[3], run[4]);
  }

  lemma RestorationStarts(w: World, a: nat, p: Pending, s: Store)
    requires SnapshotUnrecorded(w, a, p) && s in w.docker.data
    ensures forall i :: 4 < i <= 6 ==> ProcessStep(Restoration(w, p, s)[i - 1], Restoration(w, p, s)[i])
  {
    var run := Restoration(w, p, s);
    assert ProcessStep(run[4], run[5]);
    assert ProcessStep(run[5], run[6]);
  }

  lemma RestorationClears(w: World, a: nat, p: Pending, s: Store)
    requires SnapshotUnrecorded(w, a, p) && s in w.docker.data
    ensures forall i :: 6 < i <= 8 ==> ProcessStep(Restoration(w, p, s)[i - 1], Restoration(w, p, s)[i])
  {
    var run := Restoration(w, p, s);
    assert ProcessStep(run[6], run[7]);
    assert ProcessStep(run[7], run[8]);
  }

  lemma RestorationRuns(w: World, a: nat, p: Pending, s: Store)
    requires SnapshotUnrecorded(w, a, p) && s in w.docker.data
    ensures IsRun(Restoration(w, p, s))
  {
    RestorationBegins(w, a, p, s);
    RestorationSweeps(w, a, p, s);
    RestorationStarts(w, a, p, s);
    RestorationClears(w, a, p, s);
    var run := Restoration(w, p, s);
    assert RestoreStep(run[8].docker, run[8].docker.helper.value, run[9].docker);
    forall i | 0 < i < |run| ensures StepAt(run, i) {
      if i == 9 { assert EngineStep(run[8], run[9]); }
    }
  }

  lemma SecondRecoverySweeps(w: World, a: nat, p: Pending, s: Store)
    requires SnapshotUnrecorded(w, a, p) && s in w.docker.data
    ensures forall i :: 2 < i <= 5 ==> ProcessStep(SecondRecovery(w, p, s)[i - 1], SecondRecovery(w, p, s)[i])
  {
    var run := SecondRecovery(w, p, s);
    assert ProcessStep(run[2], run[3]);
    assert ProcessStep(run[3], run[4]);
    assert ProcessStep(run[4], run[5]);
  }

  lemma SecondRecoveryReturns(w: World, a: nat, p: Pending, s: Store)
    requires SnapshotUnrecorded(w, a, p) && s in w.docker.data
    ensures forall i :: 5 < i <= 8 ==> ProcessStep(SecondRecovery(w, p, s)[i - 1], SecondRecovery(w, p, s)[i])
  {
    var run := SecondRecovery(w, p, s);
    assert ProcessStep(run[5], run[6]);
    assert ProcessStep(run[6], run[7]);
    assert ProcessStep(run[7], run[8]);
  }

  lemma SecondRecoveryRuns(w: World, a: nat, p: Pending, s: Store)
    requires SnapshotUnrecorded(w, a, p) && s in w.docker.data
    ensures IsRun(SecondRecovery(w, p, s))
  {
    SecondRecoverySweeps(w, a, p, s);
    SecondRecoveryReturns(w, a, p, s);
    var run := SecondRecovery(w, p, s);
    assert LifecycleStep(run[0], run[1]);
    assert run[2] == run[1].(process := run[1].process.(pc := Entry(run[1].docker, run[1].process.journal, Recover)));
    assert LifecycleStep(run[1], run[2]);
    forall i | 0 < i < |run| ensures StepAt(run, i) {
      if i > 2 { assert ProcessStep(run[i - 1], run[i]); }
    }
  }

  /** The damage shows: the old service runs on stores that are not those it was drained with, or a
      recovery has ended for a service that stays down, with its contents not restored. */
  ghost predicate Damaged(w: World, w': World)
    requires w.disk.pending.Some?
  {
    && w'.drained == w.docker.data && w'.docker.data != w'.drained
    && if w.disk.pending.value.wasRunning
       then IsRunning(w'.docker, w'.disk.active) && w'.disk == w.disk
       else w'.disk == Journal(w.disk.active, None) && w'.process == Alive(w'.disk, Idle)
  }

  lemma DamagedEnd(w: World, a: nat, p: Pending, s: Store) returns (end: World)
    requires SnapshotUnrecorded(w, a, p) && s in w.docker.data
    ensures ProcessStep(SecondRecovery(w, p, s)[8], end) && Damaged(w, end)
  {
    var last := SecondRecovery(w, p, s)[8];
    assert s !in last.docker.data;
    if p.wasRunning {
      end := last.(docker := Start(last.docker, a), process := last.process.(pc := ProbeOld));
    } else {
      end := Persisted(last, w.disk.(pending := None), Idle);
    }
  }

  /** From every reachable state in which a non-empty snapshot is about to be journalled: one failed
      write, then ordinary steps only, and the stores are damaged. */
  lemma LostMarkDamagesStores(w: World) returns (first: seq<World>, second: seq<World>, end: World)
    requires Reachable(w) && w.process.Alive? && w.process.pc == MarkBackup
    requires w.docker.data != map[]
    ensures w.disk.pending.Some?
    ensures IsRun(first) && PersistFails(w, first[0])
    ensures IsRun(second) && Step(first[|first| - 1], second[0])
    ensures Step(second[|second| - 1], end) && Damaged(w, end)
  {
    ReachableInv(w);
    MarkBackupFinds(w);
    var a, p := w.disk.active.value, w.disk.pending.value;
    var s :| s in w.docker.data;
    first := Restoration(w, p, s);
    second := SecondRecovery(w, p, s);
    RestorationRuns(w, a, p, s);
    SecondRecoveryRuns(w, a, p, s);
    end := DamagedEnd(w, a, p, s);
    assert LifecycleStep(first[|first| - 1], second[0]);
  }

  // ---------- such a state is reached ----------

  function Found(text: string): Stores {
    map[LookupStore := text]
  }

  function Scene(at: map<Name, Container>, created: nat, helper: Option<Helper>, backups: map<nat, Stores>,
                 j: Journal, pc: PC, text: string): World {
    World(Docker(at, created, helper, Found(text), backups), j, Alive(j, pc), Found(text))
  }

  /** A first deployment, from a fresh installation to its commit. */
  function FirstDeploy(text: string): seq<World> {
    var none, journal := Journal(None, None), Journal(None, Some(Pending(0, false, false)));
    [ Scene(map[], 0, None, map[], none, Idle, text),
      Scene(map[], 0, None, map[], none, Preflight(0), text),
      Scene(map[], 0, None, map[], none, OpenPending(0, false), text),
      Scene(map[], 0, None, map[], journal, CreateCandidate, text),
      Scene(map[Next := Container(0, false)], 1, None, map[], journal, StartCandidate(0), text),
      Scene(map[Next := Container(0, true)], 1, None, map[], journal, ProbeCandidate(0), text),
      Scene(map[Next := Container(0, true)], 1, None, map[], journal, RenameCandidate(0), text),
      Scene(map[Canonical := Container(0, true)], 1, None, map[], journal, Commit(0), text),
      Scene(map[Canonical := Container(0, true)], 1, None, map[], Journal(Some(0), None), Idle, text) ]
  }

  /** The service stopped, if it is to be found stopped by the second deployment. */
  function Pause(text: string, running: bool): seq<World> {
    var journal := Journal(Some(0), None);
    if running then []
    else
      [ Scene(map[Canonical := Container(0, true)], 1, None, map[], journal, StopActive(false), text),
        Scene(map[Canonical := Container(0, false)], 1, None, map[], journal, Idle, text) ]
  }

  /** A second deployment, up to the write that records its finished snapshot. */
  function SecondDeploy(text: string, running: bool): seq<World> {
    var before, journal := Journal(Some(0), None), Journal(Some(0), Some(Pending(1, false, running)));
    var up, down := map[Canonical := Container(0, running)], map[Canonical := Container(0, false)];
    var ended := Some(Helper(false, 1, Exited(true)));
    [ Scene(up, 1, None, map[], before, Preflight(1), text),
      Scene(up, 1, None, map[], before, OpenPending(1, running), text),
      Scene(up, 1, None, map[], journal, Drain, text),
      Scene(down, 1, None, map[], journal, StopMaintenance(BeforeBackup), text),
      Scene(down, 1, None, map[], journal, RemoveMaintenance(BeforeBackup), text),
      Scene(down, 1, None, map[], journal, RunBackup, text),
      Scene(down, 1, Some(Helper(false, 1, Clearing)), map[], journal, AwaitBackup, text),
      Scene(down, 1, Some(Helper(false, 1, Copying)), map[1 := map[]], journal, AwaitBackup, text),
      Scene(down, 1, Some(Helper(false, 1, Copying)), map[1 := Found(text)], journal, AwaitBackup, text),
      Scene(down, 1, ended, map[1 := Found(text)], journal, AwaitBackup, text),
      Scene(down, 1, ended, map[1 := Found(text)], journal, StopMaintenance(AfterBackup), text),
      Scene(down, 1, ended, map[1 := Found(text)], journal, RemoveMaintenance(AfterBackup), text),
      Scene(down, 1, None, map[1 := Found(text)], journal, MarkBackup, text) ]
  }

  lemma FirstDeployOpens(text: string)
    ensures forall i :: 0 < i <= 4 ==> Step(FirstDeploy(text)[i - 1], FirstDeploy(text)[i])
  {
    var run := FirstDeploy(text);
    assert run[1] == run[0].(process := run[0].process.(pc := Entry(run[0].docker, run[0].process.journal, Deploy(0))));
    assert LifecycleStep(run[0], run[1]);
    assert ProcessStep(run[1], run[2]);
    assert ProcessStep(run[2], run[3]);
    assert ProcessStep(run[3], run[4]);
  }

  lemma FirstDeployStarts(text: string)
    ensures forall i :: 4 < i <= 6 ==> Step(FirstDeploy(text)[i - 1], FirstDeploy(text)[i])
  {
    var run := FirstDeploy(text);
    assert ProcessStep(run[4], run[5]);
    assert ProcessStep(run[5], run[6]);
  }

  lemma FirstDeployCommits(text: string)
    ensures forall i :: 6 < i <= 8 ==> Step(FirstDeploy(text)[i - 1], FirstDeploy(text)[i])
  {
    var run := FirstDeploy(text);
    assert ProcessStep(run[6], run[7]);
    assert ProcessStep(run[7], run[8]);
  }

  /** Where the second deployment is chosen. */
  function Paused(text: string, running: bool): World {
    if running then FirstDeploy(text)[8] else Pause(text, false)[1]
  }

  lemma PauseRuns(text: string)
    ensures Step(FirstDeploy(text)[8], Pause(text, false)[0])
    ensures Step(Pause(text, false)[0], Pause(text, false)[1])
  {
    var last, run := FirstDeploy(text)[8], Pause(text, false);
    assert run[0] == last.(process := last.process.(pc := Entry(last.docker, last.process.journal, StopService)));
    assert LifecycleStep(last, run[0]);
    assert ProcessStep(run[0], run[1]);
  }

  lemma SecondDeployEnters(text: string, running: bool)
    ensures Step(Paused(text, running), SecondDeploy(text, running)[0])
  {
    var last, first := Paused(text, running), SecondDeploy(text, running)[0];
    assert first == last.(process := last.process.(pc := Entry(last.docker, last.process.journal, Deploy(1))));
    assert LifecycleStep(last, first);
  }

  lemma SecondDeployOpens(text: string, running: bool)
    ensures forall i :: 0 < i <= 2 ==> Step(SecondDeploy(text, running)[i - 1], SecondDeploy(text, running)[i])
  {
    var run := SecondDeploy(text, running);
    assert ProcessStep(run[0], run[1]);
    assert ProcessStep(run[1], run[2]);
  }

  lemma SecondDeployDrains(text: string, running: bool)
    ensures forall i :: 2 < i <= 4 ==> Step(SecondDeploy(text, running)[i - 1], SecondDeploy(text, running)[i])
  {
    var run := SecondDeploy(text, running);
    assert ProcessStep(run[2], run[3]);
    assert ProcessStep(run[3], run[4]);
  }

  lemma SecondDeployArchives(text: string, running: bool)
    ensures forall i :: 4 < i <= 7 ==> Step(SecondDeploy(text, running)[i - 1], SecondDeploy(text, running)[i])
  {
    var run := SecondDeploy(text, running);
    assert ProcessStep(run[4], run[5]);
    assert ProcessStep(run[5], run[6]);
    assert BackupStep(run[6].docker, run[6].docker.helper.value, run[7].docker);
    assert EngineStep(run[6], run[7]);
  }

  lemma SecondDeployCopies(text: string, running: bool)
    ensures forall i :: 7 < i <= 9 ==> Step(SecondDeploy(text, running)[i - 1], SecondDeploy(text, running)[i])
  {
    var run := SecondDeploy(text, running);
    var d := run[7].docker;
    var tar := d.backups[1];
    assert LookupStore in d.data && LookupStore !in tar;
    assert tar[LookupStore := d.data[LookupStore]] == Found(text);
    assert run[8].docker == d.(backups := d.backups[1 := tar[LookupStore := d.data[LookupStore]]]);
    assert BackupStep(d, d.helper.value, run[8].docker);
    assert EngineStep(run[7], run[8]);
    assert BackupStep(run[8].docker, run[8].docker.helper.value, run[9].docker);
    assert EngineStep(run[8], run[9]);
  }

  lemma SecondDeployFinds(text: string, running: bool)
    ensures forall i :: 9 < i <= 12 ==> Step(SecondDeploy(text, running)[i - 1], SecondDeploy(text, running)[i])
  {
    var run := SecondDeploy(text, running);
    assert ProcessStep(run[9], run[10]);
    assert ProcessStep(run[10], run[11]);
    assert ProcessStep(run[11], run[12]);
  }

  lemma FirstDeployRuns(text: string)
    ensures Chained(FirstDeploy(text))
  {
    FirstDeployOpens(text);
    FirstDeployStarts(text);
    FirstDeployCommits(text);
  }

  lemma PausedRuns(text: string, running: bool)
    ensures Chained(FirstDeploy(text) + Pause(text, running))
    ensures (FirstDeploy(text) + Pause(text, running))[|FirstDeploy(text) + Pause(text, running)| - 1]
         == Paused(text, running)
  {
    FirstDeployRuns(text);
    if !running { PauseRuns(text); }
    RunsJoin(FirstDeploy(text), Pause(text, running));
  }

  lemma SecondDeployRuns(text: string, running: bool)
    ensures Chained(SecondDeploy(text, running))
    ensures Step(Paused(text, running), SecondDeploy(text, running)[0])
  {
    SecondDeployEnters(text, running);
    SecondDeployOpens(text, running);
    SecondDeployDrains(text, running);
    SecondDeployArchives(text, running);
    SecondDeployCopies(text, running);
    SecondDeployFinds(text, running);
  }

  /** The state of `LostMarkDamagesStores` is reached, in two deployments without any failure, for a
      service that was running and for one that was stopped. */
  lemma TheMarkIsReached(text: string, running: bool) returns (w: World)
    ensures Reachable(w) && w.process.Alive? && w.process.pc == MarkBackup
    ensures w.disk.pending.Some? && w.disk.pending.value.wasRunning == running && w.docker.data != map[]
  {
    var before, second := FirstDeploy(text) + Pause(text, running), SecondDeploy(text, running);
    PausedRuns(text, running);
    SecondDeployRuns(text, running);
    RunsJoin(before, second);
    w := second[12];
    var run := before + second;
    assert run[0] == FirstDeploy(text)[0] && run[|run| - 1] == w;
    assert IsRun(run);
    assert LookupStore in w.docker.data;
  }

  lemma MarkSucceeds(w: World) returns (w': World)
    requires Inv(w) && w.process.Alive? && w.process.pc == MarkBackup && w.disk.pending.value.wasRunning
    ensures ProcessStep(w, w') && w'.process == Alive(w'.disk, RenameOld)
    ensures SnapshotTaken(w'.disk) && w'.disk.active.Some? && w'.disk.pending.value.wasRunning
    ensures !IsRunning(w'.docker, w'.disk.active)
  {
    MarkBackupFinds(w);
    w' := Succeeded(w, Program(w.docker, w.process.journal, w.process.pc));
  }

  lemma RenameFails(w: World) returns (w': World)
    requires Inv(w) && w.process == Alive(w.disk, RenameOld)
    ensures ProcessStep(w, w') && w' == w.(process := Alive(w.disk, Catch))
  {
    w' := w.(process := Alive(w.disk, Catch));
  }

  lemma RestartSucceeds(w: World) returns (w': World)
    requires Inv(w) && w.process == Alive(w.disk, RestartOld)
    ensures ProcessStep(w, w') && w'.process == Alive(w.disk, ProbeOld) && w'.disk == w.disk
  {
    assert KnowsJournal(w.disk.active, w.disk.pending, RestartOld);
    w' := Succeeded(w, Program(w.docker, w.process.journal, w.process.pc));
  }

  /** The state of `SecondRecoveryDiscards` is reached: the rename of the old container fails. */
  lemma TheProbeIsReached(text: string) returns (w: World)
    ensures Reachable(w) && w.process == Alive(w.disk, ProbeOld) && SnapshotTaken(w.disk)
  {
    var before := TheMarkIsReached(text, true);
    ReachableInv(before);
    var marked := MarkSucceeds(before);
    ReachableStep(before, marked);
    ReachableInv(marked);
    var caught := RenameFails(marked);
    ReachableStep(marked, caught);
    ReachableInv(caught);
    var run := RecoveryCompletes(caught);
    var k := RecoveryRestarts(run);
    ReachableRun(run, k - 1);
    ReachableInv(run[k - 1]);
    w := RestartSucceeds(run[k - 1]);
    ReachableStep(run[k - 1], w);
  }
}
