/** Every action can do what it is for: from every reachable state with nothing pending there is a run of it,
    without failures, to its end. */
module DockerProgress {
  import opened Options
  import opened DockerWorld
  import opened DockerProtocol
  import opened DockerInvariant
  import opened DockerSteps
  import opened DockerRecovery
  import opened DockerCompletion

  ghost predicate Chosen(w: World, action: Action, w': World) {
    && w.process.Alive? && w.process.pc.Idle?
    && w' == w.(process := w.process.(pc := Entry(w.docker, w.process.journal, action)))
  }

  /** The action is chosen in the first state and over in the last one, and nothing else is chosen. */
  ghost predicate IsActionRun(run: seq<World>, action: Action) {
    && |run| > 2 && IsRun(run) && Chosen(run[0], action, run[1])
    && (forall k :: 0 < k < |run| - 1 ==> run[k].process.Alive? && !run[k].process.pc.Idle?)
    && run[|run| - 1].process == Alive(run[|run| - 1].disk, Idle)
  }

  /** Nothing is pending, and the application waits for an action. */
  ghost predicate IsAtRest(w: World) {
    Reachable(w) && w.process == Alive(w.disk, Idle) && w.disk.pending.None?
  }

  lemma ChoiceIsStep(w: World, action: Action, w': World)
    requires Chosen(w, action, w')
    ensures Step(w, w')
  {
    assert LifecycleStep(w, w');
  }

  function Going(w: World, docker: Docker, pc: PC): World {
    World(docker, w.disk, Alive(w.disk, pc), w.drained)
  }

  lemma ActiveIsThere(w: World)
    requires IsAtRest(w) && w.disk.active.Some?
    ensures SlotOf(w.docker, w.disk.active.value) == Some(Canonical)
  {
    QuiescentJournal(w);
  }

  // ---------- stop, start, restart ----------

  /** `stop` can leave the service stopped. */
  lemma StopCanSucceed(w: World) returns (run: seq<World>)
    requires IsAtRest(w) && w.disk.active.Some?
    ensures IsActionRun(run, StopService) && run[0] == w
    ensures var end := run[|run| - 1]; end.disk == w.disk && !IsRunning(end.docker, w.disk.active)
  {
    ActiveIsThere(w);
    var a := w.disk.active.value;
    run := [w, Going(w, w.docker, StopActive(false)), Going(w, Stop(w.docker, a), Idle)];
    ChoiceIsStep(w, StopService, run[1]);
    assert ProcessStep(run[1], run[2]);
  }

  /** `start` can leave it running. */
  lemma StartCanSucceed(w: World) returns (run: seq<World>)
    requires IsAtRest(w) && w.disk.active.Some?
    ensures IsActionRun(run, StartService) && run[0] == w
    ensures var end := run[|run| - 1]; end.disk == w.disk && IsRunning(end.docker, w.disk.active)
  {
    ActiveIsThere(w);
    var up := Start(w.docker, w.disk.active.value);
    run := [w, Going(w, w.docker, StartActive), Going(w, up, ProbeActive), Going(w, up, Idle)];
    ChoiceIsStep(w, StartService, run[1]);
    assert ProcessStep(run[1], run[2]);
    assert ProcessStep(run[2], run[3]);
  }

  /** `restart` can stop it and leave it running. */
  lemma RestartCanSucceed(w: World) returns (run: seq<World>)
    requires IsAtRest(w) && w.disk.active.Some?
    ensures IsActionRun(run, RestartService) && run[0] == w
    ensures exists k :: 0 < k < |run| && !IsRunning(run[k].docker, w.disk.active)
    ensures var end := run[|run| - 1]; end.disk == w.disk && IsRunning(end.docker, w.disk.active)
  {
    ActiveIsThere(w);
    var a := w.disk.active.value;
    var down := Stop(w.docker, a);
    run := [ w,
             Going(w, w.docker, StopActive(true)),
             Going(w, down, StartActive),
             Going(w, Start(down, a), ProbeActive),
             Going(w, Start(down, a), Idle) ];
    ChoiceIsStep(w, RestartService, run[1]);
    RestartSucceeds(w, run);
    assert !IsRunning(run[2].docker, w.disk.active);
  }

  lemma RestartSucceeds(w: World, run: seq<World>)
    requires w.disk.active.Some? && |run| == 5
    requires var a := w.disk.active.value; var down := Stop(w.docker, a);
      && run[1] == Going(w, w.docker, StopActive(true)) && run[2] == Going(w, down, StartActive)
      && run[3] == Going(w, Start(down, a), ProbeActive) && run[4] == Going(w, Start(down, a), Idle)
    ensures Step(run[1], run[2]) && Step(run[2], run[3]) && Step(run[3], run[4])
  {
    assert ProcessStep(run[1], run[2]);
    assert ProcessStep(run[2], run[3]);
    assert ProcessStep(run[3], run[4]);
  }

  // ---------- deploy ----------

  function DeployRank(pc: PC): nat {
    match pc
    case Preflight(_) => 17
    case RemovePrevious(_, _, _) => 16
    case OpenPending(_, _) => 15
    case Drain => 14
    case StopMaintenance(BeforeBackup) => 13
    case RemoveMaintenance(BeforeBackup) => 12
    case RunBackup => 11
    case AwaitBackup => 10
    case StopMaintenance(AfterBackup) => 9
    case RemoveMaintenance(AfterBackup) => 8
    case MarkBackup => 7
    case RenameOld => 6
    case CreateCandidate => 5
    case StartCandidate(_) => 4
    case ProbeCandidate(_) => 3
    case RenameCandidate(_) => 2
    case Commit(_) => 1
    case _ => 0
  }

  /** What the backup script has left to do. */
  function BackupRank(w: World): nat {
    var d := w.docker;
    if d.helper.None? then 0
    else
      var h := d.helper.value;
      match h.script
      case Clearing => |d.backups.Keys| + |d.data.Keys| + 2
      case Copying => if h.op in d.backups then |d.data.Keys - d.backups[h.op].Keys| + 1 else 0
      case Exited(_) => 0
  }

  predicate BackupSound(w: World) {
    w.process.Alive? && w.process.pc == AwaitBackup ==>
      w.docker.helper.Some? && w.docker.helper.value.script != Exited(false)
  }

  predicate NearerToTheCommit(w: World, move: Move)
    requires w.process.Alive?
  {
    match move
    case Command(after, ok, _) =>
      && 0 < DeployRank(ok) < DeployRank(w.process.pc)
      && (ok == AwaitBackup ==> after.helper.Some? && !after.helper.value.script.Exited?)
    case Persist(journal, ok) =>
      if w.process.pc.Commit? then journal == Journal(Some(w.process.pc.id), None) && ok == Idle
      else 0 < DeployRank(ok) < DeployRank(w.process.pc) && ok != AwaitBackup && journal.active == w.disk.active
    case _ => false
  }

  lemma OpeningMoves(w: World, move: Move)
    requires Moves(w, move) && Opening(w.process.pc)
    ensures NearerToTheCommit(w, move)
  {
    assert KnowsJournal(w.disk.active, w.disk.pending, w.process.pc);
  }

  lemma BackupCleanupMoves(w: World, move: Move, caller: Caller)
    requires Moves(w, move) && Maintaining(w.process.pc, caller) && (caller.BeforeBackup? || caller.AfterBackup?)
    ensures NearerToTheCommit(w, move)
  {
    assert KnowsHelper(w.docker, w.process.pc);
  }

  lemma BackupMoves(w: World, move: Move)
    requires Moves(w, move) && BackupSound(w) && (w.process.pc == AwaitBackup ==> !HelperRunning(w.docker))
    requires w.process.pc.Drain? || w.process.pc.RunBackup? || w.process.pc.AwaitBackup? || w.process.pc.MarkBackup?
    ensures NearerToTheCommit(w, move)
  {
    assert KnowsHelper(w.docker, w.process.pc) && KnowsJournal(w.disk.active, w.disk.pending, w.process.pc);
  }

  lemma RenameOldMoves(w: World, move: Move)
    requires Moves(w, move) && w.process.pc.RenameOld?
    ensures NearerToTheCommit(w, move)
  {
    assert KnowsJournal(w.disk.active, w.disk.pending, RenameOld);
    assert KnowsContainers(w.docker, w.disk.active, RenameOld);
  }

  lemma SwitchingMoves(w: World, move: Move)
    requires Moves(w, move) && Switching(w.process.pc)
    ensures NearerToTheCommit(w, move)
  {
    var pc := w.process.pc;
    assert KnowsJournal(w.disk.active, w.disk.pending, pc);
    assert KnowsContainers(w.docker, w.disk.active, pc) && KnowsCandidate(w.docker, w.disk.active, pc);
  }

  lemma DeployMoves(w: World, move: Move)
    requires Moves(w, move) && DeployRank(w.process.pc) > 0 && BackupSound(w)
    requires w.process.pc == AwaitBackup ==> !HelperRunning(w.docker)
    ensures NearerToTheCommit(w, move)
  {
    var pc := w.process.pc;
    if Opening(pc) { OpeningMoves(w, move); }
    else if pc.StopMaintenance? || pc.RemoveMaintenance? { BackupCleanupMoves(w, move, pc.caller); }
    else if pc.RenameOld? { RenameOldMoves(w, move); }
    else if Switching(pc) { SwitchingMoves(w, move); }
    else { BackupMoves(w, move); }
  }

  predicate BackupUnderWay(w: World) {
    && w.disk.pending.Some? && HelperRunning(w.docker)
    && BackupInProgress(w.docker, w.disk.pending.value, w.docker.helper.value)
  }

  lemma AwaitFindsBackup(w: World)
    requires Inv(w) && w.process.Alive? && w.process.pc == AwaitBackup && HelperRunning(w.docker)
    ensures BackupUnderWay(w)
  {
    assert KnowsJournal(w.disk.active, w.disk.pending, AwaitBackup);
  }

  lemma BackupsAreGone(w: World) returns (w': World)
    requires BackupUnderWay(w) && w.docker.helper.value.script.Clearing? && w.docker.backups == map[]
    ensures EngineStep(w, w') && w'.process == w.process && w'.disk == w.disk
    ensures BackupSound(w') && BackupRank(w') < BackupRank(w)
  {
    var d := w.docker;
    var d' := At(d, Copying).(backups := map[d.helper.value.op := map[]]);
    assert d.data.Keys - {} == d.data.Keys;
    assert BackupStep(d, d.helper.value, d');
    w' := w.(docker := d');
  }

  lemma OneBackupGoes(w: World, op: nat) returns (w': World)
    requires BackupUnderWay(w) && w.docker.helper.value.script.Clearing? && op in w.docker.backups
    ensures EngineStep(w, w') && w'.process == w.process && w'.disk == w.disk
    ensures BackupSound(w') && BackupRank(w') < BackupRank(w)
  {
    var d := w.docker;
    var d' := d.(backups := d.backups - {op});
    assert d'.backups.Keys == d.backups.Keys - {op};
    assert BackupStep(d, d.helper.value, d');
    w' := w.(docker := d');
  }

  lemma BackupClears(w: World) returns (w': World)
    requires BackupUnderWay(w) && w.docker.helper.value.script.Clearing?
    ensures EngineStep(w, w') && w'.process == w.process && w'.disk == w.disk
    ensures BackupSound(w') && BackupRank(w') < BackupRank(w)
  {
    if op :| op in w.docker.backups {
      w' := OneBackupGoes(w, op);
    } else {
      w' := BackupsAreGone(w);
    }
  }

  lemma CopyAdvances(d: Docker, h: Helper) returns (d': Docker)
    requires d.helper == Some(h) && !h.restore && h.script.Copying? && h.op in d.backups
    requires SubMap(d.backups[h.op], d.data)
    ensures BackupStep(d, h, d') && d'.at == d.at && d'.data == d.data && h.op in d'.backups
    ensures d'.helper == At(d, Exited(true)).helper
         || (d'.helper == d.helper && |d.data.Keys - d'.backups[h.op].Keys| < |d.data.Keys - d.backups[h.op].Keys|)
  {
    var tar := d.backups[h.op];
    if s :| s in d.data && s !in tar {
      d' := d.(backups := d.backups[h.op := tar[s := d.data[s]]]);
      assert d.data.Keys - d'.backups[h.op].Keys == (d.data.Keys - tar.Keys) - {s};
    } else {
      assert tar.Keys == d.data.Keys;
      d' := At(d, Exited(true));
    }
  }

  lemma BackupCopies(w: World) returns (w': World)
    requires BackupUnderWay(w) && w.docker.helper.value.script.Copying?
    ensures EngineStep(w, w') && w'.process == w.process && w'.disk == w.disk
    ensures BackupSound(w') && BackupRank(w') < BackupRank(w)
  {
    var d' := CopyAdvances(w.docker, w.docker.helper.value);
    w' := w.(docker := d');
  }

  /** `run` ends with the commit of another container than the active one, running under the canonical name. */
  ghost predicate Commits(run: seq<World>) {
    && |run| > 1 && IsRun(run)
    && (forall k :: 0 <= k < |run| - 1 ==> run[k].process.Alive? && !run[k].process.pc.Idle?)
    && var end := run[|run| - 1];
       && end.process == Alive(end.disk, Idle) && end.disk.pending.None?
       && end.disk.active.Some? && end.disk.active != run[0].disk.active
       && Canonical in end.docker.at && end.docker.at[Canonical] == Container(end.disk.active.value, true)
  }

  lemma PrependToCommit(w: World, run: seq<World>)
    requires Commits(run) && Step(w, run[0]) && w.disk.active == run[0].disk.active
    requires w.process.Alive? && !w.process.pc.Idle?
    ensures Commits([w] + run)
  {
    var all := [w] + run;
    forall i | 0 < i < |all| ensures StepAt(all, i) {
      if i > 1 { assert StepAt(run, i - 1); }
    }
    forall k | 0 <= k < |all| - 1 ensures all[k].process.Alive? && !all[k].process.pc.Idle? {
      if k > 0 { assert all[k] == run[k - 1]; }
    }
    assert all[|all| - 1] == run[|run| - 1];
  }

  lemma CommitEnds(w: World) returns (run: seq<World>)
    requires Inv(w) && w.process.Alive? && w.process.pc.Commit?
    ensures Commits(run) && run[0] == w
  {
    assert KnowsCandidate(w.docker, w.disk.active, w.process.pc);
    var end := Persisted(w, Journal(Some(w.process.pc.id), None), Idle);
    run := [w, end];
    assert ProcessStep(w, end);
  }

  lemma DeployGoesOn(w: World) returns (w': World)
    requires Inv(w) && w.process.Alive? && DeployRank(w.process.pc) > 1 && BackupSound(w)
    requires w.process.pc == AwaitBackup ==> !HelperRunning(w.docker)
    ensures ProcessStep(w, w') && Inv(w') && w'.disk.active == w.disk.active
    ensures w'.process.Alive? && 0 < DeployRank(w'.process.pc) < DeployRank(w.process.pc) && BackupSound(w')
  {
    var move := Program(w.docker, w.process.journal, w.process.pc);
    DeployMoves(w, move);
    w' := Succeeded(w, move);
    assert ProcessStep(w, w');
    ProcessKeepsInv(w, w');
  }

  lemma BackupGoesOn(w: World) returns (w': World)
    requires Inv(w) && w.process.Alive? && w.process.pc == AwaitBackup && HelperRunning(w.docker)
    ensures EngineStep(w, w') && Inv(w') && w'.process == w.process && w'.disk == w.disk
    ensures BackupSound(w') && BackupRank(w') < BackupRank(w)
  {
    AwaitFindsBackup(w);
    if w.docker.helper.value.script.Clearing? { w' := BackupClears(w); } else { w' := BackupCopies(w); }
    EngineKeepsInv(w, w');
  }

  lemma {:induction false} DeployCompletes(w: World) returns (run: seq<World>)
    requires Inv(w) && w.process.Alive? && DeployRank(w.process.pc) > 0 && BackupSound(w)
    ensures Commits(run) && run[0] == w
    decreases DeployRank(w.process.pc), BackupRank(w)
  {
    if w.process.pc.Commit? {
      run := CommitEnds(w);
    } else {
      var w';
      if w.process.pc == AwaitBackup && HelperRunning(w.docker) {
        w' := BackupGoesOn(w);
      } else {
        w' := DeployGoesOn(w);
      }
      var rest := DeployCompletes(w');
      PrependToCommit(w, rest);
      run := [w] + rest;
    }
  }

  lemma ActionGoesOn(w: World, action: Action, rest: seq<World>)
    requires Commits(rest) && Chosen(w, action, rest[0])
    ensures IsActionRun([w] + rest, action)
  {
    var run := [w] + rest;
    ChoiceIsStep(w, action, rest[0]);
    forall i | 0 < i < |run| ensures StepAt(run, i) {
      if i > 1 { assert StepAt(rest, i - 1); }
    }
    forall k | 0 < k < |run| - 1 ensures run[k].process.Alive? && !run[k].process.pc.Idle? {
      assert run[k] == rest[k - 1];
    }
    assert run[|run| - 1] == rest[|rest| - 1];
  }

  lemma DeployIsChosen(w: World, op: nat) returns (chosen: World)
    requires IsAtRest(w)
    ensures Chosen(w, Deploy(op), chosen) && Inv(chosen) && chosen.disk == w.disk
    ensures chosen.process.Alive? && chosen.process.pc == Preflight(op)
  {
    ReachableInv(w);
    chosen := Going(w, w.docker, Preflight(op));
    ChoiceIsStep(w, Deploy(op), chosen);
    StepKeepsInv(w, chosen);
  }

  /** `deploy` can be committed, over an active deployment or as the first one. */
  lemma DeployCanSucceed(w: World, op: nat) returns (run: seq<World>)
    requires IsAtRest(w)
    ensures IsActionRun(run, Deploy(op)) && run[0] == w
    ensures var end := run[|run| - 1];
      && end.disk.pending.None? && end.disk.active.Some? && end.disk.active != w.disk.active
      && IsRunning(end.docker, end.disk.active)
  {
    var chosen := DeployIsChosen(w, op);
    var rest := DeployCompletes(chosen);
    run := [w] + rest;
    ActionGoesOn(w, Deploy(op), rest);
    assert run[|run| - 1] == rest[|rest| - 1];
    CommittedIsUp(chosen, rest);
  }

  lemma CommittedIsUp(w: World, rest: seq<World>)
    requires Commits(rest) && rest[0] == w
    ensures IsRunning(rest[|rest| - 1].docker, rest[|rest| - 1].disk.active)
  {
  }
}
