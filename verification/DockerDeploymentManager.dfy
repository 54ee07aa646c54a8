/** The deployment manager as the object it is: a journal in memory, its copy on disk, and an engine
    that it commands. Every execution of its methods, with every fault, is a run of the protocol. */
module DockerDeployment {
  import opened Options
  import opened DockerWorld
  import opened DockerProtocol
  import opened DockerInvariant
  import opened DockerSteps
  import opened DockerRecovery

  /** A call returns, throws, or never returns because the process died. */
  datatype Outcome = Done | Threw | Died

  /** The engine went on by itself: same containers, same maintenance container or none. */
  predicate EngineOnly(before: Docker, after: Docker) {
    && after.at == before.at && after.created == before.created
    && after.helper.Some? == before.helper.Some?
  }

  lemma RemovalKeepsRunning(d: Docker, active: Option<nat>, previous: nat)
    requires active.Some? ==> SlotOf(d, active.value) == Some(Canonical)
    requires Previous in d.at && d.at[Previous].id == previous && active != Some(previous)
    ensures IsRunning(Remove(d, previous), active) == IsRunning(d, active)
  {
  }

  /** Where a command leaves the world, whether it succeeds, or fails with its effect or without. */
  function Landed(w: World, after: Docker, pc: PC, effective: bool): World
    requires w.process.Alive?
  {
    World(if effective then after else w.docker, w.disk, Alive(w.process.journal, pc), w.drained)
  }

  lemma LandingIsStep(w: World, after: Docker, ok: PC, failed: PC, effective: bool)
    requires w.process.Alive?
    requires Program(w.docker, w.process.journal, w.process.pc) == Move.Command(after, ok, failed)
    ensures Step(w, Landed(w, after, ok, true)) && Step(w, Landed(w, after, failed, effective))
  {
    assert ProcessStep(w, Landed(w, after, ok, true));
    assert ProcessStep(w, Landed(w, after, failed, effective));
  }

  lemma StopStops(d: Docker, a: nat, after: Docker)
    requires EngineOnly(Stop(d, a), after)
    ensures !IsRunning(after, Some(a))
  {
  }

  lemma StartStarts(d: Docker, a: nat, after: Docker)
    requires EngineOnly(Start(d, a), after) && SlotOf(d, a).Some?
    ensures IsRunning(after, Some(a))
  {
  }

  lemma CommandKeepsSlot(d: Docker, a: nat, after: Docker)
    requires EngineOnly(Stop(d, a), after) || EngineOnly(Start(d, a), after) || EngineOnly(d, after)
    ensures SlotOf(after, a) == SlotOf(d, a)
  {
  }

  /** Somewhere behind the first `from` states of the run the active service does not run. */
  ghost predicate GoesDown(run: seq<World>, from: nat, active: Option<nat>) {
    exists i :: from <= i < |run| && !IsRunning(run[i].docker, active)
  }

  lemma StaysDown(run: seq<World>, longer: seq<World>, from: nat, active: Option<nat>)
    requires GoesDown(run, from, active) && run <= longer
    ensures GoesDown(longer, from, active)
  {
    var i :| from <= i < |run| && !IsRunning(run[i].docker, active);
    assert longer[i] == run[i];
  }

  lemma GoesDownLater(run: seq<World>, from: nat, later: nat, active: Option<nat>)
    requires GoesDown(run, later, active) && from <= later
    ensures GoesDown(run, from, active)
  {
  }

  class DockerDeploymentManager {
    var docker: Docker
    var disk: Journal
    var journal: Journal
    ghost var alive: bool
    ghost var pc: PC
    ghost var drained: Stores
    ghost var run: seq<World>

    ghost function View(): World
      reads this
    {
      World(docker, disk, if alive then Alive(journal, pc) else Dead, drained)
    }

    /** `run` is the whole history of this installation, up to the present state. */
    ghost predicate Valid()
      reads this
    {
      IsRun(run) && Init(run[0]) && run[|run| - 1] == View()
    }

    constructor (data: Stores, backups: map<nat, Stores>)
      ensures Valid() && alive && pc == Idle
      ensures journal == disk == Journal(None, None)
      ensures docker == Docker(map[], 0, None, data, backups)
    {
      docker := Docker(map[], 0, None, data, backups);
      disk, journal := Journal(None, None), Journal(None, None);
      alive, pc, drained := true, Idle, data;
      var engine, fresh' := Docker(map[], 0, None, data, backups), Journal(None, None);
      run := [World(engine, fresh', Alive(fresh', Idle), data)];
    }

    ghost method Record()
      requires |run| > 0 && IsRun(run) && Init(run[0]) && Step(run[|run| - 1], View())
      modifies `run
      ensures Valid() && old(run) <= run
    {
      ChainGoesOn(run, View());
      run := run + [View()];
    }

    /** Any number of steps of the engine: services write their stores, the script advances. */
    method Engine()
      requires Valid()
      modifies `docker, `drained, `run
      ensures Valid() && old(run) <= run
      ensures EngineOnly(old(docker), docker)
    {
      var steps: nat := *;
      while steps > 0
        invariant Valid() && old(run) <= run
        invariant EngineOnly(old(docker), docker)
      {
        steps := steps - 1;
        var next: Docker := *;
        if ServiceRunning(docker) && next == docker.(data := next.data) {
          drained := if SnapshotTaken(disk) then drained else next.data;
          docker := next;
          assert EngineStep(run[|run| - 1], View());
          Record();
        } else if ScriptStep(docker, next) {
          docker := next;
          assert EngineStep(run[|run| - 1], View());
          Record();
        }
      }
    }

    /** The process dies, here and now. */
    method Crash()
      requires Valid()
      modifies `alive, `run
      ensures Valid() && !alive && old(run) <= run
    {
      alive := false;
      assert LifecycleStep(run[|run| - 1], View());
      Record();
    }

    /** The application is started again and reads the journal file. */
    method Restart()
      requires Valid() && !alive
      modifies `journal, `alive, `pc, `run
      ensures Valid() && alive && pc == Idle && journal == disk && old(run) <= run
    {
      journal, alive, pc := disk, true, Idle;
      assert LifecycleStep(run[|run| - 1], View());
      Record();
    }

    /** What the engine does of a command, and where the program goes on. */
    method Take(after: Docker, ghost ok: PC, ghost failed: PC, succeeds: bool, effective: bool)
      requires Valid() && alive && Program(docker, journal, pc) == Move.Command(after, ok, failed)
      modifies `docker, `pc, `run
      ensures Valid() && old(run) <= run
      ensures docker == (if succeeds || effective then after else old(docker)) && pc == if succeeds then ok else failed
    {
      ghost var before := View();
      LandingIsStep(before, after, ok, failed, effective);
      docker := if succeeds || effective then after else docker;
      pc := if succeeds then ok else failed;
      assert View() == Landed(before, after, pc, succeeds || effective);
      Record();
    }

    /** One docker command: it succeeds, fails without its effect, fails with it, or the process dies
        while it is in flight. */
    method Command(after: Docker, ghost ok: PC, ghost failed: PC) returns (outcome: Outcome)
      requires Valid() && alive && Program(docker, journal, pc) == Move.Command(after, ok, failed)
      modifies `docker, `alive, `pc, `drained, `run
      ensures Valid() && old(run) <= run
      ensures outcome.Done? ==> alive && pc == ok && EngineOnly(after, docker)
      ensures outcome.Threw? ==> alive && pc == failed && (EngineOnly(after, docker) || EngineOnly(old(docker), docker))
      ensures outcome.Died? ==> !alive
    {
      var succeeds: bool := *;
      var effective: bool := *;
      var survives: bool := *;
      Take(after, ok, failed, succeeds, effective);
      Engine();
      outcome := if succeeds then Done else Threw;
      if !survives {
        Crash();
        outcome := Died;
      }
    }

    /** The atomic replacement of the journal file; a failing write is a crash. */
    method Persist(next: Journal, ghost ok: PC) returns (outcome: Outcome)
      requires Valid() && alive && Program(docker, journal, pc) == Move.Persist(next, ok)
      modifies this
      ensures Valid() && old(run) <= run && docker.at == old(docker.at)
      ensures EngineOnly(old(docker), docker)
      ensures outcome.Done? ==> alive && pc == ok && journal == disk == next
      ensures !outcome.Threw?
      ensures outcome.Died? ==> !alive
    {
      var fate: nat := *;
      if fate == 0 {
        Crash();
        return Died;
      }
      drained := if disk.pending.None? && next.pending.Some? then docker.data else drained;
      journal, disk, pc := next, next, ok;
      assert ProcessStep(run[|run| - 1], View());
      Record();
      Engine();
      outcome := Done;
      if fate == 1 {
        Crash();
        outcome := Died;
      }
    }

    /** The program throws where a check fails. */
    method Fail(ghost to: PC) returns (outcome: Outcome)
      requires Valid() && alive && Program(docker, journal, pc) == Throw(to)
      modifies `pc, `run
      ensures Valid() && old(run) <= run && pc == to && outcome == Threw
    {
      pc := to;
      assert ProcessStep(run[|run| - 1], View());
      Record();
      outcome := Threw;
    }

    // ---------- removeMaintenance and copyVolume ----------

    method RemoveMaintenanceHelper(ghost caller: Caller) returns (outcome: Outcome)
      requires Valid() && alive && pc == StopMaintenance(caller)
      modifies `docker, `alive, `pc, `drained, `run
      ensures Valid() && old(run) <= run
      ensures outcome.Done? ==> alive && pc == AfterMaintenance(caller) && docker.helper.None?
      ensures outcome.Threw? ==> alive && pc == OnMaintenanceFailure(caller)
      ensures outcome.Died? ==> !alive
    {
      outcome := Command(StopHelper(docker), RemoveMaintenance(caller), OnMaintenanceFailure(caller));
      if !outcome.Done? {
        return;
      }
      if HelperRunning(docker) {
        outcome := Fail(OnMaintenanceFailure(caller));
        return;
      }
      outcome := Command(docker.(helper := None), AfterMaintenance(caller), OnMaintenanceFailure(caller));
    }

    /** `docker run` returns: the script has ended well, or it throws. */
    method EndHelper(restore: bool) returns (outcome: Outcome)
      requires Valid() && alive && pc == if restore then AwaitRestore else AwaitBackup
      requires journal.active.Some? && journal.pending.Some?
      modifies `docker, `alive, `pc, `drained, `run
      ensures Valid() && old(run) <= run
      ensures outcome.Done? ==> alive && pc == StopMaintenance(if restore then AfterRestore else AfterBackup)
      ensures outcome.Threw? ==> alive && pc == if restore then Idle else Catch
      ensures outcome.Died? ==> !alive
    {
      if docker.helper.Some? && docker.helper.value.script == Exited(true) {
        outcome := Command(docker, StopMaintenance(if restore then AfterRestore else AfterBackup),
                           if restore then Idle else Catch);
      } else {
        outcome := Fail(if restore then Idle else Catch);
      }
    }

    /** `docker run` in the foreground. */
    method RunHelper(restore: bool) returns (outcome: Outcome)
      requires Valid() && alive && journal.active.Some? && journal.pending.Some? && docker.helper.None?
      requires pc == if restore then RunRestore else RunBackup
      modifies `docker, `alive, `pc, `drained, `run
      ensures Valid() && old(run) <= run
      ensures outcome.Done? ==> alive && pc == StopMaintenance(if restore then AfterRestore else AfterBackup)
      ensures outcome.Threw? ==> alive && pc == if restore then Idle else Catch
      ensures outcome.Died? ==> !alive
    {
      var helper := Helper(restore, journal.pending.value.id, Script.Clearing);
      outcome := Command(docker.(helper := Some(helper)), if restore then AwaitRestore else AwaitBackup,
                         if restore then Idle else Catch);
      if outcome.Done? {
        outcome := EndHelper(restore);
      }
    }

    /** The helper runs between two clean-ups. */
    method RunAndRemove(restore: bool) returns (outcome: Outcome)
      requires Valid() && alive && journal.active.Some? && journal.pending.Some? && docker.helper.None?
      requires pc == if restore then RunRestore else RunBackup
      modifies `docker, `alive, `pc, `drained, `run
      ensures Valid() && old(run) <= run
      ensures outcome.Done? ==> alive && pc == if restore then RestoreName else MarkBackup
      ensures outcome.Threw? ==> alive && pc == if restore then Idle else Catch
      ensures outcome.Died? ==> !alive
    {
      outcome := RunHelper(restore);
      if outcome.Done? {
        outcome := RemoveMaintenanceHelper(if restore then AfterRestore else AfterBackup);
      }
    }

    method CopyVolume(restore: bool) returns (outcome: Outcome)
      requires Valid() && alive && journal.active.Some? && journal.pending.Some?
      requires pc == StopMaintenance(if restore then BeforeRestore else BeforeBackup)
      modifies `docker, `alive, `pc, `drained, `run
      ensures Valid() && old(run) <= run
      ensures outcome.Done? ==> alive && pc == if restore then RestoreName else MarkBackup
      ensures outcome.Threw? ==> alive && pc == if restore then Idle else Catch
      ensures outcome.Died? ==> !alive
    {
      outcome := RemoveMaintenanceHelper(if restore then BeforeRestore else BeforeBackup);
      if outcome.Done? {
        outcome := RunAndRemove(restore);
      }
    }

    // ---------- deploy ----------

    /** The body of the try block: drain and archive the old service, then switch to a candidate. */
    method SwitchOver() returns (outcome: Outcome)
      requires Valid() && alive && journal == disk && journal.pending.Some?
      requires pc == if journal.active.Some? then Drain else CreateCandidate
      modifies this
      ensures Valid() && old(run) <= run
      ensures outcome.Done? ==>
        && alive && pc == Idle && journal == disk && journal.pending.None?
        && journal.active.Some? && journal.active != old(journal.active)
      ensures outcome.Threw? ==> alive && pc == Catch && journal == disk && journal.active == old(journal.active)
      ensures outcome.Threw? ==>
        journal.pending.Some? && journal.pending.value.wasRunning == old(journal.pending).value.wasRunning
      ensures outcome.Died? ==> !alive
    {
      if journal.active.Some? {
        outcome := SetOldAside();
        if !outcome.Done? {
          return;
        }
      }
      var id := docker.created;
      outcome := LaunchCandidate();
      if outcome.Done? {
        outcome := PromoteCandidate(id);
      }
    }

    /** Create the candidate, give it its configuration, start it. */
    method LaunchCandidate() returns (outcome: Outcome)
      requires Valid() && alive && pc == CreateCandidate
      modifies `docker, `alive, `pc, `drained, `run
      ensures Valid() && old(run) <= run
      ensures outcome.Done? ==> alive && pc == ProbeCandidate(old(docker.created))
      ensures outcome.Threw? ==> alive && pc == Catch
      ensures outcome.Died? ==> !alive
    {
      if Next in docker.at {
        outcome := Fail(Catch);
        return;
      }
      var id := docker.created;
      outcome := Command(Create(docker), StartCandidate(id), Catch);
      if outcome.Done? {
        outcome := Command(Start(docker, id), ProbeCandidate(id), Catch);
      }
    }

    method CommitCandidate(id: nat) returns (outcome: Outcome)
      requires Valid() && alive && pc == Commit(id) && journal == disk
      modifies this
      ensures Valid() && old(run) <= run
      ensures outcome.Done? ==>
        alive && pc == Idle && journal == disk == Journal(Some(id), None) && old(journal.active) != Some(id)
      ensures !outcome.Threw?
      ensures outcome.Died? ==> !alive
    {
      ghost var before := View();
      assert Reachable(before);
      CommitReplaces(before, id);
      outcome := Persist(Journal(Some(id), None), Idle);
    }

    method TakeOverName(id: nat) returns (outcome: Outcome)
      requires Valid() && alive && pc == RenameCandidate(id)
      modifies `docker, `alive, `pc, `drained, `run
      ensures Valid() && old(run) <= run
      ensures outcome.Done? ==> alive && pc == Commit(id)
      ensures outcome.Threw? ==> alive && pc == Catch
      ensures outcome.Died? ==> !alive
    {
      if Canonical in docker.at {
        outcome := Fail(Catch);
      } else {
        outcome := Command(Rename(docker, id, Canonical), Commit(id), Catch);
      }
    }

    /** Wait for readiness, take the canonical name, and commit with one journal write. */
    method PromoteCandidate(id: nat) returns (outcome: Outcome)
      requires Valid() && alive && pc == ProbeCandidate(id) && journal == disk
      modifies this
      ensures Valid() && old(run) <= run
      ensures outcome.Done? ==>
        alive && pc == Idle && journal == disk == Journal(Some(id), None) && old(journal.active) != Some(id)
      ensures outcome.Threw? ==> alive && pc == Catch && journal == disk == old(journal)
      ensures outcome.Died? ==> !alive
    {
      outcome := Command(docker, RenameCandidate(id), Catch);
      if outcome.Done? {
        outcome := TakeOverName(id);
      }
      if outcome.Done? {
        outcome := CommitCandidate(id);
      }
    }

    /** Drain the old service and archive its volume. */
    method ArchiveOld() returns (outcome: Outcome)
      requires Valid() && alive && pc == Drain && journal.active.Some? && journal.pending.Some?
      modifies `docker, `alive, `pc, `drained, `run
      ensures Valid() && old(run) <= run
      ensures outcome.Done? ==> alive && pc == MarkBackup
      ensures outcome.Threw? ==> alive && pc == Catch
      ensures outcome.Died? ==> !alive
    {
      var a, p := journal.active.value, journal.pending.value;
      outcome := Command(if p.wasRunning then Stop(docker, a) else docker, StopMaintenance(BeforeBackup), Catch);
      if outcome.Done? {
        outcome := CopyVolume(false);
      }
    }

    /** `deploy` for an existing deployment: drain, archive, record the snapshot, rename. */
    method SetOldAside() returns (outcome: Outcome)
      requires Valid() && alive && pc == Drain && journal == disk && journal.active.Some? && journal.pending.Some?
      modifies this
      ensures Valid() && old(run) <= run
      ensures !outcome.Died? ==> alive && journal == disk && journal.active == old(journal.active)
      ensures !outcome.Died? ==>
        journal.pending.Some? && journal.pending.value.wasRunning == old(journal.pending).value.wasRunning
      ensures outcome.Done? ==> pc == CreateCandidate
      ensures outcome.Threw? ==> pc == Catch
      ensures outcome.Died? ==> !alive
    {
      outcome := ArchiveOld();
      if outcome.Done? {
        outcome := RecordSnapshot();
      }
    }

    method RecordSnapshot() returns (outcome: Outcome)
      requires Valid() && alive && pc == MarkBackup && journal == disk && journal.active.Some? && journal.pending.Some?
      modifies this
      ensures Valid() && old(run) <= run
      ensures !outcome.Died? ==> alive && journal.pending == Some(old(journal.pending).value.(backup := true))
      ensures !outcome.Died? ==> journal == disk && journal.active == old(journal.active)
      ensures outcome.Done? ==> pc == CreateCandidate
      ensures outcome.Threw? ==> pc == Catch
      ensures outcome.Died? ==> !alive
    {
      outcome := Persist(journal.(pending := Some(journal.pending.value.(backup := true))), RenameOld);
      if !outcome.Done? {
        return;
      }
      if Previous in docker.at {
        outcome := Fail(Catch);
        return;
      }
      outcome := Command(Rename(docker, journal.active.value, Previous), CreateCandidate, Catch);
    }

    method RemovePreviousNow(op: nat, wasRunning: bool, previous: nat) returns (outcome: Outcome)
      requires Valid() && alive && pc == RemovePrevious(op, wasRunning, previous)
      requires Previous in docker.at && docker.at[Previous].id == previous && journal.active != Some(previous)
      requires journal.active.Some? ==> SlotOf(docker, journal.active.value) == Some(Canonical)
      requires wasRunning == IsRunning(docker, journal.active)
      modifies `docker, `alive, `pc, `drained, `run
      ensures Valid() && old(run) <= run
      ensures outcome.Done? ==> alive && pc == OpenPending(op, wasRunning)
      ensures outcome.Threw? ==> alive && pc == Idle
      ensures !outcome.Died? ==> IsRunning(docker, journal.active) == wasRunning
      ensures outcome.Died? ==> !alive
    {
      RemovalKeepsRunning(docker, journal.active, previous);
      outcome := Command(Remove(docker, previous), OpenPending(op, wasRunning), Idle);
    }

    /** What an earlier deployment has set aside is removed. */
    method RemoveSuperseded(op: nat, wasRunning: bool) returns (outcome: Outcome)
      requires Valid() && alive && pc == Preflight(op) && PreflightPasses(docker, journal.active)
      requires Previous in docker.at && journal.active != Some(docker.at[Previous].id)
      requires wasRunning == IsRunning(docker, journal.active)
      modifies `docker, `alive, `pc, `drained, `run
      ensures Valid() && old(run) <= run
      ensures outcome.Done? ==> alive && pc == OpenPending(op, wasRunning)
      ensures outcome.Threw? ==> alive && pc == Idle
      ensures !outcome.Died? ==> IsRunning(docker, journal.active) == wasRunning
      ensures outcome.Died? ==> !alive
    {
      var previous := docker.at[Previous].id;
      outcome := Command(docker, RemovePrevious(op, wasRunning, previous), Idle);
      if outcome.Done? {
        outcome := RemovePreviousNow(op, wasRunning, previous);
      }
    }

    /** The checks in front of the try block, and the removal of the superseded container. */
    method Prepare(op: nat) returns (outcome: Outcome, wasRunning: bool)
      requires Valid() && alive && pc == Preflight(op) && journal.pending.None?
      requires journal == disk
      modifies `docker, `alive, `pc, `drained, `run
      ensures Valid() && old(run) <= run
      ensures outcome.Done? ==> alive && pc == OpenPending(op, wasRunning)
      ensures outcome.Threw? ==> alive && pc == Idle
      ensures !outcome.Died? ==> IsRunning(docker, journal.active) == old(IsRunning(docker, journal.active))
      ensures wasRunning == old(IsRunning(docker, journal.active))
      ensures outcome.Died? ==> !alive
    {
      wasRunning := IsRunning(docker, journal.active);
      if !PreflightPasses(docker, journal.active) {
        outcome := Fail(Idle);
        return;
      }
      if Previous !in docker.at {
        outcome := Command(docker, OpenPending(op, wasRunning), Idle);
        return;
      }
      QuiescentJournal(View());
      outcome := RemoveSuperseded(op, wasRunning);
    }

    /** The journal entry that opens the operation. */
    method OpenOperation(op: nat) returns (outcome: Outcome)
      requires Valid() && alive && pc == Preflight(op) && journal == disk && journal.pending.None?
      modifies this
      ensures Valid() && old(run) <= run
      ensures !outcome.Died? ==> alive && journal == disk && journal.active == old(journal.active)
      ensures outcome.Done? ==> pc == (if journal.active.Some? then Drain else CreateCandidate) && journal.pending.Some?
      ensures outcome.Done? ==> journal.pending.value.wasRunning == old(IsRunning(docker, journal.active))
      ensures outcome.Threw? ==> pc == Idle && journal.pending.None?
      ensures outcome.Threw? ==> IsRunning(docker, journal.active) == old(IsRunning(docker, journal.active))
      ensures outcome.Died? ==> !alive
    {
      var wasRunning;
      outcome, wasRunning := Prepare(op);
      if outcome.Done? {
        ghost var first := if journal.active.Some? then Drain else CreateCandidate;
        outcome := Persist(journal.(pending := Some(Pending(op, false, wasRunning))), first);
      }
    }

    /** Ends committed to a new deployment; or throws, with the old one restored or the operation
        still pending; or dies with the process. */
    method Deploy(op: nat) returns (outcome: Outcome)
      requires Valid() && alive && pc == Preflight(op) && journal == disk && journal.pending.None?
      modifies this
      ensures Valid() && old(run) <= run
      ensures !outcome.Died? ==> alive && pc == Idle && journal == disk
      ensures outcome.Done? ==>
        && journal.pending.None? && journal.active.Some? && journal.active != old(journal.active)
        && SlotOf(docker, journal.active.value) == Some(Canonical)
      ensures outcome.Threw? ==> journal.active == old(journal.active)
      ensures outcome.Threw? && journal.pending.None? && journal.active.Some? ==>
        && SlotOf(docker, journal.active.value) == Some(Canonical)
        && IsRunning(docker, journal.active) == old(IsRunning(docker, journal.active))
      ensures outcome.Died? ==> !alive
    {
      outcome := OpenOperation(op);
      if outcome.Done? {
        outcome := SwitchOver();
        if outcome.Threw? {
          outcome := Recovery();
          if outcome.Done? {
            outcome := Threw;
          }
        }
      }
      assert Reachable(View());
      if alive && journal.pending.None? {
        QuiescentJournal(View());
      }
    }

    // ---------- recover ----------

    /** A container of this name that is not the active one is stopped and removed. */
    method RemoveCandidateAt(name: Name) returns (outcome: Outcome)
      requires Valid() && alive && pc == FindCandidate(name)
      modifies `docker, `alive, `pc, `drained, `run
      ensures Valid() && old(run) <= run
      ensures outcome.Done? ==> alive && pc == AfterCandidate(name, journal.active)
      ensures outcome.Threw? ==> alive && pc == Idle
      ensures outcome.Died? ==> !alive
    {
      if name in docker.at && journal.active != Some(docker.at[name].id) {
        var candidate := docker.at[name].id;
        outcome := Command(Stop(docker, candidate), RemoveCandidate(name, candidate), Idle);
        if outcome.Done? {
          outcome := Command(Remove(docker, candidate), AfterCandidate(name, journal.active), Idle);
        }
      } else {
        outcome := Command(docker, AfterCandidate(name, journal.active), Idle);
      }
    }

    method RemoveCandidates() returns (outcome: Outcome)
      requires Valid() && alive && pc == FindCandidate(Next)
      modifies `docker, `alive, `pc, `drained, `run
      ensures Valid() && old(run) <= run
      ensures outcome.Done? ==> alive && pc == if journal.active.None? then ClosePending else StopOld
      ensures outcome.Threw? ==> alive && pc == Idle
      ensures outcome.Died? ==> !alive
    {
      var names := [Next, Canonical];
      for i := 0 to 2
        invariant Valid() && old(run) <= run && alive
        invariant pc == if i < 2 then FindCandidate(names[i]) else AfterCandidate(Canonical, journal.active)
      {
        outcome := RemoveCandidateAt(names[i]);
        if !outcome.Done? {
          return;
        }
      }
      outcome := Done;
    }

    method StopOldService() returns (outcome: Outcome)
      requires Valid() && alive && pc == StopOld && journal.active.Some? && journal.pending.Some?
      modifies `docker, `alive, `pc, `drained, `run
      ensures Valid() && old(run) <= run
      ensures outcome.Done? ==>
        alive && pc == if journal.pending.value.backup then StopMaintenance(BeforeRestore) else RestoreName
      ensures outcome.Threw? ==> alive && pc == Idle
      ensures outcome.Died? ==> !alive
    {
      var old', backup := journal.active.value, journal.pending.value.backup;
      if SlotOf(docker, old').None? {
        outcome := Fail(Idle);
        return;
      }
      outcome := Command(Stop(docker, old'), if backup then StopMaintenance(BeforeRestore) else RestoreName, Idle);
    }

    method RestoreOldData() returns (outcome: Outcome)
      requires Valid() && alive && pc == StopOld && journal.active.Some? && journal.pending.Some?
      modifies `docker, `alive, `pc, `drained, `run
      ensures Valid() && old(run) <= run
      ensures outcome.Done? ==> alive && pc == RestoreName
      ensures outcome.Threw? ==> alive && pc == Idle
      ensures outcome.Died? ==> !alive
    {
      outcome := StopOldService();
      if outcome.Done? && journal.pending.value.backup {
        outcome := CopyVolume(true);
      }
    }

    method ReturnToOld() returns (outcome: Outcome)
      requires Valid() && alive && pc == StopOld && journal.active.Some? && journal.pending.Some?
      modifies `docker, `alive, `pc, `drained, `run
      ensures Valid() && old(run) <= run
      ensures outcome.Done? ==> alive && pc == ClosePending
      ensures outcome.Threw? ==> alive && pc == Idle
      ensures outcome.Died? ==> !alive
    {
      outcome := RestoreOldData();
      if outcome.Done? {
        outcome := TakeBackName();
      }
      if outcome.Done? && journal.pending.value.wasRunning {
        outcome := RestartOldService();
      }
    }

    method RestartOldService() returns (outcome: Outcome)
      requires Valid() && alive && pc == RestartOld && journal.active.Some? && journal.pending.Some?
      modifies `docker, `alive, `pc, `drained, `run
      ensures Valid() && old(run) <= run
      ensures outcome.Done? ==> alive && pc == ClosePending
      ensures outcome.Threw? ==> alive && pc == Idle
      ensures outcome.Died? ==> !alive
    {
      outcome := Command(Start(docker, journal.active.value), ProbeOld, Idle);
      if outcome.Done? {
        outcome := Command(docker, ClosePending, Idle);
      }
    }

    method TakeBackName() returns (outcome: Outcome)
      requires Valid() && alive && pc == RestoreName && journal.active.Some? && journal.pending.Some?
      modifies `docker, `alive, `pc, `drained, `run
      ensures Valid() && old(run) <= run
      ensures outcome.Done? ==> alive && pc == if journal.pending.value.wasRunning then RestartOld else ClosePending
      ensures outcome.Threw? ==> alive && pc == Idle
      ensures outcome.Died? ==> !alive
    {
      ghost var next := if journal.pending.value.wasRunning then RestartOld else ClosePending;
      if SlotOf(docker, journal.active.value) == Some(Canonical) {
        outcome := Command(docker, next, Idle);
      } else if Canonical in docker.at {
        outcome := Fail(Idle);
      } else {
        outcome := Command(Rename(docker, journal.active.value, Canonical), next, Idle);
      }
    }

    /** `recover`: when it returns, the operation is closed and the old deployment is back. */
    method Recovery() returns (outcome: Outcome)
      requires Valid() && alive && pc == Catch && journal == disk && journal.pending.Some?
      modifies this
      ensures Valid() && old(run) <= run
      ensures !outcome.Died? ==> alive && pc == Idle && journal == disk && journal.active == old(journal.active)
      ensures outcome.Done? ==> journal.pending.None?
      ensures outcome.Done? && journal.active.None? ==> docker.at == map[]
      ensures outcome.Done? && journal.active.Some? ==>
        && docker.at.Keys == {Canonical}
        && docker.at[Canonical] == Container(journal.active.value, old(journal.pending).value.wasRunning)
      ensures outcome.Threw? ==> journal.pending == old(journal.pending)
      ensures outcome.Died? ==> !alive
    {
      outcome := RemoveMaintenanceHelper(RecoveryStart);
      if outcome.Done? {
        outcome := RemoveCandidates();
      }
      if outcome.Done? && journal.active.Some? {
        outcome := ReturnToOld();
      }
      if outcome.Done? {
        outcome := CloseOperation();
      }
    }

    method CloseOperation() returns (outcome: Outcome)
      requires Valid() && alive && pc == ClosePending && journal == disk && journal.pending.Some?
      modifies this
      ensures Valid() && old(run) <= run
      ensures outcome.Done? ==> alive && pc == Idle && journal == disk == old(journal).(pending := None)
      ensures outcome.Done? && journal.active.None? ==> docker.at == map[]
      ensures outcome.Done? && journal.active.Some? ==>
        && docker.at.Keys == {Canonical}
        && docker.at[Canonical] == Container(journal.active.value, old(journal.pending).value.wasRunning)
      ensures !outcome.Threw?
      ensures outcome.Died? ==> !alive
    {
      ghost var before := View();
      assert Reachable(before);
      outcome := Persist(journal.(pending := None), Idle);
      ghost var after := Persisted(before, before.disk.(pending := None), Idle);
      assert ProcessStep(before, after);
      PendingEnds(before, after);
    }

    // ---------- action ----------

    method Operate(stop: bool, start: bool) returns (outcome: Outcome)
      requires Valid() && alive && journal == disk && journal.active.Some? && (stop || start)
      requires SlotOf(docker, journal.active.value).Some?
      requires pc == if stop then StopActive(start) else StartActive
      modifies `docker, `alive, `pc, `drained, `run
      ensures Valid() && old(run) <= run
      ensures !outcome.Died? ==> alive && pc == Idle
      ensures outcome.Done? ==> IsRunning(docker, journal.active) == start
      ensures outcome.Done? && stop ==> GoesDown(run, |old(run)|, journal.active)
      ensures outcome.Died? ==> !alive
    {
      outcome := Done;
      if stop {
        outcome := StopActiveService(start);
      }
      ghost var down := run;
      if outcome.Done? && start {
        outcome := StartActiveService();
        if stop { StaysDown(down, run, |old(run)|, journal.active); }
      }
    }

    method StopActiveService(restart: bool) returns (outcome: Outcome)
      requires Valid() && alive && pc == StopActive(restart) && journal.active.Some?
      requires SlotOf(docker, journal.active.value).Some?
      modifies `docker, `alive, `pc, `drained, `run
      ensures Valid() && old(run) <= run
      ensures outcome.Done? ==> alive && pc == if restart then StartActive else Idle
      ensures outcome.Threw? ==> alive && pc == Idle
      ensures outcome.Done? ==> SlotOf(docker, journal.active.value).Some? && !IsRunning(docker, journal.active)
      ensures outcome.Done? ==> GoesDown(run, |old(run)|, journal.active)
      ensures outcome.Died? ==> !alive
    {
      ghost var before := docker;
      var a := journal.active.value;
      outcome := Command(Stop(docker, a), if restart then StartActive else Idle, Idle);
      if outcome.Done? {
        StopStops(before, a, docker);
        CommandKeepsSlot(before, a, docker);
        assert !IsRunning(run[|run| - 1].docker, journal.active);
      }
    }

    method StartActiveService() returns (outcome: Outcome)
      requires Valid() && alive && pc == StartActive && journal.active.Some?
      requires SlotOf(docker, journal.active.value).Some?
      modifies `docker, `alive, `pc, `drained, `run
      ensures Valid() && old(run) <= run
      ensures !outcome.Died? ==> alive && pc == Idle
      ensures outcome.Done? ==> IsRunning(docker, journal.active)
      ensures outcome.Died? ==> !alive
    {
      ghost var before := docker;
      outcome := Command(Start(docker, journal.active.value), ProbeActive, Idle);
      if outcome.Done? {
        StartStarts(before, journal.active.value, docker);
        outcome := Command(docker, Idle, Idle);
      }
    }

    /** Everything but `recover` is refused while an operation is pending. */
    method Perform(action: Action) returns (outcome: Outcome)
      requires Valid() && alive && pc == Idle && journal == disk
      modifies this
      ensures Valid() && old(run) <= run
      ensures !outcome.Died? ==> alive && pc == Idle && journal == disk
      ensures old(journal.pending).Some? && !action.Recover? ==>
        outcome == Threw && journal == old(journal) && docker == old(docker)
      ensures action.Recover? && outcome.Done? ==> journal == old(journal).(pending := None)
      ensures action.Deploy? && outcome.Done? ==>
        journal.pending.None? && journal.active.Some? && journal.active != old(journal.active)
      ensures !(action.Deploy? && outcome.Done?) && alive ==> journal.active == old(journal.active)
      ensures alive && journal.pending.None? && journal.active.Some? ==>
        SlotOf(docker, journal.active.value) == Some(Canonical)
      ensures outcome.Done? && action.StopService? ==> journal.active.Some? && !IsRunning(docker, journal.active)
      ensures outcome.Done? && (action.StartService? || action.RestartService?) ==> IsRunning(docker, journal.active)
      ensures outcome.Done? && (action.StopService? || action.RestartService?) ==>
        GoesDown(run, |old(run)|, journal.active)
      ensures outcome.Died? ==> !alive
    {
      ghost var length: nat := |run|;
      pc := Entry(docker, journal, action);
      assert LifecycleStep(run[|run| - 1], View());
      Record();
      match action {
        case Recover =>
          outcome := Done;
          if journal.pending.Some? {
            outcome := Recovery();
          }
        case Deploy(op) =>
          outcome := Threw;
          if journal.pending.None? {
            outcome := Deploy(op);
          }
        case _ =>
          outcome := Threw;
          if journal.pending.None? && journal.active.Some? && SlotOf(docker, journal.active.value).Some? {
            ghost var entered: nat := |run|;
            outcome := Operate(!action.StartService?, !action.StopService?);
            if outcome.Done? && !action.StartService? { GoesDownLater(run, length, entered, journal.active); }
          }
      }
      assert Reachable(View());
      if alive && journal.pending.None? {
        QuiescentJournal(View());
      }
    }

    /** Any number of actions, crashes and restarts, from the installation on: every state that the
        engine and the journal ever go through is in `run`, so all theorems about reachable states
        hold at each of its points. */
    method Session(actions: seq<Action>)
      requires Valid() && alive && pc == Idle && journal == disk
      modifies this
      ensures Valid() && old(run) <= run
      ensures forall i :: 0 <= i < |run| ==> Inv(run[i])
    {
      for i := 0 to |actions|
        invariant Valid() && old(run) <= run
        invariant alive && pc == Idle && journal == disk
      {
        var outcome := Perform(actions[i]);
        var interrupted: bool := *;
        if interrupted && !outcome.Died? {
          Crash();
        }
        if interrupted || outcome.Died? {
          Restart();
        }
      }
      InitInv(run[0]);
      forall i | 0 <= i < |run| ensures Inv(run[i]) {
        RunKeepsInv(run, i);
      }
    }
  }
}
