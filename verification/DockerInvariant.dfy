/** The invariant of the deployment protocol, and the docker commands that keep its crash part. */
module DockerInvariant {
  import opened Options
  import opened DockerWorld
  import opened DockerProtocol

  // ---------- the invariant ----------

  ghost predicate DistinctIds(d: Docker) {
    && (forall n :: n in d.at ==> d.at[n].id < d.created)
    && (forall m, n :: m in d.at && n in d.at && d.at[m].id == d.at[n].id ==> m == n)
  }

  /** At most one service container runs, and none while a maintenance container exists. */
  ghost predicate SingleWriter(d: Docker) {
    && (forall m, n :: m in d.at && n in d.at && d.at[m].running && d.at[n].running ==> m == n)
    && (d.helper.Some? ==> !ServiceRunning(d))
  }

  predicate Only(d: Docker, a: nat) {
    d.at.Keys == {Canonical} && d.at[Canonical].id == a
  }

  /** The old container is set aside, next to at most one candidate. */
  predicate SetAside(d: Docker, a: nat) {
    Previous in d.at && d.at[Previous].id == a && !(Next in d.at && Canonical in d.at)
  }

  predicate SubMap(m: Stores, of: Stores) {
    forall s :: s in m ==> s in of && m[s] == of[s]
  }

  /** Nothing pending: the active container has the canonical name, and what is left under the
      `-previous` name is stopped and is not the active one. */
  predicate Quiescent(active: Option<nat>, d: Docker) {
    && d.helper.None?
    && match active
       case None => d.at == map[]
       case Some(a) =>
         && Canonical in d.at && d.at[Canonical].id == a
         && Next !in d.at
         && (Previous in d.at ==> !d.at[Previous].running)
  }

  /** The backup helper has copied only what the stores hold. */
  predicate BackupInProgress(d: Docker, p: Pending, h: Helper) {
    && !h.restore && h.op == p.id
    && (h.script == Copying ==> h.op in d.backups && SubMap(d.backups[h.op], d.data))
    && (h.script == Exited(true) ==> h.op in d.backups && d.backups[h.op] == d.data)
  }

  predicate RestoreInProgress(d: Docker, p: Pending, h: Helper)
    requires p.id in d.backups
  {
    && h.restore && h.op == p.id
    && (h.script == Copying ==> SubMap(d.data, d.backups[h.op]))
    && (h.script == Exited(true) ==> d.data == d.backups[h.op])
  }

  predicate Pended(active: Option<nat>, p: Pending, d: Docker, drained: Stores) {
    match active
    case None => !p.backup && d.helper.None? && Previous !in d.at && !(Next in d.at && Canonical in d.at)
    case Some(a) =>
      if p.backup then
        && p.id in d.backups && d.backups[p.id] == drained
        && (Only(d, a) || SetAside(d, a))
        && (d.helper.Some? ==> RestoreInProgress(d, p, d.helper.value))
      else
        && Only(d, a)
        && d.data == drained
        && (d.helper.Some? ==> BackupInProgress(d, p, d.helper.value))
  }

  /** What the engine and the journal file satisfy at every instant, so also after a crash. */
  ghost predicate Recoverable(disk: Journal, d: Docker, drained: Stores) {
    && DistinctIds(d)
    && SingleWriter(d)
    && match disk.pending
       case None => Quiescent(disk.active, d)
       case Some(p) => Pended(disk.active, p, d, drained)
  }

  predicate ActiveStopped(d: Docker, active: Option<nat>) {
    active.Some? ==> !IsRunning(d, active)
  }

  predicate CandidateAt(d: Docker, active: Option<nat>, name: Name, id: nat) {
    name in d.at && d.at[name].id == id && active != Some(id)
  }

  predicate NoCandidate(d: Docker, active: Option<nat>) {
    forall n :: n in d.at ==> active == Some(d.at[n].id)
  }

  // ---------- phases of the program ----------

  predicate Maintaining(pc: PC, caller: Caller) {
    pc == StopMaintenance(caller) || pc == RemoveMaintenance(caller)
  }

  predicate Opening(pc: PC) {
    pc.Preflight? || pc.RemovePrevious? || pc.OpenPending?
  }

  predicate Operating(pc: PC) {
    pc.StopActive? || pc.StartActive? || pc.ProbeActive?
  }

  /** From the end of the drain until the snapshot is journalled. */
  predicate Backing(pc: PC) {
    || Maintaining(pc, BeforeBackup) || pc.RunBackup? || pc.AwaitBackup?
    || Maintaining(pc, AfterBackup) || pc.MarkBackup?
  }

  predicate Switching(pc: PC) {
    pc.CreateCandidate? || pc.StartCandidate? || pc.ProbeCandidate? || pc.RenameCandidate? || pc.Commit?
  }

  predicate Sweeping(pc: PC) {
    pc.FindCandidate? || pc.RemoveCandidate?
  }

  predicate Restoring(pc: PC) {
    Maintaining(pc, BeforeRestore) || pc.RunRestore? || pc.AwaitRestore? || Maintaining(pc, AfterRestore)
  }

  predicate Returning(pc: PC) {
    pc.RestoreName? || pc.RestartOld? || pc.ProbeOld?
  }

  // ---------- what the manager knows in each phase ----------

  ghost predicate KnowsJournal(active: Option<nat>, pending: Option<Pending>, pc: PC) {
    && (Opening(pc) || Operating(pc) ==> pending.None?)
    && (!Opening(pc) && !Operating(pc) && !pc.Idle? ==> pending.Some?)
    && (Operating(pc) || pc.Drain? || Backing(pc) || pc.RenameOld? ==> active.Some?)
    && (pc.StopOld? || Restoring(pc) || Returning(pc) ==> active.Some?)
    && (pc.Drain? || Backing(pc) ==> !pending.value.backup)
    && (pc.RenameOld? || Restoring(pc) || (Switching(pc) && active.Some?) ==> pending.value.backup)
    && (pc.RestartOld? || pc.ProbeOld? ==> pending.value.wasRunning)
  }

  ghost predicate KnowsHelper(d: Docker, pc: PC) {
    && (pc.Drain? || pc.RunBackup? || pc.MarkBackup? || pc.RenameOld? || Switching(pc) ==> d.helper.None?)
    && (Sweeping(pc) || pc.StopOld? || pc.RunRestore? || Returning(pc) || pc.ClosePending? ==> d.helper.None?)
    && (pc.RemoveMaintenance? || Maintaining(pc, AfterBackup) || Maintaining(pc, AfterRestore) ==> !HelperRunning(d))
  }

  ghost predicate KnowsContainers(d: Docker, active: Option<nat>, pc: PC) {
    && (Backing(pc) || pc.RenameOld? || Switching(pc) ==> ActiveStopped(d, active))
    && (Restoring(pc) || pc.RestoreName? || pc.RestartOld? ==> ActiveStopped(d, active))
    && (pc.OpenPending? || pc.CreateCandidate? || pc.StopOld? ==> NoCandidate(d, active))
    && (Restoring(pc) || Returning(pc) || pc.ClosePending? ==> NoCandidate(d, active))
    && (Switching(pc) && active.Some? ==> SetAside(d, active.value))
    && ((pc.RenameOld? || pc.RestartOld? || pc.ProbeOld? || pc.ClosePending?) && active.Some? ==> Only(d, active.value))
    && (pc.ProbeOld? ==> IsRunning(d, active))
  }

  ghost predicate KnowsCandidate(d: Docker, active: Option<nat>, pc: PC) {
    && (pc.RemovePrevious? ==>
          PreflightPasses(d, active) && Previous in d.at && d.at[Previous].id == pc.previous)
    && (pc.StartCandidate? ==> CandidateAt(d, active, Next, pc.id))
    && (pc.ProbeCandidate? || pc.RenameCandidate? ==> CandidateAt(d, active, Next, pc.id) && d.at[Next].running)
    && (pc.Commit? ==> CandidateAt(d, active, Canonical, pc.id) && d.at[Canonical].running)
    && (Sweeping(pc) ==> pc.name != Previous)
    && (pc == FindCandidate(Canonical) && Next in d.at ==> active == Some(d.at[Next].id))
    && (pc.RemoveCandidate? ==>
          pc.name in d.at && d.at[pc.name].id == pc.id && active != Some(pc.id) && !d.at[pc.name].running)
  }

  ghost predicate KnowsState(w: World, pc: PC) {
    var d, active, pending := w.docker, w.disk.active, w.disk.pending;
    && (pc.RemovePrevious? || pc.OpenPending? ==> pc.wasRunning == IsRunning(d, active))
    && (pc.Drain? || (pc.ClosePending? && active.Some?) ==>
          pending.Some? && pending.value.wasRunning == IsRunning(d, active))
    && (Maintaining(pc, AfterBackup) || pc.MarkBackup? ==>
          pending.Some? && pending.value.id in d.backups && d.backups[pending.value.id] == d.data)
    && (Maintaining(pc, AfterRestore) || pc.RestoreName? || pc.RestartOld? ==> d.data == w.drained)
    && (pc.ClosePending? && active.Some? && !IsRunning(d, active) ==> d.data == w.drained)
  }

  ghost predicate AtPoint(w: World, pc: PC) {
    && KnowsJournal(w.disk.active, w.disk.pending, pc)
    && KnowsHelper(w.docker, pc)
    && KnowsContainers(w.docker, w.disk.active, pc)
    && KnowsCandidate(w.docker, w.disk.active, pc)
    && KnowsState(w, pc)
  }

  ghost predicate Inv(w: World) {
    && Recoverable(w.disk, w.docker, w.drained)
    && (w.process.Alive? ==> w.process.journal == w.disk && AtPoint(w, w.process.pc))
  }

  // ---------- each docker command keeps the crash invariant ----------

  lemma StopKeeps(j: Journal, d: Docker, drained: Stores, id: nat)
    requires Recoverable(j, d, drained)
    ensures Recoverable(j, Stop(d, id), drained)
  {
  }

  lemma StartKeeps(j: Journal, d: Docker, drained: Stores, id: nat)
    requires Recoverable(j, d, drained)
    requires d.helper.None?
    requires j.pending.None? ==> j.active == Some(id)
    requires SnapshotTaken(j) || j.active == Some(id) || j.active.None?
    requires forall n :: n in d.at && d.at[n].running ==> d.at[n].id == id
    ensures Recoverable(j, Start(d, id), drained)
  {
  }

  lemma RemoveKeeps(j: Journal, d: Docker, drained: Stores, id: nat)
    requires Recoverable(j, d, drained)
    requires j.active != Some(id)
    ensures Recoverable(j, Remove(d, id), drained)
  {
  }

  lemma CreateKeeps(j: Journal, d: Docker, drained: Stores)
    requires Recoverable(j, d, drained)
    requires j.pending.Some? && NoCandidate(d, j.active)
    requires j.active.Some? ==> j.pending.value.backup && SetAside(d, j.active.value)
    ensures Recoverable(j, Create(d), drained)
  {
  }

  lemma RenameKeeps(j: Journal, d: Docker, drained: Stores, id: nat, to: Name)
    requires Recoverable(j, d, drained) && to !in d.at && j.pending.Some?
    requires (match to
      case Previous => j.active == Some(id) && j.pending.value.backup && Only(d, id)
      case Canonical =>
        if j.active == Some(id) then j.pending.value.backup && NoCandidate(d, j.active)
        else j.active.Some? ==> j.pending.value.backup && SetAside(d, j.active.value)
      case Next => false)
    ensures Recoverable(j, Rename(d, id, to), drained)
  {
  }

  lemma StopHelperKeeps(j: Journal, d: Docker, drained: Stores)
    requires Recoverable(j, d, drained)
    ensures Recoverable(j, StopHelper(d), drained)
    ensures Recoverable(j, d.(helper := None), drained)
  {
  }

  lemma RunHelperKeeps(j: Journal, d: Docker, drained: Stores)
    requires Recoverable(j, d, drained) && j.pending.Some? && j.active.Some? && d.helper.None?
    requires !ServiceRunning(d)
    ensures var helper := Helper(j.pending.value.backup, j.pending.value.id, Script.Clearing);
            Recoverable(j, d.(helper := Some(helper)), drained)
  {
  }

  lemma NobodyRuns(d: Docker, active: Option<nat>)
    requires DistinctIds(d) && NoCandidate(d, active) && ActiveStopped(d, active)
    ensures !ServiceRunning(d)
  {
    forall n | n in d.at ensures !d.at[n].running {
      assert active == Some(d.at[n].id);
    }
  }
}
