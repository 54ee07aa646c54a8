/** Every step of the deployment protocol keeps its invariant. */
module DockerSteps {
  import opened Options
  import opened DockerWorld
  import opened DockerProtocol
  import opened DockerInvariant

  // ---------- the engine and the lifecycle ----------

  lemma InitInv(w: World)
    requires Init(w)
    ensures Inv(w)
  {
  }

  lemma BackupKeepsRecoverable(w: World, h: Helper, d': Docker)
    requires Inv(w) && w.docker.helper == Some(h) && !h.restore && BackupStep(w.docker, h, d')
    ensures Recoverable(w.disk, d', w.drained)
  {
    var d := w.docker;
    assert BackupInProgress(d, w.disk.pending.value, h);
    assert d'.at == d.at;
  }

  lemma RestoreKeepsRecoverable(w: World, h: Helper, d': Docker)
    requires Inv(w) && w.docker.helper == Some(h) && h.restore && RestoreStep(w.docker, h, d')
    ensures Recoverable(w.disk, d', w.drained)
  {
    var d := w.docker;
    assert RestoreInProgress(d, w.disk.pending.value, h);
    assert d'.at == d.at;
  }

  lemma ScriptKeepsRecoverable(w: World, d': Docker)
    requires Inv(w) && ScriptStep(w.docker, d')
    ensures Recoverable(w.disk, d', w.drained)
  {
    var h := w.docker.helper.value;
    if d' != At(w.docker, Exited(false)) {
      if h.restore { RestoreKeepsRecoverable(w, h, d'); } else { BackupKeepsRecoverable(w, h, d'); }
    }
  }

  lemma ScriptKeepsPoint(w: World, w': World)
    requires Inv(w) && w.process.Alive? && ScriptStep(w.docker, w'.docker) && w' == w.(docker := w'.docker)
    ensures AtPoint(w', w.process.pc)
  {
  }

  lemma ScriptKeepsInv(w: World, w': World)
    requires Inv(w) && ScriptStep(w.docker, w'.docker) && w' == w.(docker := w'.docker)
    ensures Inv(w')
  {
    ScriptKeepsRecoverable(w, w'.docker);
    if w.process.Alive? { ScriptKeepsPoint(w, w'); }
  }

  lemma WriteKeepsRecoverable(w: World, w': World)
    requires Inv(w) && ServiceRunning(w.docker) && w' == Written(w, w'.docker.data)
    ensures Recoverable(w'.disk, w'.docker, w'.drained)
  {
  }

  lemma WriteKeepsPoint(w: World, w': World)
    requires Inv(w) && w.process.Alive? && ServiceRunning(w.docker) && w' == Written(w, w'.docker.data)
    ensures AtPoint(w', w.process.pc)
  {
    var d, active := w.docker, w.disk.active;
    if NoCandidate(d, active) && ActiveStopped(d, active) {
      NobodyRuns(d, active);
    }
  }

  lemma CatchOrPreflightPoint(w: World, pc: PC)
    requires Inv(w) && w.process == Alive(w.disk, Idle)
    requires (pc == Catch && w.disk.pending.Some?) || (pc.Preflight? && w.disk.pending.None?)
    ensures AtPoint(w, pc)
  {
  }

  lemma OperationPoint(w: World, pc: PC)
    requires Inv(w) && w.process == Alive(w.disk, Idle)
    requires (pc.StartActive? || pc.StopActive?) && w.disk.pending.None? && w.disk.active.Some?
    ensures AtPoint(w, pc)
  {
  }

  lemma IdlePoint(w: World)
    requires Inv(w) && w.process == Alive(w.disk, Idle)
    ensures AtPoint(w, Idle)
  {
  }

  lemma EntryPoint(w: World, action: Action)
    requires Inv(w) && w.process == Alive(w.disk, Idle)
    ensures AtPoint(w, Entry(w.docker, w.disk, action))
  {
    var pc := Entry(w.docker, w.disk, action);
    if pc.Idle? {
      IdlePoint(w);
    } else if pc == Catch || pc.Preflight? {
      CatchOrPreflightPoint(w, pc);
    } else {
      OperationPoint(w, pc);
    }
  }

  lemma LifecycleKeepsInv(w: World, w': World)
    requires Inv(w) && LifecycleStep(w, w')
    ensures Inv(w')
  {
    if w'.process.Alive? && !w'.process.pc.Idle? {
      var action :| w' == w.(process := w.process.(pc := Entry(w.docker, w.process.journal, action)));
      EntryPoint(w, action);
      assert AtPoint(w', w'.process.pc);
    }
  }

  // ---------- the moves of the manager ----------

  /** The effect of a move is recoverable, and its failure leads to `Idle` or to the catch block. */
  ghost predicate EffectKept(w: World, move: Move) {
    match move
    case Command(after, _, failed) =>
      Recoverable(w.disk, after, w.drained) && (failed == Idle || (failed == Catch && w.disk.pending.Some?))
    case Persist(journal, _) => Recoverable(journal, w.docker, Persisted(w, journal, Idle).drained)
    case _ => true
  }

  /** The point that a move leads to knows what `AtPoint` says of it. */
  ghost predicate PointReached(w: World, move: Move)
    requires w.process.Alive?
  {
    match move
    case Command(after, ok, _) => AtPoint(w.(docker := after), ok)
    case Persist(journal, ok) => AtPoint(Persisted(w, journal, ok), ok)
    case Throw(to) => AtPoint(w, to)
    case Nothing => true
  }

  ghost predicate Moves(w: World, move: Move) {
    Inv(w) && w.process.Alive? && move == Program(w.docker, w.process.journal, w.process.pc)
  }

  lemma OpeningEffect(w: World, move: Move)
    requires Moves(w, move) && Opening(w.process.pc)
    ensures EffectKept(w, move)
  {
    if w.process.pc.RemovePrevious? { RemoveKeeps(w.disk, w.docker, w.drained, w.process.pc.previous); }
  }

  lemma BackingEffect(w: World, move: Move)
    requires Moves(w, move)
    requires w.process.pc.Drain? || w.process.pc.RunBackup? || w.process.pc.AwaitBackup?
          || w.process.pc.MarkBackup? || w.process.pc.RenameOld?
    ensures EffectKept(w, move)
  {
    var j, d, a := w.disk, w.docker, w.disk.active.value;
    if w.process.pc.Drain? { StopKeeps(j, d, w.drained, a); }
    if w.process.pc.RunBackup? { RunHelperKeeps(j, d, w.drained); }
    if w.process.pc.RenameOld? && Previous !in d.at { RenameKeeps(j, d, w.drained, a, Previous); }
  }

  lemma SwitchingEffect(w: World, move: Move)
    requires Moves(w, move) && Switching(w.process.pc)
    ensures EffectKept(w, move)
  {
    var j, d := w.disk, w.docker;
    match w.process.pc {
      case CreateCandidate => if Next !in d.at { CreateKeeps(j, d, w.drained); }
      case StartCandidate(id) => StartKeeps(j, d, w.drained, id);
      case RenameCandidate(id) => if Canonical !in d.at { RenameKeeps(j, d, w.drained, id, Canonical); }
      case _ =>
    }
  }

  lemma MaintenanceEffect(w: World, move: Move)
    requires Moves(w, move) && (w.process.pc.StopMaintenance? || w.process.pc.RemoveMaintenance?)
    ensures EffectKept(w, move)
  {
    StopHelperKeeps(w.disk, w.docker, w.drained);
  }

  lemma SweepingEffect(w: World, move: Move)
    requires Moves(w, move) && (Sweeping(w.process.pc) || w.process.pc.ClosePending?)
    ensures EffectKept(w, move)
  {
    var j, d := w.disk, w.docker;
    match w.process.pc {
      case FindCandidate(name) => if name in d.at { StopKeeps(j, d, w.drained, d.at[name].id); }
      case RemoveCandidate(_, id) => RemoveKeeps(j, d, w.drained, id);
      case _ =>
    }
  }

  lemma RestoringEffect(w: World, move: Move)
    requires Moves(w, move)
    requires w.process.pc.StopOld? || w.process.pc.RunRestore? || w.process.pc.AwaitRestore? || Returning(w.process.pc)
    ensures EffectKept(w, move)
  {
    var j, d, a := w.disk, w.docker, w.disk.active.value;
    match w.process.pc {
      case StopOld => StopKeeps(j, d, w.drained, a);
      case RunRestore => NobodyRuns(d, j.active); RunHelperKeeps(j, d, w.drained);
      case RestoreName =>
        if SlotOf(d, a) != Some(Canonical) && Canonical !in d.at { RenameKeeps(j, d, w.drained, a, Canonical); }
      case RestartOld => StartKeeps(j, d, w.drained, a);
      case _ =>
    }
  }

  lemma OperatingEffect(w: World, move: Move)
    requires Moves(w, move) && Operating(w.process.pc)
    ensures EffectKept(w, move)
  {
    var j, d, a := w.disk, w.docker, w.disk.active.value;
    StopKeeps(j, d, w.drained, a);
    if w.process.pc.StartActive? { StartKeeps(j, d, w.drained, a); }
  }

  lemma PreflightPoint(w: World, move: Move)
    requires Moves(w, move) && w.process.pc.Preflight?
    ensures PointReached(w, move)
  {
  }

  lemma OpeningPoint(w: World, move: Move)
    requires Moves(w, move) && (w.process.pc.RemovePrevious? || w.process.pc.OpenPending?)
    ensures PointReached(w, move)
  {
  }

  lemma BackupPoint(w: World, move: Move)
    requires Moves(w, move) && (w.process.pc.Drain? || w.process.pc.RunBackup? || w.process.pc.MarkBackup?)
    ensures PointReached(w, move)
  {
  }

  lemma AwaitBackupPoint(w: World, move: Move)
    requires Moves(w, move) && w.process.pc.AwaitBackup?
    ensures PointReached(w, move)
  {
  }

  lemma RenameOldPoint(w: World, move: Move)
    requires Moves(w, move) && w.process.pc.RenameOld?
    ensures PointReached(w, move)
  {
  }

  lemma CreationPoint(w: World, move: Move)
    requires Moves(w, move) && w.process.pc.CreateCandidate?
    ensures PointReached(w, move)
  {
  }

  lemma StartPoint(w: World, move: Move)
    requires Moves(w, move) && w.process.pc.StartCandidate?
    ensures PointReached(w, move)
  {
  }

  lemma ProbePoint(w: World, move: Move)
    requires Moves(w, move) && w.process.pc.ProbeCandidate?
    ensures PointReached(w, move)
  {
  }

  lemma PromotionPoint(w: World, move: Move)
    requires Moves(w, move) && w.process.pc.RenameCandidate?
    ensures PointReached(w, move)
  {
  }

  lemma ClosingPoint(w: World, move: Move)
    requires Moves(w, move) && (w.process.pc.Commit? || w.process.pc.ClosePending? || w.process.pc.ProbeOld?)
    ensures PointReached(w, move)
  {
  }

  lemma StopMaintenanceInRecovery(w: World, move: Move)
    requires Moves(w, move) && w.process.pc == StopMaintenance(RecoveryStart)
    ensures PointReached(w, move)
  {
  }

  lemma StopMaintenanceInBackup(w: World, move: Move)
    requires Moves(w, move) && w.process.pc.StopMaintenance?
    requires w.process.pc.caller.BeforeBackup? || w.process.pc.caller.AfterBackup?
    ensures PointReached(w, move)
  {
  }

  lemma StopMaintenanceInRestore(w: World, move: Move)
    requires Moves(w, move) && w.process.pc.StopMaintenance?
    requires w.process.pc.caller.BeforeRestore? || w.process.pc.caller.AfterRestore?
    ensures PointReached(w, move)
  {
  }

  lemma StopMaintenancePoint(w: World, move: Move)
    requires Moves(w, move) && w.process.pc.StopMaintenance?
    ensures PointReached(w, move)
  {
    match w.process.pc.caller
    case RecoveryStart => StopMaintenanceInRecovery(w, move);
    case BeforeBackup => StopMaintenanceInBackup(w, move);
    case AfterBackup => StopMaintenanceInBackup(w, move);
    case BeforeRestore => StopMaintenanceInRestore(w, move);
    case AfterRestore => StopMaintenanceInRestore(w, move);
  }

  lemma RemoveMaintenanceInRecovery(w: World, move: Move)
    requires Moves(w, move) && w.process.pc == RemoveMaintenance(RecoveryStart)
    ensures PointReached(w, move)
  {
  }

  lemma RemoveMaintenanceInBackup(w: World, move: Move)
    requires Moves(w, move) && w.process.pc.RemoveMaintenance?
    requires w.process.pc.caller.BeforeBackup? || w.process.pc.caller.AfterBackup?
    ensures PointReached(w, move)
  {
  }

  lemma RemoveMaintenanceInRestore(w: World, move: Move)
    requires Moves(w, move) && w.process.pc.RemoveMaintenance?
    requires w.process.pc.caller.BeforeRestore? || w.process.pc.caller.AfterRestore?
    ensures PointReached(w, move)
  {
  }

  lemma RemoveMaintenancePoint(w: World, move: Move)
    requires Moves(w, move) && w.process.pc.RemoveMaintenance?
    ensures PointReached(w, move)
  {
    match w.process.pc.caller
    case RecoveryStart => RemoveMaintenanceInRecovery(w, move);
    case BeforeBackup => RemoveMaintenanceInBackup(w, move);
    case AfterBackup => RemoveMaintenanceInBackup(w, move);
    case BeforeRestore => RemoveMaintenanceInRestore(w, move);
    case AfterRestore => RemoveMaintenanceInRestore(w, move);
  }

  lemma FindNextPoint(w: World, move: Move)
    requires Moves(w, move) && w.process.pc == FindCandidate(Next)
    ensures PointReached(w, move)
  {
  }

  lemma FindCanonicalPoint(w: World, move: Move)
    requires Moves(w, move) && w.process.pc.FindCandidate? && w.process.pc.name != Next
    ensures PointReached(w, move)
  {
  }

  lemma RemoveNextPoint(w: World, move: Move)
    requires Moves(w, move) && w.process.pc.RemoveCandidate? && w.process.pc.name == Next
    ensures PointReached(w, move)
  {
  }

  lemma RemoveCanonicalPoint(w: World, move: Move)
    requires Moves(w, move) && w.process.pc.RemoveCandidate? && w.process.pc.name != Next
    ensures PointReached(w, move)
  {
  }

  lemma StopOldPoint(w: World, move: Move)
    requires Moves(w, move) && w.process.pc.StopOld?
    ensures PointReached(w, move)
  {
  }

  lemma RestorePoint(w: World, move: Move)
    requires Moves(w, move) && w.process.pc.RunRestore?
    ensures PointReached(w, move)
  {
  }

  lemma AwaitRestorePoint(w: World, move: Move)
    requires Moves(w, move) && w.process.pc.AwaitRestore?
    ensures PointReached(w, move)
  {
  }

  lemma RestoreNamePoint(w: World, move: Move)
    requires Moves(w, move) && w.process.pc.RestoreName?
    ensures PointReached(w, move)
  {
  }

  lemma RestartOldPoint(w: World, move: Move)
    requires Moves(w, move) && w.process.pc.RestartOld?
    ensures PointReached(w, move)
  {
  }

  lemma OperatingPoint(w: World, move: Move)
    requires Moves(w, move) && Operating(w.process.pc)
    ensures PointReached(w, move)
  {
  }

  lemma MoveKept(w: World, move: Move)
    requires Moves(w, move)
    ensures EffectKept(w, move) && PointReached(w, move)
  {
    match w.process.pc {
      case Idle =>
      case Preflight(_) => OpeningEffect(w, move); PreflightPoint(w, move);
      case RemovePrevious(_, _, _) => OpeningEffect(w, move); OpeningPoint(w, move);
      case OpenPending(_, _) => OpeningEffect(w, move); OpeningPoint(w, move);
      case Drain => BackingEffect(w, move); BackupPoint(w, move);
      case RunBackup => BackingEffect(w, move); BackupPoint(w, move);
      case MarkBackup => BackingEffect(w, move); BackupPoint(w, move);
      case AwaitBackup => BackingEffect(w, move); AwaitBackupPoint(w, move);
      case RenameOld => BackingEffect(w, move); RenameOldPoint(w, move);
      case CreateCandidate => SwitchingEffect(w, move); CreationPoint(w, move);
      case StartCandidate(_) => SwitchingEffect(w, move); StartPoint(w, move);
      case ProbeCandidate(_) => SwitchingEffect(w, move); ProbePoint(w, move);
      case RenameCandidate(_) => SwitchingEffect(w, move); PromotionPoint(w, move);
      case Commit(_) => SwitchingEffect(w, move); ClosingPoint(w, move);
      case StopMaintenance(_) => MaintenanceEffect(w, move); StopMaintenancePoint(w, move);
      case RemoveMaintenance(_) => MaintenanceEffect(w, move); RemoveMaintenancePoint(w, move);
      case FindCandidate(name) =>
        SweepingEffect(w, move);
        if name == Next { FindNextPoint(w, move); } else { FindCanonicalPoint(w, move); }
      case RemoveCandidate(name, _) =>
        SweepingEffect(w, move);
        if name == Next { RemoveNextPoint(w, move); } else { RemoveCanonicalPoint(w, move); }
      case ClosePending => SweepingEffect(w, move); ClosingPoint(w, move);
      case StopOld => RestoringEffect(w, move); StopOldPoint(w, move);
      case RunRestore => RestoringEffect(w, move); RestorePoint(w, move);
      case AwaitRestore => RestoringEffect(w, move); AwaitRestorePoint(w, move);
      case RestoreName => RestoringEffect(w, move); RestoreNamePoint(w, move);
      case RestartOld => RestoringEffect(w, move); RestartOldPoint(w, move);
      case ProbeOld => RestoringEffect(w, move); ClosingPoint(w, move);
      case StopActive(_) => OperatingEffect(w, move); OperatingPoint(w, move);
      case StartActive => OperatingEffect(w, move); OperatingPoint(w, move);
      case ProbeActive => OperatingEffect(w, move); OperatingPoint(w, move);
    }
  }

  lemma FailureKeepsInv(w: World, w': World)
    requires Recoverable(w'.disk, w'.docker, w'.drained) && w'.process.Alive? && w'.process.journal == w'.disk
    requires w'.process.pc == Idle || (w'.process.pc == Catch && w'.disk.pending.Some?)
    ensures Inv(w')
  {
  }

  lemma CommandKeepsInv(w: World, move: Move, w': World)
    requires Inv(w) && w.process.Alive? && EffectKept(w, move) && PointReached(w, move)
    requires move.Command? && Taken(w, move, w')
    ensures Inv(w')
  {
    if w' != w.(docker := move.after, process := w.process.(pc := move.ok)) {
      FailureKeepsInv(w, w');
    }
  }

  lemma OtherMoveKeepsInv(w: World, move: Move, w': World)
    requires Inv(w) && w.process.Alive? && EffectKept(w, move) && PointReached(w, move)
    requires !move.Command? && Taken(w, move, w')
    ensures Inv(w')
  {
  }

  lemma ProcessKeepsInv(w: World, w': World)
    requires Inv(w) && ProcessStep(w, w')
    ensures Inv(w')
  {
    var move := Program(w.docker, w.process.journal, w.process.pc);
    assert Moves(w, move);
    MoveKept(w, move);
    if move.Command? { CommandKeepsInv(w, move, w'); } else { OtherMoveKeepsInv(w, move, w'); }
  }

  lemma EngineKeepsInv(w: World, w': World)
    requires Inv(w) && EngineStep(w, w')
    ensures Inv(w')
  {
    if ServiceRunning(w.docker) && w' == Written(w, w'.docker.data) {
      WriteKeepsRecoverable(w, w');
      if w.process.Alive? { WriteKeepsPoint(w, w'); }
    } else {
      ScriptKeepsInv(w, w');
    }
  }

  /** The main invariance result: whatever the engine, the manager, a crash or a restart does next. */
  lemma StepKeepsInv(w: World, w': World)
    requires Inv(w) && Step(w, w')
    ensures Inv(w')
  {
    if ProcessStep(w, w') {
      ProcessKeepsInv(w, w');
    } else if EngineStep(w, w') {
      EngineKeepsInv(w, w');
    } else {
      LifecycleKeepsInv(w, w');
    }
  }
}
