/** What the deployment manager acts on: the Docker engine, its two volumes and the journal file.

    A service container is kept in the slot of its name, because the engine itself refuses a
    second container with the same name. */
module DockerWorld {
  import opened Options

  /** `shipflow-service-api`, `…-next` and `…-previous`. */
  datatype Name = Canonical | Next | Previous

  /** The three sqlite stores that the restore script deletes and unpacks. */
  datatype Store = LookupStore | ContactStore | BagRouteStore

  type Stores = map<Store, string>

  datatype Container = Container(id: nat, running: bool)

  /** How far the `/bin/sh -c` script of the maintenance container has come. */
  datatype Script = Clearing | Copying | Exited(ok: bool)

  /** The `…-maintenance` container: a backup helper, or a restoring one. */
  datatype Helper = Helper(restore: bool, op: nat, script: Script)

  /** `created` counts container ids handed out, so the next id was never used before. */
  datatype Docker = Docker(
    at: map<Name, Container>,
    created: nat,
    helper: Option<Helper>,
    data: Stores,
    backups: map<nat, Stores>)

  datatype Pending = Pending(id: nat, backup: bool, wasRunning: bool)

  datatype Journal = Journal(active: Option<nat>, pending: Option<Pending>)

  // ---------- reading the engine ----------

  function SlotOf(d: Docker, id: nat): (slot: Option<Name>)
    ensures slot.Some? ==> slot.value in d.at && d.at[slot.value].id == id
    ensures slot.None? ==> forall n :: n in d.at ==> d.at[n].id != id
  {
    if Canonical in d.at && d.at[Canonical].id == id then Some(Canonical)
    else if Previous in d.at && d.at[Previous].id == id then Some(Previous)
    else if Next in d.at && d.at[Next].id == id then Some(Next)
    else
      assert forall n :: n in d.at ==> n == Canonical || n == Previous || n == Next;
      None
  }

  predicate ServiceRunning(d: Docker) {
    exists n :: n in d.at && d.at[n].running
  }

  predicate HelperRunning(d: Docker) {
    d.helper.Some? && !d.helper.value.script.Exited?
  }

  // ---------- docker commands ----------

  function Stop(d: Docker, id: nat): Docker {
    match SlotOf(d, id)
    case Some(n) => d.(at := d.at[n := Container(id, false)])
    case None => d
  }

  function Start(d: Docker, id: nat): Docker {
    match SlotOf(d, id)
    case Some(n) => d.(at := d.at[n := Container(id, true)])
    case None => d
  }

  function Remove(d: Docker, id: nat): Docker {
    match SlotOf(d, id)
    case Some(n) => d.(at := d.at - {n})
    case None => d
  }

  function Rename(d: Docker, id: nat, to: Name): Docker {
    match SlotOf(d, id)
    case Some(n) => d.(at := (d.at - {n})[to := d.at[n]])
    case None => d
  }

  function Create(d: Docker): Docker {
    d.(at := d.at[Next := Container(d.created, false)], created := d.created + 1)
  }

  function StopHelper(d: Docker): Docker {
    if HelperRunning(d) then d.(helper := Some(d.helper.value.(script := Exited(false)))) else d
  }

  /** One step of the script inside a running maintenance container. It goes on by itself, whether
      or not the manager that started it is still alive, and it may fail at any point. */
  predicate ScriptStep(d: Docker, d': Docker) {
    && HelperRunning(d)
    && var h := d.helper.value;
       || d' == At(d, Exited(false))
       || (if h.restore then RestoreStep(d, h, d') else BackupStep(d, h, d'))
  }

  function At(d: Docker, script: Script): Docker
    requires d.helper.Some?
  {
    d.(helper := Some(d.helper.value.(script := script)))
  }

  // The backup script: remove every old archive, then archive /data, store by store.
  predicate BackupStep(d: Docker, h: Helper, d': Docker)
    requires d.helper == Some(h)
  {
    match h.script
    case Clearing =>
      || (exists op :: op in d.backups && d' == d.(backups := d.backups - {op}))
      || (d.backups == map[] && d' == At(d, Copying).(backups := map[h.op := map[]]))
    case Copying =>
      && h.op in d.backups
      && var tar := d.backups[h.op];
         || (exists s :: s in d.data && s !in tar && d' == d.(backups := d.backups[h.op := tar[s := d.data[s]]]))
         || (tar.Keys == d.data.Keys && d' == At(d, Exited(true)))
    case Exited(_) => false
  }

  // The restore script: refuse without an archive, remove the stores, then unpack, store by store.
  predicate RestoreStep(d: Docker, h: Helper, d': Docker)
    requires d.helper == Some(h)
  {
    && h.op in d.backups
    && match h.script
       case Clearing =>
         || (exists s :: s in d.data && d' == d.(data := d.data - {s}))
         || (d.data == map[] && d' == At(d, Copying))
       case Copying =>
         var tar := d.backups[h.op];
         || (exists s :: s in tar && s !in d.data && d' == d.(data := d.data[s := tar[s]]))
         || (tar.Keys == d.data.Keys && d' == At(d, Exited(true)))
       case Exited(_) => false
  }
}
