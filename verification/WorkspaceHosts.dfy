/** Workspace hosts and document claims of the Electron main process. Each event is one turn of the
    event loop: a host start is split at its `await` into the turn that begins it, the turn that
    resumes it and the turn that settles it, so that any interleaving is a sequence of events. */
module WorkspaceHosts {
  import opened Options

  datatype Window = Window(name: string, workspace: bool, document: Option<string>)

  /** A `WorkspaceHostClient`: the window record and label it was constructed for, and whether
      `stop()` was called. */
  datatype Client = Client(window: nat, name: string, stopped: bool)

  /** A start that waits for the service connection. */
  datatype Start = Start(window: nat, name: string, generation: nat)

  /** `windows` and `clients` also keep what is closed or stopped. */
  datatype Main = Main(
    windowsByLabel: map<string, nat>,
    windows: map<nat, Window>,
    hosts: map<string, nat>,
    clients: seq<Client>,
    starts: map<string, nat>,
    waiting: map<nat, Start>,
    nextStart: nat,
    generation: nat,
    shuttingDown: bool,
    claims: map<string, string>)

  const Fresh := Main(map[], map[], map[], [], map[], map[], 0, 0, false, map[])

  predicate Registered(m: Main, w: nat) {
    w in m.windows && m.windows[w].name in m.windowsByLabel && m.windowsByLabel[m.windows[w].name] == w
  }

  function Stop(clients: seq<Client>, c: nat): (stopped: seq<Client>)
    ensures |stopped| == |clients|
  {
    if c < |clients| then clients[c := clients[c].(stopped := true)] else clients
  }

  function StopEach(clients: seq<Client>, some: set<nat>): (stopped: seq<Client>)
    ensures |stopped| == |clients|
  {
    seq(|clients|, c requires 0 <= c < |clients| => if c in some then clients[c].(stopped := true) else clients[c])
  }

  // ---------- the turns ----------

  /** `createWindow`. */
  function Created(m: Main, name: string, workspace: bool, w: nat): Main {
    m.(windowsByLabel := m.windowsByLabel[name := w], windows := m.windows[w := Window(name, workspace, None)])
  }

  function WithoutClaim(m: Main, w: nat): map<string, string>
    requires w in m.windows
  {
    var window := m.windows[w];
    if window.document.Some? && window.document.value in m.claims && m.claims[window.document.value] == window.name
    then m.claims - {window.document.value} else m.claims
  }

  /** The `closed` handler. */
  function Closed(m: Main, w: nat): Main
    requires w in m.windows
  {
    var name := m.windows[w].name;
    var rest := m.(windowsByLabel := m.windowsByLabel - {name}, claims := WithoutClaim(m, w));
    if !m.windows[w].workspace then rest
    else
      rest.(hosts := m.hosts - {name}, starts := m.starts - {name},
            clients := if name in m.hosts then Stop(m.clients, m.hosts[name]) else m.clients)
  }

  datatype HostCall = Refused | Existing(client: nat) | Joined(start: nat) | Begun(start: nat)

  /** `workspaceHost` up to its `await`. */
  function Called(m: Main, w: nat): (Main, HostCall)
    requires w in m.windows
  {
    var name := m.windows[w].name;
    if m.shuttingDown then (m, Refused)
    else if name in m.hosts then (m, Existing(m.hosts[name]))
    else if name in m.starts then (m, Joined(m.starts[name]))
    else
      (m.(starts := m.starts[name := m.nextStart], waiting := m.waiting[m.nextStart := Start(w, name, m.generation)],
          nextStart := m.nextStart + 1), Begun(m.nextStart))
  }

  /** The checks after the `await`. */
  predicate MayAddHost(m: Main, start: Start) {
    && !m.shuttingDown && start.generation == m.generation
    && start.name in m.windowsByLabel && m.windowsByLabel[start.name] == start.window
  }

  /** The start resumes, with a connection or with an error. */
  function Resumed(m: Main, s: nat, connected: bool): Main
    requires s in m.waiting
  {
    var start := m.waiting[s];
    var rest := m.(waiting := m.waiting - {s});
    if connected && MayAddHost(m, start) then
      var client := Client(start.window, start.name, false);
      rest.(clients := m.clients + [client], hosts := m.hosts[start.name := |m.clients|])
    else rest
  }

  /** The `finally` block: the start clears its own entry only. */
  function Settled(m: Main, s: nat, name: string): Main {
    if name in m.starts && m.starts[name] == s then m.(starts := m.starts - {name}) else m
  }

  function StoppedAll(m: Main): Main {
    m.(generation := m.generation + 1, starts := map[], hosts := map[],
       clients := StopEach(m.clients, m.hosts.Values))
  }

  function ShutdownBegun(m: Main): Main {
    StoppedAll(m.(shuttingDown := true))
  }

  datatype Claim = Claimed(path: Option<string>) | AlreadyOpen(owner: string)

  /** `claimDocument` with an authorized, normalized path, or with none. */
  function ClaimedDocument(m: Main, w: nat, path: Option<string>): (Main, Claim)
    requires w in m.windows
  {
    var window := m.windows[w];
    match path
    case None =>
      (m.(claims := WithoutClaim(m, w), windows := m.windows[w := window.(document := None)]), Claimed(None))
    case Some(p) =>
      if p in m.claims && m.claims[p] != window.name then (m, AlreadyOpen(m.claims[p]))
      else
        var others :=
          if window.document.Some? && window.document != path then m.claims - {window.document.value} else m.claims;
        (m.(claims := others[p := window.name], windows := m.windows[w := window.(document := path)]), Claimed(path))
  }

  // ---------- what every turn keeps ----------

  ghost predicate WindowsSound(m: Main) {
    && (forall l :: l in m.windowsByLabel ==>
          m.windowsByLabel[l] in m.windows && m.windows[m.windowsByLabel[l]].name == l)
    && (forall l :: l in m.hosts ==> l in m.windowsByLabel && m.windows[m.windowsByLabel[l]].workspace)
    && (forall s :: s in m.waiting ==>
          && m.waiting[s].window in m.windows
          && m.windows[m.waiting[s].window].name == m.waiting[s].name && m.windows[m.waiting[s].window].workspace)
  }

  /** Hosts belong to registered windows, and every client is stopped or is the host of its label. */
  ghost predicate ClientsSound(m: Main) {
    && (forall l :: l in m.hosts ==>
          && m.hosts[l] < |m.clients| && m.clients[m.hosts[l]].name == l && !m.clients[m.hosts[l]].stopped
          && l in m.windowsByLabel && m.clients[m.hosts[l]].window == m.windowsByLabel[l])
    && (forall c :: 0 <= c < |m.clients| && !m.clients[c].stopped ==>
          m.clients[c].name in m.hosts && m.hosts[m.clients[c].name] == c)
    && (m.shuttingDown ==> m.hosts == map[])
  }

  predicate Viable(m: Main, s: nat) {
    s in m.waiting && MayAddHost(m, m.waiting[s])
  }

  /** A start that could still add a host is the one in the map for its label, and there is no host. */
  ghost predicate StartsSound(m: Main) {
    && (forall s :: s in m.waiting ==> s < m.nextStart && m.waiting[s].generation <= m.generation)
    && (forall l :: l in m.starts ==> m.starts[l] < m.nextStart)
    && (forall s :: s in m.waiting && Viable(m, s) ==>
          m.waiting[s].name in m.starts && m.starts[m.waiting[s].name] == s && m.waiting[s].name !in m.hosts)
  }

  /** A document is claimed by a label exactly if the open window of that label holds it. */
  ghost predicate ClaimsSound(m: Main) {
    && (forall p :: p in m.claims ==>
          && m.claims[p] in m.windowsByLabel && m.windowsByLabel[m.claims[p]] in m.windows
          && m.windows[m.windowsByLabel[m.claims[p]]].document == Some(p))
    && (forall w :: w in m.windows && Registered(m, w) && m.windows[w].document.Some? ==>
          && m.windows[w].document.value in m.claims
          && m.claims[m.windows[w].document.value] == m.windows[w].name)
  }

  ghost predicate Inv(m: Main) {
    WindowsSound(m) && ClientsSound(m) && StartsSound(m) && ClaimsSound(m)
  }

  lemma CreatedKeepsHosts(m: Main, name: string, workspace: bool, w: nat)
    requires WindowsSound(m) && ClientsSound(m) && name !in m.windowsByLabel && w !in m.windows
    ensures WindowsSound(Created(m, name, workspace, w)) && ClientsSound(Created(m, name, workspace, w))
  {
  }

  lemma CreatedKeepsStarts(m: Main, name: string, workspace: bool, w: nat)
    requires WindowsSound(m) && StartsSound(m) && name !in m.windowsByLabel && w !in m.windows
    ensures StartsSound(Created(m, name, workspace, w))
  {
    var m' := Created(m, name, workspace, w);
    forall s | s in m'.waiting && Viable(m', s) ensures Viable(m, s) {
      assert m.waiting[s].window in m.windows;
    }
  }

  lemma CreatedKeepsClaims(m: Main, name: string, workspace: bool, w: nat)
    requires WindowsSound(m) && ClaimsSound(m) && name !in m.windowsByLabel && w !in m.windows
    ensures ClaimsSound(Created(m, name, workspace, w))
  {
  }

  lemma CreatedKeepsInv(m: Main, name: string, workspace: bool, w: nat)
    requires Inv(m) && name !in m.windowsByLabel && w !in m.windows
    ensures Inv(Created(m, name, workspace, w))
  {
    CreatedKeepsHosts(m, name, workspace, w);
    CreatedKeepsStarts(m, name, workspace, w);
    CreatedKeepsClaims(m, name, workspace, w);
  }

  /** The parts of a closed workspace window, told apart from the order in which they are updated. */
  lemma HostReleased(m: Main, name: string, m': Main)
    requires WindowsSound(m) && ClientsSound(m) && name in m.windowsByLabel
    requires m'.windowsByLabel == m.windowsByLabel - {name} && m'.hosts == m.hosts - {name}
    requires m'.windows == m.windows && m'.waiting == m.waiting && m'.shuttingDown == m.shuttingDown
    requires m'.clients == if name in m.hosts then Stop(m.clients, m.hosts[name]) else m.clients
    ensures WindowsSound(m') && ClientsSound(m')
  {
    forall c | 0 <= c < |m'.clients| && !m'.clients[c].stopped
      ensures m'.clients[c].name in m'.hosts && m'.hosts[m'.clients[c].name] == c
    {
      assert m'.clients[c] == m.clients[c];
    }
  }

  lemma ClaimReleased(m: Main, w: nat, m': Main)
    requires WindowsSound(m) && ClaimsSound(m) && Registered(m, w)
    requires m'.windowsByLabel == m.windowsByLabel - {m.windows[w].name} && m'.windows == m.windows
    requires m'.claims == WithoutClaim(m, w)
    ensures ClaimsSound(m')
  {
    var name := m.windows[w].name;
    forall v | v in m.windows && Registered(m', v) ensures Registered(m, v) && m.windows[v].name != name {
    }
    forall p | p in m'.claims ensures m'.claims[p] != name {
      assert m.windows[m.windowsByLabel[m.claims[p]]].document == Some(p);
    }
  }

  lemma ClosedKeepsHosts(m: Main, w: nat)
    requires WindowsSound(m) && ClientsSound(m) && Registered(m, w)
    ensures WindowsSound(Closed(m, w)) && ClientsSound(Closed(m, w))
  {
    var name := m.windows[w].name;
    assert !m.windows[w].workspace ==> name !in m.hosts;
    assert name !in m.hosts ==> m.hosts - {name} == m.hosts;
    HostReleased(m, name, Closed(m, w));
  }

  lemma ClosedKeepsStarts(m: Main, w: nat)
    requires WindowsSound(m) && StartsSound(m) && Registered(m, w)
    ensures StartsSound(Closed(m, w))
  {
  }

  lemma ClosedParts(m: Main, w: nat)
    requires w in m.windows
    ensures Closed(m, w).windowsByLabel == m.windowsByLabel - {m.windows[w].name}
    ensures Closed(m, w).windows == m.windows && Closed(m, w).claims == WithoutClaim(m, w)
  {
  }

  lemma ClosedKeepsClaims(m: Main, w: nat)
    requires WindowsSound(m) && ClaimsSound(m) && Registered(m, w)
    ensures ClaimsSound(Closed(m, w))
  {
    ClosedParts(m, w);
    ClaimReleased(m, w, Closed(m, w));
  }

  lemma ClosedKeepsInv(m: Main, w: nat)
    requires Inv(m) && Registered(m, w)
    ensures Inv(Closed(m, w))
  {
    ClosedKeepsHosts(m, w);
    ClosedKeepsStarts(m, w);
    ClosedKeepsClaims(m, w);
  }

  lemma CalledKeepsHosts(m: Main, w: nat)
    requires WindowsSound(m) && ClientsSound(m) && Registered(m, w) && m.windows[w].workspace
    ensures WindowsSound(Called(m, w).0) && ClientsSound(Called(m, w).0)
  {
  }

  lemma CalledKeepsStarts(m: Main, w: nat)
    requires WindowsSound(m) && StartsSound(m) && Registered(m, w) && m.windows[w].workspace
    ensures StartsSound(Called(m, w).0)
  {
  }

  lemma CalledKeepsClaims(m: Main, w: nat)
    requires WindowsSound(m) && ClaimsSound(m) && Registered(m, w) && m.windows[w].workspace
    ensures ClaimsSound(Called(m, w).0)
  {
  }

  lemma CalledKeepsInv(m: Main, w: nat)
    requires Inv(m) && Registered(m, w) && m.windows[w].workspace
    ensures Inv(Called(m, w).0)
  {
    CalledKeepsHosts(m, w);
    CalledKeepsStarts(m, w);
    CalledKeepsClaims(m, w);
  }

  lemma ResumedKeepsInv(m: Main, s: nat, connected: bool)
    requires Inv(m) && s in m.waiting
    ensures Inv(Resumed(m, s, connected))
  {
  }

  lemma SettledKeepsInv(m: Main, s: nat, name: string)
    requires Inv(m) && s !in m.waiting
    ensures Inv(Settled(m, s, name))
  {
  }

  lemma StoppedAllKeepsInv(m: Main, shuttingDown: bool)
    requires Inv(m)
    ensures Inv(StoppedAll(m.(shuttingDown := m.shuttingDown || shuttingDown)))
  {
  }

  lemma ClaimedKeepsHosts(m: Main, w: nat, path: Option<string>)
    requires WindowsSound(m) && ClientsSound(m) && Registered(m, w)
    ensures WindowsSound(ClaimedDocument(m, w, path).0) && ClientsSound(ClaimedDocument(m, w, path).0)
  {
  }

  lemma ClaimedKeepsStarts(m: Main, w: nat, path: Option<string>)
    requires WindowsSound(m) && StartsSound(m) && Registered(m, w)
    ensures StartsSound(ClaimedDocument(m, w, path).0)
  {
  }

  lemma ClaimedKeepsClaims(m: Main, w: nat, path: Option<string>)
    requires WindowsSound(m) && ClaimsSound(m) && Registered(m, w)
    ensures ClaimsSound(ClaimedDocument(m, w, path).0)
  {
  }

  lemma ClaimedKeepsInv(m: Main, w: nat, path: Option<string>)
    requires Inv(m) && Registered(m, w)
    ensures Inv(ClaimedDocument(m, w, path).0)
  {
    ClaimedKeepsHosts(m, w, path);
    ClaimedKeepsStarts(m, w, path);
    ClaimedKeepsClaims(m, w, path);
  }

  // ---------- every interleaving ----------

  datatype Event =
    | OpenWindow(name: string, workspace: bool, w: nat)
    | CloseWindow(w: nat)
    | RequestHost(w: nat)
    | ResumeStart(s: nat, connected: bool)
    | SettleStart(s: nat, name: string)
    | StopHosts
    | BeginShutdown
    | ClaimPath(w: nat, path: Option<string>)

  /** What the callers guarantee: new windows take free labels, and requests come from open windows. */
  predicate Enabled(m: Main, e: Event) {
    match e
    case OpenWindow(name, _, w) => name !in m.windowsByLabel && w !in m.windows
    case CloseWindow(w) => Registered(m, w)
    case RequestHost(w) => Registered(m, w) && m.windows[w].workspace
    case ResumeStart(s, _) => s in m.waiting
    case SettleStart(s, _) => s !in m.waiting
    case StopHosts => true
    case BeginShutdown => true
    case ClaimPath(w, _) => Registered(m, w)
  }

  function Apply(m: Main, e: Event): Main
    requires Enabled(m, e)
  {
    match e
    case OpenWindow(name, workspace, w) => Created(m, name, workspace, w)
    case CloseWindow(w) => Closed(m, w)
    case RequestHost(w) => Called(m, w).0
    case ResumeStart(s, connected) => Resumed(m, s, connected)
    case SettleStart(s, name) => Settled(m, s, name)
    case StopHosts => StoppedAll(m)
    case BeginShutdown => ShutdownBegun(m)
    case ClaimPath(w, path) => ClaimedDocument(m, w, path).0
  }

  lemma ApplyKeepsInv(m: Main, e: Event)
    requires Inv(m) && Enabled(m, e)
    ensures Inv(Apply(m, e))
  {
    match e {
      case OpenWindow(name, workspace, w) => CreatedKeepsInv(m, name, workspace, w);
      case CloseWindow(w) => ClosedKeepsInv(m, w);
      case RequestHost(w) => CalledKeepsInv(m, w);
      case ResumeStart(s, connected) => ResumedKeepsInv(m, s, connected);
      case SettleStart(s, name) => SettledKeepsInv(m, s, name);
      case StopHosts =>
        assert m.(shuttingDown := m.shuttingDown || false) == m;
        StoppedAllKeepsInv(m, false);
      case BeginShutdown =>
        assert m.(shuttingDown := m.shuttingDown || true) == m.(shuttingDown := true);
        StoppedAllKeepsInv(m, true);
      case ClaimPath(w, path) => ClaimedKeepsInv(m, w, path);
    }
  }

  /** A run from the start of the application: every prefix of the events leads to one state. */
  ghost predicate IsRun(states: seq<Main>, events: seq<Event>) {
    && |states| == |events| + 1 && states[0] == Fresh
    && forall i :: 0 <= i < |events| ==> Enabled(states[i], events[i]) && states[i + 1] == Apply(states[i], events[i])
  }

  lemma {:induction false} RunKeepsInv(states: seq<Main>, events: seq<Event>, i: nat)
    requires IsRun(states, events) && i < |states|
    ensures Inv(states[i])
  {
    if i > 0 {
      RunKeepsInv(states, events, i - 1);
      ApplyKeepsInv(states[i - 1], events[i - 1]);
    }
  }

  /** Under every interleaving: a client that was never stopped is the one host of its label, made for
      the window that is registered under that label now; after shutdown has begun there is none. */
  lemma NoOrphanHost(states: seq<Main>, events: seq<Event>, i: nat)
    requires IsRun(states, events) && i < |states|
    ensures var m := states[i];
      forall c :: 0 <= c < |m.clients| && !m.clients[c].stopped ==>
        && m.clients[c].name in m.hosts && m.hosts[m.clients[c].name] == c
        && m.clients[c].name in m.windowsByLabel && m.windowsByLabel[m.clients[c].name] == m.clients[c].window
    ensures var m := states[i];
      forall c, d :: 0 <= c < d < |m.clients| && m.clients[c].name == m.clients[d].name ==>
        m.clients[c].stopped || m.clients[d].stopped
    ensures states[i].shuttingDown ==> forall c :: 0 <= c < |states[i].clients| ==> states[i].clients[c].stopped
  {
    RunKeepsInv(states, events, i);
  }

  /** What a state keeps of an earlier one. */
  ghost predicate KeepsHistory(before: Main, after: Main) {
    && |after.clients| >= |before.clients|
    && (forall c :: 0 <= c < |before.clients| && before.clients[c].stopped ==> after.clients[c].stopped)
    && (before.shuttingDown ==> after.shuttingDown && |after.clients| == |before.clients|)
  }

  lemma StepHistory(m: Main, e: Event)
    requires Inv(m) && Enabled(m, e)
    ensures KeepsHistory(m, Apply(m, e))
  {
  }

  ghost predicate IsLinked(states: seq<Main>, n: nat) {
    n + 1 < |states| && KeepsHistory(states[n], states[n + 1])
  }

  lemma RunIsLinked(states: seq<Main>, events: seq<Event>, n: nat)
    requires IsRun(states, events) && n + 1 < |states|
    ensures IsLinked(states, n)
  {
    RunKeepsInv(states, events, n);
    StepHistory(states[n], events[n]);
  }

  lemma HistoryIsKeptOn(a: Main, b: Main, c: Main)
    requires KeepsHistory(a, b) && KeepsHistory(b, c)
    ensures KeepsHistory(a, c)
  {
  }

  lemma {:induction false} LinksKeepHistory(states: seq<Main>, i: nat, k: nat)
    requires i <= k < |states| && forall n :: i <= n < k ==> IsLinked(states, n)
    ensures KeepsHistory(states[i], states[k])
  {
    if i < k {
      LinksKeepHistory(states, i, k - 1);
      assert IsLinked(states, k - 1);
      HistoryIsKeptOn(states[i], states[k - 1], states[k]);
    }
  }

  /** Clients are never forgotten and never restarted, and once shutdown has begun none is added. */
  lemma ShutdownIsFinal(states: seq<Main>, events: seq<Event>, i: nat, k: nat)
    requires IsRun(states, events) && i <= k < |states|
    ensures KeepsHistory(states[i], states[k])
  {
    forall n | i <= n < k ensures IsLinked(states, n) {
      RunIsLinked(states, events, n);
    }
    LinksKeepHistory(states, i, k);
  }

  /** No document is ever open in two windows. */
  lemma OneWindowPerDocument(states: seq<Main>, events: seq<Event>, i: nat, v: nat, w: nat)
    requires IsRun(states, events) && i < |states|
    requires Registered(states[i], v) && Registered(states[i], w)
    requires states[i].windows[v].document.Some? && states[i].windows[v].document == states[i].windows[w].document
    ensures v == w
  {
    RunKeepsInv(states, events, i);
  }

  // ---------- the program ----------

  /** `for (const host of workspaceHosts.values()) host.stop()`. */
  method StopClients(clients: seq<Client>, hosts: set<nat>) returns (stopped: seq<Client>)
    requires forall c :: c in hosts ==> c < |clients|
    ensures stopped == StopEach(clients, hosts)
  {
    stopped := clients;
    var rest := hosts;
    while rest != {}
      invariant rest <= hosts && stopped == StopEach(clients, hosts - rest)
      decreases |rest|
    {
      var c :| c in rest;
      stopped := stopped[c := stopped[c].(stopped := true)];
      rest := rest - {c};
    }
    assert hosts - rest == hosts;
  }

  class MainProcess {
    var windowsByLabel: map<string, nat>
    var windows: map<nat, Window>
    var workspaceHosts: map<string, nat>
    var clients: seq<Client>
    var workspaceHostStarts: map<string, nat>
    var waiting: map<nat, Start>
    var nextStart: nat
    var workspaceHostGeneration: nat
    var nativeRuntimesShuttingDown: bool
    var documentClaims: map<string, string>

    function View(): Main
      reads this
    {
      Main(windowsByLabel, windows, workspaceHosts, clients, workspaceHostStarts, waiting, nextStart,
           workspaceHostGeneration, nativeRuntimesShuttingDown, documentClaims)
    }

    constructor ()
      ensures View() == Fresh
    {
      windowsByLabel, windows, workspaceHosts, clients := map[], map[], map[], [];
      workspaceHostStarts, waiting, nextStart, workspaceHostGeneration := map[], map[], 0, 0;
      nativeRuntimesShuttingDown, documentClaims := false, map[];
    }

    method CreateWindow(name: string, workspace: bool, w: nat)
      requires Inv(View()) && name !in windowsByLabel && w !in windows
      modifies this
      ensures Inv(View()) && View() == Created(old(View()), name, workspace, w)
    {
      CreatedKeepsInv(View(), name, workspace, w);
      windows := windows[w := Window(name, workspace, None)];
      windowsByLabel := windowsByLabel[name := w];
    }

    method WindowClosed(w: nat)
      requires Inv(View()) && Registered(View(), w)
      modifies this
      ensures Inv(View()) && View() == Closed(old(View()), w)
    {
      ClosedKeepsInv(View(), w);
      ReleaseWindow(windows[w]);
    }

    method ReleaseWindow(window: Window)
      requires window.name in workspaceHosts ==> workspaceHosts[window.name] < |clients|
      modifies `windowsByLabel, `workspaceHosts, `workspaceHostStarts, `clients, `documentClaims
      ensures windowsByLabel == old(windowsByLabel) - {window.name}
      ensures !window.workspace ==> unchanged(`workspaceHosts) && unchanged(`workspaceHostStarts) && unchanged(`clients)
      ensures window.workspace ==>
        && workspaceHosts == old(workspaceHosts) - {window.name}
        && workspaceHostStarts == old(workspaceHostStarts) - {window.name}
        && clients == (if window.name in old(workspaceHosts)
                       then Stop(old(clients), old(workspaceHosts)[window.name]) else old(clients))
      ensures documentClaims ==
        if window.document.Some? && window.document.value in old(documentClaims)
           && old(documentClaims)[window.document.value] == window.name
        then old(documentClaims) - {window.document.value} else old(documentClaims)
    {
      windowsByLabel := windowsByLabel - {window.name};
      if window.workspace {
        if window.name in workspaceHosts {
          var c := workspaceHosts[window.name];
          clients := clients[c := clients[c].(stopped := true)];
        }
        workspaceHosts := workspaceHosts - {window.name};
        workspaceHostStarts := workspaceHostStarts - {window.name};
      }
      ReleaseClaim(window);
    }

    method ReleaseClaim(window: Window)
      modifies `documentClaims
      ensures documentClaims ==
        if window.document.Some? && window.document.value in old(documentClaims)
           && old(documentClaims)[window.document.value] == window.name
        then old(documentClaims) - {window.document.value} else old(documentClaims)
    {
      if window.document.Some? && window.document.value in documentClaims
         && documentClaims[window.document.value] == window.name {
        documentClaims := documentClaims - {window.document.value};
      }
    }

    method WorkspaceHost(w: nat) returns (call: HostCall)
      requires Inv(View()) && Registered(View(), w) && windows[w].workspace
      modifies this
      ensures Inv(View()) && (View(), call) == Called(old(View()), w)
    {
      CalledKeepsInv(View(), w);
      var name := windows[w].name;
      if nativeRuntimesShuttingDown {
        return Refused;
      }
      if name in workspaceHosts {
        return Existing(workspaceHosts[name]);
      }
      if name in workspaceHostStarts {
        return Joined(workspaceHostStarts[name]);
      }
      waiting := waiting[nextStart := Start(w, name, workspaceHostGeneration)];
      workspaceHostStarts := workspaceHostStarts[name := nextStart];
      call := Begun(nextStart);
      nextStart := nextStart + 1;
    }

    method ResumeHostStart(s: nat, connected: bool)
      requires Inv(View()) && s in waiting
      modifies this
      ensures Inv(View()) && View() == Resumed(old(View()), s, connected)
    {
      ResumedKeepsInv(View(), s, connected);
      var start := waiting[s];
      waiting := waiting - {s};
      if !connected || nativeRuntimesShuttingDown || start.generation != workspaceHostGeneration
         || start.name !in windowsByLabel || windowsByLabel[start.name] != start.window {
        return;
      }
      workspaceHosts := workspaceHosts[start.name := |clients|];
      clients := clients + [Client(start.window, start.name, false)];
    }

    method SettleHostStart(s: nat, name: string)
      requires Inv(View()) && s !in waiting
      modifies this
      ensures Inv(View()) && View() == Settled(old(View()), s, name)
    {
      SettledKeepsInv(View(), s, name);
      if name in workspaceHostStarts && workspaceHostStarts[name] == s {
        workspaceHostStarts := workspaceHostStarts - {name};
      }
    }

    method StopAllWorkspaceHosts()
      requires Inv(View())
      modifies this
      ensures Inv(View()) && View() == StoppedAll(old(View()))
    {
      assert View().(shuttingDown := View().shuttingDown || false) == View();
      StoppedAllKeepsInv(View(), false);
      StopHostsInMap();
    }

    method StopHostsInMap()
      requires forall l :: l in workspaceHosts ==> workspaceHosts[l] < |clients|
      modifies this
      ensures View() == StoppedAll(old(View()))
    {
      workspaceHostGeneration := workspaceHostGeneration + 1;
      workspaceHostStarts := map[];
      clients := StopClients(clients, workspaceHosts.Values);
      workspaceHosts := map[];
    }

    /** `shutdownNativeRuntimes` up to its `await`; after it, all hosts are stopped once more. */
    method ShutdownNativeRuntimes()
      requires Inv(View())
      modifies this
      ensures Inv(View()) && View() == ShutdownBegun(old(View()))
    {
      assert View().(shuttingDown := View().shuttingDown || true) == View().(shuttingDown := true);
      StoppedAllKeepsInv(View(), true);
      nativeRuntimesShuttingDown := true;
      StopHostsInMap();
    }

    /** The window's document becomes `path`, and the claim moves with it. */
    method MoveClaim(w: nat, path: string)
      requires w in windows && (path in documentClaims ==> documentClaims[path] == windows[w].name)
      modifies `documentClaims, `windows
      ensures (View(), Claimed(Some(path))) == ClaimedDocument(old(View()), w, Some(path))
    {
      var window := windows[w];
      if window.document.Some? && window.document != Some(path) {
        documentClaims := documentClaims - {window.document.value};
      }
      documentClaims := documentClaims[path := window.name];
      windows := windows[w := window.(document := Some(path))];
    }

    method ClaimDocument(w: nat, path: Option<string>) returns (claim: Claim)
      requires Inv(View()) && Registered(View(), w)
      modifies this
      ensures Inv(View()) && (View(), claim) == ClaimedDocument(old(View()), w, path)
    {
      ClaimedKeepsInv(View(), w, path);
      var window := windows[w];
      if path.None? {
        ReleaseClaim(window);
        windows := windows[w := window.(document := None)];
        return Claimed(None);
      }
      if path.value in documentClaims && documentClaims[path.value] != window.name {
        return AlreadyOpen(documentClaims[path.value]);
      }
      MoveClaim(w, path.value);
      claim := Claimed(path);
    }
  }
}
