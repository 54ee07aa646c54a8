/** What each turn of the main process does: requests are answered, starts add their hosts, and windows
    give back what they held. */
module WorkspaceTurns {
  import opened Options
  import opened WorkspaceHosts

  // ---------- requests and starts ----------

  /** The start's window is still open under its label, and no stop or shutdown has come since it began. */
  predicate IsWanted(m: Main, s: nat) {
    && s in m.waiting && !m.shuttingDown && m.waiting[s].generation == m.generation
    && m.waiting[s].name in m.windowsByLabel && m.windowsByLabel[m.waiting[s].name] == m.waiting[s].window
  }

  /** A request is refused in a shutdown; else it is answered with the label's host, or joins its start, or
      begins one, which goes on record and is wanted. */
  lemma RequestIsAnswered(m: Main, w: nat)
    requires Inv(m) && Registered(m, w) && m.windows[w].workspace
    ensures var (after, call) := Called(m, w);
      var name := m.windows[w].name;
      if m.shuttingDown then after == m && call == Refused
      else if name in m.hosts then after == m && call == Existing(m.hosts[name])
      else if name in m.starts then after == m && call == Joined(m.starts[name])
      else
        && call == Begun(m.nextStart) && m.nextStart !in m.waiting && IsWanted(after, m.nextStart)
        && after.waiting[m.nextStart].window == w && after.waiting[m.nextStart].name == name
        && after.starts == m.starts[name := m.nextStart] && after.nextStart == m.nextStart + 1
        && after.hosts == m.hosts && after.clients == m.clients && after.windowsByLabel == m.windowsByLabel
        && forall s :: s != m.nextStart ==>
             (s in after.waiting <==> s in m.waiting) && (s in m.waiting ==> after.waiting[s] == m.waiting[s])
  {
  }

  /** A start that resumes is over. It adds its host if and only if it has a connection and is wanted. */
  lemma StartAddsItsHost(m: Main, s: nat, connected: bool)
    requires Inv(m) && s in m.waiting
    ensures var after, name := Resumed(m, s, connected), m.waiting[s].name;
      && after.waiting.Keys == m.waiting.Keys - {s} && after.starts == m.starts && after.windows == m.windows
      && if connected && IsWanted(m, s) then
           && name !in m.hosts && after.hosts == m.hosts[name := |m.clients|]
           && after.clients == m.clients + [Client(m.waiting[s].window, name, false)]
         else after.hosts == m.hosts && after.clients == m.clients
  {
    if IsWanted(m, s) { assert Viable(m, s); }
  }

  /** A settled start is taken off the record if it is still there, and nothing else is. */
  lemma SettledIsForgotten(m: Main, s: nat, name: string)
    ensures var after := Settled(m, s, name);
      && after == m.(starts := after.starts)
      && (name in after.starts <==> name in m.starts && m.starts[name] != s)
      && forall l :: l in after.starts ==> l in m.starts && after.starts[l] == m.starts[l]
    ensures forall l :: l in m.starts && l != name ==> l in Settled(m, s, name).starts
  {
  }

  predicate IsDisturbed(m: Main, e: Event, s: nat)
    requires s in m.waiting
  {
    e.StopHosts? || e.BeginShutdown? || e == CloseWindow(m.waiting[s].window) || (e.ResumeStart? && e.s == s)
  }

  ghost predicate KeepsWindow(m: Main, after: Main, w: nat)
    requires Registered(m, w)
  {
    Registered(after, w) && after.windows[w].name == m.windows[w].name
  }

  lemma OpeningKeepsWindow(m: Main, name: string, workspace: bool, v: nat, w: nat)
    requires Registered(m, w) && name !in m.windowsByLabel && v !in m.windows
    ensures KeepsWindow(m, Created(m, name, workspace, v), w)
  {
  }

  lemma ClosingKeepsWindow(m: Main, v: nat, w: nat)
    requires Registered(m, v) && Registered(m, w) && v != w
    ensures KeepsWindow(m, Closed(m, v), w)
  {
    ClosedParts(m, v);
  }

  lemma RequestKeepsWindow(m: Main, v: nat, w: nat)
    requires Registered(m, v) && Registered(m, w)
    ensures KeepsWindow(m, Called(m, v).0, w)
  {
  }

  lemma ClaimKeepsWindow(m: Main, v: nat, path: Option<string>, w: nat)
    requires Registered(m, v) && Registered(m, w)
    ensures KeepsWindow(m, ClaimedDocument(m, v, path).0, w)
  {
  }

  lemma WindowStays(m: Main, e: Event, w: nat)
    requires Enabled(m, e) && Registered(m, w) && e != CloseWindow(w)
    ensures KeepsWindow(m, Apply(m, e), w)
  {
    match e {
      case OpenWindow(name, workspace, v) => OpeningKeepsWindow(m, name, workspace, v, w);
      case CloseWindow(v) => ClosingKeepsWindow(m, v, w);
      case RequestHost(v) => RequestKeepsWindow(m, v, w);
      case ClaimPath(v, path) => ClaimKeepsWindow(m, v, path, w);
      case ResumeStart(s, connected) =>
      case SettleStart(s, name) =>
      case StopHosts =>
      case BeginShutdown =>
    }
  }

  lemma DisturbedIsUnwanted(m: Main, e: Event, s: nat)
    requires Inv(m) && Enabled(m, e) && IsWanted(m, s) && IsDisturbed(m, e, s)
    ensures !IsWanted(Apply(m, e), s)
  {
    if e.CloseWindow? { ClosedParts(m, e.w); }
  }

  predicate KeepsStart(m: Main, after: Main, s: nat)
    requires s in m.waiting
  {
    && s in after.waiting && after.waiting[s] == m.waiting[s]
    && after.generation == m.generation && after.shuttingDown == m.shuttingDown
  }

  lemma ClosingKeepsStart(m: Main, w: nat, s: nat)
    requires Registered(m, w) && s in m.waiting
    ensures KeepsStart(m, Closed(m, w), s)
  {
  }

  lemma RequestKeepsStart(m: Main, w: nat, s: nat)
    requires Registered(m, w) && s in m.waiting && s < m.nextStart
    ensures KeepsStart(m, Called(m, w).0, s)
  {
  }

  lemma ClaimKeepsStart(m: Main, w: nat, path: Option<string>, s: nat)
    requires Registered(m, w) && s in m.waiting
    ensures KeepsStart(m, ClaimedDocument(m, w, path).0, s)
  {
  }

  lemma OthersKeepStart(m: Main, e: Event, s: nat)
    requires Enabled(m, e) && s in m.waiting && s < m.nextStart && !IsDisturbed(m, e, s)
    ensures KeepsStart(m, Apply(m, e), s)
  {
    match e {
      case CloseWindow(w) => ClosingKeepsStart(m, w, s);
      case RequestHost(w) => RequestKeepsStart(m, w, s);
      case ClaimPath(w, path) => ClaimKeepsStart(m, w, path, s);
      case _ =>
    }
  }

  lemma KeptIsWanted(m: Main, after: Main, s: nat)
    requires IsWanted(m, s) && KeepsStart(m, after, s)
    requires Registered(m, m.waiting[s].window) && KeepsWindow(m, after, m.waiting[s].window)
    requires m.windows[m.waiting[s].window].name == m.waiting[s].name
    ensures IsWanted(after, s)
  {
  }

  /** A start stays wanted until it resumes, its window is closed, or all hosts are stopped. */
  lemma WantedUntilDisturbed(m: Main, e: Event, s: nat)
    requires Inv(m) && Enabled(m, e) && IsWanted(m, s)
    ensures IsWanted(Apply(m, e), s) <==> !IsDisturbed(m, e, s)
    ensures !IsDisturbed(m, e, s) ==> Apply(m, e).waiting[s] == m.waiting[s]
  {
    if IsDisturbed(m, e, s) {
      DisturbedIsUnwanted(m, e, s);
    } else {
      assert Registered(m, m.waiting[s].window);
      WindowStays(m, e, m.waiting[s].window);
      assert s < m.nextStart;
      OthersKeepStart(m, e, s);
      KeptIsWanted(m, Apply(m, e), s);
    }
  }

  /** Nothing of that happens to the window w and its start s from one state of the run until another. */
  ghost predicate IsUndisturbed(events: seq<Event>, from: nat, until: nat, w: nat, s: nat)
    requires until <= |events|
  {
    forall k :: from <= k < until ==>
      && !events[k].StopHosts? && !events[k].BeginShutdown? && events[k] != CloseWindow(w)
      && !(events[k].ResumeStart? && events[k].s == s)
  }

  lemma {:induction false} StaysWanted(states: seq<Main>, events: seq<Event>, from: nat, until: nat, s: nat)
    requires IsRun(states, events) && from <= until <= |events| && IsWanted(states[from], s)
    requires IsUndisturbed(events, from, until, states[from].waiting[s].window, s)
    ensures IsWanted(states[until], s) && states[until].waiting[s] == states[from].waiting[s]
  {
    if from < until {
      StaysWanted(states, events, from, until - 1, s);
      RunKeepsInv(states, events, until - 1);
      WantedUntilDisturbed(states[until - 1], events[until - 1], s);
    }
  }

  /** In every run: whoever asks for a host when there is none and none is on its way has it, made for his own
      window and not stopped, when the connection comes; unless the window was closed or all were stopped. */
  lemma RequestGetsItsHost(states: seq<Main>, events: seq<Event>, i: nat, j: nat, w: nat)
    requires IsRun(states, events) && i < j < |events| && events[i] == RequestHost(w)
    requires var m := states[i];
      w in m.windows && !m.shuttingDown && m.windows[w].name !in m.hosts && m.windows[w].name !in m.starts
    requires IsUndisturbed(events, i + 1, j, w, states[i].nextStart)
    requires events[j] == ResumeStart(states[i].nextStart, true)
    ensures var name, after := states[i].windows[w].name, states[j + 1];
      && name in after.hosts && after.hosts[name] < |after.clients|
      && after.clients[after.hosts[name]] == Client(w, name, false)
  {
    RunKeepsInv(states, events, i);
    RequestIsAnswered(states[i], w);
    var s := states[i].nextStart;
    StaysWanted(states, events, i + 1, j, s);
    RunKeepsInv(states, events, j);
    StartAddsItsHost(states[j], s, true);
  }

  // ---------- documents ----------

  /** A document is claimed unless another window holds it, which is named then. The window's own claim moves:
      it holds that document and no other, and all other claims are as they were. */
  lemma ClaimMoves(m: Main, w: nat, path: string)
    requires Inv(m) && Registered(m, w)
    ensures var (after, answer) := ClaimedDocument(m, w, Some(path));
      var name := m.windows[w].name;
      if path in m.claims && m.claims[path] != name then
        && after == m && answer == AlreadyOpen(m.claims[path])
        && exists v :: Registered(m, v) && m.windows[v].name == m.claims[path] && m.windows[v].document == Some(path)
      else
        && answer == Claimed(Some(path)) && after.windows[w].document == Some(path)
        && (forall p :: p in after.claims && after.claims[p] == name <==> p == path)
        && (forall p :: p in m.claims && m.claims[p] != name ==> p in after.claims && after.claims[p] == m.claims[p])
        && (forall p :: p in after.claims && p != path ==> p in m.claims)
        && after == m.(windows := m.windows[w := m.windows[w].(document := Some(path))], claims := after.claims)
  {
    var after := ClaimedDocument(m, w, Some(path)).0;
    if path in m.claims && m.claims[path] != m.windows[w].name {
      assert Registered(m, m.windowsByLabel[m.claims[path]]);
    } else {
      OnlyOwnClaim(m, w);
    }
  }

  lemma OnlyOwnClaim(m: Main, w: nat)
    requires Inv(m) && Registered(m, w)
    ensures forall p :: p in m.claims && m.claims[p] == m.windows[w].name <==> m.windows[w].document == Some(p)
  {
    forall p | p in m.claims && m.claims[p] == m.windows[w].name ensures m.windows[w].document == Some(p) {
      assert m.windowsByLabel[m.claims[p]] == w;
    }
  }

  /** Without a document the window holds none, and the others hold what they held. */
  lemma ClaimIsGivenUp(m: Main, w: nat)
    requires Inv(m) && Registered(m, w)
    ensures var (after, answer) := ClaimedDocument(m, w, None);
      && answer == Claimed(None) && after.windows[w].document.None?
      && (forall p :: p in after.claims <==> p in m.claims && m.claims[p] != m.windows[w].name)
      && (forall p :: p in after.claims ==> after.claims[p] == m.claims[p])
  {
    OnlyOwnClaim(m, w);
  }

  // ---------- windows and all hosts ----------

  lemma WindowIsOpened(m: Main, name: string, workspace: bool, w: nat)
    requires Inv(m) && name !in m.windowsByLabel && w !in m.windows
    ensures var after := Created(m, name, workspace, w);
      && Registered(after, w) && after.windows[w].name == name && after.windows[w].workspace == workspace
      && after.windows[w].document.None?
      && after == m.(windowsByLabel := m.windowsByLabel[name := w], windows := m.windows[w := after.windows[w]])
  {
  }

  /** A closed window's label, host, start and claim are gone, its host is stopped, and no other window's. */
  lemma WindowIsReleased(m: Main, w: nat)
    requires Inv(m) && Registered(m, w)
    ensures var after, name := Closed(m, w), m.windows[w].name;
      && after.windowsByLabel == m.windowsByLabel - {name} && after.hosts == m.hosts - {name}
      && after.starts == (if m.windows[w].workspace then m.starts - {name} else m.starts)
      && (forall p :: p in after.claims <==> p in m.claims && m.claims[p] != name)
      && (forall p :: p in after.claims ==> after.claims[p] == m.claims[p])
      && |after.clients| == |m.clients|
      && forall c :: 0 <= c < |m.clients| ==>
           && after.clients[c].name == m.clients[c].name && after.clients[c].window == m.clients[c].window
           && (after.clients[c].stopped <==> m.clients[c].stopped || (name in m.hosts && m.hosts[name] == c))
  {
    OnlyOwnClaim(m, w);
  }

  /** After all were stopped no client runs, and no start begun before is wanted any more. */
  lemma AllAreStopped(m: Main)
    requires Inv(m)
    ensures var after := StoppedAll(m);
      && after.hosts == map[] && after.starts == map[] && |after.clients| == |m.clients|
      && (forall c :: 0 <= c < |m.clients| ==> after.clients[c] == m.clients[c].(stopped := true))
      && (forall s :: s in m.waiting ==> s in after.waiting && !IsWanted(after, s))
      && after.windows == m.windows && after.claims == m.claims && after.shuttingDown == m.shuttingDown
    ensures ShutdownBegun(m) == StoppedAll(m).(shuttingDown := true)
  {
    forall c | 0 <= c < |m.clients| ensures StoppedAll(m).clients[c] == m.clients[c].(stopped := true) {
      assert !m.clients[c].stopped ==> c in m.hosts.Values;
    }
  }
}
