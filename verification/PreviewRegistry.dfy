/** The registry that cancels superseded import previews: one run per scope, a count of the requests it
    still has, and a cancellation channel those requests listen to. */
module PreviewRegistry {
  import opened Indices
  import opened Options

  /** `channel` numbers the run's `watch` channel. */
  datatype Run = Run(key: string, active: nat, channel: nat)

  /** The value last stored in a channel, and how many receivers it has. Its sender is the run's. */
  datatype Channel = Channel(value: bool, receivers: nat)

  /** A request holds its receiver until its `select!` ends, and is over when it has called `complete`. */
  datatype Phase = Listening | Settled | Over

  /** `asked` is for the specification: somebody asked for the request to be cancelled. */
  datatype Request = Request(scope: string, key: string, channel: nat, phase: Phase, asked: bool)

  /** `requests` is every request ever registered. */
  datatype Registry = Registry(runs: map<string, Run>, channels: seq<Channel>, requests: seq<Request>)

  const EMPTY := Registry(map[], [], [])

  // ---------- what is asked ----------

  /** Cancelling a scope asks its requests, or those of one key; registering a key asks those of all others. */
  function AskedFor(requests: seq<Request>, scope: string, about: string -> bool): (asked: seq<Request>)
    ensures |asked| == |requests|
    ensures forall i :: 0 <= i < |requests| ==>
      asked[i] == requests[i].(asked := requests[i].asked || (requests[i].scope == scope && about(requests[i].key)))
  {
    seq(|requests|, i requires 0 <= i < |requests| =>
      requests[i].(asked := requests[i].asked || (requests[i].scope == scope && about(requests[i].key))))
  }

  // ---------- the operations ----------

  /** `send(true)`: without a receiver the channel stores nothing. */
  function Sent(channel: Channel): Channel {
    if channel.receivers == 0 then channel else channel.(value := true)
  }

  function Registered(g: Registry, scope: string, key: string): Registry
    requires WellFormed(g)
  {
    var asked := AskedFor(g.requests, scope, k => k != key);
    if scope in g.runs && g.runs[scope].key == key then
      var run := g.runs[scope];
      var channel := g.channels[run.channel];
      Registry(
        g.runs[scope := run.(active := run.active + 1)],
        g.channels[run.channel := channel.(receivers := channel.receivers + 1)],
        asked + [Request(scope, key, run.channel, Listening, channel.value)])
    else
      var superseded :=
        if scope in g.runs then g.channels[g.runs[scope].channel := Sent(g.channels[g.runs[scope].channel])]
        else g.channels;
      Registry(
        g.runs[scope := Run(key, 1, |superseded|)],
        superseded + [Channel(false, 1)],
        asked + [Request(scope, key, |superseded|, Listening, false)])
  }

  /** `cancel`: without a key it is about whatever run the scope has. */
  function Cancelled(g: Registry, scope: string, key: Option<string>): (Registry, bool)
    requires WellFormed(g)
  {
    var asked := AskedFor(g.requests, scope, k => key.None? || key.value == k);
    if scope !in g.runs || (key.Some? && key.value != g.runs[scope].key) then (g.(requests := asked), false)
    else
      var channel := g.runs[scope].channel;
      (g.(channels := g.channels[channel := Sent(g.channels[channel])], requests := asked), true)
  }

  /** The `select!` ends, one way or the other, and the receiver is dropped. */
  function SettledAt(g: Registry, i: nat): Registry
    requires WellFormed(g) && i < |g.requests| && g.requests[i].phase.Listening?
  {
    var c := g.requests[i].channel;
    ListenerCounts(g, i);
    g.(channels := g.channels[c := g.channels[c].(receivers := g.channels[c].receivers - 1)],
       requests := g.requests[i := g.requests[i].(phase := Settled)])
  }

  /** What `complete(scope, key)` does to the runs; it cannot see which run the caller belonged to. */
  function WithoutOne(runs: map<string, Run>, scope: string, key: string): map<string, Run> {
    if scope !in runs || runs[scope].key != key then runs
    else if runs[scope].active <= 1 then runs - {scope}
    else runs[scope := runs[scope].(active := runs[scope].active - 1)]
  }

  function Completed(g: Registry, i: nat): Registry
    requires i < |g.requests|
  {
    g.(runs := WithoutOne(g.runs, g.requests[i].scope, g.requests[i].key),
       requests := g.requests[i := g.requests[i].(phase := Over)])
  }

  // ---------- what is always true ----------

  function Outstanding(requests: seq<Request>, channel: nat): set<nat> {
    set i: nat | i < |requests| && !requests[i].phase.Over? && requests[i].channel == channel
  }

  function Listeners(requests: seq<Request>, channel: nat): set<nat> {
    set i: nat | i < |requests| && requests[i].phase.Listening? && requests[i].channel == channel
  }

  predicate IsCurrent(g: Registry, i: nat)
    requires i < |g.requests|
  {
    var r := g.requests[i];
    r.scope in g.runs && g.runs[r.scope].channel == r.channel
  }

  /** Requests and runs refer to channels that exist, no two scopes share one, and every run counts
      at least one request. */
  ghost predicate WellLinked(g: Registry) {
    && (forall s :: s in g.runs ==> g.runs[s].channel < |g.channels| && g.runs[s].active >= 1)
    && (forall s, t :: s in g.runs && t in g.runs && g.runs[s].channel == g.runs[t].channel ==> s == t)
    && (forall i :: 0 <= i < |g.requests| ==> g.requests[i].channel < |g.channels|)
    && (forall i, s :: 0 <= i < |g.requests| && s in g.runs && g.requests[i].channel == g.runs[s].channel ==>
          g.requests[i].scope == s && g.requests[i].key == g.runs[s].key)
  }

  /** Receivers are counted, and the channel of a run says whether its listeners were asked to stop. */
  ghost predicate WellHeard(g: Registry)
    requires WellLinked(g)
  {
    && (forall c :: 0 <= c < |g.channels| ==> g.channels[c].receivers == |Listeners(g.requests, c)|)
    && (forall i :: 0 <= i < |g.requests| && g.requests[i].phase.Listening? && IsCurrent(g, i) ==>
          (g.channels[g.requests[i].channel].value <==> g.requests[i].asked))
  }

  ghost predicate WellFormed(g: Registry) {
    WellLinked(g) && WellHeard(g)
  }

  lemma ListenerCounts(g: Registry, i: nat)
    requires WellFormed(g) && i < |g.requests| && g.requests[i].phase.Listening?
    ensures g.channels[g.requests[i].channel].receivers > 0
  {
    assert i in Listeners(g.requests, g.requests[i].channel);
  }

  // ---------- who is told to stop ----------

  /** A listening request stops when its channel says so, and also when the channel is closed, as it is
      as soon as its run is gone from the map. */
  predicate IsTold(g: Registry, i: nat)
    requires WellLinked(g) && i < |g.requests|
  {
    g.requests[i].phase.Listening? && (g.channels[g.requests[i].channel].value || !IsCurrent(g, i))
  }

  /** Exactly the requests that somebody asked to stop are told to. */
  ghost predicate TellsTheAsked(g: Registry)
    requires WellLinked(g)
  {
    forall i :: 0 <= i < |g.requests| && g.requests[i].phase.Listening? ==> (IsTold(g, i) <==> g.requests[i].asked)
  }

  /** Every count is the number of requests outstanding. */
  ghost predicate CountsRight(g: Registry) {
    forall s :: s in g.runs ==> g.runs[s].active == |Outstanding(g.requests, g.runs[s].channel)|
  }

  ghost predicate Exact(g: Registry)
    requires WellLinked(g)
  {
    CountsRight(g) && TellsTheAsked(g)
  }

  /** The completion removes the run, and some request listens to it that was not asked to stop. */
  predicate StopsTheUnasked(g: Registry, i: nat)
    requires WellLinked(g) && i < |g.requests|
  {
    var r := g.requests[i];
    && r.scope in g.runs && g.runs[r.scope].key == r.key && g.runs[r.scope].active <= 1
    && var channel := g.channels[g.runs[r.scope].channel];
       channel.receivers > 0 && !channel.value
  }

  /** The completing request belongs to a superseded run, and the run now in its scope has its key. */
  predicate IsStale(g: Registry, i: nat)
    requires i < |g.requests|
  {
    var r := g.requests[i];
    r.scope in g.runs && g.runs[r.scope].key == r.key && g.runs[r.scope].channel != r.channel
  }

  /** The completion is charged to the right run; or to one with a single request, which is cancelled
      already or does not listen any more. */
  predicate MayComplete(g: Registry, i: nat)
    requires WellLinked(g) && i < |g.requests|
  {
    IsStale(g, i) ==>
      var run := g.runs[g.requests[i].scope];
      run.active == 1 && (g.channels[run.channel].value || g.channels[run.channel].receivers == 0)
  }

  // ---------- registering ----------

  lemma AskingKeepsPlaces(requests: seq<Request>, scope: string, about: string -> bool, channel: nat)
    ensures Listeners(AskedFor(requests, scope, about), channel) == Listeners(requests, channel)
    ensures Outstanding(AskedFor(requests, scope, about), channel) == Outstanding(requests, channel)
  {
  }

  lemma OneMore(requests: seq<Request>, added: Request, channel: nat)
    requires added.phase.Listening?
    ensures var one := if added.channel == channel then 1 else 0;
      && |Outstanding(requests + [added], channel)| == |Outstanding(requests, channel)| + one
      && |Listeners(requests + [added], channel)| == |Listeners(requests, channel)| + one
  {
    var all := requests + [added];
    if added.channel == channel {
      assert Outstanding(all, channel) == Outstanding(requests, channel) + {|requests|};
      assert Listeners(all, channel) == Listeners(requests, channel) + {|requests|};
    } else {
      assert Outstanding(all, channel) == Outstanding(requests, channel);
      assert Listeners(all, channel) == Listeners(requests, channel);
    }
  }

  lemma RegisteredPlaces(g: Registry, scope: string, key: string, channel: nat)
    requires WellFormed(g)
    ensures var g' := Registered(g, scope, key);
      var one := if g'.requests[|g.requests|].channel == channel then 1 else 0;
      && |Outstanding(g'.requests, channel)| == |Outstanding(g.requests, channel)| + one
      && |Listeners(g'.requests, channel)| == |Listeners(g.requests, channel)| + one
  {
    var g' := Registered(g, scope, key);
    var asked := AskedFor(g.requests, scope, k => k != key);
    AskingKeepsPlaces(g.requests, scope, k => k != key, channel);
    OneMore(asked, g'.requests[|g.requests|], channel);
    assert g'.requests == asked + [g'.requests[|g.requests|]];
  }

  lemma NobodyOnANewChannel(g: Registry)
    requires WellLinked(g)
    ensures Outstanding(g.requests, |g.channels|) == {} == Listeners(g.requests, |g.channels|)
  {
  }

  lemma JoinedIsLinked(g: Registry, scope: string, key: string)
    requires WellFormed(g) && scope in g.runs && g.runs[scope].key == key
    ensures WellLinked(Registered(g, scope, key))
  {
    var g' := Registered(g, scope, key);
    forall i, s | 0 <= i < |g'.requests| && s in g'.runs && g'.requests[i].channel == g'.runs[s].channel
      ensures g'.requests[i].scope == s && g'.requests[i].key == g'.runs[s].key
    {
      assert g'.runs[s].channel == g.runs[s].channel;
    }
  }

  lemma StartedPlaces(g: Registry, scope: string, key: string)
    requires WellFormed(g) && !(scope in g.runs && g.runs[scope].key == key)
    ensures var g' := Registered(g, scope, key);
      && |g'.channels| == |g.channels| + 1
      && g'.runs == g.runs[scope := Run(key, 1, |g.channels|)]
      && |g'.requests| == |g.requests| + 1
      && g'.requests[|g.requests|] == Request(scope, key, |g.channels|, Listening, false)
      && forall i :: 0 <= i < |g.requests| ==>
           && g'.requests[i].channel == g.requests[i].channel
           && g'.requests[i].scope == g.requests[i].scope && g'.requests[i].key == g.requests[i].key
  {
  }

  lemma StartedIsLinked(g: Registry, scope: string, key: string)
    requires WellFormed(g) && !(scope in g.runs && g.runs[scope].key == key)
    ensures WellLinked(Registered(g, scope, key))
  {
    var g' := Registered(g, scope, key);
    StartedPlaces(g, scope, key);
    forall i, s | 0 <= i < |g'.requests| && s in g'.runs && g'.requests[i].channel == g'.runs[s].channel
      ensures g'.requests[i].scope == s && g'.requests[i].key == g'.runs[s].key
    {
      if s != scope { assert g'.runs[s] == g.runs[s]; }
    }
    forall s, t | s in g'.runs && t in g'.runs && g'.runs[s].channel == g'.runs[t].channel ensures s == t {
      assert s != scope ==> g'.runs[s] == g.runs[s];
      assert t != scope ==> g'.runs[t] == g.runs[t];
    }
  }

  lemma RegisteredIsLinked(g: Registry, scope: string, key: string)
    requires WellFormed(g)
    ensures WellLinked(Registered(g, scope, key))
  {
    if scope in g.runs && g.runs[scope].key == key {
      JoinedIsLinked(g, scope, key);
    } else {
      StartedIsLinked(g, scope, key);
    }
  }

  lemma RegisteredIsCounted(g: Registry, scope: string, key: string, c: nat)
    requires WellFormed(g) && c < |Registered(g, scope, key).channels|
    ensures var g' := Registered(g, scope, key); g'.channels[c].receivers == |Listeners(g'.requests, c)|
  {
    RegisteredPlaces(g, scope, key, c);
    NobodyOnANewChannel(g);
  }

  lemma RegisteredIsHeard(g: Registry, scope: string, key: string)
    requires WellFormed(g) && WellLinked(Registered(g, scope, key))
    ensures WellHeard(Registered(g, scope, key))
  {
    var g' := Registered(g, scope, key);
    forall c | 0 <= c < |g'.channels| ensures g'.channels[c].receivers == |Listeners(g'.requests, c)| {
      RegisteredIsCounted(g, scope, key, c);
    }
    forall i | 0 <= i < |g.requests| && g'.requests[i].phase.Listening? && IsCurrent(g', i)
      ensures IsCurrent(g, i) && g'.requests[i].asked == g.requests[i].asked
    {
      assert g'.requests[i].channel == g.requests[i].channel < |g.channels|;
    }
  }

  lemma RegisteredIsWellFormed(g: Registry, scope: string, key: string)
    requires WellFormed(g)
    ensures WellFormed(Registered(g, scope, key))
  {
    RegisteredIsLinked(g, scope, key);
    RegisteredIsHeard(g, scope, key);
  }

  lemma RegisteredCounts(g: Registry, scope: string, key: string)
    requires WellFormed(g) && CountsRight(g)
    ensures CountsRight(Registered(g, scope, key))
  {
    var g' := Registered(g, scope, key);
    forall s | s in g'.runs ensures g'.runs[s].active == |Outstanding(g'.requests, g'.runs[s].channel)| {
      RegisteredPlaces(g, scope, key, g'.runs[s].channel);
      NobodyOnANewChannel(g);
    }
  }

  /** Whoever is superseded was asked. */
  lemma RegisteredTells(g: Registry, scope: string, key: string)
    requires WellFormed(g) && WellFormed(Registered(g, scope, key)) && TellsTheAsked(g)
    ensures TellsTheAsked(Registered(g, scope, key))
  {
    var g' := Registered(g, scope, key);
    forall i | 0 <= i < |g'.requests| && g'.requests[i].phase.Listening? && !IsCurrent(g', i)
      ensures g'.requests[i].asked
    {
      assert i < |g.requests|;
      if IsCurrent(g, i) {
        assert g.requests[i].scope == scope && g.requests[i].key != key;
      } else {
        assert IsTold(g, i);
      }
    }
  }

  // ---------- cancelling ----------

  lemma CancelledIsWellFormed(g: Registry, scope: string, key: Option<string>)
    requires WellFormed(g)
    ensures WellFormed(Cancelled(g, scope, key).0)
  {
    var g' := Cancelled(g, scope, key).0;
    var about := (k: string) => key.None? || key.value == k;
    forall c | 0 <= c < |g'.channels| ensures g'.channels[c].receivers == |Listeners(g'.requests, c)| {
      AskingKeepsPlaces(g.requests, scope, about, c);
      assert Listeners(g'.requests, c) == Listeners(g.requests, c);
    }
    forall i | 0 <= i < |g'.requests| && g'.requests[i].phase.Listening? && IsCurrent(g', i)
      ensures g'.channels[g'.requests[i].channel].value <==> g'.requests[i].asked
    {
      assert IsCurrent(g, i);
      ListenerCounts(g, i);
    }
  }

  lemma CancelledIsExact(g: Registry, scope: string, key: Option<string>)
    requires WellFormed(g) && WellFormed(Cancelled(g, scope, key).0)
    ensures CountsRight(g) ==> CountsRight(Cancelled(g, scope, key).0)
    ensures TellsTheAsked(g) ==> TellsTheAsked(Cancelled(g, scope, key).0)
  {
    var g' := Cancelled(g, scope, key).0;
    forall s | s in g.runs
      ensures Outstanding(g'.requests, g.runs[s].channel) == Outstanding(g.requests, g.runs[s].channel)
    {
    }
    if TellsTheAsked(g) {
      forall i | 0 <= i < |g'.requests| && g'.requests[i].phase.Listening? && !IsCurrent(g', i)
        ensures g'.requests[i].asked
      {
        assert IsTold(g, i);
      }
    }
  }

  // ---------- settling ----------

  lemma OneListenerLess(g: Registry, i: nat, channel: nat)
    requires WellFormed(g) && i < |g.requests| && g.requests[i].phase.Listening?
    ensures Listeners(SettledAt(g, i).requests, channel) == Listeners(g.requests, channel) - {i}
    ensures i in Listeners(g.requests, channel) <==> g.requests[i].channel == channel
    ensures Outstanding(SettledAt(g, i).requests, channel) == Outstanding(g.requests, channel)
  {
  }

  lemma SettledIsWellFormed(g: Registry, i: nat)
    requires WellFormed(g) && i < |g.requests| && g.requests[i].phase.Listening?
    ensures WellFormed(SettledAt(g, i))
  {
    var g' := SettledAt(g, i);
    forall c | 0 <= c < |g'.channels| ensures g'.channels[c].receivers == |Listeners(g'.requests, c)| {
      OneListenerLess(g, i, c);
    }
    forall j | 0 <= j < |g'.requests| && g'.requests[j].phase.Listening? && IsCurrent(g', j)
      ensures IsCurrent(g, j) && g'.requests[j] == g.requests[j]
    {
    }
  }

  lemma SettledIsExact(g: Registry, i: nat)
    requires WellFormed(g) && i < |g.requests| && g.requests[i].phase.Listening? && WellFormed(SettledAt(g, i))
    ensures CountsRight(g) ==> CountsRight(SettledAt(g, i))
    ensures TellsTheAsked(g) ==> TellsTheAsked(SettledAt(g, i))
  {
    var g' := SettledAt(g, i);
    forall s | s in g.runs
      ensures Outstanding(g'.requests, g.runs[s].channel) == Outstanding(g.requests, g.runs[s].channel)
    {
      OneListenerLess(g, i, g.runs[s].channel);
    }
    if TellsTheAsked(g) {
      forall j | 0 <= j < |g'.requests| && g'.requests[j].phase.Listening? && !IsCurrent(g', j)
        ensures g'.requests[j].asked
      {
        assert IsTold(g, j);
      }
    }
  }

  // ---------- completing ----------

  lemma OneOutstandingLess(requests: seq<Request>, i: nat, channel: nat)
    requires i < |requests| && requests[i].phase.Settled?
    ensures var after := requests[i := requests[i].(phase := Over)];
      && Outstanding(after, channel) == Outstanding(requests, channel) - {i}
      && Listeners(after, channel) == Listeners(requests, channel)
    ensures i in Outstanding(requests, channel) <==> requests[i].channel == channel
  {
  }

  lemma CompletedIsWellFormed(g: Registry, i: nat)
    requires WellFormed(g) && i < |g.requests| && g.requests[i].phase.Settled?
    ensures WellFormed(Completed(g, i))
  {
    var g' := Completed(g, i);
    assert forall s :: s in g'.runs ==> s in g.runs && g'.runs[s].channel == g.runs[s].channel;
    forall c | 0 <= c < |g'.channels| ensures g'.channels[c].receivers == |Listeners(g'.requests, c)| {
      OneOutstandingLess(g.requests, i, c);
    }
    forall j | 0 <= j < |g'.requests| && g'.requests[j].phase.Listening? && IsCurrent(g', j)
      ensures IsCurrent(g, j) && g'.requests[j] == g.requests[j]
    {
    }
  }

  /** A completion goes on telling exactly the asked if and only if it removes no run from under a
      request that listens and was not asked. */
  lemma CompletionTellsIff(g: Registry, i: nat)
    requires WellFormed(g) && TellsTheAsked(g) && i < |g.requests| && g.requests[i].phase.Settled?
    ensures WellFormed(Completed(g, i))
    ensures TellsTheAsked(Completed(g, i)) <==> !StopsTheUnasked(g, i)
  {
    CompletedIsWellFormed(g, i);
    var g', s := Completed(g, i), g.requests[i].scope;
    if StopsTheUnasked(g, i) {
      var j :| j in Listeners(g.requests, g.runs[s].channel);
      assert IsCurrent(g, j) && g'.requests[j] == g.requests[j] && !IsCurrent(g', j);
      assert IsTold(g', j) && !g'.requests[j].asked;
    } else {
      forall j | 0 <= j < |g'.requests| && g'.requests[j].phase.Listening? && !IsCurrent(g', j)
        ensures g'.requests[j].asked
      {
        if IsCurrent(g, j) {
          ListenerCounts(g, j);
        } else {
          assert IsTold(g, j);
        }
      }
    }
  }

  lemma RightCompletionCounts(g: Registry, i: nat)
    requires WellFormed(g) && Exact(g) && i < |g.requests| && g.requests[i].phase.Settled?
    requires MayComplete(g, i)
    ensures CountsRight(Completed(g, i))
  {
    var g' := Completed(g, i);
    forall s | s in g'.runs ensures g'.runs[s].active == |Outstanding(g'.requests, g'.runs[s].channel)| {
      OneOutstandingLess(g.requests, i, g.runs[s].channel);
      assert g'.runs[s].channel == g.runs[s].channel;
    }
  }

  /** When a run's count of one is used up by its own request, nobody else listens to it. */
  lemma LastOfItsRun(g: Registry, i: nat)
    requires WellFormed(g) && CountsRight(g) && i < |g.requests| && g.requests[i].phase.Settled?
    requires IsCurrent(g, i) && g.runs[g.requests[i].scope].active <= 1
    ensures g.channels[g.requests[i].channel].receivers == 0
  {
    var c := g.requests[i].channel;
    var own, listeners := Outstanding(g.requests, c), Listeners(g.requests, c);
    assert i in own && i !in listeners && listeners <= own - {i};
    SubsetIsNoLarger(listeners, own - {i});
  }

  lemma WrongCompletionCounts(g: Registry, i: nat)
    requires WellFormed(g) && Exact(g) && i < |g.requests| && g.requests[i].phase.Settled?
    requires IsStale(g, i) && g.runs[g.requests[i].scope].active > 1
    ensures !CountsRight(Completed(g, i))
  {
    var s := g.requests[i].scope;
    OneOutstandingLess(g.requests, i, g.runs[s].channel);
    assert s in Completed(g, i).runs;
  }

  /** A completion keeps the counts right and tells exactly the asked if and only if it may complete. */
  lemma CompletionIsExact(g: Registry, i: nat)
    requires WellFormed(g) && Exact(g) && i < |g.requests| && g.requests[i].phase.Settled?
    ensures WellFormed(Completed(g, i))
    ensures Exact(Completed(g, i)) <==> MayComplete(g, i)
  {
    CompletionTellsIff(g, i);
    if MayComplete(g, i) {
      RightCompletionCounts(g, i);
      if IsCurrent(g, i) && g.runs[g.requests[i].scope].active <= 1 { LastOfItsRun(g, i); }
    } else if g.runs[g.requests[i].scope].active > 1 {
      WrongCompletionCounts(g, i);
    }
  }

  // ---------- whole runs ----------

  datatype Event =
    | Register(scope: string, key: string)
    | Cancel(scope: string, wanted: Option<string>)
    | Settle(request: nat)
    | Complete(request: nat)

  function After(g: Registry, e: Event): Registry
    requires WellFormed(g) && IsPossible(g, e)
  {
    match e
    case Register(scope, key) => Registered(g, scope, key)
    case Cancel(scope, wanted) => Cancelled(g, scope, wanted).0
    case Settle(i) => SettledAt(g, i)
    case Complete(i) => Completed(g, i)
  }

  /** Every request settles once and then completes once. */
  predicate IsPossible(g: Registry, e: Event) {
    && (e.Settle? ==> e.request < |g.requests| && g.requests[e.request].phase.Listening?)
    && (e.Complete? ==> e.request < |g.requests| && g.requests[e.request].phase.Settled?)
  }

  ghost predicate IsRun(states: seq<Registry>, events: seq<Event>) {
    && |states| == |events| + 1 && states[0] == EMPTY
    && forall k :: 0 <= k < |events| ==>
         WellFormed(states[k]) && IsPossible(states[k], events[k]) && states[k + 1] == After(states[k], events[k])
  }

  lemma AfterIsWellFormed(g: Registry, e: Event)
    requires WellFormed(g) && IsPossible(g, e)
    ensures WellFormed(After(g, e))
  {
    match e
    case Register(scope, key) => RegisteredIsWellFormed(g, scope, key);
    case Cancel(scope, wanted) => CancelledIsWellFormed(g, scope, wanted);
    case Settle(i) => SettledIsWellFormed(g, i);
    case Complete(i) => CompletedIsWellFormed(g, i);
  }

  lemma {:induction false} RunIsWellFormed(states: seq<Registry>, events: seq<Event>, k: nat)
    requires IsRun(states, events) && k < |states|
    ensures WellFormed(states[k])
  {
    if k > 0 {
      RunIsWellFormed(states, events, k - 1);
      AfterIsWellFormed(states[k - 1], events[k - 1]);
    }
  }

  /** Up to step k, no completion was one that must not be charged. */
  ghost predicate ChargedRight(states: seq<Registry>, events: seq<Event>, k: nat)
    requires IsRun(states, events) && k <= |events|
  {
    forall n :: 0 <= n < k && events[n].Complete? ==> MayComplete(states[n], events[n].request)
  }

  /** Up to step k, no completion removed a run from under a request that was not asked to stop. */
  ghost predicate StoppedRight(states: seq<Registry>, events: seq<Event>, k: nat)
    requires IsRun(states, events) && k <= |events|
  {
    forall n :: 0 <= n < k && events[n].Complete? ==> !StopsTheUnasked(states[n], events[n].request)
  }

  lemma AfterTellsIff(g: Registry, e: Event)
    requires WellFormed(g) && IsPossible(g, e) && TellsTheAsked(g)
    ensures WellFormed(After(g, e))
    ensures TellsTheAsked(After(g, e)) <==> (e.Complete? ==> !StopsTheUnasked(g, e.request))
  {
    AfterIsWellFormed(g, e);
    match e
    case Register(scope, key) => RegisteredTells(g, scope, key);
    case Cancel(scope, wanted) => CancelledIsExact(g, scope, wanted);
    case Settle(i) => SettledIsExact(g, i);
    case Complete(i) => CompletionTellsIff(g, i);
  }

  lemma AfterIsExactIff(g: Registry, e: Event)
    requires WellFormed(g) && IsPossible(g, e) && Exact(g)
    ensures WellFormed(After(g, e))
    ensures Exact(After(g, e)) <==> (e.Complete? ==> MayComplete(g, e.request))
  {
    AfterIsWellFormed(g, e);
    match e
    case Register(scope, key) => RegisteredCounts(g, scope, key); RegisteredTells(g, scope, key);
    case Cancel(scope, wanted) => CancelledIsExact(g, scope, wanted);
    case Settle(i) => SettledIsExact(g, i);
    case Complete(i) => CompletionIsExact(g, i);
  }

  /** The counts stay right, and exactly the asked are told, up to a point of a run if and only if every
      completion so far might complete. */
  lemma {:induction false} CountsAreExactIff(states: seq<Registry>, events: seq<Event>, k: nat)
    requires IsRun(states, events) && k <= |events|
    ensures (forall n :: 0 <= n <= k ==> WellFormed(states[n]) && Exact(states[n])) <==> ChargedRight(states, events, k)
  {
    RunIsWellFormed(states, events, k);
    if k > 0 {
      CountsAreExactIff(states, events, k - 1);
      if Exact(states[k - 1]) {
        AfterIsExactIff(states[k - 1], events[k - 1]);
      }
    }
  }

  /** In every run exactly the requests that were asked to stop are told to, up to a point, if and only
      if no completion so far removed a run from under a request that was not asked. */
  lemma {:induction false} TheAskedAreToldIff(states: seq<Registry>, events: seq<Event>, k: nat)
    requires IsRun(states, events) && k <= |events|
    ensures (forall n :: 0 <= n <= k ==> WellFormed(states[n]) && TellsTheAsked(states[n]))
            <==> StoppedRight(states, events, k)
  {
    RunIsWellFormed(states, events, k);
    if k > 0 {
      TheAskedAreToldIff(states, events, k - 1);
      if TellsTheAsked(states[k - 1]) {
        AfterTellsIff(states[k - 1], events[k - 1]);
      }
    }
  }

  /** A new run starts only under a key none of whose requests of that scope are outstanding. */
  predicate StartsUnused(g: Registry, e: Event) {
    e.Register? && (e.scope !in g.runs || g.runs[e.scope].key != e.key) ==>
      forall i :: 0 <= i < |g.requests| && !g.requests[i].phase.Over? ==>
        !(g.requests[i].scope == e.scope && g.requests[i].key == e.key)
  }

  ghost predicate NothingStale(g: Registry) {
    forall i :: 0 <= i < |g.requests| && !g.requests[i].phase.Over? ==> !IsStale(g, i)
  }

  lemma UnusedKeysKeepNothingStale(g: Registry, e: Event)
    requires WellFormed(g) && IsPossible(g, e) && StartsUnused(g, e) && NothingStale(g)
    ensures NothingStale(After(g, e))
  {
    var g' := After(g, e);
    forall i | 0 <= i < |g'.requests| && !g'.requests[i].phase.Over?
      ensures !IsStale(g', i)
    {
      assert i < |g.requests| ==> !g.requests[i].phase.Over? && !IsStale(g, i);
    }
  }

  /** Callers that never reuse a superseded key while its requests are outstanding always get exact
      counts, and nobody is stopped unasked. */
  lemma {:induction false} UnusedKeysAreEnough(states: seq<Registry>, events: seq<Event>, k: nat)
    requires IsRun(states, events) && k <= |events|
    requires forall n :: 0 <= n < k ==> StartsUnused(states[n], events[n])
    ensures WellFormed(states[k]) && NothingStale(states[k]) && ChargedRight(states, events, k) && Exact(states[k])
  {
    RunIsWellFormed(states, events, k);
    if k > 0 {
      UnusedKeysAreEnough(states, events, k - 1);
      UnusedKeysKeepNothingStale(states[k - 1], events[k - 1]);
      AfterIsExactIff(states[k - 1], events[k - 1]);
    }
  }

  // ---------- what exact counts are good for ----------

  /** Every request of the scope that listens is told to stop, but for those under `key`. */
  ghost predicate AllTold(g: Registry, scope: string, key: Option<string>)
    requires WellLinked(g)
  {
    forall i :: 0 <= i < |g.requests| && g.requests[i].phase.Listening? && g.requests[i].scope == scope ==>
      IsTold(g, i) || key == Some(g.requests[i].key)
  }

  /** Even without exact counts, cancelling a scope stops all that listen in it, and a new run all
      others. With exact counts a scope has a run exactly as long as one of its requests is outstanding. */
  lemma EveryoneIsReached(g: Registry, scope: string, key: string)
    requires WellFormed(g)
    ensures WellFormed(Cancelled(g, scope, None).0) && AllTold(Cancelled(g, scope, None).0, scope, None)
    ensures WellFormed(Registered(g, scope, key)) && AllTold(Registered(g, scope, key), scope, Some(key))
    ensures CountsRight(g) && scope in g.runs ==>
      exists i :: 0 <= i < |g.requests| && !g.requests[i].phase.Over? && IsCurrent(g, i) && g.requests[i].scope == scope
  {
    CancelledIsWellFormed(g, scope, None);
    CancelReachesEveryone(g, scope);
    RegisteredIsWellFormed(g, scope, key);
    if CountsRight(g) && scope in g.runs {
      var own := Outstanding(g.requests, g.runs[scope].channel);
      assert own != {};
      var i :| i in own;
    }
  }

  lemma CancelReachesEveryone(g: Registry, scope: string)
    requires WellFormed(g) && WellFormed(Cancelled(g, scope, None).0)
    ensures AllTold(Cancelled(g, scope, None).0, scope, None)
  {
    var g' := Cancelled(g, scope, None).0;
    forall i | 0 <= i < |g'.requests| && g'.requests[i].phase.Listening? && g'.requests[i].scope == scope
      ensures IsTold(g', i)
    {
      ListenerCounts(g, i);
    }
  }

  /** A cancel stops the listening requests of the scope, or of the one key, and no other one; it is answered
      with yes if the scope has a run, and of that key if one is named. */
  lemma CancelStopsExactly(g: Registry, scope: string, key: Option<string>)
    requires WellFormed(g) && TellsTheAsked(g)
    ensures var (after, reached) := Cancelled(g, scope, key);
      && WellFormed(after) && after.runs == g.runs && |after.requests| == |g.requests|
      && (reached <==> scope in g.runs && (key.None? || g.runs[scope].key == key.value))
      && forall i :: 0 <= i < |g.requests| && g.requests[i].phase.Listening? ==>
           (IsTold(after, i) <==>
              IsTold(g, i) || (g.requests[i].scope == scope && (key.None? || g.requests[i].key == key.value)))
  {
    CancelledIsWellFormed(g, scope, key);
    CancelledIsExact(g, scope, key);
    var after := Cancelled(g, scope, key).0;
    forall i | 0 <= i < |g.requests| && g.requests[i].phase.Listening?
      ensures IsTold(after, i) <==>
              IsTold(g, i) || (g.requests[i].scope == scope && (key.None? || g.requests[i].key == key.value))
    {
      assert IsTold(g, i) <==> g.requests[i].asked;
      ListenerCounts(g, i);
    }
  }

  /** A registration stops the listening requests of the scope's other keys and no other one. It joins the
      run of its key, and hears what that run has been told already; or it starts one. */
  lemma RegisterStopsExactly(g: Registry, scope: string, key: string)
    requires WellFormed(g) && TellsTheAsked(g)
    ensures var after, n := Registered(g, scope, key), |g.requests|;
      var joins := scope in g.runs && g.runs[scope].key == key;
      && WellFormed(after) && |after.requests| == n + 1
      && after.requests[n].scope == scope && after.requests[n].key == key && after.requests[n].phase.Listening?
      && scope in after.runs && after.runs[scope].key == key && IsCurrent(after, n)
      && after.runs[scope].active == (if joins then g.runs[scope].active + 1 else 1)
      && (IsTold(after, n) <==> joins && g.channels[g.runs[scope].channel].value)
      && (forall s :: s != scope ==> (s in after.runs <==> s in g.runs) && (s in g.runs ==> after.runs[s] == g.runs[s]))
      && forall i :: 0 <= i < n && g.requests[i].phase.Listening? ==>
           (IsTold(after, i) <==> IsTold(g, i) || (g.requests[i].scope == scope && g.requests[i].key != key))
  {
    RegisteredIsWellFormed(g, scope, key);
    RegisteredTells(g, scope, key);
    var after := Registered(g, scope, key);
    forall i | 0 <= i < |g.requests| && g.requests[i].phase.Listening?
      ensures IsTold(after, i) <==> IsTold(g, i) || (g.requests[i].scope == scope && g.requests[i].key != key)
    {
      assert IsTold(g, i) <==> g.requests[i].asked;
      assert IsTold(after, i) <==> after.requests[i].asked;
    }
  }

  /** A cancel that is answered with yes leaves no trace if nobody listens any more. So a request that
      joins the run right behind it is told to stop if and only if another one still listens, or the run
      was cancelled before. */
  lemma JoiningBehindACancel(g: Registry, scope: string)
    requires WellFormed(g) && scope in g.runs
    ensures var (after, answer) := Cancelled(g, scope, None);
      && answer && WellFormed(after) && WellFormed(Registered(after, scope, g.runs[scope].key))
      && var channel := g.channels[g.runs[scope].channel];
         IsTold(Registered(after, scope, g.runs[scope].key), |g.requests|)
         <==> channel.receivers > 0 || channel.value
  {
    CancelledIsWellFormed(g, scope, None);
    RegisteredIsWellFormed(Cancelled(g, scope, None).0, scope, g.runs[scope].key);
  }

  // ---------- the failing case ----------

  /** Key a is superseded by b, whose request is superseded by a again; the first request then stops. */
  const REUSED: seq<Event> :=
    [Register("sheet", "a"), Register("sheet", "b"), Register("sheet", "a"), Settle(0)]

  function First(): Registry {
    Registry(map["sheet" := Run("a", 1, 0)], [Channel(false, 1)], [Request("sheet", "a", 0, Listening, false)])
  }

  function Second(): Registry {
    Registry(
      map["sheet" := Run("b", 1, 1)],
      [Channel(true, 1), Channel(false, 1)],
      [Request("sheet", "a", 0, Listening, true), Request("sheet", "b", 1, Listening, false)])
  }

  function Third(): Registry {
    Registry(
      map["sheet" := Run("a", 1, 2)],
      [Channel(true, 1), Channel(true, 1), Channel(false, 1)],
      [Request("sheet", "a", 0, Listening, true), Request("sheet", "b", 1, Listening, true),
       Request("sheet", "a", 2, Listening, false)])
  }

  function Reused(): Registry {
    Registry(
      map["sheet" := Run("a", 1, 2)],
      [Channel(true, 0), Channel(true, 1), Channel(false, 1)],
      [Request("sheet", "a", 0, Settled, true), Request("sheet", "b", 1, Listening, true),
       Request("sheet", "a", 2, Listening, false)])
  }

  /** `e` is possible at `g` and leads to `g'`. */
  ghost predicate LeadsTo(g: Registry, e: Event, g': Registry) {
    WellFormed(g) && IsPossible(g, e) && After(g, e) == g'
  }

  lemma FirstRegisters()
    ensures LeadsTo(EMPTY, REUSED[0], First())
  {
  }

  lemma SecondRegisters()
    requires WellFormed(First())
    ensures LeadsTo(First(), REUSED[1], Second())
  {
  }

  lemma ThirdRegisters()
    requires WellFormed(Second())
    ensures LeadsTo(Second(), REUSED[2], Third())
  {
  }

  lemma FirstSettles()
    requires WellFormed(Third())
    ensures LeadsTo(Third(), REUSED[3], Reused())
  {
  }

  lemma Leads(g: Registry, e: Event, g': Registry)
    requires LeadsTo(g, e, g')
    ensures WellFormed(g')
  {
    AfterIsWellFormed(g, e);
  }

  lemma RunGoesOn(states: seq<Registry>, events: seq<Event>, e: Event, g: Registry)
    requires IsRun(states, events) && LeadsTo(states[|events|], e, g)
    ensures IsRun(states + [g], events + [e])
  {
    var longer, all := states + [g], events + [e];
    forall k | 0 <= k < |all|
      ensures WellFormed(longer[k]) && IsPossible(longer[k], all[k]) && longer[k + 1] == After(longer[k], all[k])
    {
      if k < |events| { assert longer[k] == states[k] && longer[k + 1] == states[k + 1]; }
    }
  }

  lemma TwoRegister() returns (states: seq<Registry>, events: seq<Event>)
    ensures IsRun(states, events) && events == REUSED[..2] && states[2] == Second() && WellFormed(Second())
  {
    states, events := [EMPTY], [];
    FirstRegisters();
    RunGoesOn(states, events, REUSED[0], First());
    states, events := states + [First()], events + [REUSED[0]];
    Leads(EMPTY, REUSED[0], First());
    SecondRegisters();
    RunGoesOn(states, events, REUSED[1], Second());
    states, events := states + [Second()], events + [REUSED[1]];
    Leads(First(), REUSED[1], Second());
  }

  /** Four events from the empty registry lead there. */
  lemma ReusedIsReached() returns (states: seq<Registry>, events: seq<Event>)
    ensures IsRun(states, events) && events == REUSED && states[4] == Reused() && WellFormed(Reused())
  {
    states, events := TwoRegister();
    ThirdRegisters();
    RunGoesOn(states, events, REUSED[2], Third());
    states, events := states + [Third()], events + [REUSED[2]];
    Leads(Second(), REUSED[2], Third());
    FirstSettles();
    RunGoesOn(states, events, REUSED[3], Reused());
    states, events := states + [Reused()], events + [REUSED[3]];
    Leads(Third(), REUSED[3], Reused());
  }

  lemma ReusedTells()
    requires WellFormed(Reused())
    ensures TellsTheAsked(Reused()) && StopsTheUnasked(Reused(), 0)
  {
  }

  /** The first request's completion removes the run that the third one started. That closes its
      channel, so it stops though nobody asked, and the scope has no run any more. */
  lemma ReusedKeyStopsTheUnasked() returns (states: seq<Registry>, events: seq<Event>)
    ensures IsRun(states, events) && |events| == 4 && states[4] == Reused()
    ensures WellFormed(Reused()) && TellsTheAsked(Reused()) && StopsTheUnasked(Reused(), 0)
    ensures
      var after := Completed(Reused(), 0);
      && WellFormed(after) && IsTold(after, 2) && !after.requests[2].asked
      && "sheet" !in after.runs && !Cancelled(after, "sheet", None).1
  {
    states, events := ReusedIsReached();
    ReusedTells();
    CompletedIsWellFormed(Reused(), 0);
  }

  // ---------- the registry object ----------

  class PreviewCancellationRegistry {
    var runs: map<string, Run>
    var channels: seq<Channel>
    ghost var requests: seq<Request>

    ghost function View(): Registry
      reads this
    {
      Registry(runs, channels, requests)
    }

    constructor ()
      ensures View() == EMPTY && WellFormed(View())
    {
      runs, channels, requests := map[], [], [];
    }

    /** `send(true)` on a run's channel. */
    method Send(channel: nat)
      requires channel < |channels|
      modifies `channels
      ensures channels == old(channels)[channel := Sent(old(channels)[channel])]
    {
      if channels[channel].receivers > 0 {
        channels := channels[channel := channels[channel].(value := true)];
      }
    }

    /** `subscribe` to the run of the scope. */
    method Join(scope: string, key: string) returns (channel: nat)
      requires WellFormed(View()) && scope in runs && runs[scope].key == key
      modifies this
      ensures View() == Registered(old(View()), scope, key)
      ensures |requests| == old(|requests|) + 1 && requests[old(|requests|)].channel == channel
    {
      var run := runs[scope];
      runs := runs[scope := run.(active := run.active + 1)];
      channel := run.channel;
      requests := AskedFor(requests, scope, k => k != key)
                  + [Request(scope, key, channel, Listening, channels[channel].value)];
      channels := channels[channel := channels[channel].(receivers := channels[channel].receivers + 1)];
    }

    /** Answers the channel the request listens to. */
    method Register(scope: string, key: string) returns (channel: nat)
      requires WellFormed(View())
      modifies this
      ensures WellFormed(View()) && View() == Registered(old(View()), scope, key)
      ensures |requests| == old(|requests|) + 1 && requests[old(|requests|)].channel == channel
    {
      RegisteredIsWellFormed(View(), scope, key);
      if scope in runs {
        if runs[scope].key == key {
          channel := Join(scope, key);
          return;
        }
        Send(runs[scope].channel);
      }
      channel := |channels|;
      channels := channels + [Channel(false, 1)];
      runs := runs[scope := Run(key, 1, channel)];
      requests := AskedFor(requests, scope, k => k != key) + [Request(scope, key, channel, Listening, false)];
    }

    method Cancel(scope: string, key: Option<string>) returns (reached: bool)
      requires WellFormed(View())
      modifies this
      ensures WellFormed(View()) && (View(), reached) == Cancelled(old(View()), scope, key)
    {
      CancelledIsWellFormed(View(), scope, key);
      requests := AskedFor(requests, scope, k => key.None? || key.value == k);
      if scope !in runs {
        return false;
      }
      var run := runs[scope];
      if key.Some? && key.value != run.key {
        return false;
      }
      Send(run.channel);
      reached := true;
    }

    /** The receiver of request `i` is dropped at the end of its `select!`. */
    method DropReceiver(channel: nat, ghost i: nat)
      requires WellFormed(View()) && i < |requests| && requests[i].phase.Listening? && requests[i].channel == channel
      modifies this
      ensures WellFormed(View()) && View() == SettledAt(old(View()), i)
    {
      ListenerCounts(View(), i);
      SettledIsWellFormed(View(), i);
      channels := channels[channel := channels[channel].(receivers := channels[channel].receivers - 1)];
      requests := requests[i := requests[i].(phase := Settled)];
    }

    /** `i` is the request that completes; the code is told only its scope and key. */
    method Complete(scope: string, key: string, ghost i: nat)
      requires WellFormed(View()) && i < |requests| && requests[i].phase.Settled?
      requires requests[i].scope == scope && requests[i].key == key
      modifies this
      ensures WellFormed(View()) && View() == Completed(old(View()), i)
    {
      CompletedIsWellFormed(View(), i);
      ghost var before := View();
      requests := requests[i := requests[i].(phase := Over)];
      if scope in runs && runs[scope].key == key {
        var run := runs[scope];
        if run.active <= 1 {
          runs := runs - {scope};
        } else {
          runs := runs[scope := run.(active := run.active - 1)];
        }
      }
      assert runs == WithoutOne(before.runs, scope, key);
    }
  }
}
