/** The bag label cache: lazy expiry on reads, eager pruning on writes, and merging stores. */
module BagRouteCache {
  import opened LruPrune
  import opened Options
  import opened Text

  const RETRY_TTL_MS := 5 * 60 * 1000
  const LAST_USED_INTERVAL_MS := 60 * 60 * 1000

  datatype Route = Route(origin: Option<string>, destination: Option<string>, url: string)

  datatype Status = Complete | Partial | Missing | Failed

  datatype Row = Row(route: Option<Route>, status: Status, fetchedAt: nat, lastUsedAt: nat)

  datatype Entry = Entry(route: Option<Route>, status: Status, fetchedAt: nat)

  // ---------- routes ----------

  predicate IsPlaceholder(s: string) {
    Lower(Trim(s)) in ["", "-", "null", "undefined"]
  }

  function Office(value: Option<string>): Option<string> {
    if value.Some? && IsPlaceholder(value.value) then None else value
  }

  function Normalize(route: Route): Route {
    Route(Office(route.origin), Office(route.destination), route.url)
  }

  predicate IsComplete(route: Option<Route>) {
    route.Some? && route.value.origin.Some? && route.value.destination.Some?
  }

  predicate KnowsNothing(route: Option<Route>) {
    route.None? || (route.value.origin.None? && route.value.destination.None?)
  }

  function RouteStatus(route: Option<Route>): (status: Status)
    ensures status == Complete <==> IsComplete(route)
    ensures status == Missing <==> KnowsNothing(route)
    ensures status == Complete || status == Partial || status == Missing
  {
    match route
    case Some(r) =>
      if r.origin.Some? && r.destination.Some? then Complete
      else if r.origin.Some? || r.destination.Some? then Partial
      else Missing
    case None => Missing
  }

  // ---------- one row ----------

  predicate Retries(status: Status) {
    status == Missing || status == Failed
  }

  /** `get` treats the row as absent, and deletes it. */
  predicate ReadsAsExpired(row: Row, now: nat) {
    Retries(row.status) && Saturating(now, row.fetchedAt) >= RETRY_TTL_MS
  }

  /** `prune_connection` deletes the row. */
  predicate IsPruned(row: Row, now: nat) {
    Retries(row.status) && row.fetchedAt <= Saturating(now, RETRY_TTL_MS)
  }

  function RetryDue(entry: Entry, now: nat): bool {
    entry.status != Complete && Saturating(now, entry.fetchedAt) >= RETRY_TTL_MS
  }

  function Read(row: Option<Row>, now: nat): Option<Entry> {
    if row.None? || ReadsAsExpired(row.value, now) then None
    else
      var route := if row.value.route.Some? then Some(Normalize(row.value.route.value)) else None;
      var status := if row.value.status == Complete then RouteStatus(route) else row.value.status;
      Some(Entry(route, status, row.value.fetchedAt))
  }

  /** The row after a read: gone if expired, its use noted at most once an hour. */
  function AfterRead(row: Option<Row>, now: nat): Option<Row> {
    if row.None? || ReadsAsExpired(row.value, now) then None
    else if Saturating(now, row.value.lastUsedAt) >= LAST_USED_INTERVAL_MS then Some(row.value.(lastUsedAt := now))
    else row
  }

  /** What a store keeps: fresh parts win, missing parts come from the previous row. A failure keeps
      the previous route whole. */
  function Merge(previous: Option<Row>, route: Option<Route>, status: Status, now: nat): Row {
    if previous.None? || previous.value.route.None? then Row(route, status, now, now)
    else
      var old' := Normalize(previous.value.route.value);
      match route
      case Some(r) =>
        var merged := r.(origin := Or(r.origin, old'.origin), destination := Or(r.destination, old'.destination));
        Row(Some(merged), RouteStatus(Some(merged)), now, now)
      case None => Row(Some(old'), Partial, now, now)
  }

  /** A fetched route as `store_async` hands it over, or a failure as `store_failure_async` does. */
  function Outcome(fetched: Option<Route>): (Option<Route>, Status) {
    match fetched
    case Some(route) => (Some(Normalize(route)), RouteStatus(Some(Normalize(route))))
    case None => (None, Failed)
  }

  function Recorded(previous: Option<Row>, fetched: Option<Route>, now: nat): Row {
    Merge(previous, Outcome(fetched).0, Outcome(fetched).1, now)
  }

  // ---------- what rows keep ----------

  predicate IsNormal(route: Option<Route>) {
    route.Some? ==> Normalize(route.value) == route.value
  }

  /** An office is kept unless, without blanks around it and in any case, it is only a placeholder. */
  lemma NormalizeDropsPlaceholders(route: Route)
    ensures Normalize(route).url == route.url
    ensures Normalize(route).origin == Office(route.origin) && Normalize(route).destination == Office(route.destination)
    ensures forall office: string :: Office(Some(office)) == if SaysNothing(Trim(office)) then None else Some(office)
  {
    forall office: string ensures IsPlaceholder(office) <==> SaysNothing(Trim(office)) {
      PlaceholderIff(Trim(office));
    }
  }

  predicate SaysNothing(s: string) {
    s == "" || s == "-" || EqIgnoringCase(s, "NULL") || EqIgnoringCase(s, "UNDEFINED")
  }

  lemma PlaceholderIff(s: string)
    ensures Lower(s) in ["", "-", "null", "undefined"] <==> SaysNothing(s)
  {
    LowerIff(s, "", "");
    LowerIff(s, "-", "-");
    LowerIff(s, "null", "NULL");
    LowerIff(s, "undefined", "UNDEFINED");
    assert Lower(s) == "-" ==> |s| == 1 && s[0] == '-' && s == "-";
  }

  lemma LowerIff(s: string, lower: string, upper: string)
    requires Lower(lower) == lower && Upper(lower) == upper == Upper(upper)
    ensures Lower(s) == lower <==> EqIgnoringCase(s, upper)
  {
    if |s| == |lower| {
      forall i | 0 <= i < |s| ensures Lower(s)[i] == lower[i] <==> Upper(s)[i] == upper[i] {
        CaseOfLetters(s, i);
        CaseOfLetters(lower, i);
      }
    }
  }

  /** Every row in the table came from a store. */
  predicate RowSound(row: Row) {
    && IsNormal(row.route)
    && (row.status == Complete ==> IsComplete(row.route))
    && (row.status == Missing ==> KnowsNothing(row.route) && row.route.Some?)
    && (row.status == Failed ==> row.route.None?)
    && (row.status == Partial ==> row.route.Some?)
  }

  lemma RecordedIsSound(previous: Option<Row>, fetched: Option<Route>, now: nat)
    requires previous.Some? ==> RowSound(previous.value)
    ensures RowSound(Recorded(previous, fetched, now))
    ensures Recorded(previous, fetched, now).fetchedAt == now
  {
  }

  /** A stored route's status is the one it justifies, with one exception: a failure that keeps a stored
      route calls it partial. So a row is partial though it knows nothing if and only if a failure found
      a stored route that knows nothing, and partial though it is complete if and only if a failure found
      a complete one. */
  lemma StatusOfRecorded(previous: Option<Row>, fetched: Option<Route>, now: nat)
    requires previous.Some? ==> RowSound(previous.value)
    ensures var row := Recorded(previous, fetched, now);
      var failedOver := fetched.None? && previous.Some? && previous.value.route.Some?;
      && (fetched.Some? ==> row.status == RouteStatus(row.route))
      && (row.status == Failed <==> fetched.None? && !failedOver)
      && (row.status == Partial && KnowsNothing(row.route) <==> failedOver && KnowsNothing(previous.value.route))
      && (row.status == Partial && IsComplete(row.route) <==> failedOver && IsComplete(previous.value.route))
  {
  }

  /** A read tells the row's own time, and notes its use if that was not done within the hour; a stored row
      is used when it is stored. */
  lemma TimesOfRow(row: Row, fetched: Option<Route>, now: nat, later: nat)
    requires RowSound(row)
    ensures Read(Some(row), now).Some? ==> Read(Some(row), now).value.fetchedAt == row.fetchedAt
    ensures Recorded(Some(row), fetched, later).lastUsedAt == Recorded(Some(row), fetched, later).fetchedAt == later
    ensures Read(Some(row), now).Some? <==> AfterRead(Some(row), now).Some?
    ensures Read(Some(row), now).Some? ==>
      AfterRead(Some(row), now)
      == Some(row.(lastUsedAt := if row.lastUsedAt + LAST_USED_INTERVAL_MS <= now then now else row.lastUsedAt))
    ensures Read(Some(row), now).None? <==>
      (row.status == Missing || row.status == Failed) && row.fetchedAt + RETRY_TTL_MS <= now
  {
  }

  function Known(row: Option<Row>): (Option<string>, Option<string>) {
    if row.Some? && row.value.route.Some? then (row.value.route.value.origin, row.value.route.value.destination)
    else (None, None)
  }

  /** Merging never loses knowledge, and never invents any: each part is the fresh one if there is a
      fresh one, and otherwise exactly the one known before. */
  lemma MergeKeepsKnowledge(previous: Option<Row>, fetched: Option<Route>, now: nat)
    requires previous.Some? ==> RowSound(previous.value)
    ensures var newer := if fetched.Some? then Normalize(fetched.value) else Route(None, None, "");
      Known(Some(Recorded(previous, fetched, now)))
      == (Or(newer.origin, Known(previous).0), Or(newer.destination, Known(previous).1))
  {
  }

  /** A read returns what the row knows, and calls it complete only if it is. */
  lemma ReadsAreHonest(row: Row, now: nat)
    requires RowSound(row)
    ensures Read(Some(row), now).None? <==> ReadsAsExpired(row, now)
    ensures Read(Some(row), now).Some? ==>
      && Read(Some(row), now).value.route == row.route && Read(Some(row), now).value.status == row.status
      && (Read(Some(row), now).value.status == Complete ==> IsComplete(row.route))
    ensures ReadsAsExpired(row, now) ==> KnowsNothing(row.route)
  {
  }

  /** Lazy expiry and eager pruning agree exactly when the clock is past the retry window or the row
      does not carry the epoch itself as its stamp. */
  lemma PruningAgreesWithReading(row: Row, now: nat)
    ensures (IsPruned(row, now) == ReadsAsExpired(row, now))
        <==> (!Retries(row.status) || now >= RETRY_TTL_MS || row.fetchedAt > 0)
  {
  }

  /** Deleting an expired row changes a later store in one case only: a failure that finds a row with
      an empty route keeps that route and calls it partial, instead of recording a failure. Nothing
      known is affected. */
  lemma PruningAndStoring(row: Row, fetched: Option<Route>, now: nat, later: nat)
    requires RowSound(row) && ReadsAsExpired(row, now)
    ensures Recorded(Some(row), fetched, later) == Recorded(None, fetched, later)
        <==> !(fetched.None? && row.route.Some?)
    ensures Known(Some(Recorded(Some(row), fetched, later))) == Known(Some(Recorded(None, fetched, later)))
  {
    MergeKeepsKnowledge(Some(row), fetched, later);
    MergeKeepsKnowledge(None, fetched, later);
  }

  // ---------- select_bag_route ----------

  /** The label's own route unless only the manifest has a complete one. */
  function Select(ownLabel: Option<Route>, manifest: Option<Route>): (route: Option<Route>)
    ensures IsComplete(route) <==> IsComplete(ownLabel) || IsComplete(manifest)
    ensures route == ownLabel || route == manifest
    ensures ownLabel.Some? && (IsComplete(ownLabel) || !IsComplete(manifest)) ==> route == ownLabel
    ensures route.None? <==> ownLabel.None? && manifest.None?
  {
    if IsComplete(ownLabel) then ownLabel
    else if IsComplete(manifest) then manifest
    else Or(ownLabel, manifest)
  }

  // ---------- the table ----------

  type Table = map<string, Row>

  function RowIn(table: Table, bag: string): Option<Row> {
    if bag in table then Some(table[bag]) else None
  }

  function UsedAt(row: Row): nat {
    row.lastUsedAt
  }

  function WithoutExpired(table: Table, now: nat): Table {
    map k | k in table && !IsPruned(table[k], now) :: table[k]
  }

  // ---------- runs of the table ----------

  function AfterGet(table: Table, bag: string, now: nat): Table {
    var row := AfterRead(RowIn(table, bag), now);
    if bag !in table then table else if row.None? then table - {bag} else table[bag := row.value]
  }

  datatype Call = Look(bag: string, now: nat) | Keep(bag: string, fetched: Option<Route>, now: nat)

  function StoredIn(table: Table, bag: string, fetched: Option<Route>, now: nat): Table {
    WithoutExpired(table[bag := Recorded(RowIn(table, bag), fetched, now)], now)
  }

  ghost predicate TableStep(before: Table, call: Call, after: Table) {
    match call
    case Look(bag, now) => after == AfterGet(before, bag, now)
    case Keep(bag, fetched, now) => LeastRecentlyUsedGone(StoredIn(before, bag, fetched, now), UsedAt, after)
  }

  predicate IsLasting(row: Row, now: nat) {
    row.status == Complete || row.status == Partial || (row.fetchedAt > 0 && now < row.fetchedAt + RETRY_TTL_MS)
  }

  /** What a store leaves: rows that say something or are within the retry window, and not too many. As long as
      there is room, every other such row stays as it was, beside the one stored. */
  lemma StoreKeepsTheLasting(before: Table, bag: string, fetched: Option<Route>, now: nat, after: Table)
    requires TableStep(before, Keep(bag, fetched, now), after)
    ensures |after| <= MAX_ENTRIES && forall other :: other in after ==> IsLasting(after[other], now)
    ensures |after| < MAX_ENTRIES && now > 0 ==>
      bag in after && after[bag] == Recorded(RowIn(before, bag), fetched, now)
    ensures |after| < MAX_ENTRIES ==> forall other :: other in before && other != bag ==>
      (other in after <==> IsLasting(before[other], now)) && (other in after ==> after[other] == before[other])
  {
  }

  ghost predicate IsStepOf(tables: seq<Table>, calls: seq<Call>, n: nat)
    requires n < |calls| < |tables|
  {
    TableStep(tables[n], calls[n], tables[n + 1])
  }

  /** The call removes the bag's row for want of room, though it has not expired. */
  predicate Evicts(before: Table, call: Call, after: Table, bag: string) {
    call.Keep? && bag in StoredIn(before, call.bag, call.fetched, call.now) && bag !in after
  }

  /** Rows are only evicted when there are too many, and only those that were not used later than any that
      stay. */
  lemma EvictsTheLeastUsed(before: Table, call: Call, after: Table, bag: string)
    requires TableStep(before, call, after) && Evicts(before, call, after, bag)
    ensures var stored := StoredIn(before, call.bag, call.fetched, call.now);
      && |stored| > MAX_ENTRIES == |after|
      && forall kept :: kept in after ==> stored[bag].lastUsedAt <= stored[kept].lastUsedAt
  {
    var stored := StoredIn(before, call.bag, call.fetched, call.now);
    forall kept | kept in after ensures stored[bag].lastUsedAt <= stored[kept].lastUsedAt {
      assert UsedAt(stored[bag]) <= UsedAt(stored[kept]);
    }
  }

  /** A run from the empty table, at any times. */
  ghost predicate IsRun(tables: seq<Table>, calls: seq<Call>) {
    && |tables| == |calls| + 1 && tables[0] == map[]
    && forall n :: 0 <= n < |calls| ==> IsStepOf(tables, calls, n)
  }

  /** The last origin and the last destination that any of the first n calls fetched for the bag, since its
      row was last evicted. */
  function LastFetched(tables: seq<Table>, calls: seq<Call>, n: nat, bag: string): (Option<string>, Option<string>)
    requires n <= |calls| < |tables|
  {
    if n == 0 || Evicts(tables[n - 1], calls[n - 1], tables[n], bag) then (None, None) else
      var before, call := LastFetched(tables, calls, n - 1, bag), calls[n - 1];
      if call.Keep? && call.bag == bag && call.fetched.Some? then
        var newer := Normalize(call.fetched.value);
        (Or(newer.origin, before.0), Or(newer.destination, before.1))
      else before
  }

  ghost predicate AllSound(table: Table) {
    forall k :: k in table ==> RowSound(table[k])
  }

  lemma StepKeepsSound(before: Table, call: Call, after: Table)
    requires AllSound(before) && TableStep(before, call, after)
    ensures AllSound(after)
  {
    if call.Keep? {
      RecordedIsSound(RowIn(before, call.bag), call.fetched, call.now);
    }
  }

  lemma StepKeepsKnown(before: Table, call: Call, after: Table, bag: string)
    requires AllSound(before) && TableStep(before, call, after) && !Evicts(before, call, after, bag)
    ensures Known(RowIn(after, bag)) ==
            if call.Keep? && call.bag == bag then Known(Some(Recorded(RowIn(before, bag), call.fetched, call.now)))
            else Known(RowIn(before, bag))
  {
    if call.Keep? {
      assert RowIn(after, bag) == RowIn(StoredIn(before, call.bag, call.fetched, call.now), bag);
      RecordedIsSound(RowIn(before, call.bag), call.fetched, call.now);
    }
  }

  /** In every run of the table, whatever is read, pruned, failed or stored for other bags: exactly the last
      origin and the last destination that were fetched for a bag since its row was last evicted are known. */
  lemma {:induction false} KnownIsLastFetched(tables: seq<Table>, calls: seq<Call>, n: nat, bag: string)
    requires IsRun(tables, calls) && n < |tables|
    ensures AllSound(tables[n]) && Known(RowIn(tables[n], bag)) == LastFetched(tables, calls, n, bag)
  {
    if n > 0 {
      KnownIsLastFetched(tables, calls, n - 1, bag);
      assert IsStepOf(tables, calls, n - 1);
      var before, call := tables[n - 1], calls[n - 1];
      StepKeepsSound(before, call, tables[n]);
      if !Evicts(before, call, tables[n], bag) {
        StepKeepsKnown(before, call, tables[n], bag);
        if call.Keep? && call.bag == bag {
          MergeKeepsKnowledge(RowIn(before, bag), call.fetched, call.now);
        }
      }
    }
  }

  // ---------- the program ----------

  class BagRouteTable {
    var rows: Table

    predicate Valid()
      reads this
    {
      forall k :: k in rows ==> RowSound(rows[k])
    }

    constructor ()
      ensures Valid() && rows == map[]
    {
      rows := map[];
    }

    method Get(bag: string, now: nat) returns (entry: Option<Entry>)
      requires Valid()
      modifies this
      ensures Valid()
      ensures entry == Read(RowIn(old(rows), bag), now)
      ensures rows == AfterGet(old(rows), bag, now)
      ensures entry.None? ==> rows == old(rows) - {bag}
      ensures entry.Some? ==>
        && bag in old(rows)
        && var row := old(rows)[bag];
           rows == old(rows)[bag := row.(lastUsedAt :=
             if row.lastUsedAt + LAST_USED_INTERVAL_MS <= now then now else row.lastUsedAt)]
    {
      if bag !in rows {
        return None;
      }
      var row := rows[bag];
      if (row.status == Missing || row.status == Failed) && Saturating(now, row.fetchedAt) >= RETRY_TTL_MS {
        rows := rows - {bag};
        return None;
      }
      var route := if row.route.Some? then Some(Normalize(row.route.value)) else None;
      if Saturating(now, row.lastUsedAt) >= LAST_USED_INTERVAL_MS {
        rows := rows[bag := row.(lastUsedAt := now)];
      }
      entry := Some(Entry(route, if row.status == Complete then RouteStatus(route) else row.status, row.fetchedAt));
    }

    /** One call of `store_async` (a fetched route) or `store_failure_async` (none). */
    method Store(bag: string, fetched: Option<Route>, now: nat) returns (entry: Entry)
      requires Valid()
      modifies this
      ensures Valid()
      ensures var row := Recorded(RowIn(old(rows), bag), fetched, now);
        entry == Entry(row.route, row.status, now)
      ensures TableStep(old(rows), Keep(bag, fetched, now), rows)
    {
      var route := if fetched.Some? then Some(Normalize(fetched.value)) else None;
      var status := if fetched.Some? then RouteStatus(route) else Failed;
      if bag in rows && rows[bag].route.Some? {
        var previous := Normalize(rows[bag].route.value);
        if route.Some? {
          if route.value.origin.None? {
            route := Some(route.value.(origin := previous.origin));
          }
          if route.value.destination.None? {
            route := Some(route.value.(destination := previous.destination));
          }
          status := RouteStatus(route);
        } else {
          route, status := Some(previous), Partial;
        }
      }
      RecordedIsSound(RowIn(rows, bag), fetched, now);
      var row := Row(route, status, now, now);
      assert row == Recorded(RowIn(rows, bag), fetched, now);
      var upserted := rows[bag := row];
      rows := PruneCapacity(map k | k in upserted && !IsPruned(upserted[k], now) :: upserted[k], UsedAt);
      entry := Entry(route, status, now);
    }
  }
}
