/** The Print snapshot store: a manifest table, and a table of bag routes that is only an index of it. */
module ManifestCache {
  import opened Options
  import opened Text

  const RETENTION_MS := 90 * 24 * 60 * 60 * 1000
  const REFRESH_MS := 24 * 60 * 60 * 1000
  const MAX_SNAPSHOTS := 1_000
  const MAX_SNAPSHOT_BYTES := 8 * 1024 * 1024
  const MAX_STORE_BYTES := 64 * 1024 * 1024

  datatype BagRoute = BagRoute(bagId: string, origin: Option<string>, destination: Option<string>, url: string)

  datatype Item = Item(bagId: Option<string>, origin: Option<string>, destination: Option<string>)

  datatype Detail = Detail(manifestId: string, bagCount: nat, date: Option<string>, sourceUrl: string)

  /** `size` is the length of the snapshot's JSON encoding. */
  datatype Snapshot = Snapshot(detail: Option<Detail>, items: seq<Item>, size: nat)

  datatype Row = Row(snapshot: Snapshot, fetchedAt: int, date: string)

  type Manifests = map<string, Row>
  type Bags = map<(string, string), BagRoute>

  datatype StoreError = MissingMetadata | IdentityOrCount | TooLarge | MissingBagId | DuplicateBagId

  /** `ORDER BY manifest_date DESC, fetched_at_unix_ms DESC` puts `b` no later than `a`. */
  predicate NotAfter(a: Row, b: Row) {
    TextLe(a.date, b.date) && (a.date == b.date ==> a.fetchedAt <= b.fetchedAt)
  }

  lemma NotAfterTotal(a: Row, b: Row)
    ensures NotAfter(a, b) || NotAfter(b, a)
  {
    TextLeTotal(a.date, b.date);
  }

  lemma NotAfterTransitive(a: Row, b: Row, c: Row)
    requires NotAfter(a, b) && NotAfter(b, c)
    ensures NotAfter(a, c)
  {
    TextLeTransitive(a.date, b.date, c.date);
    TextLeTotal(a.date, b.date);
    TextLeTotal(b.date, c.date);
  }

  // ---------- the simple reading: scan the snapshots ----------

  function RouteOf(detail: Detail, item: Item): BagRoute
    requires item.bagId.Some?
  {
    BagRoute(item.bagId.value, item.origin, item.destination, detail.sourceUrl)
  }

  predicate BagAt(items: seq<Item>, bag: string, i: int) {
    0 <= i < |items| && items[i].bagId == Some(bag)
  }

  predicate Lists(row: Row, bag: string) {
    var items := row.snapshot.items;
    exists i :: 0 <= i < |items| && BagAt(items, bag, i)
  }

  predicate Unexpired(row: Row, now: int) {
    row.fetchedAt > now - RETENTION_MS
  }

  predicate DistinctBags(items: seq<Item>) {
    && (forall i :: 0 <= i < |items| ==> items[i].bagId.Some?)
    && (forall i, j :: 0 <= i < j < |items| ==> items[i].bagId != items[j].bagId)
  }

  predicate AcceptableIdentity(id: string, snapshot: Snapshot) {
    && snapshot.detail.Some?
    && EqIgnoringCase(snapshot.detail.value.manifestId, id)
    && snapshot.detail.value.bagCount == |snapshot.items|
    && snapshot.size <= MAX_SNAPSHOT_BYTES
  }

  predicate Acceptable(id: string, snapshot: Snapshot) {
    AcceptableIdentity(id, snapshot) && DistinctBags(snapshot.items)
  }

  ghost predicate StoredRows(manifests: Manifests) {
    forall id :: id in manifests ==> Acceptable(id, manifests[id].snapshot)
  }

  /** The index holds exactly what a scan of the snapshots would find. */
  ghost predicate Indexed(manifests: Manifests, bags: Bags)
    requires StoredRows(manifests)
  {
    && (forall id, i :: id in manifests && 0 <= i < |manifests[id].snapshot.items| ==>
          var row := manifests[id].snapshot;
          (id, row.items[i].bagId.value) in bags
          && bags[(id, row.items[i].bagId.value)] == RouteOf(row.detail.value, row.items[i]))
    && (forall k :: k in bags ==> k.0 in manifests && Lists(manifests[k.0], k.1))
  }

  /** What a bag lookup has to answer, said without the index. */
  ghost predicate AnswersBag(manifests: Manifests, bag: string, now: int, answer: Option<BagRoute>)
    requires StoredRows(manifests)
  {
    match answer
    case None => forall id :: id in manifests && Unexpired(manifests[id], now) ==> !Lists(manifests[id], bag)
    case Some(route) =>
      exists id, i :: id in manifests && BagAt(manifests[id].snapshot.items, bag, i)
        && Unexpired(manifests[id], now)
        && route == RouteOf(manifests[id].snapshot.detail.value, manifests[id].snapshot.items[i])
        && forall other :: other in manifests && Unexpired(manifests[other], now) && Lists(manifests[other], bag) ==>
             NotAfter(manifests[other], manifests[id])
  }

  /** The route has the fields of the row's item. */
  predicate IsFrom(route: BagRoute, bag: string, row: Row, i: int)
    requires BagAt(row.snapshot.items, bag, i)
  {
    && row.snapshot.detail.Some?
    && route.bagId == bag
    && route.origin == row.snapshot.items[i].origin
    && route.destination == row.snapshot.items[i].destination
    && route.url == row.snapshot.detail.value.sourceUrl
  }

  /** By its date, as text, and for one date by the time it was fetched. */
  predicate IsNoNewer(a: Row, b: Row) {
    if a.date == b.date then a.fetchedAt <= b.fetchedAt else IsBefore(a.date, b.date)
  }

  /** It has not expired, and no other one that has not and lists the bag is newer. */
  predicate IsNewestListing(manifests: Manifests, bag: string, now: int, id: string)
    requires id in manifests
  {
    && manifests[id].fetchedAt > now - RETENTION_MS
    && forall other :: other in manifests && manifests[other].fetchedAt > now - RETENTION_MS
                       && Lists(manifests[other], bag) ==>
         IsNoNewer(manifests[other], manifests[id])
  }

  lemma ListedAtField(answer: BagRoute, bag: string, row: Row, i: int)
    requires BagAt(row.snapshot.items, bag, i) && row.snapshot.detail.Some?
    requires answer == RouteOf(row.snapshot.detail.value, row.snapshot.items[i])
    ensures IsFrom(answer, bag, row, i)
  {
  }

  lemma NoNewer(a: Row, b: Row)
    requires NotAfter(a, b)
    ensures IsNoNewer(a, b)
  {
    TextLeIsLexicographic(a.date, b.date);
  }

  lemma AnswerInFields(manifests: Manifests, bag: string, now: int, answer: BagRoute)
    requires StoredRows(manifests) && AnswersBag(manifests, bag, now, Some(answer))
    ensures exists id, i ::
      && id in manifests && BagAt(manifests[id].snapshot.items, bag, i)
      && IsFrom(answer, bag, manifests[id], i) && IsNewestListing(manifests, bag, now, id)
  {
    var id, i :| id in manifests && BagAt(manifests[id].snapshot.items, bag, i)
        && Unexpired(manifests[id], now)
        && answer == RouteOf(manifests[id].snapshot.detail.value, manifests[id].snapshot.items[i])
        && forall other :: other in manifests && Unexpired(manifests[other], now) && Lists(manifests[other], bag) ==>
             NotAfter(manifests[other], manifests[id]);
    ListedAtField(answer, bag, manifests[id], i);
    forall other | other in manifests && manifests[other].fetchedAt > now - RETENTION_MS
                   && Lists(manifests[other], bag)
      ensures IsNoNewer(manifests[other], manifests[id])
    {
      NoNewer(manifests[other], manifests[id]);
    }
  }

  // ---------- limits ----------

  ghost function TotalBytes(m: Manifests): nat {
    if m == map[] then 0 else
      var id :| id in m;
      m[id].snapshot.size + TotalBytes(m - {id})
  }

  lemma {:induction false} TotalBytesRemove(m: Manifests, id: string)
    requires id in m
    ensures TotalBytes(m) == m[id].snapshot.size + TotalBytes(m - {id})
    decreases |m|
  {
    var first :| first in m && TotalBytes(m) == m[first].snapshot.size + TotalBytes(m - {first});
    if first != id {
      assert |(m - {first}).Keys| == |m.Keys - {first}|;
      TotalBytesRemove(m - {first}, id);
      assert (m - {id}) - {first} == (m - {first}) - {id};
      assert |(m - {id}).Keys| == |m.Keys - {id}|;
      TotalBytesRemove(m - {id}, first);
    }
  }

  ghost predicate WithinLimits(m: Manifests) {
    |m| <= MAX_SNAPSHOTS && TotalBytes(m) <= MAX_STORE_BYTES
  }

  predicate SubTable(kept: Manifests, of: Manifests) {
    forall id :: id in kept ==> id in of && kept[id] == of[id]
  }

  /** Only the oldest rows go, and no more of them than the limits ask for. */
  ghost predicate EvictedOldest(before: Manifests, kept: Manifests) {
    && SubTable(kept, before)
    && (forall gone, id :: gone in before && gone !in kept && id in kept ==>
          before[gone].fetchedAt <= before[id].fetchedAt)
    && (kept != before ==>
          exists last :: last in before && last !in kept && !WithinLimits(kept[last := before[last]]))
  }

  /** `ON DELETE CASCADE`. */
  function Cascade(bags: Bags, gone: set<string>): Bags {
    map k | k in bags && k.0 !in gone :: bags[k]
  }

  lemma CascadeKeepsIndex(manifests: Manifests, bags: Bags, gone: set<string>)
    requires StoredRows(manifests) && Indexed(manifests, bags)
    ensures StoredRows(manifests - gone) && Indexed(manifests - gone, Cascade(bags, gone))
  {
  }

  method SumBytes(m: Manifests) returns (bytes: nat)
    ensures bytes == TotalBytes(m)
  {
    bytes := 0;
    var rest := m;
    while rest != map[]
      invariant bytes + TotalBytes(rest) == TotalBytes(m)
      decreases |rest|
    {
      var id :| id in rest;
      TotalBytesRemove(rest, id);
      bytes := bytes + rest[id].snapshot.size;
      assert |(rest - {id}).Keys| == |rest.Keys - {id}|;
      rest := rest - {id};
    }
  }

  /** `ORDER BY fetched_at_unix_ms ASC LIMIT 1`: some row with the least stamp. */
  method Oldest(m: Manifests) returns (oldest: string)
    requires m != map[]
    ensures oldest in m && forall id :: id in m ==> m[oldest].fetchedAt <= m[id].fetchedAt
  {
    oldest :| oldest in m;
    var rest := m.Keys - {oldest};
    while rest != {}
      invariant oldest in m && rest <= m.Keys
      invariant forall id :: id in m.Keys - rest ==> m[oldest].fetchedAt <= m[id].fetchedAt
      decreases |rest|
    {
      var id :| id in rest;
      if m[id].fetchedAt < m[oldest].fetchedAt {
        oldest := id;
      }
      rest := rest - {id};
    }
  }

  lemma EvictionStep(before: Manifests, m: Manifests, oldest: string)
    requires EvictedOldest(before, m) && !WithinLimits(m)
    requires oldest in m && forall id :: id in m ==> m[oldest].fetchedAt <= m[id].fetchedAt
    ensures EvictedOldest(before, m - {oldest})
  {
    var kept := m - {oldest};
    assert kept[oldest := before[oldest]] == m;
  }

  /** The eviction loop. */
  method Evict(manifests: Manifests, bags: Bags) returns (kept: Manifests, keptBags: Bags)
    requires StoredRows(manifests) && Indexed(manifests, bags)
    ensures WithinLimits(kept) && EvictedOldest(manifests, kept)
    ensures StoredRows(kept) && Indexed(kept, keptBags)
  {
    kept, keptBags := manifests, bags;
    while true
      invariant EvictedOldest(manifests, kept)
      invariant StoredRows(kept) && Indexed(kept, keptBags)
      decreases |kept|
    {
      var bytes := SumBytes(kept);
      if |kept| <= MAX_SNAPSHOTS && bytes <= MAX_STORE_BYTES {
        return;
      }
      var oldest := Oldest(kept);
      EvictionStep(manifests, kept, oldest);
      CascadeKeepsIndex(kept, keptBags, {oldest});
      assert |(kept - {oldest}).Keys| == |kept.Keys - {oldest}|;
      kept, keptBags := kept - {oldest}, Cascade(keptBags, {oldest});
    }
  }

  lemma SingleRowFits(id: string, row: Row)
    requires row.snapshot.size <= MAX_SNAPSHOT_BYTES
    ensures WithinLimits(map[id := row])
  {
    var single := map[id := row];
    TotalBytesRemove(single, id);
    assert single - {id} == map[];
  }

  /** The row just stored is never its own victim, if it is the strictly newest one. */
  lemma NewestSurvives(before: Manifests, kept: Manifests, id: string)
    requires StoredRows(before) && EvictedOldest(before, kept) && id in before
    requires forall other :: other in before && other != id ==> before[other].fetchedAt < before[id].fetchedAt
    ensures id in kept
  {
    if id !in kept {
      var last :| last in before && last !in kept && !WithinLimits(kept[last := before[last]]);
      if k :| k in kept {
        assert false;
      }
      assert kept[last := before[last]] == map[last := before[last]];
      SingleRowFits(last, before[last]);
    }
  }

  // ---------- storing ----------

  function DateOf(detail: Detail): string {
    match detail.date
    case Some(date) => date
    case None => ""
  }

  /** `table` is `bags` with the routes of the first `n` items of a snapshot. */
  ghost predicate Extended(bags: Bags, table: Bags, id: string, snapshot: Snapshot, n: int)
    requires snapshot.detail.Some? && 0 <= n <= |snapshot.items|
  {
    && (forall k :: k in bags ==> k in table && table[k] == bags[k])
    && (forall bag, i :: BagAt(snapshot.items, bag, i) && i < n ==>
          (id, bag) in table && table[(id, bag)] == RouteOf(snapshot.detail.value, snapshot.items[i]))
    && (forall k :: k in table && k !in bags ==>
          k.0 == id && exists i :: BagAt(snapshot.items, k.1, i) && i < n)
  }

  predicate IsFirstBad(items: seq<Item>, n: nat, error: StoreError) {
    && n < |items| && DistinctBags(items[..n])
    && if items[n].bagId.None? then error == MissingBagId
       else error == DuplicateBagId && exists i :: 0 <= i < n && items[i].bagId == items[n].bagId
  }

  /** The error is that of the first item without a bag, or with one that came before. */
  ghost predicate StopsAt(items: seq<Item>, error: StoreError) {
    exists n :: IsFirstBad(items, n, error)
  }

  /** Index rows for the items, in order; the first item without an id, or with a repeated one, stops it. */
  method InsertBags(id: string, snapshot: Snapshot, bags: Bags) returns (result: Result<Bags, StoreError>)
    requires snapshot.detail.Some?
    requires forall k :: k in bags ==> k.0 != id
    ensures result.Ok? <==> DistinctBags(snapshot.items)
    ensures result.Err? ==> StopsAt(snapshot.items, result.error)
    ensures result.Ok? ==> Extended(bags, result.value, id, snapshot, |snapshot.items|)
    ensures result.Ok? ==>
      forall i :: 0 <= i < |snapshot.items| ==>
        var item := snapshot.items[i];
        && item.bagId.Some? && (id, item.bagId.value) in result.value
        && var route := result.value[(id, item.bagId.value)];
           && route.bagId == item.bagId.value && route.origin == item.origin && route.destination == item.destination
           && route.url == snapshot.detail.value.sourceUrl
  {
    var items := snapshot.items;
    var table := bags;
    for n := 0 to |items|
      invariant DistinctBags(items[..n])
      invariant Extended(bags, table, id, snapshot, n)
    {
      if items[n].bagId.None? {
        assert IsFirstBad(items, n, MissingBagId);
        return Err(MissingBagId);
      }
      var bag := items[n].bagId.value;
      if (id, bag) in table {
        var i :| BagAt(items, bag, i) && i < n;
        assert IsFirstBad(items, n, DuplicateBagId);
        return Err(DuplicateBagId);
      }
      assert BagAt(items, bag, n);
      forall i | 0 <= i < n ensures items[i].bagId != items[n].bagId {
        assert items[..n][i].bagId.Some?;
        assert BagAt(items, items[i].bagId.value, i);
      }
      table := table[(id, bag) := RouteOf(snapshot.detail.value, items[n])];
    }
    assert items[..|items|] == items;
    result := Ok(table);
  }

  /** Replacing a manifest's row and its index rows keeps the index exact. */
  lemma ReplacementKeepsIndex(manifests: Manifests, bags: Bags, id: string, row: Row, table: Bags)
    requires StoredRows(manifests) && Indexed(manifests, bags) && Acceptable(id, row.snapshot)
    requires Extended(Cascade(bags, {id}), table, id, row.snapshot, |row.snapshot.items|)
    ensures StoredRows(manifests[id := row]) && Indexed(manifests[id := row], table)
  {
    var manifests' := manifests[id := row];
    forall other, i | other in manifests' && 0 <= i < |manifests'[other].snapshot.items|
      ensures var s := manifests'[other].snapshot; var k := (other, s.items[i].bagId.value);
        k in table && table[k] == RouteOf(s.detail.value, s.items[i])
    {
      var s := manifests'[other].snapshot;
      var bag := s.items[i].bagId.value;
      assert BagAt(s.items, bag, i);
      if other != id {
        assert (other, bag) in Cascade(bags, {id});
      }
    }
    forall k | k in table ensures k.0 in manifests' && Lists(manifests'[k.0], k.1) {
      if k in Cascade(bags, {id}) {
        assert k in bags;
      }
    }
  }

  function Live(manifests: Manifests, now: int): Manifests {
    map id | id in manifests && Unexpired(manifests[id], now) :: manifests[id]
  }

  /** The whole effect of an accepted store: the row is upserted, expired rows go, then the oldest. */
  ghost predicate Stored(before: Manifests, id: string, row: Row, now: int, after: Manifests) {
    && EvictedOldest(Live(before[id := row], now), after)
    && WithinLimits(after)
  }

  lemma StoredNewestIsKept(before: Manifests, id: string, row: Row, now: int, after: Manifests)
    requires StoredRows(before) && Acceptable(id, row.snapshot) && Stored(before, id, row, now, after)
    requires Unexpired(row, now)
    requires forall k :: k in before && k != id ==> before[k].fetchedAt < row.fetchedAt
    ensures id in after && after[id] == row
  {
    NewestSurvives(Live(before[id := row], now), after, id);
  }

  lemma HitAnswers(manifests: Manifests, bags: Bags, bag: string, now: int, id: string)
    requires StoredRows(manifests) && Indexed(manifests, bags)
    requires id in manifests && Unexpired(manifests[id], now) && Lists(manifests[id], bag) && (id, bag) in bags
    requires forall other :: other in manifests && Unexpired(manifests[other], now) && Lists(manifests[other], bag) ==>
      NotAfter(manifests[other], manifests[id])
    ensures AnswersBag(manifests, bag, now, Some(bags[(id, bag)]))
  {
    var items := manifests[id].snapshot.items;
    var i :| 0 <= i < |items| && BagAt(items, bag, i);
    assert bags[(id, items[i].bagId.value)] == RouteOf(manifests[id].snapshot.detail.value, items[i]);
  }

  lemma HitsAreListings(manifests: Manifests, bags: Bags, bag: string, now: int, hits: set<string>)
    requires StoredRows(manifests) && Indexed(manifests, bags)
    requires hits == set k | k in bags && k.1 == bag && Unexpired(manifests[k.0], now) :: k.0
    ensures forall id :: id in hits <==> id in manifests && Unexpired(manifests[id], now) && Lists(manifests[id], bag)
    ensures forall id :: id in hits ==> (id, bag) in bags
  {
    forall id | id in manifests && Unexpired(manifests[id], now) && Lists(manifests[id], bag) ensures id in hits {
      var items := manifests[id].snapshot.items;
      var i :| 0 <= i < |items| && BagAt(items, bag, i);
      assert (id, items[i].bagId.value) in bags;
    }
  }

  class BagRouteCacheState {
    var manifests: Manifests
    var bags: Bags

    ghost predicate Valid()
      reads this
    {
      StoredRows(manifests) && Indexed(manifests, bags)
    }

    constructor ()
      ensures Valid() && manifests == map[] && bags == map[]
    {
      manifests, bags := map[], map[];
    }

    /** `stamp` and `now` are the two clock readings of one call. Everything happens in a transaction:
        a snapshot that is not acceptable changes nothing. */
    method StoreManifest(id: string, snapshot: Snapshot, stamp: int, now: int)
      returns (result: Result<(), StoreError>)
      requires Valid()
      modifies this
      ensures Valid()
      ensures result.Ok? <==> Acceptable(id, snapshot)
      ensures result.Ok? <==>
        && snapshot.detail.Some? && Upper(snapshot.detail.value.manifestId) == Upper(id)
        && snapshot.detail.value.bagCount == |snapshot.items| && snapshot.size <= MAX_SNAPSHOT_BYTES
        && (forall i :: 0 <= i < |snapshot.items| ==> snapshot.items[i].bagId.Some?)
        && (forall i, j :: 0 <= i < j < |snapshot.items| ==> snapshot.items[i].bagId != snapshot.items[j].bagId)
      ensures result.Err? ==> manifests == old(manifests) && bags == old(bags)
      ensures result.Ok? ==>
        var date := snapshot.detail.value.date;
        Stored(old(manifests), id, Row(snapshot, stamp, if date.Some? then date.value else ""), now, manifests)
    {
      if snapshot.detail.None? {
        return Err(MissingMetadata);
      }
      var detail := snapshot.detail.value;
      if !EqIgnoringCase(detail.manifestId, id) || detail.bagCount != |snapshot.items| {
        return Err(IdentityOrCount);
      }
      if snapshot.size > MAX_SNAPSHOT_BYTES {
        return Err(TooLarge);
      }
      var row := Row(snapshot, stamp, DateOf(detail));
      var upserted := manifests[id := row];
      var inserted := InsertBags(id, snapshot, Cascade(bags, {id}));
      if inserted.Err? {
        return Err(inserted.error);
      }
      ReplacementKeepsIndex(manifests, bags, id, row, inserted.value);
      var expired := set k | k in upserted && upserted[k].fetchedAt <= now - RETENTION_MS;
      CascadeKeepsIndex(upserted, inserted.value, expired);
      var live := upserted - expired;
      assert live == Live(upserted, now);
      var kept, keptBags := Evict(live, Cascade(inserted.value, expired));
      manifests, bags := kept, keptBags;
      result := Ok(());
    }

    /** Expired rows are never returned, whether or not they have been deleted yet. */
    method GetManifest(id: string, now: int, later: int) returns (found: Option<(Snapshot, bool)>)
      requires Valid()
      ensures found.Some? <==> id in manifests && Unexpired(manifests[id], now)
      ensures found.Some? ==>
        && found.value.0 == manifests[id].snapshot
        && (found.value.1 <==> later - manifests[id].fetchedAt >= REFRESH_MS)
    {
      if id !in manifests || !(manifests[id].fetchedAt > now - RETENTION_MS) {
        return None;
      }
      var row := manifests[id];
      if row.snapshot.detail.None? || !EqIgnoringCase(row.snapshot.detail.value.manifestId, id) {
        return None;
      }
      found := Some((row.snapshot, later - row.fetchedAt >= REFRESH_MS));
    }

    /** The join of the index with the manifests, newest manifest first: the same answer as a scan. */
    method GetBagRoute(bag: string, now: int) returns (route: Option<BagRoute>)
      requires Valid()
      ensures AnswersBag(manifests, bag, now, route)
      ensures route.None? <==>
        forall id :: id in manifests && manifests[id].fetchedAt > now - RETENTION_MS ==> !Lists(manifests[id], bag)
      ensures route.Some? ==>
        exists id, i ::
          && id in manifests && BagAt(manifests[id].snapshot.items, bag, i)
          && IsFrom(route.value, bag, manifests[id], i) && IsNewestListing(manifests, bag, now, id)
    {
      var hits := set k | k in bags && k.1 == bag && manifests[k.0].fetchedAt > now - RETENTION_MS :: k.0;
      var best: Option<string> := None;
      var rest := hits;
      while rest != {}
        invariant rest <= hits
        invariant best.None? ==> rest == hits
        invariant best.Some? ==> best.value in hits
        invariant best.Some? ==> forall id :: id in hits - rest ==> NotAfter(manifests[id], manifests[best.value])
        decreases |rest|
      {
        var id :| id in rest;
        if best.None? {
          NotAfterTotal(manifests[id], manifests[id]);
          best := Some(id);
        } else if !NotAfter(manifests[id], manifests[best.value]) {
          NotAfterTotal(manifests[id], manifests[best.value]);
          NotAfterTotal(manifests[id], manifests[id]);
          forall other | other in hits - rest ensures NotAfter(manifests[other], manifests[id]) {
            NotAfterTransitive(manifests[other], manifests[best.value], manifests[id]);
          }
          best := Some(id);
        }
        rest := rest - {id};
      }
      HitsAreListings(manifests, bags, bag, now, hits);
      if best.None? {
        return None;
      }
      route := Some(bags[(best.value, bag)]);
      HitAnswers(manifests, bags, bag, now, best.value);
      AnswerInFields(manifests, bag, now, route.value);
    }
  }
}
