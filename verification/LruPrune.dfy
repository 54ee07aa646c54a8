/** Capacity pruning shared by the contact and bag label tables: rows go in the order of last use. */
module LruPrune {
  const MAX_ENTRIES := 20_000

  /** The age of a row on an unsigned clock. */
  function Saturating(a: nat, b: nat): nat {
    if a >= b then a - b else 0
  }

  ghost predicate LeastRecentlyUsedGone<R(!new)>(before: map<string, R>, usedAt: R -> nat, after: map<string, R>) {
    && (forall k :: k in after ==> k in before && after[k] == before[k])
    && (|before| <= MAX_ENTRIES ==> after == before)
    && (|before| > MAX_ENTRIES ==> |after| == MAX_ENTRIES)
    && (forall gone, kept :: gone in before && gone !in after && kept in after ==>
          usedAt(before[gone]) <= usedAt(before[kept]))
  }

  method LeastRecentlyUsed<R(!new)>(table: map<string, R>, usedAt: R -> nat) returns (oldest: string)
    requires table != map[]
    ensures oldest in table && forall k :: k in table ==> usedAt(table[oldest]) <= usedAt(table[k])
  {
    oldest :| oldest in table;
    var rest := table.Keys - {oldest};
    while rest != {}
      invariant oldest in table && rest <= table.Keys
      invariant forall k :: k in table.Keys - rest ==> usedAt(table[oldest]) <= usedAt(table[k])
      decreases |rest|
    {
      var k :| k in rest;
      if usedAt(table[k]) < usedAt(table[oldest]) {
        oldest := k;
      }
      rest := rest - {k};
    }
  }

  method PruneCapacity<R(!new)>(table: map<string, R>, usedAt: R -> nat) returns (kept: map<string, R>)
    ensures LeastRecentlyUsedGone(table, usedAt, kept)
  {
    kept := table;
    while |kept| > MAX_ENTRIES
      invariant forall k :: k in kept ==> k in table && kept[k] == table[k]
      invariant |table| <= MAX_ENTRIES ==> kept == table
      invariant |table| > MAX_ENTRIES ==> |kept| >= MAX_ENTRIES
      invariant forall gone, k :: gone in table && gone !in kept && k in kept ==>
        usedAt(table[gone]) <= usedAt(table[k])
      decreases |kept|
    {
      var oldest := LeastRecentlyUsed(kept, usedAt);
      assert |(kept - {oldest}).Keys| == |kept.Keys - {oldest}|;
      kept := kept - {oldest};
    }
  }
}
