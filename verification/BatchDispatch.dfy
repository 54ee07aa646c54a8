/** Bounded-concurrency lookups of the workspace host, with workers finishing in any order. */
module BatchDispatch {
  import opened Options

  const MAX_CONCURRENT_TRACKING_LOOKUPS := 5

  datatype Failure = LookupFailed(message: string) | WorkerStopped

  /** What becomes of the worker for index i: it stops unexpectedly, or its lookup ends either way. */
  datatype Fate<T> = Stopped | Finished(result: Result<T, Failure>)

  function Min(a: nat, b: nat): nat {
    if a < b then a else b
  }

  function Max(a: nat, b: nat): nat {
    if a < b then b else a
  }

  /** `max_concurrency.max(1).min(ids.len().max(1))`. */
  function Clamped(maxConcurrency: nat, count: nat): (n: nat)
    ensures 1 <= n <= Max(count, 1)
    ensures n <= Max(maxConcurrency, 1)
    ensures n == maxConcurrency <==> 1 <= maxConcurrency <= Max(count, 1)
  {
    Min(Max(maxConcurrency, 1), Max(count, 1))
  }

  /** The first loop of `fetch_bags` and `fetch_manifests`: spawns until the limit or the last index. */
  method StartWorkers(count: nat, concurrency: nat) returns (tasks: set<nat>, next: nat)
    requires 1 <= concurrency
    ensures next == Min(concurrency, count) == |tasks|
    ensures forall i :: i in tasks <==> 0 <= i < next
  {
    next, tasks := 0, {};
    while |tasks| < concurrency && next < count
      invariant next <= count && next <= concurrency
      invariant |tasks| == next
      invariant forall i :: i in tasks <==> 0 <= i < next
    {
      tasks := tasks + {next};
      next := next + 1;
    }
  }

  /** The slots when the indexes below `next` were spawned and those in `tasks` still run. */
  ghost predicate SlotsAgree<T>(
    fate: nat -> Fate<T>, tasks: set<nat>, next: nat, slots: seq<Option<Result<T, Failure>>>)
  {
    && (forall i :: 0 <= i < |slots| && (i in tasks || next <= i) ==> slots[i] == None)
    && (forall i :: 0 <= i < |slots| && i < next && i !in tasks ==>
          slots[i] == if fate(i).Stopped? then None else Some(fate(i).result))
  }

  /** The second loop: joins workers in any order and spawns one more for each. `spawned` logs the
      indexes in the order they were spawned, `peak` is the largest number of workers alive. */
  method DrainWorkers<T>(fate: nat -> Fate<T>, count: nat, started: set<nat>, first: nat)
    returns (slots: seq<Option<Result<T, Failure>>>, ghost spawned: seq<nat>, ghost peak: nat)
    requires first <= count && |started| == first && (first == 0 ==> count == 0)
    requires forall i :: i in started <==> 0 <= i < first
    ensures |slots| == count && SlotsAgree(fate, {}, count, slots)
    ensures |spawned| == count && forall i :: 0 <= i < count ==> spawned[i] == i
    ensures peak == first
  {
    var next: nat, tasks: set<nat> := first, started;
    slots, spawned, peak := seq(count, _ => None), seq(first, i => i), first;
    while tasks != {}
      invariant |tasks| <= first == peak && next <= count == |slots|
      invariant |spawned| == next && forall i :: 0 <= i < next ==> spawned[i] == i
      invariant forall i :: i in tasks ==> 0 <= i < next
      invariant next < count ==> |tasks| == first
      invariant SlotsAgree(fate, tasks, next, slots)
      decreases count - next, |tasks|
    {
      var joined :| joined in tasks;
      tasks := tasks - {joined};
      var end := fate(joined);
      if end.Finished? {
        slots := slots[joined := Some(end.result)];
      }
      if next < count {
        tasks := tasks + {next};
        spawned := spawned + [next];
        next := next + 1;
        peak := Max(peak, |tasks|);
      }
    }
  }

  /** `fetch_bags` and `fetch_manifests`. */
  method FetchAll<T>(ids: seq<string>, maxConcurrency: nat, fate: nat -> Fate<T>)
    returns (results: seq<(string, Result<T, Failure>)>, ghost spawned: seq<nat>, ghost peak: nat)
    ensures |results| == |ids|
    ensures forall i :: 0 <= i < |ids| ==>
      results[i] == (ids[i], if fate(i).Stopped? then Err(WorkerStopped) else fate(i).result)
    ensures |spawned| == |ids| && forall i :: 0 <= i < |ids| ==> spawned[i] == i
    ensures peak <= |ids| && peak <= (if maxConcurrency == 0 then 1 else maxConcurrency)
    ensures peak == |ids| || peak == maxConcurrency || (peak == 1 && maxConcurrency == 0)
  {
    var tasks, next := StartWorkers(|ids|, Clamped(maxConcurrency, |ids|));
    var slots;
    slots, spawned, peak := DrainWorkers(fate, |ids|, tasks, next);
    results := seq(|ids|, i requires 0 <= i < |ids| && |slots| == |ids| =>
      (ids[i], if slots[i].Some? then slots[i].value else Err(WorkerStopped)));
  }

  /** What `fetch_tracking_batch_with_progress` hands to its callback, in order of completion. */
  datatype Delivery<T> = Delivery(index: nat, id: string, result: Result<T, Failure>)

  /** Every delivery is some worker's own result under the id it was spawned for, and no index occurs
      twice. */
  ghost predicate Faithful<T>(ids: seq<string>, fate: nat -> Fate<T>, log: seq<Delivery<T>>) {
    && (forall k :: 0 <= k < |log| ==>
          && log[k].index < |ids| && log[k].id == ids[log[k].index]
          && fate(log[k].index) == Finished(log[k].result))
    && (forall j, k :: 0 <= j < k < |log| ==> log[j].index != log[k].index)
  }

  /** The workers spawned so far have delivered what was accepted, or are still running. */
  ghost predicate IsProgress<T>(
    ids: seq<string>, fate: nat -> Fate<T>, accepts: nat -> bool, log: seq<Delivery<T>>, tasks: set<nat>, next: nat)
  {
    && next <= |ids| && Faithful(ids, fate, log)
    && (forall i :: i in tasks ==> i < next)
    && (forall k :: 0 <= k < |log| ==> accepts(k) && log[k].index < next && log[k].index !in tasks)
    && |log| + |tasks| == next
  }

  lemma DeliveryIsProgress<T>(
    ids: seq<string>, fate: nat -> Fate<T>, accepts: nat -> bool, log: seq<Delivery<T>>, tasks: set<nat>, next: nat,
    joined: nat, result: Result<T, Failure>)
    requires IsProgress(ids, fate, accepts, log, tasks, next)
    requires joined in tasks && fate(joined) == Finished(result)
    ensures var longer := log + [Delivery(joined, ids[joined], result)];
      && Faithful(ids, fate, longer)
      && (accepts(|log|) ==> IsProgress(ids, fate, accepts, longer, tasks - {joined}, next))
  {
  }

  /** Workers are started as long as there is room and work. */
  method Refill(length: nat, first: nat, running: set<nat>) returns (tasks: set<nat>, next: nat)
    requires first <= length && |running| <= MAX_CONCURRENT_TRACKING_LOOKUPS && forall i :: i in running ==> i < first
    ensures first <= next <= length && |tasks| <= MAX_CONCURRENT_TRACKING_LOOKUPS
    ensures running <= tasks && forall i :: i in tasks ==> i in running || first <= i < next
    ensures |tasks| - |running| == next - first
    ensures first < length || running != {} ==> tasks != {}
  {
    tasks, next := running, first;
    while |tasks| < MAX_CONCURRENT_TRACKING_LOOKUPS && next < length
      invariant first <= next <= length && |tasks| <= MAX_CONCURRENT_TRACKING_LOOKUPS
      invariant running <= tasks && forall i :: i in tasks ==> i in running || first <= i < next
      invariant |tasks| - |running| == next - first
      decreases length - next
    {
      tasks := tasks + {next};
      next := next + 1;
    }
  }

  /** `accepts(k)` is the callback's answer to the k-th delivery. The batch ends well exactly if every
      worker finishes until all are delivered, or the callback asks to stop. */
  method FetchWithProgress<T>(ids: seq<string>, fate: nat -> Fate<T>, accepts: nat -> bool)
    returns (outcome: Result<(), Failure>, log: seq<Delivery<T>>, ghost peak: nat)
    ensures peak <= MAX_CONCURRENT_TRACKING_LOOKUPS
    ensures Faithful(ids, fate, log)
    ensures forall k :: 0 <= k < |log| - 1 ==> accepts(k)
    ensures outcome.Ok? ==> |log| == |ids| || (log != [] && !accepts(|log| - 1))
    ensures outcome.Err? ==> (exists i :: 0 <= i < |ids| && fate(i).Stopped?) && (log != [] ==> accepts(|log| - 1))
    ensures (forall i :: 0 <= i < |ids| ==> fate(i).Finished?) ==> outcome.Ok?
  {
    var next: nat := 0;
    var tasks: set<nat> := {};
    log, peak := [], 0;
    while next < |ids| || tasks != {}
      invariant IsProgress(ids, fate, accepts, log, tasks, next)
      invariant |tasks| <= peak <= MAX_CONCURRENT_TRACKING_LOOKUPS
      decreases |ids| - next, |tasks|
    {
      tasks, next := Refill(|ids|, next, tasks);
      peak := Max(peak, |tasks|);
      var joined :| joined in tasks;
      match fate(joined) {
        case Stopped =>
          return Err(WorkerStopped), log, peak;
        case Finished(result) =>
          DeliveryIsProgress(ids, fate, accepts, log, tasks, next, joined, result);
          log := log + [Delivery(joined, ids[joined], result)];
          if !accepts(|log| - 1) {
            return Ok(()), log, peak;
          }
      }
      tasks := tasks - {joined};
    }
    outcome := Ok(());
  }
}
