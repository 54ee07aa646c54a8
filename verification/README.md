# ShipFlow verification model

A Dafny model of the parts of ShipFlow whose correctness depends on order, on failures half way, or on
agreement between two ways of computing the same thing. Every claim below is a contract of a Dafny member
and is proved for all inputs, all runs or all reachable states.

| modules | what they model |
|---|---|
| `DockerWorld`, `DockerProtocol` | the Docker engine, its volumes and the journal file; `deploy`, `recover`, start, stop and restart as a program with one move for each docker command or journal write (`Program`), and a step relation with crashes and ambiguous failures (`Step`) |
| `DockerInvariant`, `DockerSteps`, `DockerRecovery`, `DockerCompletion` | the invariant of that protocol, that every step keeps it, and what follows for crash recovery |
| `DockerProgress`, `DockerCalls` | that every action can do what it is for, and that every call ends |
| `DockerDeployment` | the same code as a class whose methods follow the source statement by statement; each method proves that its execution is a run of the step relation |
| `DockerPersistFault`, `DockerWriteFaults` | which journal writes may fail while the process lives on, and what goes wrong with the others |
| `ConfigArchive` | the ustar writer for the service configuration, against a reader for that format |
| `ManifestCache`, `BagRouteCache`, `ContactCache`, `LruPrune` | the three persistent caches as tables: index, merge, expiry, pruning, eviction |
| `BagRouteFlight`, `BagRouteEnrichment` | the single-flight retry loop under all interleavings, and the enrichment that runs several of them |
| `WorkspaceHosts`, `WorkspaceTurns`, `QuitCoordinator` | lifecycle protocols of Electron's main process |
| `BatchDispatch`, `PreviewRegistry` | bounded-concurrency dispatch and the preview registry of the workspace host |
| `HistorySummary`, `KoliStructure`, `ManifestPrint` | folds and validators of the core crate |
| `TokenRedaction`, `RotatingLog` | what is logged, and the log file with its backup when file operations fail |
| `ServiceRestart`, `RendererRecovery` | the two sliding-window policies |
| `Options`, `Text`, `Indices`, `Picked` | shared types, ASCII text and its words, finite sets, values picked out of a list |

Interleavings are step relations over values: a run is a sequence of states each of which is followed by a
step. Code that updates fields in place is a class whose methods equate the new state with such a step, so
that what is proved of the runs holds of the objects. Clocks, answers of Docker, results of lookups and
the order in which workers finish are parameters or free choices.

## Fault model of the managed deployment

The manager process may die between any two steps, also inside `recover`. Any docker command may fail with
its effect or without it. The maintenance script goes on by itself when the manager is gone, and may fail at
any point. A running service may rewrite its stores at any time. A journal write is atomic: it takes effect,
or the process dies with the old journal on disk.

The last assumption can be given up for the write that opens an operation, the one that commits it and those
at the end of an action, and for the one of line 361, which closes an operation, if the one of line 262 that
follows succeeds or the process dies before (`DockerWriteFaults`): they may fail with the process living on,
any number of times. It is needed for the write of line 294, which records the snapshot
(`LostMarkDamagesStores`: from every reachable state at it one failed write ends with damaged stores), and for
the closing one if line 262, and for a service that stays down also line 260 of the next start, fails too
(`LostCloseRestartsOnOtherStores`). `mark` changes nothing that is modelled; if it fails, that is a command
that fails without its effect.

## What was found

* A journal write that fails at line 294 without ending the process makes memory and disk disagree about
  the snapshot, and one at line 361 about whether the operation is over (above).
* While an operation is pending and its snapshot is journalled, a second `recover` after a failed readiness
  probe restores the snapshot again: what the restarted old service wrote in between is discarded
  (`SecondRecoveryDiscards`). Every restart of a pending operation is on the drained stores
  (`RestartsOnDrainedStores`).
* A failure over a stored route calls the row partial even if that route knows nothing or is complete
  (`StatusOfRecorded` gives both cases exactly).
* Pruning a bag route whose stored route is empty changes the status that a later failure records
  (`PruningAndStoring` gives the exact case); nothing that is known is affected.
* The preview registry charges a completion to whatever run has its key. If a superseded key is registered
  again while its old requests are outstanding, the new run can be removed under its requests. That closes
  their channel, and they are reported as cancelled though nobody asked (`ReusedKeyStopsTheUnasked`).
  `TheAskedAreToldIff` and `CompletionIsExact` give the exact conditions.
* A cancel that is answered with yes stores nothing if no request of the run listens any more, so a request
  that joins the run behind it goes on (`JoiningBehindACancel`).
* The search for koli numbers does not look at overlapping matches. It names exactly the parts that stand in
  a detail if and only if the parent does not contain a copy of its own beginning behind a character that is
  neither alphanumeric nor a dot (`NamedExactlyIff`); every other parent has a detail whose part is missed
  (`HiddenPartIsMissed`). Parents of letters, digits and dots are always found.
* Of several different latest entries of a part the one listed last counts, so the order of the history
  matters exactly then (`OrderMattersIff`).
* After a rotation whose reopening failed, before or after it created the file, the next rotation deletes the
  backup, which is then the whole log (`FailedReopeningLosesTheLog`). `OneCallKeeps` gives the exact
  condition, and without such a failure it never happens (`NeverLostWithoutFailedReopening`).
* The two sliding-window policies remember exactly their window if and only if the clock is steady
  (`RemembersExactlyIff` of each). Their bounds need less, and exactly that a clock is not a window ahead
  between two events that are within one window of each other (`BoundHoldsIff`); otherwise one more restart
  or recovery is granted (`ClockSetBackEarnsMore`).
* A log file whose size cannot be told when it is opened is not rotated then (`OpeningKeeps`).

## Model

| member | source | states |
|---|---|---|
| DockerSteps.StepKeepsInv | electron/main/docker-deployment-manager.ts:242-363 | every step keeps the invariant: each move of deploy, recover, start, stop and restart, successful or failed with or without effect, each step of the maintenance script, each write of a running service, crash and restart |
| DockerSteps.ProcessKeepsInv | electron/main/docker-deployment-manager.ts:265-362 | every outcome of the next move of the manager keeps the invariant |
| DockerSteps.EngineKeepsInv | electron/main/docker-deployment-manager.ts:327-340 | the maintenance script advancing, ending or failing at any point, and a service rewriting its stores, keep the invariant |
| DockerSteps.LifecycleKeepsInv | electron/main/docker-deployment-manager.ts:242-264 | dying, restarting with the journal on disk, and entering an action keep the invariant |
| DockerInvariant.RenameKeeps | electron/main/docker-deployment-manager.ts:358-358 | giving a container another name keeps what a crash needs, also when the engine reports failure |
| DockerInvariant.RunHelperKeeps | electron/main/docker-deployment-manager.ts:335-338 | starting a maintenance container keeps what a crash needs, if no service runs |
| DockerRecovery.SingleWriterAlways | electron/main/docker-deployment-manager.ts:167-169 | in every reachable state at most one running container has the data volume writable, a service or the restoring helper; and none while the backup helper runs |
| DockerRecovery.QuiescentJournal | electron/main/docker-deployment-manager.ts:251-280 | whenever nothing is pending: the active container has the canonical name, there is no candidate and no helper, and a container under the previous name is stopped and not the active one |
| DockerRecovery.PreflightRemovesOnlyTheSuperseded | electron/main/docker-deployment-manager.ts:276-280 | the only container that the preflight removes is stopped and is not the active one |
| DockerRecovery.PendingEnds | electron/main/docker-deployment-manager.ts:313-361 | a pending operation ends only by the commit of a running candidate under the canonical name, the old container set aside stopped; or by the end of a recovery, with the active deployment unchanged, under the canonical name, no candidate left, and running if it was |
| DockerRecovery.CommitReplaces | electron/main/docker-deployment-manager.ts:313-315 | a commit always replaces the active deployment by another one |
| DockerRecovery.RestartsOnDrainedStores | electron/main/docker-deployment-manager.ts:356-359 | while an operation is pending the old service is started only by the recovery, alone, and on exactly the stores it had left when it was drained, after any number of crashed and failed deploys and recoveries |
| DockerRecovery.SnapshotIsWhatWasDrained | electron/main/docker-deployment-manager.ts:293-294 | the write that journals a snapshot finds the archive of this operation equal to the stores, and no service running |
| DockerRecovery.SnapshotSurvives | electron/main/docker-deployment-manager.ts:327-340 | until the operation ends that archive stays on the backup volume, whatever fails or crashes |
| DockerCompletion.RecoveryCompletes | electron/main/docker-deployment-manager.ts:345-362 | from every state inside a recovery whose restore script, if it waits for one, has not failed there is a run without failures to its end |
| DockerCompletion.EveryRecoveryCompletes | electron/main/docker-deployment-manager.ts:345-362 | from every state inside a recovery there is a run to its end; a recovery whose restore script has failed throws and is chosen again |
| DockerCompletion.RecoveryAlwaysPossible | electron/main/docker-deployment-manager.ts:250-250 | from every reachable state with a pending operation: restart, choose recover, and it can run to its end with the old deployment restored |
| DockerCompletion.SecondRecoveryDiscards | electron/main/docker-deployment-manager.ts:356-359 | from every reachable state in which the old service of an operation with a snapshot was restarted, and for whatever it then writes: if its probe fails, a second recovery can run until it is up again, on the stores of the snapshot instead |
| DockerProgress.DeployCanSucceed | electron/main/docker-deployment-manager.ts:265-315 | from every reachable state with nothing pending there is a run of deploy to its commit: another deployment than before is active, under the canonical name and running |
| DockerProgress.StopCanSucceed | electron/main/docker-deployment-manager.ts:256-256 | from every such state with an active deployment, stop can leave it stopped |
| DockerProgress.StartCanSucceed | electron/main/docker-deployment-manager.ts:257-259 | start can leave it running |
| DockerProgress.RestartCanSucceed | electron/main/docker-deployment-manager.ts:256-259 | restart can stop it and leave it running |
| DockerCalls.CallsEnd | electron/main/docker-deployment-manager.ts:242-362 | in every run: from any point of a call the manager moves at most 34 times, whatever fails and whenever it dies, also if a deploy fails and recovers |
| DockerCalls.GivesUpOnlyAfterTrying | electron/main/docker-deployment-manager.ts:316-325 | a deploy that comes to its end with its operation still pending has entered recover before |
| DockerCalls.OnlyRecoveryGivesUp | electron/main/docker-deployment-manager.ts:316-325 | no move outside recover ends a call with an operation pending |
| DockerCalls.PreflightRefuses | electron/main/docker-deployment-manager.ts:270-279 | a deploy begins only if the active container exists, no other one has its name, no candidate is left over and the superseded one does not run; looking changes nothing |
| DockerPersistFault.TheProbeIsReached | electron/main/docker-deployment-manager.ts:294-295 | such a state is reached: two deployments, of which the second fails at the rename of the old container |
| DockerPersistFault.LostMarkDamagesStores | electron/main/docker-deployment-manager.ts:294-294 | from every reachable state at that write with non-empty stores: if it fails and the process lives on, ordinary steps lead to the old service running on stores other than those it was drained with, or, if it was stopped, to a completed recovery that has not restored them |
| DockerPersistFault.TheMarkIsReached | electron/main/docker-deployment-manager.ts:286-294 | two deployments without any failure reach that write, with a service that was running and with one that was stopped |
| DockerWriteFaults.RecoveryPossibleUnderFaults | electron/main/docker-deployment-manager.ts:286-286 | if the write that opens an operation, the one that commits it and those at the end of an action may also fail with the process living on, and the one that closes an operation too if the end of that action is written or the process dies before, any number of times and with the engine going on in between: the engine and the journal on disk still satisfy all that recovery needs, and a journalled operation can be recovered to its end |
| DockerWriteFaults.RestartsOnDrainedUnderFaults | electron/main/docker-deployment-manager.ts:314-314 | with those faults too, the old service of a pending operation is started only by the recovery and on the drained stores |
| DockerWriteFaults.StepOrFaultKeepsSound | electron/main/docker-deployment-manager.ts:262-262 | every step and every such fault keeps the invariant, or leaves a memory that is ahead of the disk by an operation that has done nothing or by the end of one; each later step keeps that or restores the invariant |
| DockerWriteFaults.LostCloseRestartsOnOtherStores | electron/main/docker-deployment-manager.ts:361-361 | the write that closes an operation must not fail together with the one of line 262 and, for a service that stays down, with the one of line 260 of the next start: from every reachable state at it with a snapshot, ordinary actions then start the old service on stores other than the drained ones while the disk still holds the operation |
| DockerDeployment.DockerDeploymentManager.Deploy | electron/main/docker-deployment-manager.ts:265-326 | a deploy that does not die is committed to another deployment under the canonical name, or throws with the active one unchanged; if it throws and nothing is pending, that one has the canonical name and runs if and only if it ran before; its execution is a run of the protocol |
| DockerDeployment.DockerDeploymentManager.Recovery | electron/main/docker-deployment-manager.ts:345-362 | a recovery that completes ends with nothing pending and exactly one container, the unchanged active one under the canonical name, running if and only if it was, or none without an active deployment; one that throws leaves the operation pending; its execution is a run of the protocol |
| DockerDeployment.DockerDeploymentManager.SwitchOver | electron/main/docker-deployment-manager.ts:287-315 | the body of the try block ends committed, or in the catch block with the operation still pending |
| DockerDeployment.DockerDeploymentManager.CopyVolume | electron/main/docker-deployment-manager.ts:327-340 | clean-up, helper, clean-up: a run of the protocol to the point behind it, or to the failure point of its caller |
| DockerDeployment.DockerDeploymentManager.RemoveMaintenanceHelper | electron/main/docker-deployment-manager.ts:341-344 | a helper that is there is stopped and removed: a run of the protocol |
| DockerDeployment.DockerDeploymentManager.Perform | electron/main/docker-deployment-manager.ts:242-264 | while an operation is pending everything but recover is refused and changes nothing; only a deploy that succeeds changes the active deployment; a stop that is answered as done leaves the active container stopped, a start or restart leaves it running, and a stop or restart has gone through a state in which it was stopped; the manager ends idle, memory and disk in agreement, or dead |
| DockerDeployment.DockerDeploymentManager.Session | electron/main/docker-deployment-manager.ts:242-264 | any list of actions with crashes and restarts between them is a run of the protocol |
| ConfigArchive.BuildArchive | electron/main/docker-deployment-manager.ts:56-67 | the buffer filled in place is the archive of the payload; larger payloads than 65,536 bytes are refused |
| ConfigArchive.Checksum | electron/main/docker-deployment-manager.ts:64-64 | the loop computes the sum of the header's bytes |
| ConfigArchive.ChecksumFits | electron/main/docker-deployment-manager.ts:64-65 | the checksum of every such header fits six octal digits |
| ConfigArchive.HeaderDecodes | electron/main/docker-deployment-manager.ts:59-65 | a reader of the 'ustar Interchange Format' section of pax in POSIX.1-2017 accepts the header, verifies its checksum, and finds name, mode, owner, size, time and type |
| ConfigArchive.RoundTrip | electron/main/docker-deployment-manager.ts:56-67 | for every payload of at most 65,536 bytes the archive's length is a multiple of 512, and decoding it gives the name config.json and exactly the payload |
| LruPrune.PruneCapacity | crates/shipflow-service-runtime/src/contact_cache.rs:664-685 | at most the maximal number of rows is kept, and none that is kept was used before one that goes |
| ManifestCache.Evict | crates/shipflow-service-runtime/src/manifest_cache.rs:81-85 | the loop ends with at most 1,000 snapshots and 64 MiB, only oldest rows gone, and the bag index exact |
| ManifestCache.NewestSurvives | crates/shipflow-service-runtime/src/manifest_cache.rs:81-85 | a strictly newest snapshot of acceptable size is never evicted |
| ManifestCache.InsertBags | crates/shipflow-service-runtime/src/manifest_cache.rs:75-79 | index rows are inserted for all items, each with the bag, origin and destination of its item and the address of the snapshot; or the first item without a bag, or with one that came before, ends it with the error of its kind |
| ManifestCache.ReplacementKeepsIndex | crates/shipflow-service-runtime/src/manifest_cache.rs:72-79 | replacing a snapshot and its index rows keeps the index exact |
| ManifestCache.CascadeKeepsIndex | crates/shipflow-service-runtime/src/manifest_cache.rs:13-29 | deleting manifests with the cascade keeps the index exact |
| ManifestCache.StoredNewestIsKept | crates/shipflow-service-runtime/src/manifest_cache.rs:58-88 | a strictly newest, unexpired snapshot is in the table after its own store |
| ManifestCache.BagRouteCacheState.StoreManifest | crates/shipflow-service-runtime/src/manifest_cache.rs:58-88 | a snapshot is stored exactly if its metadata name the manifest in any case and count its items, its size fits, and its bags are there and distinct; on any error both tables are as before; the limits hold and the index stays exact |
| ManifestCache.BagRouteCacheState.GetManifest | crates/shipflow-service-runtime/src/manifest_cache.rs:40-56 | an expired snapshot is never returned, deleted or not; the flag says whether it is due for refresh |
| ManifestCache.BagRouteCacheState.GetBagRoute | crates/shipflow-service-runtime/src/manifest_cache.rs:90-101 | none exactly if no unexpired snapshot lists the bag; otherwise the answer's bag, origin, destination and address are those of an item of an unexpired snapshot that no other unexpired one listing the bag is newer than, by date as text and then by fetch time |
| BagRouteCache.MergeKeepsKnowledge | crates/shipflow-service-runtime/src/bag_route_cache.rs:416-486 | each part of the stored route is the newly fetched one if there is one, and otherwise exactly the one known before |
| BagRouteCache.RecordedIsSound | crates/shipflow-service-runtime/src/bag_route_cache.rs:416-486 | a stored row is complete only with both parts known, missing only with a route that knows neither, failed only without a route, and partial only with one |
| BagRouteCache.StatusOfRecorded | crates/shipflow-service-runtime/src/bag_route_cache.rs:86-96 | a stored route has the status it justifies; a failure is recorded as such exactly if no route was stored before; a row is partial though it knows nothing if and only if a failure found a stored route that knows nothing, and partial though it is complete if and only if a failure found a complete one |
| BagRouteCache.NormalizeDropsPlaceholders | crates/shipflow-service-runtime/src/bag_route_cache.rs:98-110 | an office is kept as it is unless, without the blanks around it and in any case, it is empty, a dash, null or undefined |
| BagRouteCache.TimesOfRow | crates/shipflow-service-runtime/src/bag_route_cache.rs:216-299 | a row without a part known is read for the retry window only and any other for ever, with its own fetch time; its use is noted if the last note is an hour old; a stored row is fetched and used when it is stored |
| BagRouteCache.KnownIsLastFetched | crates/shipflow-service-runtime/src/bag_route_cache.rs:416-486 | in every run of the table, with any reads, prunes, failures, evictions and stores for other bags in between: exactly the last origin and the last destination fetched for a bag since its row was last evicted are known |
| BagRouteCache.StoreKeepsTheLasting | crates/shipflow-service-runtime/src/bag_route_cache.rs:531-564 | a store leaves no row that knows nothing beyond the retry window, and not too many rows; as long as there is room every other one stays as it was, beside the one stored |
| BagRouteCache.EvictsTheLeastUsed | crates/shipflow-service-runtime/src/bag_route_cache.rs:531-564 | a row that has not expired goes only if there are too many, and none that stays was used before it |
| BagRouteCache.ReadsAreHonest | crates/shipflow-service-runtime/src/bag_route_cache.rs:216-299 | a read returns what the row knows, calls it complete only if it is, and drops only rows that know nothing |
| BagRouteCache.PruningAgreesWithReading | crates/shipflow-service-runtime/src/bag_route_cache.rs:531-564 | the rows that pruning deletes are those that a read would call expired, exactly if the clock is past the retry window or the row is not stamped with the epoch |
| BagRouteCache.PruningAndStoring | crates/shipflow-service-runtime/src/bag_route_cache.rs:416-486 | deleting an expired row changes a later store exactly if that is a failure over a row with an empty route; what is known is never changed |
| BagRouteCache.Select | crates/shipflow-service-runtime/src/http_api.rs:1272-1287 | the label if it is complete, else either route, complete whenever one of them is |
| BagRouteCache.BagRouteTable.Get | crates/shipflow-service-runtime/src/bag_route_cache.rs:216-299 | one read: the answer, an expired row deleted, the time of use of any other noted if the last one is an hour old, and no other row affected |
| BagRouteCache.BagRouteTable.Store | crates/shipflow-service-runtime/src/bag_route_cache.rs:416-486 | one store: the merged row, expired rows deleted, and the least recently used ones gone beyond the capacity |
| BagRouteFlight.StepKeepsInv | crates/shipflow-service-runtime/src/http_api.rs:1179-1270 | every step of any call, every cancellation at an await, every late store, expiry, eviction and clock tick keeps the invariant of the protocol |
| BagRouteFlight.SingleFlight | crates/shipflow-service-runtime/src/bag_route_cache.rs:398-414 | in every run at most one lease of a bag is live, every waiter waits for a live lease, and no call fetches twice |
| BagRouteFlight.NoLostWakeup | crates/shipflow-service-runtime/src/bag_route_cache.rs:123-138 | whatever ends a lease, return or cancellation, wakes every call that waits for it, and these go on unforced |
| BagRouteFlight.NoDeadlock | crates/shipflow-service-runtime/src/http_api.rs:1179-1270 | as long as a call is not over, some call can take a step |
| BagRouteFlight.StepDecreases | crates/shipflow-service-runtime/src/http_api.rs:1179-1270 | every step of a call uses up a potential that the outside world cannot raise |
| BagRouteFlight.LookReturnsIff | crates/shipflow-service-runtime/src/http_api.rs:1190-1209 | a call that looks returns if and only if it is not forced, and the row is there and complete or younger than the retry window, or the manifest's route has both parts; else it goes on to begin a fetch |
| BagRouteFlight.LeaderReturnsWhatItStored | crates/shipflow-service-runtime/src/http_api.rs:1239-1265 | a leader returns the best of what its store recorded, which is what it fetched over what was known, and of the manifest's route |
| BagRouteFlight.CallStepsAreBounded | crates/shipflow-service-runtime/src/http_api.rs:1179-1270 | under every interleaving any finite set of callers takes a bounded number of steps |
| BagRouteFlight.WaitersReuseTheOutcome | crates/shipflow-service-runtime/src/http_api.rs:1179-1270 | in every run: from the step in which a leader stores a result or a failure until the retry window has passed, every call that looks unforced returns at its next step, without fetching, with what is then recorded |
| BagRouteFlight.StoringRecords | crates/shipflow-service-runtime/src/http_api.rs:1179-1270 | the storing step of a leader records its outcome at that time, whether it is a result or a failure |
| BagRouteFlight.BagRouteInFlight.Begin | crates/shipflow-service-runtime/src/bag_route_cache.rs:398-414 | waits for the lease that the bag has, or puts a new one in the map; other bags are left alone; it is the protocol's step |
| BagRouteFlight.BagRouteInFlight.Drop | crates/shipflow-service-runtime/src/bag_route_cache.rs:123-138 | removes the entry only if it is this lease's own, notifies its waiters, who look again unforced, and leaves other bags alone |
| BagRouteEnrichment.ApplyBagRoute | crates/shipflow-service-runtime/src/http_api.rs:1288-1317 | every summary of the route's bag, in any case, that has a bagging gets the route's origin as location if it has none, the route's destination if there is one, and the verdict on its two locations; every other summary is as before |
| BagRouteEnrichment.IdentityIsTheCode | crates/shipflow-service-runtime/src/http_api.rs:1325-1341 | a location whose last word with a digit is a code is known by that code's letters and digits in upper case, whatever is around it |
| BagRouteEnrichment.IdentityIsTheText | crates/shipflow-service-runtime/src/http_api.rs:1325-1341 | one without a digit is known by its words in upper case, with single blanks |
| BagRouteEnrichment.SpellingsMatchIff | crates/shipflow-service-runtime/src/http_api.rs:1319-1341 | two spellings of an office match if and only if their codes are the same letters and digits, in any case, punctuated and surrounded in any way |
| BagRouteEnrichment.OneSpelling | crates/shipflow-service-runtime/src/http_api.rs:1319-1341 | such spellings: blanks, brackets, a hyphen and the case of letters make no difference |
| BagRouteEnrichment.TwoOffices | crates/shipflow-service-runtime/src/http_api.rs:1319-1341 | two codes that differ in one letter do not match |
| BagRouteEnrichment.ApplyingKeepsKnowledge | crates/shipflow-service-runtime/src/http_api.rs:1288-1317 | a known location stays, a known destination stays known, the verdict is about what is then shown, and applying again changes nothing |
| BagRouteEnrichment.PendingBags | crates/shipflow-service-runtime/src/http_api.rs:1135-1145 | every bag that was bagged is looked up once, and nothing else |
| BagRouteEnrichment.Enrich | crates/shipflow-service-runtime/src/http_api.rs:1125-1177 | at most four lookups at once; if every route is that of its bag: exactly the summaries whose bag's route has arrived when the budget ends have the fields of that route, and the rest are as before; with enough budget every pending bag arrives |
| BagRouteEnrichment.OrderOfArrivalIsIrrelevant | crates/shipflow-service-runtime/src/http_api.rs:1153-1177 | if every route is that of the bag it was looked up for, the summaries after any order of arrivals are those with exactly these routes applied |
| ContactCache.NormalizedPhoneIsStable | crates/shipflow-core/src/parser.rs:690-718 | normalising a phone that was normalised changes nothing |
| ContactCache.NormalizeText | crates/shipflow-core/src/parser.rs:702-719 | the loop over the characters and the trimming give the words with single blanks between them |
| ContactCache.SlotIff | crates/shipflow-core/src/parser.rs:690-700 | a slot is read as a phone if and only if its words with single blanks have 7 to 30 characters, 7 to 16 of them digits and not only zeros, and otherwise only plus, blank, brackets and dash |
| ContactCache.PruningAgreesWithExpiry | crates/shipflow-service-runtime/src/contact_cache.rs:652-662 | the rows that pruning deletes for their age are those that a read would call expired, exactly if the clock is past the row's window or the row is not stamped with the epoch |
| ContactCache.RecordedIsSound | crates/shipflow-service-runtime/src/contact_cache.rs:694-703 | a stored row says ok only with both phones, partial only with one, missing or failed only with none |
| ContactCache.PhonesOfRecorded | crates/shipflow-service-runtime/src/contact_cache.rs:459-505 | each slot of a stored row holds the phone that the result brings, if it reads as one, and otherwise that of the row before, if this is younger than 90 days |
| ContactCache.StatusOfRecorded | crates/shipflow-service-runtime/src/contact_cache.rs:459-557 | failed exactly for a failure without a phone, missing for a result without one, complete for a result with both |
| ContactCache.WindowOfRow | crates/shipflow-service-runtime/src/contact_cache.rs:732-749 | a row without a phone is answered and kept for five minutes, any other for 90 days |
| ContactCache.ReadsAreHonest | crates/shipflow-service-runtime/src/contact_cache.rs:217-298 | a read returns exactly the stored phones with the status they justify |
| ContactCache.ProvenanceOfMerge | crates/shipflow-service-runtime/src/contact_cache.rs:459-557 | the source of a merged row: the new one if all is new, the old one if nothing is, "mixed" if the sources differ |
| ContactCache.OnceKnownStaysKnown | crates/shipflow-service-runtime/src/contact_cache.rs:459-557 | the last phone that a list of stores brought for a slot is there whenever one was known before |
| ContactCache.NoPhoneIsLost | crates/shipflow-service-runtime/src/contact_cache.rs:459-557 | one row over any run of stores and failures within the retention: each slot holds the last phone that any of them brought |
| ContactCache.TableAgrees | crates/shipflow-service-runtime/src/contact_cache.rs:217-557 | in every run of the table, with reads, prunes, evictions and stores for any number of shipments: the row of each is the one that its own stores since it was last evicted make alone, but for its time of use, or that one has expired |
| ContactCache.StoreKeepsTheYoung | crates/shipflow-service-runtime/src/contact_cache.rs:652-685 | a store leaves no row beyond its window and not too many; as long as there is room every other row within its window stays as it was, beside the one stored |
| ContactCache.EvictsTheLeastUsed | crates/shipflow-service-runtime/src/contact_cache.rs:652-685 | a row that has not expired goes only if there are too many, and none that stays was used before it |
| ContactCache.ReadsIgnoreTheRest | crates/shipflow-service-runtime/src/contact_cache.rs:217-298 | so a read at any later time answers what the shipment's own stores since its last eviction give |
| ContactCache.NoPhoneIsLostInTheTable | crates/shipflow-service-runtime/src/contact_cache.rs:459-557 | in such a run, if no store of a shipment since its last eviction is too late: each slot of its row holds the last phone that any of them brought, and the row is there until it expires |
| ContactCache.PruningIsInvisible | crates/shipflow-service-runtime/src/contact_cache.rs:652-662 | past the first 90 days a row that pruning deletes would not be read again, and changes no later merge |
| ContactCache.MergeStore | crates/shipflow-service-runtime/src/contact_cache.rs:459-557 | the step-by-step merge computes the row that the properties above are about |
| ContactCache.ContactCacheState.Get | crates/shipflow-service-runtime/src/contact_cache.rs:217-298 | one read: answers the row's phones, status, source and time if it is younger than five minutes, or 90 days with a phone; then only its time of use changes, and only if the last one is an hour old; otherwise none, and the row is gone |
| ContactCache.ContactCacheState.StoreWithSource | crates/shipflow-service-runtime/src/contact_cache.rs:459-557 | one store: the merged row, expired rows deleted, and the least recently used ones gone beyond the capacity |
| WorkspaceHosts.ApplyKeepsInv | electron/main/index.ts:1129-1172 | every turn of the event loop keeps the invariant: window created or closed, host requested, a start resumed or settled, all hosts stopped, shutdown begun, document claimed |
| WorkspaceHosts.NoOrphanHost | electron/main/index.ts:1129-1163 | under every interleaving a client that was not stopped is the one host of its label, made for the window registered there; once shutdown has begun all are stopped |
| WorkspaceHosts.ShutdownIsFinal | electron/main/index.ts:1253-1265 | a stopped client stays stopped, and after shutdown has begun no client is ever added |
| WorkspaceHosts.OneWindowPerDocument | electron/main/index.ts:1105-1127 | no document is open in two registered windows |
| WorkspaceTurns.RequestGetsItsHost | electron/main/index.ts:1129-1163 | in every run: whoever asks for a host when there is none and none on its way has one, made for that window and not stopped, when the connection comes, unless the window was closed or all hosts were stopped in between |
| WorkspaceTurns.WantedUntilDisturbed | electron/main/index.ts:1142-1154 | a start can add its host until it resumes, its window is closed or all hosts are stopped, and exactly until then |
| WorkspaceTurns.RequestIsAnswered | electron/main/index.ts:1129-1155 | a request is refused exactly in a shutdown; else it gets the host of the label, joins its start, or begins one that is on record for window and generation |
| WorkspaceTurns.StartAddsItsHost | electron/main/index.ts:1142-1154 | a start adds a client, made for its window and on record under its label, if and only if it has a connection, its window is still registered and no stop came since |
| WorkspaceTurns.SettledIsForgotten | electron/main/index.ts:1156-1162 | a settled start is off the record if it was on it, and no other start is |
| WorkspaceTurns.ClaimMoves | electron/main/index.ts:1113-1126 | a claim is refused, naming the owner, exactly if another window holds the document; else the window holds that document and no other, and all other claims are as before |
| WorkspaceTurns.ClaimIsGivenUp | electron/main/index.ts:1106-1112 | without a document the window holds no claim, and the others hold theirs |
| WorkspaceTurns.WindowIsOpened | electron/main/index.ts:906-906 | a new window is registered under its label, without a document, and nothing else changes |
| WorkspaceTurns.WindowIsReleased | electron/main/index.ts:1013-1033 | a closed window's label, host, start and claim are gone, its client is stopped, and those of no other window |
| WorkspaceTurns.AllAreStopped | electron/main/index.ts:1165-1172 | every client is stopped, and no start begun before can add one any more |
| WorkspaceHosts.MainProcess.WorkspaceHost | electron/main/index.ts:1129-1163 | the method takes the turn of the runs: refused, the existing host, the start on record, or a new one |
| WorkspaceHosts.MainProcess.ResumeHostStart | electron/main/index.ts:1142-1154 | a start adds its client only if shutdown has not begun, the generation is the same and its window is still registered |
| WorkspaceHosts.MainProcess.SettleHostStart | electron/main/index.ts:1156-1162 | a settled start is forgotten only if it is still the one on record |
| WorkspaceHosts.MainProcess.WindowClosed | electron/main/index.ts:1013-1033 | closing a window releases its label, host, start and claim only where they are its own |
| WorkspaceHosts.MainProcess.StopAllWorkspaceHosts | electron/main/index.ts:1165-1172 | a new generation, no starts on record, every client in the map stopped and the map empty |
| WorkspaceHosts.MainProcess.ShutdownNativeRuntimes | electron/main/index.ts:1253-1265 | the flag is set before all hosts are stopped |
| WorkspaceHosts.MainProcess.ClaimDocument | electron/main/index.ts:1105-1127 | a document claimed by another window is refused and named; otherwise the window's claim moves to it |
| QuitCoordinator.RequestNextEndsAtFirst | electron/main/application-lifecycle.ts:99-118 | the recursion, through re-entrant removals too, ends at the first remaining window that must be asked and is there, or begins finalize |
| QuitCoordinator.PassedOverAreSettled | electron/main/application-lifecycle.ts:99-118 | windows passed over are clean, approved or destroyed, and are recorded as such |
| QuitCoordinator.OnlyTheAskedIsMarked | electron/main/application-lifecycle.ts:111-117 | only the window that is asked is marked, and no approval changes |
| QuitCoordinator.CancelWithdrawsApprovals | electron/main/application-lifecycle.ts:72-78 | cancel withdraws exactly the approvals that this round gave |
| QuitCoordinator.DiscardApproves | electron/main/application-lifecycle.ts:79-82 | discard approves the window that answered and goes on |
| QuitCoordinator.RequestAsksTheDirty | electron/main/application-lifecycle.ts:45-63 | if nothing is pending: the round is about exactly the windows that are dirty and unapproved at the request, with its reason; without one to ask it is finalized at once |
| QuitCoordinator.AskedInOrder | electron/main/application-lifecycle.ts:49-62 | the windows that need a decision are asked in the order in which they were given |
| QuitCoordinator.SecondRequestIsIgnored | electron/main/application-lifecycle.ts:46-48 | a request while a quit is pending or being finalized changes nothing |
| QuitCoordinator.RoundIsAboutTheSame | electron/main/application-lifecycle.ts:46-48 | in every run, as long as a quit is pending its reason and the windows it is about stay the same |
| QuitCoordinator.CancelLeavesNoApproval | electron/main/application-lifecycle.ts:72-78 | in every run: a cancel leaves no window approved that was discarded since the request that opened the round |
| QuitCoordinator.OnlyTheAskedAnswers | electron/main/application-lifecycle.ts:65-71 | an answer counts if and only if it comes from the window that is asked; any other changes nothing |
| QuitCoordinator.NeverStuckNeverEarly | electron/main/application-lifecycle.ts:45-129 | in every run a pending quit has one current window that exists and is not finalizing, and every round that was finalized had settled all the windows it was about |
| QuitCoordinator.ApplicationQuitCoordinator.RequestQuit | electron/main/application-lifecycle.ts:45-63 | the method takes the step of the runs above |
| QuitCoordinator.ApplicationQuitCoordinator.ResolveDecision | electron/main/application-lifecycle.ts:65-83 | the method takes the step of the runs above; an answer of another window than the current one changes nothing |
| QuitCoordinator.ApplicationQuitCoordinator.RemoveRecord | electron/main/application-lifecycle.ts:85-97 | the method takes the step of the runs above, also when called back from the request for a decision |
| QuitCoordinator.ApplicationQuitCoordinator.RequestNextDecision | electron/main/application-lifecycle.ts:99-118 | the mutually recursive methods end and compute the function of the runs above |
| QuitCoordinator.ApplicationQuitCoordinator.RequestWindowQuitDecision | electron/main/index.ts:1199-1212 | a destroyed window is removed at once, re-entering the coordinator; any other waits for its answer |
| BatchDispatch.Clamped | apps/workspace-host/src/main.rs:280-280 | at least one worker, never more than asked for or than there is work for |
| BatchDispatch.DrainWorkers | apps/workspace-host/src/main.rs:327-340 | for every completion order: each remaining index is spawned once and in order, the number of workers never rises, every slot ends with its own result or empty if its worker stopped |
| BatchDispatch.FetchAll | apps/workspace-host/src/main.rs:273-363 | result i is input id i with its own lookup's result or the worker-stopped error; each index is spawned exactly once; the clamped concurrency is reached and never exceeded |
| BatchDispatch.FetchWithProgress | apps/workspace-host/src/main.rs:476-519 | at most five workers; every delivery is some worker's own result, no index twice; success exactly when all were delivered or the callback stopped it, an error only after a stopped worker |
| PreviewRegistry.CompletionIsExact | apps/workspace-host/src/main.rs:108-123 | a completion keeps every count right, and goes on stopping exactly the requests that were asked to stop, if and only if it is not charged to a newer run of the same key, or only to one whose single request is cancelled or has dropped its receiver |
| PreviewRegistry.CompletionTellsIff | apps/workspace-host/src/main.rs:108-123 | whatever the counts: it goes on stopping exactly those if and only if it does not remove a run from under a request that listens and was not asked |
| PreviewRegistry.TheAskedAreToldIff | apps/workspace-host/src/main.rs:62-171 | in every run, up to a point, exactly the requests that were cancelled or superseded are told to stop, by their channel or by its closing, if and only if no completion so far removed a run from under one that was not |
| PreviewRegistry.CountsAreExactIff | apps/workspace-host/src/main.rs:62-123 | in every run the counts are right and exactly the asked are told, up to a point, if and only if no completion so far was charged wrongly |
| PreviewRegistry.UnusedKeysAreEnough | apps/workspace-host/src/main.rs:62-91 | callers that never register a superseded key again while its requests are outstanding never charge wrongly, and never have a request stopped unasked |
| PreviewRegistry.EveryoneIsReached | apps/workspace-host/src/main.rs:62-106 | cancelling a scope stops every request that listens in it, a new run stops all but its own; with right counts no run outlives its requests |
| PreviewRegistry.CancelStopsExactly | apps/workspace-host/src/main.rs:93-106 | a cancel stops the listening requests of the scope, or of the key it names, and no other one; yes is answered exactly if there is such a run |
| PreviewRegistry.RegisterStopsExactly | apps/workspace-host/src/main.rs:63-91 | a registration stops the listening requests of the scope's other keys and no other one; it joins the run of its key or starts one, and other scopes keep theirs |
| PreviewRegistry.JoiningBehindACancel | apps/workspace-host/src/main.rs:63-106 | a cancel stores nothing in a channel without receivers: a request that joins the run right behind it is told to stop if and only if another one still listens or the run was cancelled before |
| PreviewRegistry.ReusedKeyStopsTheUnasked | apps/workspace-host/src/main.rs:108-171 | the failing case: after register a, b, a and the completion of the first, the third request is stopped though nobody asked, as its run is gone and its channel closed |
| PreviewRegistry.PreviewCancellationRegistry.Register | apps/workspace-host/src/main.rs:63-91 | joins the run of the same key, or cancels the superseded one and starts a new run |
| PreviewRegistry.PreviewCancellationRegistry.Cancel | apps/workspace-host/src/main.rs:93-106 | sends to the scope's run unless another key was named, and says whether there was such a run; the channel stores the value only if it has a receiver |
| PreviewRegistry.PreviewCancellationRegistry.DropReceiver | apps/workspace-host/src/main.rs:941-946 | at the end of the select one receiver of the channel is gone |
| PreviewRegistry.PreviewCancellationRegistry.Complete | apps/workspace-host/src/main.rs:108-123 | decrements the run that has this key and removes it at zero |
| HistorySummary.BagOrderIsFirstMentionOrder | crates/shipflow-core/src/parser.rs:1343-1394 | exactly the bags that some entry names are summarised, each once, in the order of their first mentions |
| HistorySummary.SummarisedIff | crates/shipflow-core/src/parser.rs:1343-1394 | a bag is summarised exactly if some entry bags it, or, without any bagging phrase, unbags it |
| HistorySummary.LastBaggingIsLast | crates/shipflow-core/src/parser.rs:1343-1368 | a bag's bagging is that of the last entry that bags it |
| HistorySummary.LastUnbaggingIsLast | crates/shipflow-core/src/parser.rs:1369-1394 | a bag's unbagging is that of the last entry that unbags it |
| HistorySummary.RunsheetsCoverSegments | crates/shipflow-core/src/parser.rs:1410-1506 | there is one sheet for each entry that opens one, which are the runsheet entries and a first attempt or success; a sheet has the header of its entry and the last update of its segment, or none |
| HistorySummary.EntryOnSheets | crates/shipflow-core/src/parser.rs:1410-1506 | what one entry does: a runsheet opens a sheet; an attempt, or else a success, replaces the last sheet's update or opens a blank sheet; a mere delivered only replaces; anything else does nothing |
| HistorySummary.IrregularitiesAreListed | crates/shipflow-core/src/parser.rs:1329-1341 | every entry that tells of an irregularity is listed, in order, with its own detail and time, and nothing else |
| HistorySummary.ManifestsAreListed | crates/shipflow-core/src/parser.rs:1396-1408 | so is every entry that tells of a manifest |
| HistorySummary.ShownSheets | crates/shipflow-core/src/parser.rs:1513-1544 | every sheet has at most one update; exactly if the final status reads delivered in any case and the last sheet does not say so, that sheet's one update becomes the final status, with the officer's name, and number if both are known; otherwise all sheets are as they were |
| HistorySummary.RecordBag | crates/shipflow-core/src/parser.rs:1343-1394 | one entry's part in the bag table |
| HistorySummary.RecordDelivery | crates/shipflow-core/src/parser.rs:1410-1506 | one entry's part in the sheets; the current index is always that of the last sheet |
| HistorySummary.BuildHistorySummary | crates/shipflow-core/src/parser.rs:1312-1557 | the one pass computes the irregularities, manifests, bags and sheets that the lemmas describe |
| KoliStructure.SplitRecovers | crates/shipflow-core/src/parser.rs:441-449 | every identifier built from a parent and a positive 32-bit suffix splits into just these |
| Text.NumberGoesOn | crates/shipflow-core/src/parser.rs:441-449 | the number that digits read as: none is zero, and each digit behind adds its value to ten times the number before |
| KoliStructure.ScanIsCompleteIff | crates/shipflow-core/src/parser.rs:451-500 | the scan reaches every place where the parent begins a word, in every text, if and only if the parent hides no copy of itself |
| KoliStructure.PlainParentsAreFound | crates/shipflow-core/src/parser.rs:451-500 | of parents of letters, digits and dots, details name exactly the parts that stand in them |
| KoliStructure.HiddenPartIsMissed | crates/shipflow-core/src/parser.rs:451-500 | for every parent that hides a copy of itself, at any distance, there is a detail in which a part stands as a word and is not named |
| KoliStructure.DashedParentIsMissed | crates/shipflow-core/src/parser.rs:451-500 | part 1 of the parent A.-A stands in "A.-A.-A.1" and is not named |
| KoliStructure.NamedExactlyIff | crates/shipflow-core/src/parser.rs:451-500 | details name exactly the parts whose identifiers stand in them as words, in any case, if and only if the parent hides no copy of itself |
| KoliStructure.CollectKoliIds | crates/shipflow-core/src/parser.rs:451-500 | the table then holds the suffixes it held and all that the detail names, each under its number and upper-case identifier |
| KoliStructure.MentionsKoli | crates/shipflow-core/src/parser.rs:502-511 | an entry mentions a part exactly if the part's suffix is among those its detail names |
| KoliStructure.StatusOfPhrases | crates/shipflow-core/src/parser.rs:513-537 | the status is that of the strongest phrase which the detail contains in any case: a failed delivery is never read as a delivery, nor an unbagging as a bagging |
| KoliStructure.PartTells | crates/shipflow-core/src/parser.rs:393-428 | what is listed of a part rests on the last of the latest entries that name it and tell a status: status, time, evidence and location, for which a delivered part falls back on the shipment's final location; without one nothing is known |
| KoliStructure.KnownAre | crates/shipflow-core/src/parser.rs:373-386 | the known parts are the one that the number itself names and those that some entry names |
| KoliStructure.ParentIs | crates/shipflow-core/src/parser.rs:357-366 | a number that reads as a part has that parent and suffix; any other is its own parent |
| KoliStructure.RequestGoesFirst | crates/shipflow-core/src/parser.rs:344-355 | a requested number that is not blank goes before that of the header; spaces around it do not count |
| KoliStructure.LatestIndexIsLatest | crates/shipflow-core/src/parser.rs:394-402 | the chosen entry is evidence, none is later, and it is the last one of its time |
| KoliStructure.LatestStatus | crates/shipflow-core/src/parser.rs:394-402 | the filters and the maximum choose that entry |
| KoliStructure.OrderChangesNothing | crates/shipflow-core/src/parser.rs:343-439 | permuting a history changes no part, status, evidence or order if, for every known part, all its latest evidence is one entry |
| KoliStructure.OrderMattersIff | crates/shipflow-core/src/parser.rs:394-402 | the evidence chosen for a part is the same in every order of the history if and only if all its latest evidence is one entry |
| KoliStructure.OrderChangesSomething | crates/shipflow-core/src/parser.rs:394-402 | and if a known part has two different latest entries, some permutation changes its description |
| KoliStructure.DistinctTimesIgnoreOrder | crates/shipflow-core/src/parser.rs:343-439 | permuting a history whose entries of one time are one entry changes nothing |
| KoliStructure.AggregateMeans | crates/shipflow-core/src/parser.rs:570-596 | delivered if and only if there are two parts or more and all have proof; partially delivered if and only if some but not all have; in progress if and only if none has and the statuses differ, and else the status that they share; absent if and only if there is one part at most or no status |
| KoliStructure.PartsHaveInferredStatuses | crates/shipflow-core/src/parser.rs:513-537 | a part has proof exactly if its status is delivered, and no part has one of the aggregate's own statuses |
| KoliStructure.InOrder | crates/shipflow-core/src/parser.rs:394-394 | the parts are listed in increasing order of number and upper-case identifier |
| KoliStructure.DescribeAll | crates/shipflow-core/src/parser.rs:393-428 | the list has the part of every known suffix and nothing else, in that order |
| KoliStructure.PopulateShipmentStructure | crates/shipflow-core/src/parser.rs:343-439 | identity from the requested or header number; no known part gives the single default; otherwise the parts of all known suffixes, their number, identifiers and aggregate |
| ManifestPrint.ReadBagRows | crates/shipflow-core/src/manifest_print.rs:190-219 | success gives the items of good rows, with distinct bags, and a tally of count and weight for each product; an error names a defect that the table has |
| ManifestPrint.OptionalIsCore | crates/shipflow-core/src/manifest_print.rs:31-39 | a cell's text is what is left without the spaces around it, the colons in front and the spaces around the rest; a dash, null and undefined are nothing |
| ManifestPrint.WeightOfDecimal | crates/shipflow-core/src/manifest_print.rs:101-116 | digits with one point or comma among them at most weigh their whole part and their fraction |
| ManifestPrint.WeightsAreDecimal | crates/shipflow-core/src/manifest_print.rs:101-116 | and nothing else is a weight |
| ManifestPrint.CountOfDigits | crates/shipflow-core/src/manifest_print.rs:238-240 | digits with or without a plus sign are their number, if 64 bits hold it |
| ManifestPrint.CountsAreDigits | crates/shipflow-core/src/manifest_print.rs:238-240 | and nothing else is a count |
| ManifestPrint.LineIs | crates/shipflow-core/src/manifest_print.rs:242-247 | a recap line is the total exactly if its first cell reads total in any case, and else about the product there |
| ManifestPrint.SummariesAreLines | crates/shipflow-core/src/manifest_print.rs:255-260 | the summaries are the product lines in order, each with its own product, count and weight |
| ManifestPrint.TotalsAreLines | crates/shipflow-core/src/manifest_print.rs:242-245 | the totals are the other lines |
| ManifestPrint.ReadRecap | crates/shipflow-core/src/manifest_print.rs:231-261 | success means that every product line is true of the bags and no product has two lines; an error names a defect that the recap has |
| ManifestPrint.SumTallies | crates/shipflow-core/src/manifest_print.rs:267-267 | the sum over the products is the weight of all bags, in whatever order |
| ManifestPrint.CheckTotals | crates/shipflow-core/src/manifest_print.rs:262-270 | success means that every product has a line and the one total is true |
| ManifestPrint.ValidateManifest | crates/shipflow-core/src/manifest_print.rs:190-270 | accepts if and only if the rows are good, as many as expected, and the recap is true of them; each item then has the number, bag, product, weight, origin and destination of its own row; otherwise names a defect that is there |
| ManifestPrint.DefectsAreRefused | crates/shipflow-core/src/manifest_print.rs:190-270 | no manifest that has one of the defects is acceptable |
| ManifestPrint.AcceptedConserves | crates/shipflow-core/src/manifest_print.rs:190-270 | if accepted, the recap's counts add up to the number of bags, which is the declared total and the expected count, and the weights add up within the tolerance |
| TokenRedaction.RedactTokens | crates/shipflow-core/src/runtime_log.rs:135-161 | the loop computes the redaction that the lemmas are about |
| TokenRedaction.NothingLeaks | crates/shipflow-core/src/runtime_log.rs:135-161 | the output has no prefix followed by sixteen token characters |
| TokenRedaction.UnchangedIffClean | crates/shipflow-core/src/runtime_log.rs:135-161 | a line is unchanged if and only if it has none |
| TokenRedaction.RedactingTwiceIsRedactingOnce | crates/shipflow-core/src/runtime_log.rs:135-161 | redaction is idempotent |
| TokenRedaction.OnlyTokensGo | crates/shipflow-core/src/runtime_log.rs:139-151 | text before a token is kept, and the token goes from its prefix to its last token character |
| TokenRedaction.LegibleIff | crates/shipflow-core/src/runtime_log.rs:140-147 | a token is legible where sf_ is followed by sixteen letters, digits, underscores or dashes |
| TokenRedaction.BreaksAreWrittenOut | crates/shipflow-core/src/runtime_log.rs:123-123 | every line break is written out, each for itself, and everything else stays in its place |
| TokenRedaction.LoggedLineIs | crates/shipflow-core/src/runtime_log.rs:122-133 | a redacted line that fits is logged whole; of a longer one exactly the most characters that fit, and the mark |
| TokenRedaction.BoundLine | crates/shipflow-core/src/runtime_log.rs:122-133 | the loop that goes back to a character boundary cuts behind the most characters that fit into the limit of UTF-8 bytes |
| TokenRedaction.LoggedLinesAreSafe | crates/shipflow-core/src/runtime_log.rs:122-133 | what is logged is one line of bounded length in UTF-8 bytes with no legible token, also when it is cut |
| RotatingLog.WrittenKeepsInv | crates/shipflow-core/src/runtime_log.rs:53-102 | whatever fails, while the file is open no byte is counted that is not in it |
| RotatingLog.CountStaysExactIff | crates/shipflow-core/src/runtime_log.rs:53-66 | the count stays that of the open file if and only if no line stops after some of it was written |
| RotatingLog.CountStaysBounded | crates/shipflow-core/src/runtime_log.rs:53-66 | the count of the open file never exceeds the limit or the longest line |
| RotatingLog.SuccessAppends | crates/shipflow-core/src/runtime_log.rs:53-66 | a successful write puts its whole line last and loses at most the old backup |
| RotatingLog.WrittenIff | crates/shipflow-core/src/runtime_log.rs:53-88 | a line is written if and only if the write does not stop and the file is open and has room, or has not and no step of the rotation fails; a rotated file then has that line alone, and the old one is the backup |
| RotatingLog.OneCallKeeps | crates/shipflow-core/src/runtime_log.rs:53-102 | whatever fails, a call drops at most what was in the backup and adds what it writes behind the rest; it drops all that could be read if and only if it rotates as far as the removal while nothing is in the active file |
| RotatingLog.RetainedIsTheEnd | crates/shipflow-core/src/runtime_log.rs:53-102 | in every run, whatever fails: what can be read is the end of what could be read at first followed by what the calls wrote |
| RotatingLog.NeverLostWithoutFailedReopening | crates/shipflow-core/src/runtime_log.rs:68-88 | in every run without a failed reopening no call drops all that could be read |
| RotatingLog.FailedReopeningLosesTheLog | crates/shipflow-core/src/runtime_log.rs:80-102 | either failure of a reopening, before the file is created or at its permissions, is enough: the next line that is written is then the only one left |
| RotatingLog.OpeningKeeps | crates/shipflow-core/src/runtime_log.rs:31-50 | opening drops only the oldest part, and never all of it if the limit is positive; an open file is counted exactly, and is beyond its limit if and only if it was so before and its size could not be told |
| RotatingLog.OpenedIff | crates/shipflow-core/src/runtime_log.rs:31-50 | the file is opened if and only if nothing that opening it takes fails; a full one is the backup then |
| RotatingLog.RotatingLogFile.constructor | crates/shipflow-core/src/runtime_log.rs:31-50 | opening rotates a full file away, unless its size cannot be told, and reads the count from the open file; it may fail at the directory, the rotation, the creation, the permissions or that size |
| RotatingLog.RotatingLogFile.Rotate | crates/shipflow-core/src/runtime_log.rs:68-102 | the file operations up to the one that fails |
| RotatingLog.RotatingLogFile.WriteLine | crates/shipflow-core/src/runtime_log.rs:53-66 | the method takes the step that the lemmas are about, also if the write stops half way or its flush fails, and keeps the invariant |
| ServiceRestart.RemembersExactlyIff | electron/main/service-restart-policy.ts:12-27 | the policy remembers exactly the crashes of the window at every crash if and only if the clock is steady: a crash reported between two that are within one window of each other is within the window of both |
| ServiceRestart.ForwardIsSteady | electron/main/service-restart-policy.ts:12-27 | a clock that does not go back is steady |
| ServiceRestart.GrantedExactlyIfFew | electron/main/service-restart-policy.ts:12-27 | with a steady clock: a restart is granted exactly if this is at most the fifth crash in the closed two minutes that end with it, with the attempt and delay of that number |
| ServiceRestart.AtMostFiveRestarts | electron/main/service-restart-policy.ts:12-27 | no closed two-minute window, wherever it begins, sees more than five restarts, if between two crashes within one window of each other the clock is never a window ahead of the first |
| ServiceRestart.SteadyKeepsClose | electron/main/service-restart-policy.ts:12-27 | a steady clock is never a window ahead in that sense |
| ServiceRestart.BoundHoldsIff | electron/main/service-restart-policy.ts:12-27 | the bound of five holds of all crashes reported at readings of a clock, any number at each, if and only if the clock is never a window ahead in that sense |
| ServiceRestart.ClockSetBackEarnsMore | electron/main/service-restart-policy.ts:14-16 | for any three readings of which the second is more than a window ahead of the first and the third within one of it: five crashes at the first, one at each of the others, and a sixth restart is granted in one window |
| ServiceRestart.ServiceRestartPolicy.RegisterCrash | electron/main/service-restart-policy.ts:12-27 | the shifting loop drops the outdated front of the list, and the answer is that of the new list |
| ServiceRestart.Run | electron/main/service-restart-policy.ts:9-32 | a run of the object gives the answers that the bounds are about |
| RendererRecovery.RemembersExactlyIff | electron/main/renderer-recovery.ts:16-25 | under every maximum the policy remembers exactly the accepted attempts of the window, at every attempt of a run, if and only if the clock is steady: between an attempt and one less than a window later it is never a window ahead |
| RendererRecovery.ForwardIsSteady | electron/main/renderer-recovery.ts:16-25 | a clock that does not go back is steady |
| RendererRecovery.AcceptedExactlyIfRoom | electron/main/renderer-recovery.ts:16-25 | with a steady clock an attempt is accepted exactly if fewer than the maximum of accepted ones are still inside the window |
| RendererRecovery.AtMostMaxRecoveries | electron/main/renderer-recovery.ts:16-25 | no half-open window, wherever it begins, sees more recoveries than the maximum, if between two attempts less than a window from each other the clock is never a window ahead of the first |
| RendererRecovery.SteadyKeepsClose | electron/main/renderer-recovery.ts:16-25 | a steady clock is never a window ahead in that sense |
| RendererRecovery.BoundHoldsIff | electron/main/renderer-recovery.ts:16-25 | the bound holds of all attempts made at readings of a clock, any number at each, if and only if the maximum is one at most or the clock is never a window ahead in that sense |
| RendererRecovery.ClockSetBackEarnsMore | electron/main/renderer-recovery.ts:16-25 | for any three readings of another clock and a maximum of two or more: one recovery more in one window |
| RendererRecovery.RefusedOnlyWhenFull | electron/main/renderer-recovery.ts:20-22 | with a steady clock an attempt is refused only when just the maximum of accepted ones are inside |
| RendererRecovery.RendererRecoveryPolicy.RegisterAttempt | electron/main/renderer-recovery.ts:16-25 | the attempts still inside are kept, and the new one added if there is room |
| RendererRecovery.Run | electron/main/renderer-recovery.ts:8-25 | a run of the object gives the answers that the bounds are about |

## Left out

Managed deployment:

- A container that stops or restarts by itself, Docker restart policies and commands of a user outside ShipFlow; a delayed effect of a command that was reported as failed.
- Readiness probing, signatures, image loading, volume creation and labels: an answer of Docker is a free choice; a container is known by a counter instead of a hash, and foreign containers under the three names do not occur.
- Files on the data volume other than the three sqlite stores, and the volume's contents after a first deployment that failed (without an active deployment nothing is restored).
- A journal written before `wasRunning` existed (`undefined` counts as true); the journal's phase, error, configuration and failure log.
- DockerWriteFaults.RecoveryPossibleUnderFaults: a write that fails is one that has not replaced the file; the contrary, a rename that takes effect and is reported as failed, is not modelled.
- DockerCompletion.RecoveryAlwaysPossible: says that a recovery can complete, not that it will: a command may fail again each time.
- ConfigArchive.RoundTrip: the payload is given as bytes; the JSON encoding is not modelled.

Caches and lookups:

- SQLite, the JSON encoding of snapshots (its length is a field), Tokio, the in-memory fallback, diagnostics and the migration of the legacy contact store.
- Names and addresses of contacts: only the two phone slots.
- The single-flight protocol of the contact cache, which has the same two functions as that of the bag routes.
- ContactCache.TableAgrees: for a clock past the epoch that does not go back.
- BagRouteFlight.WaitersReuseTheOutcome: for rows that are not evicted for capacity in between, and clocks past the epoch; `retry_due` is taken at the time of the read.
- BagRouteFlight.CallStepsAreBounded: bounds the steps; that Tokio goes on scheduling a call that can take one is assumed.
- `acquire_lookup_permits`, `lookup_cache` and the limiters' queues: acquiring a permit succeeds or fails.
- BagRouteEnrichment.Enrich: workers are not interleaved with each other beyond their order of completion.

Electron:

- Child processes behind a client, windows' contents, updater, tray and menus; what `finalize` does.
- WorkspaceHosts.NoOrphanHost: is about client objects; turns of the event loop are atomic, and a start may resume at any later turn.

Workspace host and core crate:

- Lookups are functions of the index; timeouts and the shared import limiter are part of a lookup's result.
- BatchDispatch.FetchWithProgress: workers that `abort_all` cancels count as gone at once.
- `usize` saturation in the preview registry's count; a poisoned lock; a preview task that is dropped before it completes.
- HTML, CSS selectors and URLs; how phrases, dates, persons, coordinates and locations are taken out of a history entry: entries arrive taken apart, and a location in a detail is a function of the detail. Fields that `build_history_summary` always leaves empty are not listed.
- Case and white space are those of ASCII; other letters are left as they are.
- ManifestPrint.ValidateManifest: weights are real numbers, so rounding and overflow of `f64` are not modelled; bag identifiers are normalised by a given function; the metadata and route headings before the tables are left out.
- RotatingLog.RotatingLogFile.WriteLine: file contents are characters that stand for bytes; a file that is changed by somebody else while it is open is not modelled.
- `manifest_date_from_id` and `resolve_manifest_print_link`.
