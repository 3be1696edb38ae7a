# MakerHub: models and proofs of its shared-state cores

MakerHub archives MakerWorld models on a NAS. An app and a worker share JSON state and a model table; the hard
logic is in how several sessions, callers and recovery passes change that state, and in when they keep each other's
work. This project models those cores in Dafny 4.11 and proves what they keep, and exactly when they do not.

Each module follows one part of the program. Code that changes state is a class or a method with the loops of the
source, proved equal to a specification function; what the source promises is then proved about that function, over
all inputs, all runs or all interleavings.

| module | part of the program |
|---|---|
| `ConfigMerge`, `ConfigStore` | three-way merge of configuration trees; load, save and update by any number of sessions |
| `LoginLimiter` | sliding-window login limiter with locks, pruning and a key cap |
| `SessionCache` | session store with a generation counter and per-process caches; lookups as four interleaved steps |
| `TestScheduler` | coalescing background test of online accounts, one lane per platform |
| `ThreeMfGate`, `GateOverlap` | the 3MF gate of a platform as archive results come in, one at a time and overlapping |
| `ModelIndex`, `IndexRepair` | short keys of the model table; incremental repair against full rebuild |
| `CookieHeader`, `CookieReading` (over `Text`) | cookie header normaliser and parser, and which cookies of a raw text they read; cookie-string of section 4.2.1 of RFC 6265, name alphabet the token of section 3.2.6 of RFC 7230 |
| `BatchItems`, `BatchRefresh` | one refresh of the batch tasks: classify every expected item, enqueue lost ones again |
| `BatchQueue`, `BatchRestore`, `BatchMerge`, `BatchRecovery`, `BatchTracking`, `BatchOverlap`, `ArchiveQueues` | the three recovery passes that open every refresh of the archive queue, alone, together and beside other users of the queue; what the parents track afterwards |
| `ProbePicker` | which queued task runs next, and promotion of a 3MF task to a probe |
| `IdleRetry`, `IdleScheduler` | grouping of missing 3MF records and the retry of an idle worker |
| `Wrappers`, `Platforms` | options, results, sequences; the two sites |

`dafny verify dfyconfig.toml` checks the whole project.

## Where the code does less than one might expect

Each of these is proved, with the exact condition.

- The limiter keeps `8 * (T / 900 + 1)` over every span of T seconds, from every reachable state, exactly when T is under
  300, from 900 to under 1500, or from 1800 on (`LoginLimiter.SpanBoundedExactlyWhen`). Otherwise a span that opens late
  in a window exceeds it: nine allowed attempts in 300 seconds, seventeen in 1500. From a key's first attempt the bound
  holds for every T (`LoginLimiter.FreshKeyBound`).
- Deleting a session that the store has already swept moves no generation. A lookup that starts later can still be given
  the session exactly when its process has it cached, or another lookup there has read it and will cache it without a
  touch (`SessionCache.AbsentGivenExactlyWhen`); and then only past its end (`SessionCache.AbsentReturnsOnlyExpired`).
- The writers of the 3MF gate read, load and save in separate steps, and save both platforms. A result's save sets the
  other platform back to what it was at its load, and leaves it as it was exactly when it is that still
  (`GateOverlap.OtherPlatformKeptExactlyWhen`); it can open a gate again that was closed in between
  (`GateOverlap.StaleSaveReopens`). A failure that writes closes its gate exactly when the gate was not open, or isolated
  another target, at the moment it decided (`GateOverlap.FailureClosesExactlyWhen`), so two different targets may fail
  and leave it open (`GateOverlap.OverlappingFailuresLeaveItOpen`).
- The third recovery pass reads the queue and saves it whole later. If it found duplicates, and exactly then, a task
  enqueued in between is lost, a lease is undone and a task that has left is back (`BatchOverlap.SavedExactly` and the
  three lemmas after it).
- A save is refused when another session deleted a key this session left alone, while the opposite order is accepted
  (`ConfigMerge.SwapRefusedExactlyOnDeletion`).
- Saving the same object twice stores its stale data; it undoes nothing exactly when no other session had changed
  what it left alone (`ConfigStore.SecondSaveOfSameObject`), and the same holds leaf by leaf when others save in between
  (`ConfigStore.SecondSaveAfterOthers`).
- A request for a test is dropped exactly when it asks for the active cookie while an empty one is pending
  (`TestScheduler.RequestDroppedExactlyWhen`).
- A status update between two failures of one target can close its gate or not, depending on the target it names
  (`ThreeMfGate.StatusUpdateForgetsTarget`).
- A removed row's local short key is given to another model, sooner or later, exactly when no remaining row has a local
  number as large (`ModelIndex.LocalKeyIsReused`).
- The cache serves a session past its end for more than its fifteen seconds exactly when it was cached after that end
  (`SessionCache.ExpiredServedBriefly`, `SessionCache.ServedLongAfterItsEnd`).
- A restored batch parent tracks what its children say and nothing else; a failed parent of the same id gives way to it
  and its other items are forgotten (`BatchRecovery.RestoredTracksItsChildren`, `BatchRecovery.RestoringForgets`).
- Merging parents lets the later candidate's attempts win (`BatchQueue.LastCandidateWins`), so the retry bound holds
  per parent and over refreshes only.
- Two probes of one platform run at once exactly when a lease finds a task already flagged first in line while a probe is
  active (`ProbePicker.OneProbeExactlyWhen`); resuming two tasks after each other is enough
  (`ProbePicker.ResumedProbesRunTogether`).
- Promotion to a probe never happens under the gates that the program itself stores: it stores an unknown gate only after
  a change of login, and such a gate is open (`ProbePicker.WrittenGatesPromoteNothing`).
- When nobody else uses the queue, a failed task that tracks nothing is lost in recovery exactly when an active or queued
  task names it as its parent (`BatchRecovery.OthersSurvive`).

## Assumptions of the recovery theorems

The theorems of `BatchRecovery` speak of the three passes with nobody else using the queue in between; `BatchOverlap` says
what others' changes between the read and the save of the third pass come to.

`BatchRecovery.WellFormed`: ids are unique and not empty; a parent names no source page of its own and its items have
task keys; a live child names its parent and its page together and can be tracked; a live parent of some child tracks a
batch, and a parent that tracks one tracks the batch its children were made for; children of one parent name one page.
Recovery keeps all of this (`BatchRecovery.RecoveryKeepsWellFormed`).

## Model

| member | source | states |
|---|---|---|
| `ConfigMerge.MergeObeysPathLaws` | app/core/store.py:35-70 | at every path, missing included, the merged tree takes the side that changed and keeps every leaf edit of either side |
| `ConfigMerge.NothingUnseenOverwritten` | app/core/store.py:35-70 | a leaf edit only replaces a value its author had seen, or that same value |
| `ConfigMerge.PathLawsDetermineMerge` | app/core/store.py:35-70 | the path laws leave one possible result |
| `ConfigMerge.RefusedExactlyOnConflict` | app/core/store.py:35-70 | the merge is refused if and only if some path below diverging maps cannot be reconciled |
| `ConfigMerge.MergeCommutes` | app/core/store.py:35-70 | when both orders of two edits merge, they give the same tree |
| `ConfigMerge.SwapRefusedExactlyOnDeletion` | app/core/store.py:48-61 | when one order merges, the other is refused exactly if a side deleted what the other left alone |
| `ConfigMerge.UntouchedDeletionIsRefused` | app/core/store.py:60-61 | a concurrent deletion of an untouched key is a conflict |
| `ConfigMerge.MergeConfigChanges` | app/core/store.py:35-70 | the key loop computes the merge, and a refusal names a path in conflict |
| `ConfigMerge.MergeKey` | app/core/store.py:44-67 | one key of the loop: added, popped, recursed into or refused |
| `ConfigStore.StepSound` | app/core/store.py:145-247 | a commit changes only paths its session edited, writes all its leaf edits, over values it had read |
| `ConfigStore.RunIsChained` | app/core/database.py:591-636 | the commits of any run form a chain from the first payload to the last, one revision each, each of them sound |
| `ConfigStore.NoLostUpdate` | app/core/store.py:168-204 | over every interleaving, what a commit wrote stays until a session that edited that very path replaces it, having read it |
| `ConfigStore.BaselinesWereStored` | app/core/store.py:142-166 | every baseline was stored before, and before any commit made from it |
| `ConfigStore.EditsAreSaved` | app/core/store.py:145-204 | whatever other sessions do between a load and a save, the save merges exactly the edits since the load into the payload stored by then, or changes nothing when they conflict with it |
| `ConfigStore.UpdateSays` | app/core/store.py:206-247 | an update changes the payload stored at that moment, unless the store has moved on from the revision it names |
| `ConfigStore.SecondSaveOfSameObject` | app/core/store.py:201 | saving a stale object again, with nothing stored in between, stores exactly its data; harmless exactly when nobody changed what it left alone |
| `ConfigStore.SecondSaveAfterOthers` | app/core/store.py:201 | with anything stored in between, a second save keeps the latest value of a leaf its session left alone exactly if nobody changed that leaf before the first save, and otherwise writes the stale value |
| `ConfigStore.JsonStore.Load` | app/core/store.py:145-166 | returns the latest payload or the stored defaults, and remembers it as baseline |
| `ConfigStore.JsonStore.Save` | app/core/store.py:168-204 | commits the merge of baseline, latest and desired, or changes nothing and names a conflict |
| `ConfigStore.JsonStore.Update` | app/core/store.py:206-247 | commits the mutated latest payload, unless the expected revision has passed |
| `LoginLimiter.FreshKeyBound` | app/services/auth.py:338-365 | from a key's first attempt at most eight attempts are allowed per window begun |
| `LoginLimiter.AnySpanBound` | app/services/auth.py:294-313 | from any reachable state: one attempt per lock period, four per window, and eight; or eight per window begun and what is left of the open window's eight |
| `LoginLimiter.SpanBoundedExactlyWhen` | app/services/auth.py:294-365 | eight attempts per window begun is a bound over a span, after any past, if and only if its length is under 300 s, from 900 to under 1500 s, or from 1800 s on |
| `LoginLimiter.TenAttemptsInTenMinutes` | app/services/auth.py:294-313 | ten allowed attempts within 600 seconds, from a reachable state |
| `LoginLimiter.TimeToWaitIsTrue` | app/services/auth.py:256-263 | an answer names the time to wait truly: after any past and whatever other keys request in between, the key is allowed again at every time from a second after the wait on and refused at every time before its end; a refusal names at least a second, a lock 300 |
| `LoginLimiter.AttemptIsRecorded` | app/services/auth.py:294-313 | an allowed attempt is one more in its window or the first of a new one, and from the fifth on it locks its key for 300 seconds |
| `LoginLimiter.SweptExactly` | app/services/auth.py:265-276 | a reservation forgets exactly the other entries that are not locked and were not seen for more than half an hour |
| `LoginLimiter.PruningUnobservable` | app/services/auth.py:265-276 | the pruning limiter answers every request sequence as one that never prunes |
| `LoginLimiter.KeysUnderCap` | app/services/auth.py:279-291 | without a cap the table stays within it while no more keys than it allows are requested |
| `LoginLimiter.CapUnobservable` | app/services/auth.py:279-313 | while no more keys are requested than the cap allows, a run of the capped limiter answers and ends as one without a cap |
| `LoginLimiter.ReserveKeepsValid` | app/services/auth.py:294-313 | every reachable entry has its attempts inside its window, a lock period apart from the fifth on |
| `LoginLimiter.OldestKey` | app/services/auth.py:279-291 | the evicted key is one seen no later than any other |
| `LoginLimiter.Limiter.Prune` | app/services/auth.py:265-276 | removes exactly the stale entries |
| `LoginLimiter.Limiter.Cap` | app/services/auth.py:279-291 | evicts down to the cap, never a later-seen entry before an earlier one, never the preserved key |
| `LoginLimiter.Limiter.ReserveAttempt` | app/services/auth.py:338-365 | allows and records, or refuses with the time to wait |
| `LoginLimiter.Limiter.Clear` | app/services/auth.py:367-381 | forgets one key and no other |
| `SessionCache.CacheCoherent` | app/services/auth.py:179-203 | after any interleaving a cache entry of the stored generation names a session still stored as cached, or expired |
| `SessionCache.RevokedNeverReturned` | app/services/auth.py:402-423 | no lookup that starts after a delete or clear-all commits returns the revoked session, in any process |
| `SessionCache.AbsentReturnsOnlyExpired` | app/services/auth.py:402-414 | a lookup that starts while the session is not stored returns nothing, or a session past its end |
| `SessionCache.AbsentGivenExactlyWhen` | app/services/auth.py:425-468 | a lookup that starts while its session is not stored can be given it if and only if its process has it freshly cached at the stored generation, or another lookup there has read it at that generation and will cache it without a touch |
| `SessionCache.ExpiredReturnedAfterDelete` | app/services/auth.py:205-218 | an instance: an expired session returned after a delete that found nothing |
| `SessionCache.ExpiredServedBriefly` | app/services/auth.py:179-203 | an expired session is served for less than 15 seconds plus the time its own lookup took; for less than 15 exactly when it was cached before its end |
| `SessionCache.ServedLongAfterItsEnd` | app/services/auth.py:425-468 | a lookup that stalls before caching has its session served 114 seconds past its end |
| `SessionCache.StoredStays` | app/services/auth.py:205-218 | a session stays stored, with its end, through every event but its own delete and a clearing of all, until its time is over |
| `SessionCache.StoredIsGiven` | app/services/auth.py:425-468 | a lookup of a stored session that is answered before its end is given it, whatever other logins, lookups, touches and deletes come in between |
| `SessionCache.CreatedIsGiven` | app/services/auth.py:383-468 | after any past a new session is stored for fourteen days unless it is revoked, and given to every lookup of it in that time |
| `SessionCache.UndisturbedIsAnswered` | app/services/auth.py:425-468 | the four steps of a lookup of a stored session, with any others in progress, answer it with a session |
| `SessionCache.AuthManager.PruneSessions` | app/services/auth.py:205-218 | removes exactly the expired sessions |
| `SessionCache.AuthManager.CreateSession` | app/services/auth.py:383-400 | stores the session and moves the generation |
| `SessionCache.AuthManager.DeleteSession` | app/services/auth.py:402-414 | removes the session, moves the generation if it was stored, and forgets the cached one |
| `SessionCache.AuthManager.ClearAllSessions` | app/services/auth.py:416-423 | removes all sessions and moves the generation |
| `SessionCache.AuthManager.CachedSession` | app/services/auth.py:179-192 | answers only from an entry that is fresh and of the given generation |
| `SessionCache.AuthManager.TouchSession` | app/services/auth.py:448-463 | a touch sweeps expired sessions, marks this one seen and moves the generation |
| `SessionCache.AuthManager.GetSession` | app/services/auth.py:425-468 | an undisturbed lookup is its four steps in a row |
| `TestScheduler.AlwaysOneWorker` | app/api/config.py:2332-2382 | in every interleaving each platform has at most one worker, and pending implies running |
| `TestScheduler.AlwaysLatestDue` | app/api/config.py:2332-2382 | with non-empty cookies the one requested last is always pending, or active if none is pending |
| `TestScheduler.LastRequestedIsLastTested` | app/api/config.py:2350-2375 | when a worker exits, the cookie tested last is the one requested last |
| `TestScheduler.RequestDroppedExactlyWhen` | app/api/config.py:2336-2343 | exactly which request is dropped |
| `TestScheduler.ComesToRest` | app/api/config.py:2350-2382 | left alone, a running platform comes to rest after at most one more test, with the cookie requested last tested last; the other platform does not notice |
| `TestScheduler.DueRequestAddsNoTest` | app/api/config.py:2336-2348 | a request for the cookie that is due begins no test and leaves none to begin; any other becomes due, at once if nothing runs |
| `TestScheduler.WorkerTakesWhatIsPending` | app/api/config.py:2368-2375 | a worker whose test is over tests the pending cookie, or ends |
| `TestScheduler.OnlineAccountTests.Schedule` | app/api/config.py:2332-2348 | the locked part of scheduling, and whether a worker starts |
| `TestScheduler.OnlineAccountTests.TakeNext` | app/api/config.py:2368-2375 | the locked part of the worker's loop |
| `ThreeMfGate.ClosesOnSecondTarget` | app/services/archive_worker.py:677-775 | for results that do not overlap: from an open gate that isolates nothing, failures and resets leave it closed if and only if two different targets failed since the last reset |
| `ThreeMfGate.OtherPlatformUntouched` | app/services/archive_worker.py:677-775 | results of one platform that do not overlap with the other's never touch the other's snapshot |
| `ThreeMfGate.StatusUpdateForgetsTarget` | app/services/account_health.py:129-163 | an instance of the memory below: what one status update, network error or check between two failures does to the gate |
| `ThreeMfGate.UnknownAfterLogin` | app/services/account_health.py:129-347 | whatever the writers do, a stored gate is unknown only since a change of login |
| `ThreeMfGate.FailureSays` | app/services/archive_worker.py:677-755 | what a result with a failure makes of its platform: a site challenge closes at once, an authorization excuses all else, the first failing instance is noted, and any other failure closes the gate with the state that names what is wrong |
| `ThreeMfGate.NoFailureSays` | app/services/archive_worker.py:756-765 | a result without a failure opens the gate after a retry or recovery that left nothing missing, and else changes nothing |
| `ThreeMfGate.ErrorsAndLoginsSay` | app/services/account_health.py:273-347 | a network error opens a gate that was open or in doubt; a change of login puts any gate in doubt but a daily limit |
| `ThreeMfGate.FirstFailureIs` | app/services/archive_worker.py:638-650 | the first item that says something about the account, or none does |
| `ThreeMfGate.AccountFailure` | app/services/archive_worker.py:638-650 | the first missing item that names an account failure |
| `ThreeMfGate.AccountHealth.UpdateThreeMfGate` | app/services/account_health.py:166-202 | undisturbed, sets gate, reason and target of one platform only |
| `ThreeMfGate.AccountHealth.UpdateAccountHealth` | app/services/account_health.py:129-163 | undisturbed, sets status and target of one platform, keeping gate and reason |
| `ThreeMfGate.AccountHealth.MarkAccountOk` | app/services/account_health.py:241-270 | undisturbed, opens the gate and forgets the isolated target |
| `ThreeMfGate.AccountHealth.SyncArchiveResult` | app/services/archive_worker.py:677-775 | one archive result, undisturbed by others, moves its platform's snapshot as specified |
| `GateOverlap.StoredIsReplayed` | app/services/archive_worker.py:677-775 | over any number of results and writers in flight, a stored snapshot is, up to its health status, what a chain of effects makes one after the other, each decided with the ones before in sight |
| `GateOverlap.GateHoldsExactlyWhen` | app/services/archive_worker.py:677-775 | over any number of results and all writers in flight, a stored gate holds tasks back if and only if its chain has a closing effect, a failure that always closes or one that met another target's memory, that no opening or change of login has ended since |
| `GateOverlap.ChainHoldsExactlyWhen` | app/services/account_health.py:129-347 | the same for results and all writers one after the other |
| `GateOverlap.FailureClosesExactlyWhen` | app/services/archive_worker.py:713-757 | a verification failure that writes closes the gate if and only if the gate it read was not open or isolated another target, whatever was saved since |
| `GateOverlap.OtherPlatformKeptExactlyWhen` | app/services/account_health.py:181-202 | a save leaves the other platform's snapshot as it was if and only if that is still what it was at the load; so if nothing was saved in between |
| `GateOverlap.OneByOneIsRun` | app/services/archive_worker.py:677-775 | results that do not overlap make the atomic runs of the theorems about targets and platforms |
| `GateOverlap.AloneIsSync` | app/services/archive_worker.py:677-775 | an undisturbed result's reads, loads and saves come to its one atomic step |
| `GateOverlap.AloneIsWrite` | app/services/account_health.py:129-347 | an undisturbed writer is its one atomic step; marking an account well takes two loads and saves, any other writer one |
| `GateOverlap.OverlappingFailuresLeaveItOpen` | app/services/archive_worker.py:713-746 | two failures of different targets that decide before either saves leave the gate open |
| `GateOverlap.StaleSaveReopens` | app/services/account_health.py:181-202 | a save loaded earlier opens the other platform's gate that was closed in between |
| `GateOverlap.OneTargetClosesInsideReset` | app/services/account_health.py:241-270 | between the two writes of a reset a second failure of one target closes the gate exactly if the reset names another |
| `GateOverlap.UnknownStillAfterLogin` | app/services/account_health.py:129-347 | overlapping writers too leave a gate unknown only since a change of login |
| `ModelIndex.ShortKeysResolve` | app/services/archive_model_index.py:421-458 | after any changes to an empty table short keys are unique, well shaped, and resolve to their row's directory |
| `ModelIndex.ShortKeyIsStable` | app/services/archive_model_index.py:351-363 | a short key stays with its row until the row is removed |
| `ModelIndex.LocalKeyIsReused` | app/services/archive_model_index.py:316-363 | after a removal, some run of upserts gives a local key to another row if and only if every remaining row has a smaller local number |
| `ModelIndex.FirstLocalKeyTwice` | app/services/archive_model_index.py:316-363 | from an empty table: the first local key is given, removed with its row and given to another |
| `ModelIndex.NewKeySays` | app/services/archive_model_index.py:291-363 | a new key names the site and number of its model, unless another row has that key, or is a local number above all others, from 100001 on |
| `ModelIndex.DigitsKept` | app/services/archive_model_index.py:293 | the number in a key is all the digits of the id and nothing else |
| `ModelIndex.ShapeExactlyWhen` | app/services/archive_model_index.py:421-431 | a text is taken for a short key exactly when digits follow lower-case letters, and these are one of the three prefixes if they start with one |
| `ModelIndex.DecimalReadsBack` | app/services/archive_model_index.py:303-313 | a local number reads back from its decimal text |
| `ModelIndex.NextLocalShortKey` | app/services/archive_model_index.py:316-325 | one more than the largest local number in the table |
| `ModelIndex.Table.AssignShortKey` | app/services/archive_model_index.py:351-363 | own key, else the site's key unless another row has it, else a new local one |
| `ModelIndex.Table.UpsertRow` | app/services/archive_model_index.py:461-592 | changes one row and moves the revision |
| `ModelIndex.Table.DeleteRows` | app/services/archive_model_index.py:603-629 | removes the rows named, moving the revision only if there were any |
| `IndexRepair.RepairFixesExactlyTheParsable` | app/services/archive_model_index_rebuild.py:141-229 | a repair leaves stale exactly the rows whose file cannot be parsed, and changes no other row |
| `IndexRepair.RepairRefinesRebuild` | app/services/archive_model_index_rebuild.py:232-331 | a failure-free repair equals a forced rebuild on the indexed directories, up to short keys |
| `IndexRepair.RebuildIsFaithful` | app/services/archive_model_index_rebuild.py:232-331 | a rebuild holds exactly the files that parse, none stale |
| `IndexRepair.UnforcedRebuildLeaves` | app/services/archive_model_index_rebuild.py:278-302 | a rebuild that is not forced leaves stale exactly the stale rows whose file is gone or cannot be parsed |
| `IndexRepair.StaleExactlyWhen` | app/services/archive_model_index.py:265-270 | a row is stale exactly when its file has another time or size, or is gone while the row knows one |
| `IndexRepair.LoadStale` | app/services/archive_model_index.py:745-796 | loading lists exactly the stale rows |
| `IndexRepair.RepairOne` | app/services/archive_model_index_rebuild.py:178-212 | one directory is updated, deleted or failed |
| `IndexRepair.RepairIndex` | app/services/archive_model_index_rebuild.py:141-229 | the loop computes the repair and counts each directory once |
| `IndexRepair.RebuildIndex` | app/services/archive_model_index_rebuild.py:232-331 | skipped when complete and not forced; otherwise the loop computes the rebuild, over an emptied table if forced, and sets the marker exactly if nothing failed |
| `CookieHeader.SanitizedPairsAreCookies` | app/services/cookie_utils.py:10-50 | every pair the sanitiser keeps has a token for a name and no control character or semicolon in its value |
| `CookieHeader.RenderRoundTrip` | app/services/cookie_utils.py:10-50 | rendered pairs read back as the same pairs |
| `CookieHeader.SanitizeIsNormaliser` | app/services/cookie_utils.py:10-50 | sanitising twice is sanitising once, and parsing does not notice it, for every input |
| `CookieReading.LinesAddUp` | app/services/cookie_utils.py:16-43 | the cookies of two texts around a line end, of either kind, are those of the first and then those of the second |
| `CookieReading.PrefixedRoundTrip` | app/services/cookie_utils.py:27-28 | rendered pairs behind the name of the cookie header, in any case and with any spaces, read back as the same pairs |
| `CookieReading.CookieLineIsRead` | app/services/cookie_utils.py:27-43 | behind that name a line is read part by part |
| `CookieReading.OtherHeaderIsIgnored` | app/services/cookie_utils.py:29-32 | a line that is another header, or has spaces before its colon, holds no cookies |
| `CookieReading.HeaderLineExactlyWhen` | app/services/cookie_utils.py:6 | a line is a header exactly when letters, digits and hyphens, then white space, then a colon open it |
| `CookieReading.PlainLineIsRead` | app/services/cookie_utils.py:26-34 | a line that is no header is read as if it stood behind the name of the cookie header |
| `CookieReading.PartsAddUp` | app/services/cookie_utils.py:40 | parts around a semicolon are read one by one |
| `CookieReading.SpacedPartIsRead` | app/services/cookie_utils.py:41-48 | a part holds its cookie whatever spaces stand around its name and value |
| `CookieReading.MalformedPartIsIgnored` | app/services/cookie_utils.py:42-47 | a part without an equals sign, or whose name is no token, holds none |
| `CookieReading.MarkIsNotRead` | app/services/cookie_utils.py:15 | a byte order mark is not read, wherever it stands |
| `CookieHeader.SanitizeCookieHeader` | app/services/cookie_utils.py:10-50 | the two loops compute the sanitised header |
| `CookieHeader.ParseCookieValues` | app/services/cookie_utils.py:53-62 | the loop returns the last value of each sanitised name |
| `BatchRefresh.RefreshConserves` | app/services/archive_worker.py:2073-2176 | every item ends in exactly one of four states, the counts add up, and a batch is done exactly when none runs or waits |
| `BatchRefresh.RefreshExplainsStatus` | app/services/archive_worker.py:2073-2176 | what each status says about where the item's key was found |
| `BatchRefresh.EachItemGoesItsWay` | app/services/archive_worker.py:2073-2176 | exactly what becomes of each item, given the keys queued by the items before it: a failed one goes again only after a transient failure and below five attempts, a lost one below three, or below five if its last failure was transient; otherwise it ends failed with its attempts unchanged; and what its last failure is then |
| `BatchRefresh.BatchesInTurn` | app/services/archive_worker.py:2030-2230 | each batch is refreshed with the keys in sight that the batches before it enqueued |
| `BatchRefresh.EnqueuedInTurn` | app/services/archive_worker.py:2030-2230 | what a refresh enqueues is what its batches enqueue, one after the other |
| `BatchRefresh.EachKeyOncePerRefresh` | app/services/archive_worker.py:2015-2230 | over all batches of a refresh no key is enqueued twice, nor one that runs, waits or is archived |
| `BatchRefresh.RetryBound` | app/services/archive_worker.py:1601-1646 | over all refreshes attempts grow by one per enqueueing and never pass five, so an item that starts at one is enqueued again at most four times |
| `BatchRefresh.BoundIsReached` | app/services/archive_worker.py:1601-1646 | five refreshes that find only a transient failure use all four |
| `BatchRefresh.RefreshBatch` | app/services/archive_worker.py:2054-2230 | the loop computes the refresh, its progress and whether the batch is done |
| `BatchRefresh.RefreshItems` | app/services/archive_worker.py:2073-2176 | the item loop computes the refresh and its tallies |
| `BatchQueue.MergeTracksOnce` | app/services/archive_worker.py:1687-1701 | merged item lists track every non-empty key that occurs exactly once |
| `BatchQueue.LastCandidateWins` | app/services/archive_worker.py:1700 | the tracked item is the last candidate with its key, attempts included |
| `BatchQueue.MergeExpectedItems` | app/services/archive_worker.py:1687-1701 | the dictionary and the order list compute the merge |
| `BatchRestore.RestoreQueuedIds` | app/services/archive_worker.py:1822-1856 | restoring queued parents neither loses, adds nor doubles an id |
| `BatchQueue.SamePageSameBatch` | app/services/archive_worker.py:1647-1661 | two parents of one page track one batch when they say the same mode, or one says none and the page stands for the mode of the other; else not |
| `BatchMerge.FirstIsKept` | app/services/archive_worker.py:1713-1731 | the first parent of a batch is never dropped |
| `BatchMerge.OthersAreDuplicates` | app/services/archive_worker.py:1713-1731 | every other parent of it is |
| `BatchRecovery.EveryChildHasItsParent` | app/services/archive_worker.py:1703-1990 | after the three passes every active or queued child has an active or queued parent that tracks its batch |
| `BatchRecovery.OneParentPerBatch` | app/services/archive_worker.py:1703-1820 | ids stay unique and no two parents, failed ones included, share mode and source URL |
| `BatchRecovery.DuplicatesAreTracked` | app/services/archive_worker.py:1788-1805 | the survivor tracks each key of every dropped duplicate exactly once and drops none of its own |
| `BatchRecovery.TrackedItemsAreAccountedFor` | app/services/archive_worker.py:1703-1990 | what any parent of the queue tracked is tracked by its batch's parent afterwards, except exactly for a failed parent that a live task names: its restored parent tracks just what its orphans say, and that is taken over |
| `BatchRecovery.OthersSurvive` | app/services/archive_worker.py:1703-1990 | with nobody else using the queue, a task that tracks nothing keeps its section and everything but its parent, except exactly a failed one that a live task names as its parent |
| `BatchRecovery.RestoredInPlaceExactlyWhen` | app/services/archive_worker.py:1858-1990 | a parent is restored under a failed task's id exactly when a live task names that id |
| `BatchRecovery.RecoveryIsIdempotent` | app/services/archive_worker.py:2015-2018 | recovering a recovered queue changes nothing |
| `BatchRecovery.RecoveryKeepsWellFormed` | app/services/archive_worker.py:2015-2018 | recovery keeps the queue well-formed |
| `BatchRecovery.RestoredTracksItsChildren` | app/services/archive_worker.py:1872-1921 | a restored parent tracks exactly the keys of the orphans that name it |
| `BatchRecovery.RestoringForgets` | app/services/archive_worker.py:1981-1986 | a failed parent's own item is forgotten when its child brings it back |
| `BatchTracking.ChildrenAreFound` | app/services/archive_worker.py:1733-1805 | when a child with a page and a key changes hands in the merge, the one parent of its batch holds its key exactly once, and the last such child of the key decides the attempts, status and failure of the item |
| `BatchTracking.ParentsCarryOver` | app/services/archive_worker.py:1687-1731 | without such a child, the parent ends with what the last parent of the batch, kept or dropped, said of the key |
| `BatchTracking.NothingElseIsHeld` | app/services/archive_worker.py:1788-1805 | and it holds no other key |
| `BatchTracking.OthersUntouched` | app/services/archive_worker.py:1742-1805 | the merge leaves a task exactly as it is that does not change hands and, if it is a parent, is alone with its batch and has nothing to add |
| `BatchTracking.ParentAsChild` | app/services/archive_worker.py:1757-1767 | a parent that is itself a child and changes hands keeps its items as they are |
| `BatchTracking.QueuedParentsReturn` | app/services/archive_worker.py:1822-1856 | after the first pass every queued batch parent waits for its children among the active tasks, and every other task is where it was |
| `BatchTracking.RestoredParentSays` | app/services/archive_worker.py:1872-1947 | a restored parent runs, and its items say of each orphan, and of nothing else, its attempts, section and failure |
| `BatchOverlap.SavedExactly` | app/services/archive_worker.py:1704-1820 | once the third pass saves, each section holds the ids it held when read, without the duplicates', whatever happened since; without duplicates the queue stays as it is |
| `BatchOverlap.EnqueuedIsLostExactlyWhen` | app/services/archive_worker.py:1704-1820 | a task enqueued between read and save is lost if and only if the pass found duplicates |
| `BatchOverlap.LeaseIsUndoneExactlyWhen` | app/services/archive_worker.py:1704-1820 | a task leased in between waits in the queue again, and is active no longer, if and only if the pass found duplicates |
| `BatchOverlap.LeftIsBackExactlyWhen` | app/services/archive_worker.py:1704-1820 | a task that left in between is back if and only if the pass found duplicates and it is none |
| `ArchiveQueues.ArchiveQueue.RestoreQueuedParents` | app/services/archive_worker.py:1822-1856 | the loop computes the first pass |
| `ArchiveQueues.ArchiveQueue.RestoreOrphanedParents` | app/services/archive_worker.py:1858-1990 | the section loops, groups and filter compute the second pass |
| `ArchiveQueues.ArchiveQueue.PlanMerge` | app/services/archive_worker.py:1703-1808 | collecting, rewriting and merging compute what the third pass will save, if it found duplicates |
| `ArchiveQueues.ArchiveQueue.SavePlan` | app/services/archive_worker.py:1810-1820 | the save replaces the whole queue, whatever it is by then |
| `ArchiveQueues.ArchiveQueue.MergeDuplicateParents` | app/services/archive_worker.py:1703-1820 | the third pass when nobody else uses the queue between its read and its save |
| `ArchiveQueues.ArchiveQueue.Recover` | app/services/archive_worker.py:2015-2018 | a refresh opens with the three passes in this order; the result when nobody else uses the queue |
| `ProbePicker.NextExecutable` | app/services/archive_worker.py:3731-3769 | the two-pass picker returns what a one-pass first fit returns; its second pass finds nothing |
| `ProbePicker.FirstFitFacts` | app/services/archive_worker.py:3731-3769 | first fit is the first runnable task, or none runs |
| `ProbePicker.PromoteProbe` | app/services/archive_worker.py:3771-3793 | promotes exactly when the gate is unknown and no probe of the platform is active |
| `ProbePicker.RunsExactlyWhen` | app/services/archive_worker.py:3731-3793 | when a task may run: waiting, due, without children to wait for, its platform not blocked, and its gate open, or in doubt with no probe active, if it is for 3MF files only and no probe |
| `ProbePicker.LeaseTakesFirst` | app/services/task_state.py:2040-2088 | a lease takes the first task that may run and no other, as a probe if its gate was not open |
| `ProbePicker.ArrivalsAndLeavesSay` | app/services/task_state.py:1911-2250 | a task that is added waits in front or at the end; one that completes or fails is taken out and nothing else is |
| `ProbePicker.RequeueSays` | app/services/task_state.py:2252-2302 | an active task that goes back keeps its flag, waits at the end, and replaces the waiting ones of its key |
| `ProbePicker.ResumeSays` | app/services/task_state.py:2597-2656 | a waiting task that is resumed is a probe from now on, and waits in front |
| `ProbePicker.SeenGateSays` | app/services/archive_worker.py:867-917 | which stored gates a task sees as open, and which as in doubt |
| `ProbePicker.ProbesBounded` | app/services/archive_worker.py:3771-3793 | in every run of the queue the active probes of a platform exceed one by at most the tasks queued already flagged |
| `ProbePicker.LeaseDoublesExactlyWhen` | app/services/archive_worker.py:3731-3793 | a lease makes two active probes exactly when the first task that runs is flagged already and another probe is active |
| `ProbePicker.OneProbeExactlyWhen` | app/services/archive_worker.py:3731-3793 | a run never has two active probes of a platform if and only if none of its leases is such a lease |
| `ProbePicker.OneProbePerPlatform` | app/services/archive_worker.py:3771-3793 | without tasks queued flagged at most one probe is active per platform |
| `ProbePicker.ResumedProbesRunTogether` | app/services/task_state.py:2597-2656 | two tasks resumed and leased one after the other run as probes together under a closed gate |
| `ProbePicker.WrittenGatesPromoteNothing` | app/services/archive_worker.py:867-917 | under any gate the program's writers store, no task is held and promoted |
| `ProbePicker.TaskQueue.LeaseNext` | app/services/task_state.py:2040-2088 | a lease moves the picked task from queued to active and no other |
| `IdleRetry.BucketsCountKeys` | app/services/archive_worker.py:303-319 | bucket sizes and cooldown count add up to the number of distinct eligible keys |
| `IdleRetry.CandidateSaysAll` | app/services/archive_worker.py:271-301 | a candidate carries the latest time of its records and asks for verification exactly when one does |
| `IdleRetry.BucketFacts` | app/services/archive_worker.py:303-319 | a bucket is sorted and holds exactly its platform's candidates out of cooldown |
| `IdleRetry.BucketSays` | app/services/archive_worker.py:303-319 | a bucket holds the candidates of its site never tried or not within the last 900 seconds, longest untried first, by name among equals |
| `IdleRetry.LexLeqExactlyWhen` | app/services/archive_worker.py:312-318 | one name is before another exactly when it ends, or has the smaller character, at their first difference |
| `IdleRetry.CandidatesSay` | app/services/archive_worker.py:271-301 | one candidate for each key that a record is retried under, naming the model as the first such record does |
| `IdleRetry.RetryBuckets` | app/services/archive_worker.py:266-319 | the loops compute buckets and cooldown count |
| `IdleScheduler.RunChoosesWell` | app/services/archive_worker.py:3200-3294 | at most one start per platform and at most the limit, always the oldest open candidate; every start is accepted, queued or failed |
| `IdleScheduler.RunLeavesNoneOut` | app/services/archive_worker.py:3200-3294 | a platform with an open candidate is left out only when the limit is used up |
| `IdleScheduler.TurnFacts` | app/services/archive_worker.py:3239-3265 | a platform's turn starts its first open candidate and counts the closed ones before it |
| `IdleScheduler.RunCountsAnswers` | app/services/archive_worker.py:3240-3269 | a run counts each start under its answer |
| `IdleScheduler.Allowed` | app/services/archive_worker.py:3207-3217 | how many starts a limit, or the concurrency, allows |
| `IdleScheduler.StartRetries` | app/services/archive_worker.py:3235-3269 | the nested loops terminate and give each platform one turn |
| `IdleScheduler.RetryIdleMissing` | app/services/archive_worker.py:3200-3294 | refused while the queue is busy or retries are disabled; otherwise what was chosen and counted |

## Left out

- HTTP routes, event streams, templates and the frontend: plumbing and user interface.
- Downloads, browser sessions, proxies, GitHub and Docker: their outcomes are inputs of the models.
- SQL, connection pools, file locks and the file-mode store: each transaction is one atomic step on a map, and each plain load or save of a state is one too; `GateOverlap` and `BatchOverlap` take those apart where the source does.
- Password hashing, token generation, log texts and progress texts: opaque or without effect on state.
- The daily-limit guard (app/services/archive_worker.py:416-532): one record for both platforms; a gate under it is an input.
- Configuration: validation is the identity on complete payloads; equality of booleans and numbers across types and the reuse of object identities as dictionary keys are not modelled.
- Login limiter: the in-process fallback when the database is away, and the tie order of evictions among entries seen at the same time.
- Sessions: one clock serves store and cache; timestamps that cannot be parsed are not modelled, and tokens are distinct names.
- Test scheduler: a thread that fails to start.
- ArchiveQueues.ArchiveQueue.Recover: others' changes between the passes themselves are not modelled; each pass has its own contract for the queue it finds.
- Gate: a read that raises counts as open in the source and is an input here; stripping of whitespace in names is taken as done.
- Short keys: digits and letters outside ASCII; concurrent file changes during a repair; the capped list of failure messages and the batching of progress writes.
- Cookies: lone surrogates.
- Archive queue: items are given with their normalised URL, task key and detected mode; `last_task_id`, `model_id`, messages and times of tracked items, the log of changes, and items without an id are not modelled.
- ArchiveQueues.ArchiveQueue.PlanMerge: the source's sections and its table of kept parents share dictionaries; here a kept parent is found by value, so the sharing itself is not modelled, only its effect, including that a parent rewritten as a child is a copy the merge does not reach; the number of changes it reports is not modelled either.
- BatchRefresh.RetryBound: stated per parent and over refreshes, because restoring and merging parents may set attempts anew.
- BatchRefresh: removal of recent failures before a transient retry and the preview of a source page.
- ThreeMfGate.ClosesOnSecondTarget: over results that do not overlap and fail directly, succeed or say nothing; overlaps and all other writers are the subject of `GateOverlap`.
- ProbePicker: the gate of an item does not change while one selection runs; requeueing all active tasks at a restart is a run of single requeues.
- IdleRetry: times are whole numbers, zero for none; names are compared character by character.
- IdleScheduler: the gates are fixed during one call; the clearing of an expired daily limit when a gate is read is not modelled.
- Nothing was executed; the models are related to the source by reading.
