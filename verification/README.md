# SoroTrail: verified models of its stateful core

SoroTrail indexes Soroban contract events. This project models the parts of it whose correctness depends on long
sequences of calls or on interleavings, and proves what they keep: the auditor's "verified through" mark, the
idempotency coordinator, the fixed-window quotas, the credential and statistics caches, the two event fan-outs, the
response writers and the bounded request reader of the HTTP layer, and the archiver.

`dafny verify dfyconfig.toml` checks everything.

## How to read it

| file | models |
|---|---|
| `Audit.dfy` | `AuditData` (what is compared), `AuditFetch` (paging the RPC), `AuditPass` (one pass of one auditor), `AuditProtocol` (any number of auditors sharing one mark, and reorganisations) |
| `IdempotencyStore.dfy`, `Idempotency.dfy` | the reservation store, the response recorder, and same-key requests over any number of replicas |
| `RateLimit.dfy` | `FixedWindow` (one window as seen by one client), `RateLimit` (the limiter's table, its sweeps and its delays) |
| `AuthCache.dfy` | `AuthCache` (five maps), `AuthFlow` (the request path that fills them from a changing store) |
| `Broadcast.dfy`, `Broker.dfy` | `Streams` (what a subscriber is owed), and the two locking schemes |
| `ResponseWriters.dfy` | `Compress`, `EntityTags`, `Conditional`, over the handler calls in `Http` and the string operations in `Text` |
| `BoundedReader.dfy` | the ceiling on decompressed request bodies |
| `Archive.dfy` | `ObjectKeys`, `ArchivePaging`, `Archive` |
| `StatsCache.dfy` | cached `/stats` snapshots |
| `Common.dfy` | shared types, and `Scopes`, a tenant's authorization boundary |

Objects that the source updates in place are classes here; each method is proved equal to a function on the object's
value, and the theorems are about sequences of those functions. Concurrent protocols are state machines whose steps
are the source's critical sections, store statements and channel operations; theorems range over every run. Clocks,
store answers, RPC answers, upload failures and handler behaviour are parameters of the steps, so a theorem holds
for all of them. Integers are unbounded except where the source's 32-bit arithmetic matters, and there the
wrap-around is written out (`AuditPass.Window`).

## Where the code and its documentation differ

The models follow the code.

- `writeLimited` says the delay is rounded up to whole seconds; the quota path rounds down
  (`RateLimit.HeaderCoversDelayIff` gives exactly which delays are still covered).
- `ArchiveRange` documents a half-open ledger range; the store reads both ends as included, and an end that is not
  positive as no end (`ArchivePaging.LastLedgerIsListed`; `ArchivePaging.ListingIsDocumentedIff` says for which tables
  that makes no difference).
- Archives are named by their first ledger only, and the pruner always passes 0
  (internal/pruner/pruner.go:266), so after its first archive a sweep with another last ledger is refused
  (`Archive.RepeatSucceedsIff`).
- The audit window is capped by the oldest ledger the RPC retains plus the lag threshold, so a pass does work only
  while the mark is inside that strip (`AuditPass.WindowFollowsTheMark`).
- Section 13.1.2 of RFC 9110 asks for a weak comparison of If-None-Match; here the weak mark is dropped from the
  client's tag only, so a weak tag of the server's own never matches its echo (`EntityTags.EchoMatchesIff`). The tags
  the conditional middleware makes are strong, so echoes of those do match (`Conditional.EchoedTagIsNotModified`).
- The compressing writer lets a status set after a held byte replace the implied 200, and the conditional writer lets a
  second status call replace a first one that it passed through and has not sent yet, where a plain writer keeps the
  first (`Compress.StatusIsTheHandlersIff` and `Conditional.FullBodyOrNotModified` say exactly when).

## Properties that need an assumption

For each, the exact condition is proved and a run that breaks it is given.

- One handler at a time, until a reservation is outlived (`Idempotency.GuardedIffUnbroken`, `Idempotency.SecondRunIff`;
  `Idempotency.OutlivedReservationRunsTwice`). `Idempotency.RunsAreSerial` and
  `Idempotency.RetriesAreReplayed` share that condition.
- No second handler before the first one's reservation expires, unless another run's delete removed the reservation
  (`Idempotency.ReservedIffOwnDeletes`; `Idempotency.OutlivedRunDeletesItsSuccessor`).
- Replays of the same request's response, until a run completes the reservation of another request
  (`Idempotency.RowsMatchIffFiled`; `Idempotency.OutlivedRunAnswersAnotherRequest`).
- At most twice the quota in any interval, with a clock after the zero time (`RateLimit.TwiceTheQuotaIff`;
  `RateLimit.ZeroTimeDoesNotBind`).
- Delivery without gaps, with one publisher or publishes that do not overlap (`Broadcast.PrefixesIffOnePublisher`;
  `Broadcast.OverlapCanLeaveAGap`).
- A mark that covers only ledgers clean since they were last rewritten, while an auditor saves before a reorganisation
  overtakes it (`AuditProtocol.LoneAuditorIsRightIff`; `AuditProtocol.StaleSaveCoversRewrittenLedger`). For several
  auditors current saves suffice (`AuditProtocol.MarkedLedgersAreStillClean`) and are not necessary: another auditor's
  check may back what a stale save covers. `AuditProtocol.SaveIsBackedIff` is exact for each save and its own check.
- A final invalidation, when no fill with outdated contents is under way (`AuthFlow.InvalidationIsFinalIff`;
  `AuthFlow.LostInvalidationIsServed`).

## Model

| member | source | states |
|---|---|---|
| `AuditProtocol.MarkedLedgersWereFoundClean` | internal/audit/audit.go:164-315 | in every interleaving of any number of auditors and reorganisations, with any mark, ingested ledger and 32-bit wrap-around: every ledger between the initial and the highest mark was found clean by some comparison or re-check at an earlier state, before the mark first reached it |
| `AuditProtocol.MarkNeverDecreases` | internal/audit/audit.go:556-562 | in every interleaving the shared mark goes down only where a reorganisation lies in between |
| `AuditProtocol.StepAdvancesOverClean` | internal/audit/audit.go:240-315 | one step: only a reorganisation lowers the mark, and each ledger that the highest mark newly covers was already on record as clean |
| `AuditProtocol.StepKeepsInv` | internal/audit/audit.go:164-469 | each step keeps: what every auditor works on starts no later than right behind the highest mark, every recorded check is sound, every ledger up to that mark is covered |
| `AuditProtocol.InvHolds` | internal/audit/audit.go:164-469 | that invariant holds at every state of every run |
| `AuditProtocol.MarkedLedgersAreStillClean` | internal/store/reorg.go:1017-1033 | over every run whose saves are current, with any number of auditors: every ledger up to the mark lay below the initial mark and was never rewritten, or was found clean after it was last rewritten |
| `AuditProtocol.LoneAuditorIsRightIff` | internal/store/reorg.go:1017-1033 | over every run of one auditor with marks below the last 32-bit ledger: the mark covers only such ledgers at all times iff every save that raises it is current |
| `AuditProtocol.SaveIsBackedIff` | internal/audit/audit.go:410-432 | the auditor's own check still vouches for each ledger its save newly covers iff no reorganisation has since taken the mark below the checked range or rewritten part of what is newly covered |
| `AuditProtocol.StaleSaveCoversRewrittenLedger` | internal/store/reorg.go:1017-1033 | a concrete run in which an auditor saves after a reorganisation and the mark covers a ledger rewritten since its check |
| `AuditProtocol.PassInTheProtocol` | internal/audit/audit.go:164-469 | left alone, an idle auditor with a window can go through its steps to the end whatever the RPC, the store and the repair answer, and the mark moves exactly as a pass moves it |
| `AuditPass.Auditor.PassOnce` | internal/audit/audit.go:164-238 | for any mark and any ingested ledger: a pass whose window is empty changes nothing; one with a window, whose first mismatch is m, marks everything before m and opens a finding that starts at m, which marks its ledgers once repaired, each unless the save, lookup or record it takes fails; the mark moves only up and only over ledgers that matched in its comparison or in the re-check that closed its finding; opened = repaired + unverifiable + unrecoverable is kept |
| `AuditPass.Auditor.ReconcileRange` | internal/audit/audit.go:240-315 | the mark ends exactly on the clean prefix, or on the repaired cluster right behind it, also on ranges that start at ledger 0 or end on the last 32-bit ledger; a finding is opened for the first mismatch the second scan sees unless a save, a lookup or the record fails |
| `AuditPass.Auditor.HandleMismatch` | internal/audit/audit.go:326-384 | the finding reports exactly the expected and actual totals and the missing IDs of its range, and reaches a terminal status before the call returns; the counters stay balanced |
| `AuditPass.Auditor.RepairFinding` | internal/audit/audit.go:397-408 | ends in the status that `Repair` assigns, exactly one terminal counter goes up by one, and the mark moves only if the finding was repaired |
| `AuditPass.Auditor.DoRepairAttempt` | internal/audit/audit.go:410-469 | one attempt: its effect on status, counters and mark for each way the re-ingest and the re-check can turn out |
| `AuditPass.Auditor.ScanPrefix` | internal/audit/audit.go:271-285 | the scan stops right before the first ledger that does not match |
| `AuditPass.Auditor.FindMismatch` | internal/audit/audit.go:295-302 | the second scan, which may restart at ledger 1, finds the first mismatch of the range, except ledger 0 |
| `AuditPass.ScansMean` | internal/audit/audit.go:271-309 | what the two scans report is clean and the mismatch they report is one; the prefix they save ends right before it |
| `AuditPass.ScansFind` | internal/audit/audit.go:271-309 | the two scans find the first mismatch, ledger 0 apart, and save right up to it |
| `AuditPass.ReconciledMeans` | internal/audit/audit.go:240-315 | what reconciling does to the mark and the finding, in terms of the first mismatch alone |
| `AuditPass.Auditor.OpenFinding` | internal/audit/audit.go:361-384 | a recorded finding is counted once, repaired to a terminal status, and raises the mark only if repaired |
| `AuditPass.Auditor.constructor` | internal/audit/audit.go:59-75 | unset options take their defaults and the finding counters start balanced |
| `AuditPass.RepairIsDecisive` | internal/audit/audit.go:397-469 | every opened finding ends in exactly one terminal status within the attempt budget; repaired iff the deciding re-check found every ledger matching, unverifiable iff the deciding re-ingest was out of range, unrecoverable iff the budget ran out inconclusively |
| `AuditPass.ClusterIsClean` | internal/audit/audit.go:471-506 | its two loops accept exactly the ranges on which every ledger matches; on a range up to the last 32-bit ledger, where they end only at a mismatch, they find it |
| `AuditPass.IndexedMatches` | internal/audit/audit.go:317-324 | the lookup in the two per-ledger maps agrees with the comparison of fetched and stored events |
| `AuditPass.MismatchIsVisible` | internal/audit/audit.go:326-359 | a range that begins with a mismatch has a non-zero total, so the early return for empty totals is never taken |
| `AuditPass.Summarize` | internal/audit/audit.go:326-350 | totals and missing IDs over the whole range, or a failure only if a lookup failed |
| `AuditPass.ListAbsent` | internal/audit/audit.go:340-348 | the fetched IDs that the store lacks, in fetch order |
| `AuditPass.IndexRange` | internal/audit/audit.go:252-267 | the per-ledger maps hold exactly what the fetch and the census say about the range |
| `AuditPass.MarkStore.SaveAuditStateIfGreater` | internal/store/postgres.go:1340-1362 | the mark becomes the larger of itself and the argument |
| `AuditPass.WindowFollowsTheMark` | internal/audit/audit.go:196-229 | for every 32-bit mark, ingested and oldest ledger: exactly when a pass does work, and its range: from right after the mark (0 after the last 32-bit ledger) to the least of the ingested ledger, the end of a batch and the retention cap |
| `AuditPass.ChosenWindow` | internal/audit/audit.go:196-229 | for any mark and ingested ledger, beyond 32 bits as well: a chosen range is not empty and starts no later than right behind the mark |
| `AuditPass.WindowStartsAfterMarkIff` | internal/audit/audit.go:196-229 | the window starts right after the mark iff the mark is not the last 32-bit ledger |
| `AuditPass.WindowCanWrap` | internal/audit/audit.go:196-229 | the concrete wrap: from the last 32-bit ledger back to ledger 0 |
| `AuditFetch.FetchRange` | internal/audit/audit.go:508-554 | for any page size and any consecutive paging it terminates with a prefix of the complete answer, each event once and in order; with less than the complete answer only if a request it made was out of range, with none only if a request it made failed |
| `AuditFetch.FetchBatch` | internal/audit/audit.go:519-551 | one filter batch: everything up to the last ledger, a prefix if cut short by an out-of-range error, also when a page is exactly full |
| `AuditFetch.KeepUpTo` | internal/audit/audit.go:535-539 | keeps exactly the page's events up to the last ledger, in order |
| `AuditFetch.FetchKeepsIds` | internal/audit/audit.go:508-554 | dropping later ledgers changes no per-ledger ID list of the range |
| `AuditFetch.FetchedMatchesIff` | internal/audit/audit.go:508-554 | on a complete fetch a ledger matches iff the store counts as many events as the RPC served for it over all filter batches |
| `AuditData.FirstDirtyMeans` | internal/audit/audit.go:271-285 | everything before the first mismatch matches, and it does not |
| `AuditData.FirstDirtyUnique` | internal/audit/audit.go:271-302 | that pins it down, which makes the two scans of the source agree |
| `Idempotency.AtMostOneHandlerRuns` | internal/api/idempotency.go:158-388 | in every run, until a step evicts a reservation that is still held, at most one handler executes over all replicas |
| `Idempotency.AtMostOneHolder` | internal/api/idempotency.go:158-388 | the same for everything from the claim to the store write after the handler |
| `Idempotency.GuardedIffUnbroken` | internal/api/idempotency.go:256-359 | over every run, with any timing: each holder's own reservation is in the store at every moment iff no claim or sweep evicts a reservation that is still held |
| `Idempotency.TwoHoldersNeedAnOverrun` | internal/api/idempotency.go:256-359 | two requests holding runs at once, in any run: an earlier step evicted a held reservation |
| `Idempotency.TimelyRunsAreUnbroken` | internal/api/idempotency.go:256-359 | a run in which holders finish before their reservations expire has no such step |
| `Idempotency.NoRerunBeforeExpiry` | internal/api/idempotency.go:256-359 | in every run, with any timing: a handler starts before an earlier run has expired only if an earlier step deleted that run's reservation |
| `Idempotency.ReservationsLast` | internal/api/idempotency.go:256-359 | in every run, with any timing: the reservation of a run is in the store until it expires or is deleted |
| `Idempotency.ReservedIffOwnDeletes` | internal/api/idempotency.go:322-347 | over every run, with any timing: each run that has neither failed nor expired has its reservation in the store at every moment iff no failed run deletes another's live reservation |
| `Idempotency.RunsAreSerial` | internal/api/idempotency.go:256-359 | until a step evicts a reservation that is still held, a handler starts only when every earlier run failed, or ended below 500 and is past its expiry |
| `Idempotency.ReplaysAreFaithful` | internal/api/idempotency.go:213-388 | in every run, with any timing: a replayed reply is the status, content type and body of the run it names, which ended below 500; and until some run's response is stored in another request's reservation, that run was one of the same request |
| `Idempotency.AnswersAreTheHandlers` | internal/api/idempotency.go:256-388 | in every run: the client whose request ran the handler, and every client answered with a replay of that run, is sent the status, content type and bytes that handler wrote |
| `Idempotency.RepliesHaveReasons` | internal/api/idempotency.go:213-388 | in every run: each reply was given in its turn by a step with a reason: the owner's own response after its store step; the response in a slot or row of the same fingerprint; a conflict only with a slot or row of another fingerprint or after a poll without a response; a timeout; a store failure |
| `Idempotency.EachIsAnsweredOnce` | internal/api/idempotency.go:213-388 | in every run: no request is answered twice, and one that is through was answered exactly once unless its handler panicked |
| `Idempotency.WaitersShareTheAnswer` | internal/api/idempotency.go:213-254 | in every run: a waiter of the same request is answered with the very response the slot's owner got, if that is below 500; one of another request with a conflict; otherwise it starts over |
| `Idempotency.SlotsTellTheAnswer` | internal/api/idempotency.go:213-273 | at every state of every run: a closed slot holds the response its owner was answered with, if that is to be shared, and none otherwise |
| `Idempotency.RetriesAreReplayed` | internal/api/idempotency.go:275-359 | until a held reservation is evicted: once a run's response is stored and until it expires, every claim for the same request on any replica is answered with it and runs no handler, and one for another request is a conflict |
| `Idempotency.RequestsAreAsAsked` | internal/api/idempotency.go:158-212 | in every run: requests are what arrived, in order, each with the clock at its arrival |
| `Idempotency.RowsMatchIffFiled` | internal/store/idempotency.go:591-605 | over every run, with any timing: the response in the store is at every moment that of a run of its own reservation's request iff no step completes the reservation of another request |
| `Idempotency.RetriesAreFiled` | internal/store/idempotency.go:591-605 | when all requests with the key are retries of one request, no step does |
| `Idempotency.UnbrokenRunsAreFiled` | internal/store/idempotency.go:591-605 | nor does any before a held reservation is evicted |
| `Idempotency.OutlivedRunAnswersAnotherRequest` | internal/store/idempotency.go:591-605 | a concrete run in which an outlived run completes the reservation of another request, and a retry of that one is answered with the first one's response while its own handler is still executing |
| `Idempotency.SourcedHolds` | internal/api/idempotency.go:213-388 | at every state of every run: the response in the row, in a slot and in every replay is that of the run it names, and as long as none was misfiled for the same request |
| `Idempotency.SlotsTrackTheirOwners` | internal/api/idempotency.go:213-273 | in every run, with any timing: a slot is in its replica's map iff its done channel is open, no channel is closed twice, and an open slot has a live owner |
| `Idempotency.ClosedSlotsAreFrozen` | internal/api/idempotency.go:213-273 | in every run, with any timing: no step changes a slot whose done channel is closed, so waiters read settled fields |
| `Idempotency.DeletePrecedesRelease` | internal/api/idempotency.go:322-347 | in every run, with any timing: after a panic or a 5xx the slot is released only after a step of that request tried to delete its reservation, and unless that failed the row is not that run's any more |
| `Idempotency.ToldHolds` | internal/api/idempotency.go:256-388 | at every state of every run, with any timing: a run in progress has an executing request, a failed one a request that is at or past its delete, and the row is the reservation of the run that inserted it |
| `Idempotency.OwnerReleases` | internal/api/idempotency.go:256-359 | in every run, whatever the store, the handler and the other requests do: the owner of a slot makes at most four moves, fruitless polls aside, and when it has none left its channel is closed |
| `Idempotency.OwnerStepDescends` | internal/api/idempotency.go:256-388 | every step of an owner is a poll that changes nothing or lowers its rank; the last rank's step closes the channel |
| `Idempotency.OwnerCanMove` | internal/api/idempotency.go:256-359 | an owner is never stuck: each answer the store or the handler may give is an enabled step |
| `Idempotency.SecondRunIff` | internal/api/idempotency.go:275-347 | in every reachable state: with a handler running, a claim starts a second run iff the row in the store is expired at its reading, or is missing since a sweep past its expiry or another run's delete; the first such claim of a run evicts the held reservation itself or follows a step that did |
| `Idempotency.OutlivedReservationRunsTwice` | internal/api/idempotency.go:275-320 | a concrete run in which a handler outlives its reservation and two handlers execute, for the same request or for two |
| `Idempotency.OutlivedRunDeletesItsSuccessor` | internal/api/idempotency.go:322-347 | its continuation: the outlived run fails, deletes the second one's reservation long before that expires, and a third handler starts beside the second |
| `Idempotency.StepKeepsInv` | internal/api/idempotency.go:158-388 | each step that evicts no held reservation leaves every holder its own reservation in the store |
| `Idempotency.InvHolds` | internal/api/idempotency.go:158-388 | so it is at every state up to the first such eviction |
| `IdempotencyRecorder.RecordedIsWhatTheHandlerWrote` | internal/api/idempotency.go:428-481 | for every call sequence the recorder keeps the first committed status, the last content type, and every byte in order |
| `IdempotencyRecorder.ResponseRecorder.WriteHeader` | internal/api/idempotency.go:447-453 | only the first status counts |
| `IdempotencyRecorder.ResponseRecorder.Write` | internal/api/idempotency.go:455-460 | commits 200 if nothing was committed and appends all bytes |
| `IdempotencyRecorder.ResponseRecorder.FlushToUnderlying` | internal/api/idempotency.go:469-481 | what is sent is exactly the response that is stored for replays |
| `IdempotencyStore.MemoryIdempotencyStore.ClaimIdempotencyKey` | internal/store/idempotency.go:556-589 | one atomic outcome per row (started, in flight, replayed, mismatch), inserting only into a free or expired row; all other rows untouched |
| `IdempotencyStore.MemoryIdempotencyStore.CompleteIdempotencyKey` | internal/store/idempotency.go:591-605 | sets the response of an existing row and reports a missing one; all other rows untouched |
| `IdempotencyStore.MemoryIdempotencyStore.DeleteIdempotencyKey` | internal/store/idempotency.go:607-613 | removes exactly that row |
| `IdempotencyStore.MemoryIdempotencyStore.GetIdempotencyKey` | internal/store/idempotency.go:615-626 | the row, unless it is expired or absent |
| `IdempotencyStore.MemoryIdempotencyStore.DeleteExpiredIdempotencyKeys` | internal/store/idempotency.go:628-647 | removes expired rows only, at most the limit, and stops short only at the limit |
| `RateLimit.SweepsAreInvisible` | internal/api/ratelimit.go:259-330 | with a quota enabled and a clock that does not go back, every verdict, remaining count and retry delay is the same as without any sweep, tenant invalidation or bucket clear |
| `RateLimit.SweepsShowWhenDisabled` | internal/api/ratelimit.go:259-288 | with both quotas disabled a sweep can show in the remaining count |
| `RateLimit.SimulatedRun` | internal/api/ratelimit.go:259-330 | the swept table simulates the full one after every operation, ignoring dead entries and counters of disabled windows |
| `RateLimit.AtMostTwiceTheQuota` | internal/api/ratelimit.go:459-507 | over every run with a clock after the zero time, at most twice the quota is admitted per client in any half-open interval of one window length |
| `RateLimit.TwiceTheQuotaIff` | internal/api/ratelimit.go:459-507 | for every client, window and positive quota: that bounds every interval of every run iff the clock starts after the zero time |
| `RateLimit.AtMostTheQuotaPerWindow` | internal/api/ratelimit.go:459-507 | every window ever open admits at most the quota over its whole life, whatever the clock |
| `RateLimit.ZeroTimeDoesNotBind` | internal/api/ratelimit.go:466-472 | from any clock up to the zero time and for any quotas, a clock that stands at the zero time admits any number of requests |
| `RateLimit.RetryDelayIsExact` | internal/api/ratelimit.go:459-507 | a refusal's delay is exactly the least wait after which the refusing window stops refusing, however often the client asks in between |
| `RateLimit.RefusedIff` | internal/api/ratelimit.go:459-507 | a request is refused iff the hour or the day window refuses |
| `RateLimit.HeaderCoversDelayIff` | internal/api/ratelimit.go:440-451 | the Retry-After header covers the quota delay iff the delay is a whole number of seconds or at most one |
| `RateLimit.CeilSecondsIsLeast` | internal/api/ratelimit.go:612-625 | on the token-bucket path the header is the least whole number of seconds that covers the delay |
| `RateLimit.RateLimiter.CheckQuota` | internal/api/ratelimit.go:459-507 | updates only the client's own entry and returns the verdict of that entry |
| `RateLimit.RemainingIsExact` | internal/api/ratelimit.go:488-507 | with a quota enabled: an admitted client can make exactly as many more requests at that time as the remaining count says, and the next one is refused |
| `RateLimit.NewClientGetsItsQuota` | internal/api/ratelimit.go:459-507 | a client never seen before is admitted exactly the smaller of its enabled quotas |
| `RateLimit.RateLimiter.EvictIdle` | internal/api/ratelimit.go:259-276 | removes exactly the idle buckets and the quota entries with no live window |
| `RateLimit.RateLimiter.InvalidateTenant` | internal/api/ratelimit.go:306-319 | removes the tenant's bucket and leaves quota usage alone |
| `RateLimit.RateLimiter.ClearBuckets` | internal/api/ratelimit.go:321-330 | removes every bucket and leaves quota usage alone |
| `FixedWindow.HistoryBound` | internal/api/ratelimit.go:459-507 | what an interval of one window length has admitted, in terms of the current window: the induction behind the bound of twice the quota |
| `FixedWindow.TwiceTheQuota` | internal/api/ratelimit.go:459-507 | after the zero time no interval of one window length sees more than twice the quota |
| `FixedWindow.AlwaysCounted` | internal/api/ratelimit.go:459-507 | with any clock: the open window has counted every admission since it opened |
| `FixedWindow.OneQuotaPerWindow` | internal/api/ratelimit.go:459-507 | a window admits at most the quota, and is never reopened early |
| `AuthFlow.HitsAreBoundedStale` | internal/api/auth.go:422-467 | under every interleaving of requests, store writes and invalidations, a hit for a request that read its clock at t returns a digest and tenant, and a scope, that the store held at moments later than t minus the ttl and no later than the lookup |
| `AuthFlow.InvalidationIsFinalIff` | internal/api/auth.go:422-467 | invalidating a tenant is final, so that in every continuation its cached entries say what the store held then or later, iff no request is between its key read and its fill with a key row or scope the store has since changed |
| `AuthFlow.LostInvalidationIsServed` | internal/api/auth.go:422-467 | a fill under way when its tenant is invalidated is served to the next request while its stamp is younger than the ttl |
| `AuthFlow.RequestsAreAsAsked` | internal/api/auth.go:422-467 | in every run: requests are what came in, in order, each with the clock at its start |
| `AuthFlow.StepKeepsInv` | internal/api/auth.go:422-467 | each step keeps: every entry, and every half-done fill, is backed by store contents no earlier than its time stamp |
| `AuthFlow.InvHolds` | internal/api/auth.go:422-467 | that holds at every state of every run |
| `AuthCache.AlwaysListed` | internal/api/auth_cache.go:85-255 | after every operation sequence each cached entry is listed under its own tenant |
| `AuthCache.InvalidatedTenantIsGone` | internal/api/auth_cache.go:180-198 | after every operation sequence, invalidating a tenant leaves none of its entries |
| `AuthCache.AlwaysInverse` | internal/api/auth_cache.go:85-255 | when prefix determines key and tenant and key ID determines prefix, the three tenant maps are exact inverses after every operation sequence |
| `AuthCache.InvalidationIsExact` | internal/api/auth_cache.go:180-198 | then invalidating a tenant removes its entries and leaves every other entry as it was |
| `AuthCache.DropTenantIsExact` | internal/api/auth_cache.go:180-198 | the same from any state with inverse maps, which it keeps inverse |
| `AuthCache.DropKeyIsExact` | internal/api/auth_cache.go:202-221 | revoking a key removes exactly that key's entry and keeps the maps inverse |
| `AuthCache.OthersUntouchedIff` | internal/api/auth_cache.go:180-198 | without the assumption: other tenants keep their entries iff no prefix listed under the tenant is cached for another |
| `AuthCache.ReusedPrefixIsEvicted` | internal/api/auth_cache.go:110-134 | a prefix put again for another tenant is such a case |
| `AuthCache.CachedIsExpected` | internal/api/auth_cache.go:85-255 | when prefix determines key and tenant and key ID determines prefix: after every operation sequence the tenant entries are exactly those of a plain map from which tenants and keys are dropped by what the entries say |
| `AuthCache.SinglesAreExpected` | internal/api/auth_cache.go:137-255 | when a single key has one prefix: the same for single keys, so a revoked key is gone |
| `AuthCache.ServedIff` | internal/api/auth_cache.go:85-159 | a lookup serves the cached entry exactly while caching is on and it is younger than the ttl, and leaves no expired one behind |
| `AuthCache.AuthCache.GetTenantAuth` | internal/api/auth_cache.go:85-106 | a fresh entry or nothing; an expired entry is removed from all three maps |
| `AuthCache.AuthCache.PutTenantAuth` | internal/api/auth_cache.go:110-134 | the entry is in all three maps afterwards, unless caching is off |
| `AuthCache.AuthCache.GetAPIKey` | internal/api/auth_cache.go:137-159 | the same for the single-key maps |
| `AuthCache.AuthCache.PutAPIKey` | internal/api/auth_cache.go:162-176 | the same for the single-key maps |
| `AuthCache.AuthCache.InvalidateTenant` | internal/api/auth_cache.go:180-198 | its loop removes every prefix listed under the tenant, their keys and the list |
| `AuthCache.AuthCache.InvalidateAPIKey` | internal/api/auth_cache.go:202-221 | removes the key from the tenant maps and from the single-key maps |
| `AuthCache.AuthCache.DeleteTenantPrefixLocked` | internal/api/auth_cache.go:238-247 | removes one prefix from all three maps, and the tenant's set when it becomes empty |
| `AuthCache.AuthCache.SetTTL` | internal/api/auth_cache.go:71-81 | a ttl that switches caching off empties the cache |
| `AuthCache.AuthCache.Clear` | internal/api/auth_cache.go:225-236 | empties all five maps |
| `Broadcast.NeverPanics` | internal/broadcast/broadcast.go:108-206 | in every interleaving with any number of publishers: no send on a closed channel, no double close, bounded buffers, and an open channel out of the map has a pending closer |
| `Broadcast.DeliveredIsAPrefix` | internal/broadcast/broadcast.go:149-206 | for any number of publishers whose publishes do not overlap, and scopes replaced at any time: everything received and everything enqueued is a prefix, in order, no gap, no duplicate, of the matching events of the publishes since the subscription, each publish under the scope read for it |
| `Broadcast.NothingOutstandingBetweenPublishes` | internal/broadcast/broadcast.go:149-206 | between publishes every batch has come to the subscription and all it was owed was sent, unless it is closed, or out of the map with its Close about to close it |
| `Broadcast.OnlyAllowedIsSent` | internal/broadcast/broadcast.go:180-206 | in every run, with any number of publishers: every event enqueued is of the batch being published, matches the filter, and is allowed by the scope last set when the publish came to the subscription |
| `Broadcast.NewScopeBinds` | internal/broadcast/broadcast.go:84-104 | whatever a publish that comes to a subscription after SetScope sends it, until the next SetScope, the new scope allows |
| `Broadcast.ScopesAreCurrent` | internal/broadcast/broadcast.go:84-104 | the scope under which each publish serves a subscription is the one last set when it came to it |
| `Broadcast.HistoryIsTrue` | internal/broadcast/broadcast.go:64-98 | in every run: each subscription has the filter it asked for and the scope last set for it, and counts from the first batch published after it |
| `Broadcast.PrefixesIffOnePublisher` | internal/broadcast/broadcast.go:149-206 | for every capacity and every number of publishers: all runs deliver such prefixes iff there is at most one publisher |
| `Broadcast.OverlapCanLeaveAGap` | internal/broadcast/broadcast.go:149-206 | for every capacity, any number of publishers from two on and any matching batch one longer than the capacity: a run that drops its last event and delivers a later one |
| `Broadcast.StepKeepsInv` | internal/broadcast/broadcast.go:71-218 | each step keeps the safety invariant |
| `Broadcast.InvHolds` | internal/broadcast/broadcast.go:71-218 | it holds at every state of every run |
| `Broadcast.DeliveryHolds` | internal/broadcast/broadcast.go:149-206 | at every state of every run without overlapping publishes, what each subscription was sent is exactly what the publisher's progress says |
| `Broker.NeverPanics` | internal/api/broker.go:46-142 | in every interleaving: no send on a closed channel, no double close, in the map iff the channel is open, buffers at most 256, and every channel closed after a shutdown |
| `Broker.DeliveredIsAPrefix` | internal/api/broker.go:78-121 | for any number of publishers whose publishes do not overlap: what a subscriber was sent and received is a prefix of the matching events published since it subscribed, in order, no gap, no duplicate, and between publishes all of them while it is in the map |
| `Broker.HistoryIsTrue` | internal/api/broker.go:43-76 | in every run: each subscriber has the filter it asked for, and the batches are those published |
| `Broker.StepKeepsInv` | internal/api/broker.go:46-142 | each step keeps that invariant |
| `Broker.InvHolds` | internal/api/broker.go:46-142 | it holds at every state of every run |
| `Compress.CompressionIsTransparent` | internal/api/compress.go:387-538 | for every call sequence: a client that goes by the Content-Encoding sent gets the concatenation of the writes, under the handler's own encoding if it set one, as from a plain writer; one status line goes out before any body byte |
| `Compress.HeadersAreRight` | internal/api/compress.go:443-504 | encoded iff the minimum size was written before any flush, the handler set no encoding, the held status is neither 204 nor 304 and the type is worth it; an encoded response names its encoding, has no length, a weak tag and otherwise the handler's header, any other has the handler's header unchanged |
| `Compress.BySizeMeans` | internal/api/compress.go:426-441 | the decision is by size iff some first calls write the minimum size without a flush |
| `Compress.FlushHoldsNothing` | internal/api/compress.go:525-538 | after a flush everything written so far has gone out |
| `Compress.HeldBytesAreBounded` | internal/api/compress.go:426-441 | while undecided, less than the minimum size is held and nothing was sent |
| `Compress.StatusIsTheHandlersIff` | internal/api/compress.go:403-480 | the status line is the one a plain writer would send iff no code was set between the first committing call and the decision, or the last one set there is the same |
| `Compress.StatusIsTheHandlers` | internal/api/compress.go:403-424 | a handler that sets its status before its first byte gets that status line |
| `Compress.LateHeaderWins` | internal/api/compress.go:403-413 | one that sets it after a held byte overrides the implied 200 |
| `Compress.CompressWriter.Write` | internal/api/compress.go:426-441 | buffers until the decision, then forwards |
| `Compress.CompressWriter.DecideNow` | internal/api/compress.go:445-504 | headers, status line and held bytes go out together, encoded or not by size, status, own encoding and the media type before any parameters in any letter case |
| `Compress.CompressWriter.Flush` | internal/api/compress.go:525-538 | decides on what is held and flushes the encoder |
| `Compress.CompressWriter.Finish` | internal/api/compress.go:508-520 | decides if need be and ends the encoded stream |
| `Compress.CompressWriter.WriteHeader` | internal/api/compress.go:403-413 | records the status until the decision |
| `EntityTags.IfNoneMatch` | internal/api/handlers.go:2431-2461 | its loop finds a match iff the header is a star or one of its comma-separated tags, less Unicode white space and a weak mark, is the tag |
| `EntityTags.SingleMatchesIff` | internal/api/handlers.go:2431-2461 | for a single tag: a match iff the tags agree without the weak mark |
| `EntityTags.EchoMatchesIff` | internal/api/compress.go:555-563 | an echoed tag, weakened by compression or not, matches iff the server's own tag is strong |
| `EntityTags.WeakenMeans` | internal/api/compress.go:555-563 | weakening makes a tag weak, unless there is none, and keeps what it names |
| `EntityTags.SplitUndoesJoin` | internal/api/handlers.go:2431-2461 | splitting a header at its commas undoes joining the tags |
| `EntityTags.SplitParts` | internal/api/handlers.go:2431-2461 | and the parts, which have no commas, join to the header again |
| `Text.TrimSpaceMeans` | internal/api/handlers.go:2431-2461 | trimming takes white space off both ends, all of it and nothing else |
| `Conditional.FullBodyOrNotModified` | internal/api/conditional.go:37-169 | for every GET handler: the full body in order, or an empty 304, the latter exactly when the response is a never flushed 200 of at most 8 MiB without a tag of its own at the moment its status was settled and If-None-Match matches its tag; the full body comes under the handler's first status iff no later status call with another code came while that one was passed through and unsent |
| `Conditional.HeldBytesAreBounded` | internal/api/conditional.go:84-102 | at no time are more than 8 MiB held, whatever the handler calls |
| `Conditional.HeldToTheEndIff` | internal/api/conditional.go:65-114 | from the handler's calls alone: a response is still held at the end iff it was never flushed, has no status or 200, had no tag when its status was settled, and is at most 8 MiB |
| `Conditional.OneHeaderIsKept` | internal/api/conditional.go:65-82 | a single status call is never replaced |
| `Conditional.SecondHeaderWins` | internal/api/conditional.go:65-82 | with two status calls the second can replace the first |
| `Conditional.EndToEnd` | internal/api/conditional.go:37-169 | with compression around it, for every GET handler, what a client that goes by the header sent gets is still the full body, under the handler's first status iff that was not replaced, or nothing under a 304 |
| `Conditional.EchoedTagIsNotModified` | internal/api/conditional.go:140-169 | sending the received tag back, weakened or not, for an unchanged body gives an empty 304 |
| `Conditional.TagIsSent` | internal/api/conditional.go:140-169 | the header of a validated response is the handler's with the tag of the whole body, for GET and HEAD; a 304 leaves out length, type and encoding |
| `Conditional.HeadIsGetWithoutBody` | internal/api/conditional.go:140-169 | a HEAD request gets the status and header of the GET and nothing of a held body |
| `Conditional.FlushHoldsNothing` | internal/api/conditional.go:106-136 | after a flush status and body so far have been sent on |
| `Conditional.ConditionalWriter.WriteHeader` | internal/api/conditional.go:65-82 | a status other than 200, or a response with its own tag, switches to passthrough |
| `Conditional.ConditionalWriter.Write` | internal/api/conditional.go:84-102 | holds the bytes, or commits and forwards past the limit |
| `Conditional.ConditionalWriter.Flush` | internal/api/conditional.go:106-114 | commits and passes the flush on |
| `Conditional.ConditionalWriter.CommitNow` | internal/api/conditional.go:122-136 | sends the status and everything held, once |
| `Conditional.ConditionalWriter.FinishResponse` | internal/api/conditional.go:140-169 | tags a held response and sends it, or the 304 |
| `Archive.CrashConsistency` | internal/archive/archive.go:313-480 | for every sequence of calls, each cut short after any upload: a visible manifest has a data object at the same prefix, its row count is the number of lines, and the lines are one call's matching events, each once and in ID order, none missing that was in every table version the call queried |
| `Archive.VisibleIsFrozen` | internal/archive/archive.go:331-370 | once visible, neither object is modified by any later call |
| `Archive.RepeatSucceedsIff` | internal/archive/archive.go:331-370 | a later call for the same first ledger changes nothing, and succeeds with the archived data's hash iff it names the archived last ledger |
| `Archive.UndisturbedCallCompletes` | internal/archive/archive.go:371-480 | whatever objects are there, as long as no manifest is visible, an undisturbed call over a fixed table ends with a complete archive of it |
| `Archive.CoveredRangeIsHeld` | internal/archive/archive.go:266-305 | when a range is reported archived, the data object holds every event of it that was in every table version the archiving call queried |
| `Archive.ReportedIff` | internal/archive/archive.go:266-305 | after every sequence of calls: a range is reported archived iff an archive with its first ledger is visible and reaches its last ledger |
| `Archive.ArchivedStaysReported` | internal/archive/archive.go:313-480 | a call that reports success returns the hash of the data object, and its range is reported archived from then on, whatever calls follow |
| `Archive.OwnManifestComesLast` | internal/archive/archive.go:437-468 | a call makes its manifest visible only with its data in place |
| `Archive.OthersAreLeftAlone` | internal/archive/archive.go:437-468 | a call leaves the objects of every other first ledger alone |
| `Archive.Archiver.ArchiveRange` | internal/archive/archive.go:313-480 | outcome and bucket contents for every combination of deferral, failed reads, failed pages and failed or unacknowledged uploads |
| `Archive.Archiver.IsArchived` | internal/archive/archive.go:266-305 | true iff a compatible manifest covers the range and the data object is there; errors apart |
| `ArchivePaging.CollectEvents` | internal/archive/archive.go:386-424 | the paging loop collects the listing, its row count and its first and last ID, or fails iff a page failed or the context ended |
| `ArchivePaging.CollectIsSound` | internal/archive/archive.go:390-424 | however the table changes between pages, no event is listed twice, the order is by ID, and every line matched in some version |
| `ArchivePaging.CollectIsComplete` | internal/archive/archive.go:390-424 | an event in every table version the loop queried is never skipped at a page boundary |
| `ArchivePaging.FixedTableIsListedExactly` | internal/store/postgres.go:1118-1166 | a table that does not change is listed exactly, in as many pages as it takes and no more, also when the last page is exactly full |
| `ArchivePaging.ListingIsDocumentedIff` | internal/archive/archive.go:307-313 | the listing of a fixed table is the documented half-open one iff the last ledger is positive and no event from the first ledger on lies on it, or there is no event from the first ledger on |
| `ArchivePaging.LastLedgerIsListed` | internal/store/postgres.go:1003-1008 | an event on the last ledger is listed though the documented range excludes it |
| `ArchivePaging.SelectResumes` | internal/store/postgres.go:1068-1081 | asking again from a row's ID gives exactly the rows behind it |
| `ObjectKeys.ColumnsReadBack` | internal/archive/archive.go:483-489 | the seven-column number in a key reads back as the ledger, negative and long ones included |
| `ObjectKeys.KeysNeverCollide` | internal/archive/archive.go:483-489 | data and manifest keys never coincide, and keys of different first ledgers differ |
| `BoundedReader.OutputIsABoundedPrefix` | internal/api/compress.go:93-128 | for every sequence of buffer sizes and chunkings the caller holds a prefix of the body of at most the limit plus one byte, and the hook fired at most once |
| `BoundedReader.EndMeansWhole` | internal/api/compress.go:93-128 | an end of file means the whole body arrived and is within the limit; a limit error means it is longer and the hook fired; the byte past the limit always gives the limit error |
| `BoundedReader.BelowTheLimitNothingChanges` | internal/api/compress.go:93-119 | below the limit the reader passes on the decompressor's bytes, error and end, so a body within the limit is read as if there were none |
| `BoundedReader.ReadingToTheEndStops` | internal/api/compress.go:93-119 | a caller that reads on gets an error or the end after at most the limit's number of reads |
| `BoundedReader.Bounded` | internal/api/compress.go:93-128 | the hook has fired, once, iff the byte past the limit was produced |
| `BoundedReader.BoundedDecompressedReader.ReadInto` | internal/api/compress.go:93-119 | one read: never asks for more than the byte past the limit, and reports that byte as an error |
| `BoundedReader.BoundedDecompressedReader.FireRejected` | internal/api/compress.go:121-128 | fires the hook the first time only |
| `BoundedReader.BoundedDecompressedReader.constructor` | internal/api/compress.go:60-70 | a limit that is not positive becomes 4 MiB |
| `StatsCache.AtMostMaxEntries` | internal/api/stats_cache.go:83-109 | after every operation sequence at most 64 snapshots are held, stale and repeated queue keys notwithstanding |
| `StatsCache.HitsAreCurrent` | internal/api/stats_cache.go:63-150 | every hit is the last value put for its fingerprint, younger than the ttl, and neither replaced nor invalidated since |
| `StatsCache.CachedIsReference` | internal/api/stats_cache.go:83-150 | what is cached is what a plain map that never evicts would hold |
| `StatsCache.ExactUntilFull` | internal/api/stats_cache.go:83-109 | until the 65th put since a clear the cache is that plain map |
| `StatsCache.PutIsServed` | internal/api/stats_cache.go:63-109 | what was just put is served until it is as old as the ttl, however full the cache |
| `StatsCache.ServedUntilFull` | internal/api/stats_cache.go:63-109 | until the 65th put since a clear a lookup answers as the plain map would |
| `StatsCache.TenantSetsAreExact` | internal/api/stats_cache.go:98-127 | a fingerprint is listed under a tenant iff the tenant put it since it was last invalidated |
| `StatsCache.StatsCache.GetStats` | internal/api/stats_cache.go:63-74 | the entry if caching is on and it is younger than the ttl |
| `StatsCache.StatsCache.PutForTenant` | internal/api/stats_cache.go:83-109 | stores the value, queues a new key, evicts the queue's head past the bound, and lists the key under its tenant |
| `StatsCache.StatsCache.InvalidateTenantStats` | internal/api/stats_cache.go:113-127 | its loop removes exactly the tenant's listed entries and the list |
| `StatsCache.StatsCache.InvalidateScopeStats` | internal/api/stats_cache.go:130-137 | removes one entry |
| `StatsCache.StatsCache.Clear` | internal/api/stats_cache.go:141-150 | empties everything |

## Left out

- Token buckets of the rate limiter and their floating-point rates; only the last observation of a bucket is kept, for eviction.
- The middleware branches in front of the modelled cores: missing or over-long idempotency keys, unreadable bodies, requests exempt from limits, upgrade requests.
- gzip, deflate, SHA-256, bcrypt and JSON: an encoder is a stream that decodes to what went in, a digest is a function of its input.
- SQL, RPC and S3 clients: a statement, a page or an upload is one atomic answer, and any answer may be a failure.
- Event filters: the match is an arbitrary predicate, because the two `eventMatches` functions support different fields.
- The cursor's extra ledger bound in the paged query, which removes nothing as long as event IDs grow with their ledgers; event IDs are integers here, compared as the store orders them.
- Two archivers at work on one first ledger at the same time; the archiver is documented for a single goroutine.
- Hijacked connections, write errors of the underlying connection, and `boundedResponseWriter`.
- Timers, jitter, retries of background loops, metrics, logging and tracing; hit and miss counters.
- `listETag`, which is not injective in its filter, the command line, configuration, CORS, OpenAPI and route wiring.
- AuditPass.Auditor.PassOnce: a mismatch whose finding would end on the last 32-bit ledger is excluded, because the source's loops over the ledgers of a finding do not end there.
- AuditPass.ClusterIsClean: a range up to the last 32-bit ledger on which every ledger matches is excluded, because the source's ledger loop does not end there.
- AuditPass.Auditor.ReconcileRange: the same; and the RPC's answer is what was fetched, complete or not (AuditFetch.FetchRange says when it is complete).
- Idempotency.AtMostOneHandlerRuns: one (tenant, key) pair, whose state no other pair touches, one clock for all replicas, and only up to the first eviction of a held reservation; Idempotency.SecondRunIff is what happens otherwise.
- Idempotency.OwnerReleases: bounds the owner's own moves; nothing is said about a handler that never returns, or about how long a poll goes on.
- RateLimit.AtMostTwiceTheQuota: for clocks after the zero time; RateLimit.TwiceTheQuotaIff shows that it takes that.
- Broadcast.DeliveredIsAPrefix: publishes that do not overlap; the order in which a publish visits its subscribers is arbitrary.
- Broker.DeliveredIsAPrefix: publishes that do not overlap.
- Idempotency.RetriesAreReplayed: up to the first eviction of a held reservation.
- The negotiation of the content encoding from Accept-Encoding, whose outcome is gzip, deflate or none, and the Vary header.
- AuthFlow.HitsAreBoundedStale: the key row and the scope come from two store reads, so from possibly different moments, both inside the bound.
- Compress.StatusIsTheHandlers: for handlers that set the status first or not at all; Compress.StatusIsTheHandlersIff covers all others.
- Conditional.FullBodyOrNotModified: status codes are positive, as the server demands of its callers.
- AuditProtocol.MarkedLedgersAreStillClean: one way for several auditors; both ways for one (AuditProtocol.LoneAuditorIsRightIff) with marks below the last 32-bit ledger, since behind a wrapped window the clean part of one comparison can back what a later re-check covers.
