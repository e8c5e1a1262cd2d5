# OpenZync backend: protocols whose guarantees hold over whole runs

A Dafny model of the stateful protocols in the OpenZync backend, with proofs of what they keep over every run. Each
protocol is a machine: a step is what one task does between two awaits, and its event carries how the call to
PostgreSQL, Redis, S3 or OpenBao ended. A theorem about `Run(events)` is therefore about every interleaving, every
failure and every length of run; an event that cannot happen changes nothing. Beside a machine stands, as a class, the
object that the source mutates, and its methods are proved against the machine's steps.

| files | what they model |
|---|---|
| `Postgres.dfy`, `Rls*.dfy` | tenant context on pooled sessions: the session lifecycle, commits, rollbacks, `rls_bypass` and its three-stage failure path; what each kind of session sees |
| `Utf8.dfy`, `Base64.dfy`, `Cursor.dfy`, `Decimal.dfy`, `Sorting.dfy`, `Pagination.dfy` | UTF-8, unpadded URL-safe base64 (sections 3.2 and 5 of RFC 4648), the cursor formats, the ORDER BY resolver, keyset pages over a changing table |
| `RateLimit.dfy` | the sliding window over a pruned, expiring sorted set |
| `Throttle.dfy`, `AuthThrottle.dfy`, `FixedWindow.dfy` | login counters with compensation, and the counters that are only incremented and expired |
| `SurrealPool.dfy` | the per-organization connection pool: locks, cap, idle and LRU eviction |
| `Manifests.dfy`, `BenchmarkRunner.dfy`, `BenchmarkCompletion.dfy`, `CheckpointFile.dfy` | the resumable benchmark runner: manifests, worker pool, kills and resumes |
| `CacheAside.dfy`, `Rbac.dfy` | cached role, permission set and password flag; changes that are flushed, invalidated and then committed |
| `ApiKeyAuth.dfy`, `Revocation.dfy` | the API-key flow: positive cache, negative cache, throttle, database; revoking a key |
| `Multipart.dfy`, `OpenBao.dfy` | multipart re-chunking; the compare-and-swap merge of the system config |
| `Sequences.dfy`, `Wrappers.dfy` | shared definitions |

Some results go beyond what the source says of itself, or against it; the model follows the code.

- `core/rbac.py:149-156` says that any Redis error yields `"member"`. A failed Redis *read* falls through to the
  database and the database's role is returned (`Rbac.RedisFailureAsksDatabase`).
- `middleware/auth_throttle.py:91-92` says that counters are never decremented below zero (lines 105-108 grant that two
  successes can race). Among password logins they can be, exactly in a life of the key that begins while a login is in
  flight (`Throttle.NegativeIffInFlightAtExpiry`). The verification of a second factor also records a success, on the
  key of the e-mail address in its request, which the service does not compare with the verified session
  (`routers/auth.py:458-462`, `services/auth/session.py:163-169`). A verification that completes no login counted on
  that key can drive the counter below zero in every life (`Throttle.OneVerificationGoesNegative`), and each such
  decrement lets one more login fail (`Throttle.FailuresPerLifetime`, `Throttle.FailuresBoundIsAttained`); if each one
  completes a login counted there, nothing is lost (`Throttle.MatchedVerificationsCostNothing`).
- `middleware/auth.py:861-870` answers "API Key Revoked". It never does: the look-up finds no revoked row, so that a
  revoked key is answered as invalid and goes into the negative cache (`ApiKeyAuth.NobodyIsToldRevoked`).
- A writer of the system config that is told it failed may have contributed: exactly when the reply to a write that
  the server takes is lost (`OpenBao.FailedContributesIffTakenReplyLost`).
- The incr-then-expire counters admit at most `2 * limit - 1` in any window, one less than twice the limit, and that
  is attained (`FixedWindow.AnyWindowAdmitsLessThanTwice`, `FixedWindow.TwiceIsAttained`).
- `services/api_key_service.py:147` promises that a revoked key is rejected immediately. The revocation is only flushed
  when the cache entries are deleted, and committed when the handler has returned (`dependencies/db.py:113-115`), so
  one ordinary request that reads the row between deletion and commit fills the cache with it, and the key is still
  accepted after the commit (`Revocation.RevokedKeyAccepted`, for every acceptable key). The commit ends acceptance
  exactly if no request read an acceptable row between the two or held one before (`Revocation.DeleteThenCommit`).
  Changes of role, permissions and password flag have the same order and the same exact condition
  (`Rbac.RoleChangeEnds`, `Rbac.PermissionChangeEnds`, `Rbac.FlagChangeEnds`); a demoted admin can stay one
  (`Rbac.DemotedAdminStaysAdmin`).
- `middleware/rate_limit.py:180-205` bounds any window only as long as the key does not expire between two requests
  of it. A pipeline that is delayed past the key's time to live finds an empty set, and the bound fails
  (`RateLimit.DelayedPipelineBreaksBound`), by the maximum for each expiry and no more
  (`RateLimit.WindowBoundWithExpiries`). `RateLimit.SameAsFullHistoryIff` is the exact condition for the count, and a
  bounded delay is enough for it (`RateLimit.BoundedLatencySuffices`).
- After a commit or rollback a session has its context again unless the rollback or the re-bind itself fails; then
  its statements see no row until a context is set or bound again (`RlsExactness.UnboundIffFails`,
  `RlsExactness.SeesExactlyItsTenant`). A superadmin session loses its bypass to a block until its next commit or
  rollback (`RlsExactness.SuperadminIsNarrowedUntilCommit`).
- An upload that is reported as failed has replaced the object exactly if the reply to the complete call was lost, and
  leaves an upload that nobody aborts if the reply to the create call was (`Multipart.UploadStream`).
- `core/sorting.py:100-102` adds no id tiebreak if the key is called `"id"`; the order is then total exactly if that
  name stands for the id column (`Sorting.ResolvedOrderIsTotal`).
- Resuming a benchmark run skips by id, so it judges exactly what is missing if and only if no question id repeats
  (`Manifests.ResumeIsExactIffIdsAreDistinct`).

## Model

| member | source | states |
|---|---|---|
| RlsSafety.NeverAnotherTenant | core/rls.py:153-229 | over every run of any number of sessions, commits, rollbacks, bypass blocks and failures: a statement carries its own session's tenant and join code or none, and outside a bypass block sees no row that the remembered context does not show |
| RlsSafety.PooledConnectionIsBlank | core/rls.py:88-97 | a connection that no session holds is idle, and the next transaction on it starts without any context |
| RlsSafety.ClosedSessionHoldsNothing | core/rls.py:294-317 | a closed session holds no connection, so nothing that it bound stands anywhere |
| RlsSafety.NextKeepsInv | dependencies/db.py:91-120 | one step of one session keeps the invariant of all: no two sessions share a connection, each view is within its own context, no setting outlives its transaction |
| RlsExactness.SeesExactlyItsTenant | core/rls.py:153-197 | in every run, whatever fails: a statement outside a bypass block sees exactly the rows of the remembered context if and only if the session is neither a superadmin one whose bypass a block has reset, nor one that has a context and failed to bind it again |
| RlsExactness.ReliableSessionSeesItsTenant | core/rls.py:153-197 | that failure is only this session's: if its own rollbacks and re-binds work, the superadmin exception is the only one, whatever else fails in it or in other sessions |
| RlsExactness.UnboundIffFails | core/rls.py:153-197 | a session comes to have a context that is not in force in exactly two kinds of step: a rollback that fails, and a re-bind that fails |
| RlsExactness.RememberedMeansOpenTransaction | core/rls.py:164-174 | in every run: while request code runs, a session whose remembered context is bound has a transaction; if it has its connection, the transaction carries that context |
| RlsExactness.ContextWithoutTransaction | core/rls.py:164-174 | the fact behind the `had_transaction` guard: request code has a remembered context and no transaction if and only if a rollback of its own failed and it has had no transaction since |
| RlsExactness.FaultlessSessionHolds | core/rls.py:153-197 | a session none of whose own calls has failed holds, with any remembered context, the transaction that carries it |
| RlsExactness.SuperadminIsNarrowedUntilCommit | core/rls.py:320-369 | the exception is real: a concrete run in which a superadmin session loses its bypass after a block and gets it back with the next commit |
| RlsTenancy.TenantSeesOnlyItsRows | dependencies/db.py:105-120 | over every run, from the events alone: a session opened for a tenant, whose context nobody sets again, sees outside bypass blocks only rows of that organization, and none without one; if its own bindings work, exactly those |
| RlsTenancy.TenantWithoutBlocks | core/rls.py:277-291 | and if it never enters a bypass block, that holds of every statement it ever runs |
| RlsTenancy.BareSeesNothing | middleware/auth.py:412-414 | a session that was opened without a context and never given one sees nothing outside a bypass block |
| RlsTenancy.SuperadminSeesEveryRow | dependencies/db.py:193-205 | a session of `get_db_superadmin` sees every row, as long as it opens no block and its bindings work |
| RlsTenancy.LastSetterDecides | core/rls.py:232-274 | the last successful setter of the tenant, of the code and of the bypass decides what is in force in every statement after it, across commits and rollbacks |
| RlsTenancy.QueryIsLogged | core/rls.py:153-197 | every query that succeeds is observed, once, by its session, with the settings that its transaction has on its connection |
| RlsTenancy.TenantOpensAndSees | dependencies/db.py:105-120 | a run, for every organization: the session opens, and its first query sees the tenant's rows and no others |
| RlsTenancy.SessionEnds | dependencies/db.py:105-120 | how it ends, step by step: commit after a return, rollback after an exception, then released and closed; the session that verifies a superadmin is only released |
| RlsSession.RlsAsyncSession.RebindRlsContext | core/rls.py:176-197 | an empty context costs no statement; any other is bound to the next transaction |
| RlsSession.RlsAsyncSession.Commit | core/rls.py:153-162 | after a successful commit the next transaction already carries the remembered context; for every outcome the session ends where the machine's steps end |
| RlsSession.RlsAsyncSession.RollbackTransaction | core/rls.py:164-174 | the same for rollback; without a transaction nothing is re-bound |
| RlsSession.RlsAsyncSession.SetTenantContext | core/rls.py:218-245 | the new tenant is remembered exactly if its statement succeeded |
| RlsSession.RlsAsyncSession.LeaveBypass | core/rls.py:340-369 | the reset and its recovery, for every combination of outcomes: if the reset works, only the bypass changes; if not, the session sees exactly what it remembers if and only if the recovery restores it, and nothing if it does not |
| RlsSession.RlsAsyncSession.ReleaseTenantContext | core/rls.py:294-317 | the remembered context is gone and the transaction ended, even if the rollback fails |
| RlsSession.RecoverKeeps | core/rls.py:347-369 | roll back, re-bind, re-assert: whatever of the three fails, the session is safe and not wider than it remembers |
| RlsSession.RecoverExactly | core/rls.py:347-369 | the view after the recovery, for every triple of outcomes: the remembered organization and lookup code, the bypass off unless the re-assert failed; or no context, if the rollback or re-bind failed or the connection was lost |
| RlsSession.RecoverRestoresIff | core/rls.py:347-369 | in rows: the recovery gives back exactly the remembered view if and only if the three stages work so far, and no bypass of the session's own was reset |
| Utf8.RoundTrip | core/cursor.py:24-54 | strict decoding inverts encoding on every string |
| Base64.RoundTrip | core/cursor.py:24-54 | decoding inverts encoding on every byte sequence |
| Base64.PaddingIsAtEnd | core/cursor.py:33 | padding symbols stand at the end and nowhere else, so that stripping them loses nothing |
| Base64.GroupIsBaseSixtyFour | core/cursor.py:24-54 | three bytes are one number of 24 bits, whose digits to base 64 are the symbols, the highest first |
| Cursor.RepadRestores | core/cursor.py:48-51 | adding padding restores the padded text, and no encoded length is 1 modulo 4 |
| Cursor.CursorRoundTrip | core/cursor.py:24-54 | `decode_cursor` inverts `encode_cursor` on every string, with and without padding |
| Cursor.VersionedRoundTrip | core/cursor.py:57-93 | the envelope gives back every payload but the empty one, which is an expired cursor |
| Cursor.UnversionedIsRejected | core/cursor.py:84-93 | a cursor without envelope is accepted exactly if its payload itself begins with the version |
| Cursor.UuidRoundTrip | core/cursor.py:112-119 | the 32 hex digits of an id are read back as that id and hold no separator |
| Cursor.PageCursorRoundTrip | core/cursor.py:96-121 | a page cursor gives back sort, direction, value and id, whatever separators the value holds |
| Cursor.AcceptedCursorIsWellFormed | core/cursor.py:112-121 | nothing else is accepted: a cursor names a sort, a direction and an id of 32 hex digits; only the value may be left out |
| Sorting.ResolvedOrderIsTotal | core/sorting.py:56-102 | the resolved clauses order every two ids exactly if the key "id" is not another column's name |
| Sorting.LessIsStrictOrder | core/sorting.py:94-102 | any list of clauses is a strict order: irreflexive, transitive, asymmetric |
| Sorting.SortLists | repositories/dialog_classification_repository.py:105-117 | what ORDER BY returns is strictly sorted and has exactly the rows that were filtered |
| Sorting.ListingIsUnique | core/sorting.py:94-102 | there is only one such listing, so two queries of one table cannot disagree |
| Decimal.RoundTrip | repositories/dialog_classification_repository.py:82-85 | the sequence number in a cursor is read back as itself, negative ones too |
| Pagination.PositionRoundTrip | repositories/dialog_classification_repository.py:73-104 | a cursor of the listing resumes at the key and id of the row it was made from |
| Pagination.ResumeFollowsOrder | repositories/dialog_classification_repository.py:86-104 | the keyset predicate and the ORDER BY are one order, for both columns and directions |
| Pagination.CursorIsBoundToItsSort | repositories/dialog_classification_repository.py:75-79 | a cursor is accepted by a request exactly if it was made for the same sort and direction; otherwise the request is refused |
| Pagination.PageIsPrefix | repositories/dialog_classification_repository.py:55-133 | a page is the first rows of what is left, and has a next cursor, at its last row, exactly if more is left |
| Pagination.WalkEnumerates | repositories/dialog_classification_repository.py:34-133 | following the cursors over a table that changes between pages: never refused; rows in (key, id) order; only rows of the session and tenant; no id twice if keys never change; on termination every row present throughout |
| Pagination.WalkIsComplete | repositories/dialog_classification_repository.py:116-133 | a walk that ends, with a limit of at least 1, has skipped no row that was there at each of its pages |
| Pagination.FixedTableWalk | repositories/dialog_classification_repository.py:119-133 | on a fixed table `n` pages are exactly the first `n` times page-size rows of the full listing, and the walk ends exactly when they cover it |
| Pagination.PagesConcatenate | repositories/dialog_classification_repository.py:34-133 | enough pages from the first one on put together to the whole sorted listing, and end |
| RateLimit.CountedBetween | middleware/rate_limit.py:180-205 | the pruned and expiring set against the full history, with timestamps out of order by at most `d`: it counts nothing older than the window, and everything less than window minus `d` old provided that the key has not expired since |
| RateLimit.NothingOldCounted | middleware/rate_limit.py:187-194 | with no premise on clocks or delays, nothing outside the window is counted |
| RateLimit.SameAsFullHistoryIff | middleware/rate_limit.py:187-205 | with in-order timestamps the count is that of the whole unpruned history, denied requests included, if and only if since the oldest request in the window no two consecutive pipelines were window plus 5 s apart |
| RateLimit.VerdictsOfFullHistoryIff | middleware/rate_limit.py:198-205 | that is also exactly when every limit gives the verdict of the full history |
| RateLimit.WindowBound | middleware/rate_limit.py:180-205 | no half-open interval of length window minus `d`, in which the key does not expire between two of its requests, admits more than the maximum; `d` = 0 is the exact sliding-window bound |
| RateLimit.WindowBoundWithExpiries | middleware/rate_limit.py:180-205 | with no premise on delays: each expiry of the key between two requests of the interval can admit the maximum once more, and no more than that |
| RateLimit.ExpiriesBoundIsAttained | middleware/rate_limit.py:180-205 | that is attained: for every window and every `n` it holds, `n` in-order requests with `n - 1` expiries, all admitted by a limit of one |
| RateLimit.WindowBoundWithBoundedLatency | middleware/rate_limit.py:180-205 | the bound holds for every interval if each request reaches Redis within `d`, at most 5 s, of a fixed offset from its timestamp |
| RateLimit.DelayedPipelineBreaksBound | middleware/rate_limit.py:187-205 | the premise is needed: for every window, two in-order requests a millisecond apart that a limit of one both admits |
| RateLimit.BoundIsTight | middleware/rate_limit.py:180-205 | for every window, every disorder up to it and every limit (at least two, if there is disorder), a run with the key alive that exceeds the limit in an interval one millisecond longer |
| RateLimit.RemainingIsExact | middleware/rate_limit.py:201-203 | `remaining` is how many more requests at the same instant will be admitted, while the key does not expire between them |
| RateLimit.SlidingWindow.CheckRateLimit | middleware/rate_limit.py:156-207 | one pipeline, in milliseconds and on the members themselves: what is pruned, counted, admitted and kept, and when the key expires; the verdict is that of the history so far, and the history grows by this request, denied or not |
| Throttle.Balance | middleware/auth_throttle.py:64-112 | the account of the counter, for every interleaving of increments, reads, decrements, verifications of a second factor and expiry: it is the logins counted in this life of the key and not taken back, less the decrements that took back something else |
| Throttle.Undershoot | middleware/auth_throttle.py:64-112 | the counter covers its pending successes up to the logins and verifications in flight at the last expiry and the verifications since |
| Throttle.NeverBelowPending | middleware/auth_throttle.py:85-112 | in every state the counter covers its pending successes but for the unmatched decrements that have happened; until there is one, no success of this life skips its decrement |
| Throttle.FailuresPerLifetime | middleware/auth_throttle.py:64-83 | logins of one life of the key that are admitted, and failed, open or waiting for a second factor, exceed the limit by at most the unmatched decrements |
| Throttle.OnlySuccessTakesBack | routers/auth.py:419-426 | in every run a login is admitted only within the limit and with the consent of its other key, and takes itself back only after the right password; a verification does so only after it has succeeded |
| Throttle.TakesBackOnlyFromPositive | middleware/auth_throttle.py:102-112 | whoever decrements has read a positive value |
| Throttle.FirstLoginSetsExpiry | middleware/auth_throttle.py:64-74 | the first login of a life gives the key its time to live, unless it broke off before |
| Throttle.NoExpiryWithoutFirstLogin | middleware/auth_throttle.py:64-74 | and nobody else does: a time to live comes only from a login that counted to 1 and sent its expire |
| Throttle.FailuresBoundIsAttained | routers/auth.py:441-463 | that is attained: for every `n`, a run without any expiry in which `n` verifications let `limit + n` admitted logins fail |
| Throttle.MatchedVerificationsCostNothing | routers/auth.py:419-426 | as long as the verifications on a key are no more than its logins that were asked for a second factor, counter and failures are bounded as if there were none |
| Throttle.SecondFactorCompensates | routers/auth.py:419-463 | a run: a login that asks for a second factor and its verification leave the counter at zero |
| Throttle.NegativeIffInFlightAtExpiry | middleware/auth_throttle.py:91-112 | just after an expiry: some continuation in this life, without a verification that begins in it, drives the counter below zero if and only if a login or verification was in flight |
| Throttle.OneVerificationGoesNegative | routers/auth.py:458-463 | with one verification every life can see a negative counter: a run from any state in which the key is missing, whatever is in flight |
| AuthThrottle.LoginThrottle.CheckLoginAttempt | middleware/auth_throttle.py:51-83 | both counters move before either is judged; the account's verdict comes first |
| AuthThrottle.UninterruptedCallsAreFloored | middleware/auth_throttle.py:91-112 | the floor at zero as far as it goes: calls that do not overlap never leave a counter negative, not even successes without a check before them |
| AuthThrottle.CountersExpire | middleware/auth_throttle.py:64-74 | after calls that do not overlap every counter has a time to live |
| AuthThrottle.LoginThrottle.RecordLoginSuccess | middleware/auth_throttle.py:85-100 | takes back both increments |
| FixedWindow.OneLifeAdmitsTheLimit | middleware/auth_throttle.py:147-155 | one life of the key admits at most the limit, whether or not its expire lands |
| FixedWindow.AnyWindowAdmitsLessThanTwice | middleware/auth.py:385-395 | any interval as long as the window admits at most `2 * limit - 1`, wherever it lies and however late the expire comes |
| FixedWindow.TwiceIsAttained | middleware/auth.py:385-395 | a run, for every limit and window, that admits that many |
| FixedWindow.AdmittedAfterTheWindow | middleware/auth_throttle.py:147-155 | nobody is refused for longer: an attempt a full window after the expire has landed begins a new life and is admitted |
| FixedWindow.ExpiringCounter.Check | middleware/auth_throttle.py:138-155 | one attempt: who is first in a life, who is admitted, as the machine's step |
| SurrealPool.OneCreationPerOrg | core/surreal_pool.py:145-179 | at any moment at most one call creates a connection for an organization |
| SurrealPool.InsertNeverOverwrites | core/surreal_pool.py:166-179 | a finished creation adds an entry and overwrites none |
| SurrealPool.ClosedExactlyOnce | core/surreal_pool.py:118-217 | every connection ever cached is either still cached or its close was attempted, exactly once |
| SurrealPool.PoolBound | core/surreal_pool.py:149-179 | with at most `n` creations in progress, entries and creations together never exceed the cap by more than `n - 1` |
| SurrealPool.SequentialUseKeepsCap | core/surreal_pool.py:157-165 | one creation at a time keeps the cap exactly |
| SurrealPool.BoundIsAttained | core/surreal_pool.py:149-179 | for every `n`, a run that leaves cap plus `n - 1` connections cached |
| SurrealPool.LastUsedIsLatestUse | core/surreal_pool.py:118-124 | in every run `last_used` is the time of the latest event that created the connection or handed it out on the fast path |
| SurrealPool.RecentlyUsedIsHandedOut | core/surreal_pool.py:118-124 | a connection asked for at most 1800 s after such a use is handed out, and nothing is closed |
| SurrealPool.EvictedIsOldestUse | core/surreal_pool.py:157-165 | a full pool of 32 gives up a connection whose latest use is oldest |
| SurrealPool.SurrealConnectionPool.LeastRecentlyUsed | core/surreal_pool.py:159-160 | the scan finds an entry of minimal `last_used` |
| SurrealPool.SurrealConnectionPool.Begin | core/surreal_pool.py:114-147 | the fast path hands out exactly a fresh entry and drops a dead-idle one |
| SurrealPool.SurrealConnectionPool.EnterLock | core/surreal_pool.py:149-165 | under the lock: the entry made meanwhile is reused, otherwise the call becomes a creator, making room if the pool is full |
| SurrealPool.SurrealConnectionPool.Finish | core/surreal_pool.py:166-189 | the lock is released whether or not the connection came about |
| Manifests.NewestIsNewest | benchmarks/cli.py:461-503 | auto-resume finds a resumable manifest written last, and misses none |
| Manifests.LoadedIsResumable | benchmarks/cli.py:380-532 | only an incomplete manifest with this run's fingerprint is ever loaded; auto-resume loads one exactly if there is one, and a named one that does not qualify is an error |
| Manifests.SkipLeavesTheRest | benchmarks/run_longmemeval.py:1432-1512 | recorded results and skipped-past questions together are the dataset, each question once |
| Manifests.ResumeIsExactIffIdsAreDistinct | benchmarks/cli.py:314-328 | that holds for every recorded part if and only if no question id repeats |
| Manifests.SortedAnswersInOrder | benchmarks/run_longmemeval.py:1525-1540 | the final sort keeps the results and puts them in the dataset's order, one for each question |
| BenchmarkRunner.StepKeeps | benchmarks/run_longmemeval.py:1455-1523 | each step of the pool, and each kill and resume, keeps the conservation law: recorded, in flight and waiting questions are the dataset |
| BenchmarkRunner.ManifestsAnswerOnce | benchmarks/checkpoint.py:214-275 | in every run history every manifest on disk answers questions of its dataset, none twice |
| BenchmarkRunner.OneIngestedProject | benchmarks/run_longmemeval.py:316-517 | all results of a manifest were judged against the one project it pins; that project had been found with sessions in it and was trusted, or a run of this manifest had come to the end of its ingest phase, which it does after an enrichment timeout too |
| BenchmarkRunner.ManifestsOnlyGrow | benchmarks/checkpoint.py:214-224 | results on disk are only appended; completed, ingested and project are never taken back |
| BenchmarkRunner.FinishedRunAnswersAll | benchmarks/run_longmemeval.py:1432-1540 | a run that finishes, after any kills and resumes, returns exactly one result for each question, in dataset order |
| BenchmarkRunner.ReturnReportsTheManifest | benchmarks/run_longmemeval.py:1443-1540 | what it returns is what its manifest holds |
| BenchmarkRunner.RecordedVerdictsAreTheJudges | benchmarks/run_longmemeval.py:1461-1498 | in every run history each entry on disk or returned is the verdict that the judge gave on that question, while a process of that manifest had it in a slot, against the pinned project |
| BenchmarkCompletion.UndisturbedRunFinishes | benchmarks/run_longmemeval.py:1432-1540 | left alone after any history, a fresh run over any dataset, with any number of workers and any verdicts, returns exactly those verdicts in order and leaves them in a completed manifest |
| BenchmarkCompletion.SavedIsNewest | benchmarks/checkpoint.py:214-224 | a manifest that is saved is newer than every other, so that auto-resume takes the one worked on last |
| BenchmarkRunner.JudgedAtMost | benchmarks/run_longmemeval.py:1455-1523 | every judgement is on disk, in a slot, or was lost with a killed process; so questions are judged at most once each plus workers times kills |
| CheckpointFile.Store.Autodiscover | benchmarks/cli.py:461-503 | the loop over the directory finds the newest resumable manifest, or there is none |
| CheckpointFile.Checkpoint.CreateNew | benchmarks/checkpoint.py:108-145 | a new manifest is on disk, empty, under a path that was free |
| CheckpointFile.Checkpoint.LoadFrom | benchmarks/checkpoint.py:147-212 | in memory is what the manifest says |
| CheckpointFile.Checkpoint.Save | benchmarks/checkpoint.py:214-224 | the manifest on disk becomes the checkpoint; no other changes |
| CheckpointFile.Checkpoint.SetProjectId | benchmarks/checkpoint.py:226-237 | the project is pinned and on disk |
| CheckpointFile.Checkpoint.MarkIngested | benchmarks/checkpoint.py:239-249 | the flag is set and on disk |
| CheckpointFile.Checkpoint.MarkCompleted | benchmarks/checkpoint.py:277-286 | the flag is set and on disk |
| CheckpointFile.Checkpoint.Completed | benchmarks/checkpoint.py:268-275 | the ids of the recorded results |
| CheckpointFile.Checkpoint.AnswerQuestions | benchmarks/run_longmemeval.py:1432-1540 | the loop with one worker: judges exactly the unanswered questions, in dataset order, records the judge's verdicts and leaves them on disk, returns the dataset's answers in order |
| CacheAside.AnswersAreRecent | core/rbac.py:142-204 | whatever interleaves and fails, an answer is the denying fallback or the row held it at most the TTL plus one lookup ago |
| CacheAside.OldAnswerIffHeld | core/rbac.py:170-225 | a later lookup can be answered with an older version if and only if one is still cached, or a lookup that read it has yet to fill the cache |
| CacheAside.CommitLeavesOldIff | core/rbac.py:170-225 | a commit leaves the old value answerable if and only if, at the commit, Redis holds an unexpired entry or a lookup is about to fill one, whatever was deleted before |
| CacheAside.DeleteThenCommit | services/user_service.py:397-407 | the callers' order, flush, delete, commit: the old value survives the commit only if a lookup read the row between deletion and commit or had read it before and not yet filled Redis; and exactly then, if Redis works and the commit comes within the time to live |
| CacheAside.OldAnswerAfterCommit | services/user_service.py:440-447 | that does happen, for every kind of cached answer and every change: a concrete run with one lookup between deletion and commit |
| Rbac.RolesAreRecent | core/rbac.py:142-204 | a role is "member" or was held at most 60 s and one lookup ago |
| Rbac.PermissionsAreRecent | core/rbac.py:228-296 | a permission set is empty or was held at most 60 s and one lookup ago |
| Rbac.FlagsAreRecent | core/rbac.py:320-380 | the password flag is set or was held at most 60 s and one lookup ago |
| Rbac.PermissionsRoundTrip | core/rbac.py:283-290 | the cached form is the sorted list of the set, and reads back as the same set |
| Rbac.RoleChangeEnds | services/user_service.py:440-447 | a role change ends the old role exactly if no lookup read the row between deletion and commit or was about to fill Redis with it; the condition is sufficient always, and necessary if Redis works and the commit comes within 60 s |
| Rbac.PermissionChangeEnds | services/user_service.py:397-407 | the same exact condition for the cached permission set, which is stored as a sorted list |
| Rbac.FlagChangeEnds | services/auth/password.py:74-84 | the same for the must-change-password flag when a password is changed |
| Rbac.DemotedAdminStaysAdmin | services/user_service.py:440-447 | a concrete run: a lookup that begins after the demotion was committed answers "admin" |
| Rbac.UserCache.Lookup | core/rbac.py:170-204 | the lookup's code does what the protocol's steps do |
| ApiKeyAuth.AcceptanceIsBacked | middleware/auth.py:698-934 | an accepted request carries the grant of a row that the database path accepted at most 300 s and one request earlier; from the cache it is also unexpired at that moment |
| ApiKeyAuth.AcceptedKeyIsGood | middleware/auth.py:850-888 | in every run, on the row's own fields: an accepted key's row, read at most 300 s and one request earlier, matched its hash, was not revoked and had not expired when judged; from the cache, nor has it at acceptance |
| ApiKeyAuth.ColdRequest | middleware/auth.py:791-934 | with both caches cold a request is accepted if and only if there is a row, the key matches its hash, it is not revoked and has not expired; what is then cached, and for how long |
| ApiKeyAuth.WarmOrFailedRequest | middleware/auth.py:698-811 | a failing call to Redis refuses; a cached key is accepted exactly until its expiry; the negative cache, the throttle and a failing database refuse |
| ApiKeyAuth.NegativeIsBacked | repositories/api_key_repository.py:212-218 | the negative cache refuses only a key that had no unrevoked row at most 60 s and one request ago |
| ApiKeyAuth.NobodyIsToldRevoked | middleware/auth.py:861-870 | the answer "API Key Revoked" is never given in any run: the look-up passes over revoked rows |
| ApiKeyAuth.RevokedKeyIsCachedAsUnknown | middleware/auth.py:813-833 | a run, for every revoked key: its second request is refused by the negative cache, although the row is there |
| ApiKeyAuth.CacheAgreesWithDatabase | middleware/auth.py:299-326 | while the row is unchanged both paths give one verdict at every moment, across the key's expiry |
| ApiKeyAuth.OldAcceptedIffUsable | middleware/auth.py:698-929 | a later request can be accepted on a replaced row if and only if the cache still accepts it, or a request in progress holds it and the database path accepts it now |
| ApiKeyAuth.AloneIs | middleware/auth.py:698-934 | one request with nothing in between comes to the plain outcome; with the cache unreadable it is refused and the database not asked |
| ApiKeyAuth.KeyAuthenticator.Authenticate | middleware/auth.py:698-934 | the flow's code does what the protocol's steps do, to the verdict and to both caches |
| Revocation.CommitEndsAcceptanceIff | repositories/api_key_repository.py:187-190 | committing a revocation leaves the key acceptable if and only if, at the commit, the cache still accepts the old row or a request in progress holds it and the database path accepts it now |
| Revocation.DeleteThenCommit | services/api_key_service.py:192-210 | the source's order, flush, delete, commit: acceptance survives the commit only if a request held an acceptable row at the deletion or read one before the commit; and exactly then, if Redis works, the commit comes within 300 s and the key has one expiry |
| Revocation.RevokedKeyAccepted | services/api_key_service.py:146-210 | that does happen, for every acceptable key and with no request in progress at the deletion: a concrete run with one request that reads the row before the commit and one that begins after it and is accepted |
| Multipart.WellCutIsUnique | core/blob_storage.py:200-237 | data can be cut into full parts and a last one in only one way, so the parts do not depend on the chunks |
| Multipart.PayloadIsInOrder | core/blob_storage.py:200-215 | the payload is the bytes of the chunks, all of them and in their order |
| Multipart.Drain | core/blob_storage.py:207-225 | full parts leave the buffer, in order, until it holds less than 5 MiB |
| Multipart.SendParts | core/blob_storage.py:200-237 | for every chunk sequence: parts numbered 1 to n, all but the last of exactly 5 MiB, together the input; it fails only if a call or the source failed |
| Multipart.UploadStream | core/blob_storage.py:164-271 | on success the object is the input and no upload is left; on failure the object is written if and only if the complete call took effect and its reply was lost, and an upload is left if and only if the reply to the create call was lost, or the abort of an uncompleted upload had no effect |
| OpenBao.StoredIsFoldOfApplied | core/openbao.py:707-736 | for every interleaving the secret is the fold of the applied deltas in version order, and each successful writer is among them once |
| OpenBao.DeltasAreTheWriters | core/openbao.py:721-736 | the applied deltas are the ones that their writers were given |
| OpenBao.NoSuccessfulKeyIsLost | core/openbao.py:730-736 | a key keeps its value until a later applied write sets it |
| OpenBao.OneWinnerPerVersion | core/openbao.py:484-509 | of two writers that read one version at most one is applied, and the other is told that it failed |
| OpenBao.WithRepliesFailedContributeNothing | core/openbao.py:721-736 | if no reply is lost, a failed writer contributes nothing |
| OpenBao.FailedContributesIffTakenReplyLost | core/openbao.py:298-386 | a failed writer contributes if and only if the server took its write and the reply was lost |
| OpenBao.LostReplyContributes | core/openbao.py:298-386 | that does happen: a concrete run |
| OpenBao.SystemConfig.Retry | core/openbao.py:336-386 | up to three attempts; only a transient refusal is repeated, the first other outcome is final, so the server sees the request at most once |
| OpenBao.SystemConfig.WriteSystemConfig | core/openbao.py:707-736 | success adds the delta to what was there and moves the version by one; a failure does so if and only if the server took the write and its reply was lost, and otherwise changes nothing; which error is reported when |

## Supporting facts

Facts about single calls that the results above rest on or frame; each follows from the definitions.

- `AuthThrottle.SuccessCompensatesAttempt` (`middleware/auth_throttle.py:51-112`): a successful login leaves both
  counters as it found them exactly if they were not negative, and touches no other.
- `RateLimit.BoundedLatencySuffices` (`middleware/rate_limit.py:180-196`): if each request reaches Redis within `d`, at
  most 5 s, of a fixed offset from its timestamp, the disorder is at most `d` and the key stays alive between any two
  requests of one window.
- `SurrealPool.WhyEntriesLeave` (`core/surreal_pool.py:118-165`): an entry leaves only when it was idle too long, or the
  pool was full and it had minimal `last_used`.
- `Rbac.RedisFailureAsksDatabase` (`core/rbac.py:170-190`): with Redis unreadable the answer is a denial if and only if
  the database gives one.
- `Rbac.AloneIs` (`core/rbac.py:170-204`): one lookup with nothing in between comes to the plain outcome: hit, database
  with refill, or fallback.
- `RlsTenancy.BlockOpensAndCloses` (`core/rls.py:320-369`): inside a bypass block every row is seen, and after its end
  none by the bypass.
- `RlsTenancy.EnteringCounts` (`core/rls.py:340-346`): a bypass block that fails to be entered is none.
- `Base64.AlphabetIsUrlSafe` (`core/cursor.py:24-54`): the 64 symbols are those of section 5 of RFC 4648, in that
  order.
- `Sorting.ResolvesToNamedColumn` (`core/sorting.py:56-102`): what the resolver accepts, and that it then orders by
  the named column and direction, or by the defaults.
- `Pagination.NamedSortsAreServed` (`repositories/dialog_classification_repository.py:60-66`): a request is refused
  for its sort exactly if it names a column other than the two, or a direction other than the two.
- `Manifests.ProjectRules` (`benchmarks/run_longmemeval.py:316-500`): when a run may query what is there, ingest or
  must refuse, and into which project, by what is pinned, found and allowed.
- `Rbac.InactiveIsDenied` (`core/rbac.py:192-204`): a user who is gone, inactive or deleted is answered with the
  denying value, and nothing is cached.
- `OpenBao.ClientIsWriter` (`core/openbao.py:721-736`): the client's request is a writer of the interleaving machine.
- `CacheAside.CommitThenDelete`, `Revocation.CommitThenDelete`: had the callers deleted after the commit, the old value
  would end for good, as long as no lookup or request still holds it.

## Left out

- CacheAside.AnswersAreRecent: "one lookup's duration" is a bound `late` on the lookups in progress, given as the premise `PromptRun`; ApiKeyAuth states its bounds in the same way.
- ApiKeyAuth.AcceptanceIsBacked: a deployment without Redis, in which every request takes the database path, is not modelled; hashes are taken as injective, so one machine follows one presented key.
- Revocation.DeleteThenCommit: the update of `last_used_at` after an acceptance is not modelled; it can wait for the row that is being revoked, and only delays the fill. A commit that fails rolls the change back and leaves nothing to end; one pending change of a row at a time, as PostgreSQL's row lock gives it. Callers that change several users, or the role and the permission set together, are that many machines side by side.
- BenchmarkRunner.StepKeeps: one process works on the directory at a time; a run with a baseline counts as two runs; manifests damaged from outside are not modelled.
- BenchmarkRunner.FinishedRunAnswersAll: question ids are distinct, as in the datasets; the model does not say that a run finishes.
- Cursor.CursorRoundTrip: Python's leniency when decoding (foreign characters, lone surrogates, UUID texts with dashes or braces, `int` with spaces or underscores) is not modelled; the decoders here are strict.
- Pagination.WalkEnumerates: timestamps in cursors go through a pair of functions of which only `parse(format(t)) == t` is assumed; a limit of 0 or less is refused by the router.
- Throttle.Undershoot: the machine follows one key, and what is counted on one key and taken back on another appears on the second as a verification; the throttle that verifications pass first has counters of its own. E-mail and IP normalization only choose the key.
- RlsSafety.NeverAnotherTenant: savepoints and cancellation of a coroutine inside `rls_bypass` are not modelled; policies are reduced to tenant, join code and bypass, and organization ids come stripped of spaces.
- SurrealPool.PoolBound: stated without `close_all`, which clears the locks while creations may be under way.
- Multipart.UploadStream: ETags, the content type and S3's limit of 10 000 parts are not modelled.
- OpenBao.SystemConfig.WriteSystemConfig: only deltas; removing keys by writing an earlier snapshot is not possible with this merge. Soft-deleted versions and authentication are not modelled.
- Sending HTTP and SMTP, logging, metrics, tracing, the LLM backends, JWT verification and password hashing.
- SQL text, ORM mapping and migrations: a table is a set of rows, a query a filter, a sort and a take.
- The other throttles of `middleware/auth_throttle.py` repeat the two kinds modelled here; the rate-limit middleware around the window, client-IP and path classification are plain look-ups.
- `BlobStorage.upload`, `sanitize_file_name` and `build_key`, and the exceptions' mapping to status codes.
