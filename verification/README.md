# Verified model of the coordination protocols

The system is a multi-tenant authentication backend that keeps all of its shared state in
PostgreSQL: a leased background-job queue, an idempotency store, delegated authorization
(resource servers, scopes, grants, authorization requests, codes and access tokens), a rate
limiter, rotating signing keys, a migration runner and keyset-paged lists. This project models
those protocols and proves what they keep over every run, whatever requests, workers, crashes
and clock readings come in whatever order.

How the model is laid out:

- Each store or group of handlers is a class or a set of methods that goes through the same
  statements and branches as the code (`Jobs.BackgroundJobStore`, `SupportCases.SupportDesk`,
  `Idempotency.IdempotencyStore`, `RateLimits.RateLimiter`, `SigningKeys.KeyRing`,
  `Migrations.Migrator`, `AuthorizationStore.Store`), each method proved against a function on the
  tables.
- The same functions are the steps of a state machine (`Retention`, `IdempotencyRuns`,
  `Authorization`, `SigningKeys`, the migration history, the page walk). A run is a sequence of
  states and events with a clock that never goes back. A worker or a request that crashes simply
  never takes its next step.
- The `*Proofs` modules show that each step keeps the invariants; the `*Runs` modules state the
  theorems over whole runs.

Modelling decisions:

- A transaction is one step. Where the code locks rows with `FOR UPDATE` or updates under a
  condition this is exact; where it reads without a lock inside a transaction (the grant lookups
  at decision and exchange) or between two statements (resolving scopes and inserting an
  authorization request) it is an assumption.
- `ExchangeRaces` drops this assumption for the token exchange: its grant check and its insert are
  two steps, with any other transactions in between that need not wait for the locked code. Then
  not every unrevoked token is covered by a grant: `ExchangeRaces.UncoveredTokenIsInserted` is a
  run that ends with one that is not. `ExchangeRaces.LooseIffUncoveredAtInsert` says exactly when
  this happens (the check, repeated at the insert, would fail, which takes a revoking change in
  between), `ExchangeRaces.CoveredThroughoutIffNoneNarrows` which changes do it, and
  `ExchangeRaces.UncoveredTokensAreCutBack` that such a token gets no capability that the tables do
  not grant at that moment. That a revoking change lies in between is necessary but not sufficient
  (`Narrowing.ReaffirmedGrantStillCovers`). A change whose token update runs before the insert
  counts as lying in between even if it commits later.
- Statements that read the database clock separately carry separate readings; readings of an
  application server's clock are separate too, with an explicit skew (`Retention`) or lag and lead
  (`SigningKeys`).
- Rows that `SKIP LOCKED` passes over are a set given to the claim. Values made by `uuid.New`
  are uids never used before.
- Instants and durations are whole nanoseconds. Whole-second rounding of leases, retentions and
  windows is modelled (`Common.DurationSeconds`), as is truncating division.
- Checksums are a function from contents to text; they are assumed injective only in
  `MigrationProofs.ReleasesOnlyGrow`.
- Histories that no step reads (issued requests, codes and tokens; granted leases and commits) are
  kept in the run states so that theorems can speak about rows that have since been deleted.
- The stamp of a case update may differ from the database's clock at its commit, because the clocks
  differ and because it is read before the commit; the skew covers both. A closed case is then not
  always kept for 365 days of the database's clock: `RetentionClocks.FullRetentionIffClockNotBehind` shows
  that it is guaranteed exactly when the stamp of the closing update was not behind the database's
  clock at its commit, `RetentionClocks.AlwaysKeptIffNoSkew` that over all runs this means no skew
  at all,
  and `RetentionClocks.SkewBoundIsReached` gives runs that meet the bound of
  `RetentionRuns.PurgeOnlyAfterRetention` to the nanosecond.
- Signing keys stay published long enough for every token exactly when the clocks fit
  (`SigningKeys.VerifiableIffClocksFit`): the lag of a rotation's commit behind its stamp and the
  lead of a server's clock may together reach `SigningKeys.Slack`, five minutes or more, and twice
  the lead plus the lag must fit into the time a retired key is kept. For clocks that do not fit,
  `SigningKeys.SlackIsExact` and `SigningKeys.KeptForIsExact` give runs that lose the key of a live
  token.
- The policy version in an authorization decision is read by the bearer check, the capabilities by a
  later statement. `ReportedVersions.OneVersionTwoAnswers` is a run in which two decisions report
  one version for one token with different capabilities;
  `ReportedVersions.NamesRowsIffVersionStandsStill` shows that the version is sure to name the
  capabilities exactly when it does not move between the two statements.

- The order of the capabilities is the collation of the database. The results about them do not
  depend on it, except where a byte-wise one is named (`Decisions.ByteOrder`).

## Model
| member | source | states |
|---|---|---|
| `RetentionRuns.PurgeNeverLost` | internal/api/support_cases.go:742-745 | In every reachable state, with any workers in flight, a closed Support Case has exactly one purge job, and it is pending, running or dead-lettered |
| `RetentionRuns.CompletionNeverLosesPurge` | internal/api/background_jobs.go:157-184 | A worker that decided the purge needs no more work can still complete the job only if the case was not re-closed since and is not closed now |
| `RetentionProofs.ClosingClearsLease` | internal/api/support_cases.go:744-744 | Closing a case takes its purge job away from whoever held the lease, in the same step |
| `RetentionProofs.StepKeepsInv` | internal/store/background_jobs.go:199-340 | Every step of workers, handlers, case updates, replays and cleanup keeps the invariants that tie job rows, case rows and the copies carried by workers |
| `RetentionProofs.ReachableInv` | internal/api/background_jobs.go:50-107 | Those invariants hold in every state of every run |
| `RetentionProofs.HeldRowUnchanged` | internal/store/background_jobs.go:236-256 | A lease becomes current only in the claim that makes it, and no step changes a row whose lease stays current |
| `RetentionRuns.LostLeaseNeverReturns` | internal/store/background_jobs.go:275-289 | A lease that is no longer current never becomes current again |
| `RetentionRuns.OnlyHolderActs` | internal/store/background_jobs.go:275-340 | A row under an unexpired lease changes only when the holder of that very lease finishes or a case update re-arms the job |
| `RetentionRuns.LeaseIsExclusive` | internal/store/background_jobs.go:199-273 | Before a lease expires no other claim is granted the job, unless in between the holder finished or a case update re-armed it |
| `RetentionRuns.RetryFlagIsStoredStatus` | internal/store/background_jobs.go:294-321 | The dead-letter flag that Retry computes from the worker's copy agrees with the status it stores |
| `RetentionRuns.AttemptsAreNetClaims` | internal/store/background_jobs.go:218-256 | The attempt counter equals claims minus reschedules since the last reset; dead-lettered, pending and running rows have exactly, fewer than, and between one and max_attempts of them |
| `RetentionRuns.AttemptsOfStep` | internal/store/background_jobs.go:181-187 | Which steps add to, give back or reset the attempt counter of a row |
| `RetentionRuns.FailureDeadLettersAtTheBound` | internal/store/background_jobs.go:305-313 | A failed attempt dead-letters the job exactly when its net claims have reached max_attempts and makes it pending again otherwise |
| `RetentionRuns.RetentionCountsFromClose` | internal/api/support_cases.go:708-719 | A closed case has a retention date, and it was closed in every state whose clock is past that date less 365 days by more than the skew |
| `RetentionClocks.RetentionStays` | internal/api/support_cases.go:708-719 | For as long as a case stays closed, its retention date is 365 days after the stamp of the update that closed it |
| `RetentionRuns.PurgeOnlyAfterRetention` | internal/api/background_jobs.go:173-199 | A case is removed only if it was closed in every state of the last 365 days less the clock skew; the next rows show when the skew can be left out |
| `RetentionClocks.FullRetentionIffClockNotBehind` | internal/api/support_cases.go:708-719 | From any update that closes a case, every continuation of the run keeps the case for 365 days of the database's clock unless it is reopened, if and only if the update's stamp was not behind that clock |
| `RetentionClocks.EarlyRemoval` | internal/api/background_jobs.go:173-199 | If the stamp was behind, some worker's claim and purge remove the case too early |
| `RetentionClocks.AlwaysKeptIffNoSkew` | internal/api/support_cases.go:708-719 | All closed cases of all runs are kept for 365 days if and only if there is no skew |
| `RetentionClocks.SkewBoundIsReached` | internal/api/background_jobs.go:173-199 | For every skew up to the retention some run removes a case that was not closed one nanosecond before the proved bound, so the bound cannot be tightened |
| `RetentionClocks.NoEarlyRemoval` | internal/api/background_jobs.go:173-199 | A case is removed no earlier than 365 days after the stamp of the update that closed it |
| `Retention.FinishJob` | internal/api/background_jobs.go:80-105 | A failed attempt is retried, a postponed one rescheduled and any other completed, each with no effect when the lease is lost |
| `RetentionRuns.DeadLetteredAfterMaxAttempts` | internal/store/background_jobs.go:218-256 | Since its last reset, a job that is not rescheduled has been claimed exactly max_attempts times when it is dead-lettered, fewer times while it is pending, and never more |
| `JobTiming.ClaimTakesTheFirstAvailable` | internal/store/background_jobs.go:231-256 | In every run a claim takes the unlocked row of its queue that is available, has attempts left and is pending or abandoned, first by available_at, created_at and uid; it takes none only when there is none |
| `JobTiming.NeverClaimedBeforeAvailable` | internal/store/background_jobs.go:237-237 | No claim of any run takes a job before its available_at |
| `JobTiming.ClaimWrites` | internal/store/background_jobs.go:218-256 | A claim leases exactly the row it takes, for the given time and one more attempt, and dead-letters exactly the rows of its queue whose last attempt was abandoned |
| `JobTiming.FinishWrites` | internal/store/background_jobs.go:275-340 | What completion, postponement and failure write into the row their worker holds, dead-lettering it exactly when its attempts are used up |
| `JobTiming.LostFinishWritesNothing` | internal/store/background_jobs.go:275-340 | A worker that no longer holds the row changes nothing in the table |
| `JobTiming.ReplayWrites` | internal/store/background_jobs.go:128-194 | A replay makes a dead-lettered job claimable at once with all its attempts, and touches no other row or status |
| `JobTiming.RetryIsNotClaimedEarly` | internal/api/background_jobs.go:80-96 | A failed job is not claimed again before its retry instant, unless it is reset in between |
| `JobTiming.PostponedIsNotClaimedEarly` | internal/api/background_jobs.go:97-102 | A postponed job is not claimed again before the instant its handler asked for, unless it is reset in between |
| `JobTiming.ClosingWrites` | internal/api/support_cases.go:742-745 | An update that leaves a case closed makes its purge job wait for the retention date with all attempts left |
| `JobTiming.PurgeIsNotClaimedEarly` | internal/api/support_cases.go:742-745 | The purge of a closed case is not claimed before 365 days after its closing stamp, unless it is re-armed in between |
| `JobTiming.PurgeDeletesExactlyWhenDue` | internal/api/background_jobs.go:157-199 | The purge handler deletes its case exactly when that is closed past its retention date, postpones to that date exactly when it is closed before it, and changes no other case |
| `Jobs.RowEffectsKeepRowOk` | migrations/000010_background_job_workers.up.sql:10-25 | Every row effect keeps the status constraint on the nullable columns and the attempt bounds of each status |
| `Jobs.NoStrandedJob` | internal/store/background_jobs.go:218-256 | After a known instant any claim on the queue dead-letters a pending or running job or finds it eligible, and leases another row instead only if that one is earlier in the order or this one is locked |
| `Jobs.BackgroundJobStore.FirstAvailable` | internal/store/background_jobs.go:236-256 | The row a claim picks is the least unlocked eligible one by available_at, created_at and uid, and none is picked only when there is none |
| `Jobs.BackgroundJobStore.Claim` | internal/store/background_jobs.go:199-273 | Sweeps exhausted rows, leases the first candidate for the rounded-up duration and returns a copy that agrees with the row; bad arguments change nothing |
| `Jobs.BackgroundJobStore.Complete` | internal/store/background_jobs.go:275-289 | Completes the row under its current lease; a stale holder gets an error and changes nothing |
| `Jobs.BackgroundJobStore.Retry` | internal/store/background_jobs.go:294-321 | Makes the held row pending again or dead-letters it; a stale holder changes nothing |
| `Jobs.BackgroundJobStore.Reschedule` | internal/store/background_jobs.go:325-340 | Postpones the held row and gives the attempt back; a stale holder changes nothing |
| `Jobs.BackgroundJobStore.Replay` | internal/store/background_jobs.go:128-194 | Resets exactly a dead-lettered row, and distinguishes a missing row from one in another status |
| `SupportCases.UpdateKeepsCaseOk` | internal/api/support_cases.go:708-719 | Every allowed update keeps closed_at and retention_until set exactly when the case is closed, all timestamps nil in the open statuses, and stamps a fresh close with the present |
| `CaseUpdates.UpdateWritesIff` | internal/api/support_cases.go:646-719 | In every run an update writes a case exactly when the caller has its current version, asks for a status the case may move to and changes something; otherwise it writes nothing |
| `CaseUpdates.UpdateWrites` | internal/api/support_cases.go:708-742 | Each accepted update raises the version by one and writes exactly the timestamps its move between statuses calls for |
| `CaseUpdates.NoLostUpdate` | internal/api/support_cases.go:646-650 | Of two updates that write one case the later caller had seen a later version, so none is overwritten unseen |
| `CaseUpdates.AnswerSaysWhy` | internal/api/support_cases.go:637-655 | Each refusal means what it says: the case is missing, the version is not current, the move is not allowed, or nothing would change |
| `SupportCases.SupportDesk.UpsertRow` | internal/api/support_cases.go:744-744 | The upsert lands on the one row with the case's deduplication key, or on a new row when there is none |
| `SupportCases.SupportDesk.UpdateSupportCase` | internal/api/support_cases.go:569-769 | Refuses unknown cases, stale versions and forbidden transitions without effect; otherwise writes the case and, when it is closed, re-arms the purge job in the same step |
| `SupportCases.SupportDesk.PurgeSupportCase` | internal/api/background_jobs.go:131-208 | Deletes a closed case past its retention date, postpones one before it, and leaves any other alone |
| `Worker.Pass` | internal/api/background_jobs.go:50-72 | One pass serves the nearest queue with a job, counted around the ring from the pointer, and leaves the pointer just past it; without a job nothing moves |
| `Worker.PassedOverComesNearer` | internal/api/background_jobs.go:58-72 | A pass that serves another queue brings the pointer strictly nearer to a queue that had a job |
| `Worker.ServedWithinOneRing` | internal/api/background_jobs.go:50-72 | A queue that has a job in every pass is served within as many passes as there are queues, and every pass claims some job |
| `Worker.RetryDelay` | internal/api/background_jobs.go:221-237 | For every attempt number and jitter byte the delay lies between the base and five quarters of it, reaches both ends, and never exceeds 320 s |
| `Worker.DelayFitsInt64` | internal/api/background_jobs.go:231-236 | No intermediate value of the jitter arithmetic leaves 64 bits |
| `Worker.DelaysStrictlyGrow` | internal/api/background_jobs.go:221-237 | Up to attempt 9 every possible delay is shorter than every possible delay of the next attempt |
| `Worker.TotalWaitBounded` | internal/api/background_jobs.go:221-237 | However the jitter falls, the total scheduled wait of n retries is at most a closed form in n |
| `IdempotencyRuns.MutationsAreRetentionApart` | internal/store/idempotency.go:67-167 | Exactly once: two transactions that commit under one key, whatever mutations they hold, were granted by Begins at least the first claim's whole retention apart, whatever crashes, late owners, reclaims and cleanups occur |
| `IdempotencyRuns.RetentionIsReached` | internal/store/idempotency.go:67-167 | For every valid request some run commits twice under its key, with the Begins exactly the stored retention apart, so the bound cannot be raised |
| `IdempotencyRuns.LogIsOneCommitPerLease` | internal/store/idempotency.go:225-241 | No lease commits twice, and every commit belongs to a granted Begin |
| `IdempotencyRuns.ReplayIsTheCommit` | internal/store/idempotency.go:112-160 | A replayed response is the one stored by the only commit of the record's lease, whose request hash is the caller's; another hash is refused while the record is unexpired, and a completed record never lacks its response |
| `IdempotencyRuns.CompletedIsFrozen` | internal/store/idempotency.go:225-241 | A completed record does not change before it expires, so no superseded owner can touch it |
| `IdempotencyLeases.NoGrantWhileLeaseRuns` | internal/store/idempotency.go:128-150 | While a granted lease runs no other Begin of its key is granted, in any run |
| `IdempotencyLeases.AnswerFollowsTheLastGrant` | internal/store/idempotency.go:112-160 | What a Begin is answered, from the last grant and the commits alone: granted once the lease has ended uncommitted or the retention has ended, refused within the retention for another hash, replayed once committed, and else busy for exactly the rest of the lease |
| `IdempotencyLeases.FirstBeginIsGranted` | internal/store/idempotency.go:67-110 | The first Begin of a key is granted exactly when the request is well formed |
| `IdempotencyLeases.OwnerCommitsIff` | internal/store/idempotency.go:225-241 | An owner can commit within the retention exactly when it has not yet and no other Begin of the key was granted since, however long ago its lease ended |
| `IdempotencyLeases.CommittedIsCompleted` | internal/store/idempotency.go:225-241 | A record is completed exactly when its lease has committed, with that commit's response |
| `IdempotencyRuns.ReachableInv` | internal/store/idempotency.go:67-267 | Every record carries a granted lease with its hash and expiry, and every commit still stands or has outlived its retention |
| `Idempotency.IdempotencyStore.Begin` | internal/store/idempotency.go:67-167 | Grants a new, expired or abandoned record, replays a completed one, reports a busy one, refuses a different hash |
| `Idempotency.IdempotencyStore.Complete` | internal/store/idempotency.go:172-241 | Stores the response only for the current lease of a processing record |
| `Idempotency.IdempotencyStore.DeleteExpired` | internal/store/idempotency.go:244-267 | Removes the earliest-expiring expired records, as many as the limit allows, and no others |
| `Expiry.EarliestBatch` | internal/store/idempotency.go:244-267 | The batch holds only expired keys, is full or holds all of them, and none left out expires before one taken |
| `Expiry.BatchSize` | internal/store/idempotency.go:244-267 | A cleanup removes as many records as the limit allows or as have expired, whichever is less, and only expired ones |
| `Common.DurationSeconds` | internal/store/idempotency.go:291-300 | Rounds a duration up to whole seconds, never below one, for negative durations too |
| `RateLimits.RateLimiter.Take` | internal/store/rate_limits.go:35-84 | Validates, then counts the take in the running window or opens a new one, and reports allowance, remaining and retry time |
| `RateLimits.RateLimiter.Reset` | internal/store/rate_limits.go:86-94 | Removes exactly the bucket of a valid key |
| `RateLimits.RateLimiter.DeleteExpired` | internal/store/rate_limits.go:96-116 | Removes the earliest-expiring expired buckets and no others |
| `RateLimitProofs.TakeRefinesLog` | internal/store/rate_limits.go:35-84 | The stored count is min(takes in this window, limit + 1) of a limiter that logs every take, and a take is allowed exactly when that limiter counts at most limit in the window |
| `RateLimitProofs.BucketRefinesLog` | internal/store/rate_limits.go:35-116 | After any takes and cleanups the bucket is what the log says, or gone because its window is over |
| `RateLimitProofs.CleanupChangesNoResult` | internal/store/rate_limits.go:96-116 | Two histories with the same takes give the same result, whatever cleanup removed and when |
| `RateLimitProofs.AtMostTwiceTheLimit` | internal/store/rate_limits.go:35-84 | Any interval no longer than the window contains at most twice the limit of allowed takes |
| `RateLimitProofs.TwiceTheLimitIsReached` | internal/store/rate_limits.go:35-84 | For every limit and window some history reaches that bound, so it cannot be lowered |
| `RateLimitProofs.AnswerFollowsTheLog` | internal/store/rate_limits.go:66-84 | Allowance, remaining takes, reset and retry time are what the log of all takes says about the window |
| `RateLimitProofs.RetryAfterIsExact` | internal/store/rate_limits.go:66-84 | A denied caller that tries again is allowed if and only if it waited for the time it was told |
| `AuthorizationRuns.UnrevokedTokensAreCovered` | internal/api/authorization_resources.go:790-807 | In every reachable state an unrevoked token for a resource server has an active application, an active server and one active grant covering all its delegated scopes with active scope rows |
| `AuthorizationProofs.ChangeKeepsCovered` | internal/api/authorization_resources.go:502-508 | Whatever a management change narrows, it revokes every token that relied on it |
| `AuthorizationProofs.StillGrantedIsCovered` | internal/api/oauth_authorization.go:541-556 | When the repeated check at exchange succeeds, one live grant covers every delegated scope of the stored terms on the stored server |
| `AuthorizationProofs.StepKeepsInv` | internal/api/oauth_authorization.go:324-607 | Every step of management, authorization, decision, exchange, revocation, recovery and cleanup keeps the invariants |
| `AuthorizationProofs.ReachableInv` | internal/api/oauth_authorization.go:40-607 | Those invariants hold in every state of every run |
| `AuthorizationProofs.StillGrantedIffCovered` | internal/api/oauth_authorization.go:541-556 | The repeated check succeeds if and only if one live grant covers the stored terms on their live server |
| `ExchangeRaces.CheckAndInsertIsExchange` | internal/api/oauth_authorization.go:541-593 | With nothing in between, the check and the insert are the exchange as one step |
| `ExchangeRaces.ReachableSplit` | internal/api/oauth_authorization.go:520-593 | With the exchange split in two, every reachable state keeps the invariants for all but the loose tokens, and every exchange not overtaken is covered |
| `ExchangeRaces.OnlyLooseTokensAreUncovered` | internal/api/oauth_authorization.go:541-593 | With the exchange split in two, every unrevoked token is covered in every reachable state except those inserted when the check would no longer have passed |
| `ExchangeRaces.InsertedIsCoveredIff` | internal/api/oauth_authorization.go:541-593 | A token inserted without a further check is covered if and only if the check, repeated at that moment, would pass; it always is when nothing overtook the exchange |
| `ExchangeRaces.LooseIffUncoveredAtInsert` | internal/api/oauth_authorization.go:584-593 | In every run an inserted token is loose if and only if it is not covered right then, and only if a revoking change overtook its exchange |
| `ExchangeRaces.OvertakenIffHit` | internal/api/authorization_resources.go:806-806 | An exchange is overtaken if and only if some step since its check committed a change that would have revoked its token |
| `ExchangeRaces.PendingWasChecked` | internal/api/oauth_authorization.go:537-540 | Behind every pending exchange is an earlier check at which the code was unexpired, unconsumed and bound to this client, redirect URI and challenge, with application and member active |
| `ExchangeRaces.CoveredThroughoutIffNoneNarrows` | internal/api/oauth_authorization.go:541-593 | Terms covered at the check stay covered at every moment up to the insert if and only if no change in between narrows them |
| `ExchangeRaces.UncoveredTokenIsInserted` | internal/api/oauth_authorization.go:541-593 | A run from empty tables in which the grant is deleted between check and insert ends with an unrevoked token that no grant covers |
| `ExchangeRaces.UncoveredTokensAreCutBack` | internal/api/authorization_decisions.go:28-155 | Of an unrevoked, unexpired token of an active member, the bearer check fails or the capabilities lack a delegated scope if and only if it is not covered, and every capability is assigned by a live grant at that moment |
| `Narrowing.ChangeUncoversIffNarrows` | internal/api/authorization_resources.go:731-861 | A management change uncovers covered terms if and only if it ends up disabling or deleting their application, server, grant or one of their scopes, or assigns the grant scopes that leave one out |
| `Narrowing.ReaffirmedGrantStillCovers` | internal/api/authorization_resources.go:775-806 | Setting a live grant to active again revokes its tokens although they would still be covered |
| `AuthorizationRuns.RevocationIsFinal` | internal/api/oauth_authorization.go:731-748 | A revoked token stays revoked, with the same timestamp, for as long as its row exists, and its uid is never issued again |
| `AuthorizationRuns.CodeRedeemedOnce` | internal/api/oauth_authorization.go:520-593 | No two successful exchanges of a run redeem the same code |
| `AuthorizationRuns.RequestResolvedOnce` | internal/api/oauth_authorization.go:364-438 | No authorization request is resolved twice, neither approved after a denial nor the other way round |
| `AuthorizationRuns.TokenProvenance` | internal/api/oauth_authorization.go:364-593 | Behind every token stand one request, one approval and one exchange, in this order; application, tenant, scopes and server are those asked for, the member is the one who approved, client, redirect URI and PKCE challenge match the request, neither request nor code was expired when used, and application and member were active |
| `AuthorizationEffects.ExchangeIff` | internal/api/oauth_authorization.go:520-593 | In every run a code is redeemed exactly when its row is unconsumed and unexpired, it was issued to this client for this redirect URI and challenge, application and member are active, and one live grant covers its terms; only then is a token issued and anything changed |
| `AuthorizationEffects.DecideIff` | internal/api/oauth_authorization.go:364-438 | A request is denied or approved exactly while pending and unexpired, by a member of its tenant; an approval issues its code exactly when the terms still hold |
| `AuthorizationEffects.AuthorizeIff` | internal/api/oauth_authorization.go:157-212 | A request is stored exactly when the application is active, the scope string is valid, and one live grant covers its delegated scopes on the server with this identifier, or none are asked and no server is named |
| `AuthorizationEffects.RecoverySpendsCodes` | internal/api/tenant_member_recovery.go:235-240 | A recovery spends exactly the member's open codes |
| `Revocations.RevokedExactlyByCause` | internal/api/authorization_resources.go:235-238 | A token is revoked in a step if and only if its client revokes it, its consent is revoked, its member recovers, its application, server or one of its scopes is edited and ends up inactive, or a grant of its application on its server is edited |
| `PolicyRuns.RowsChangeAsRequested` | internal/api/authorization_resources.go:213-235 | An application, server, scope or grant row changes only by a request of its own tenant that names its current version, exactly as requested and with the next version; a deleted row never changes |
| `PolicyRuns.NoLostEdit` | internal/api/authorization_resources.go:222-226 | Of two requests that change one such row the later one named a later version |
| `PolicyRuns.RowVersionsRise` | internal/api/authorization_resources.go:234-235 | Row versions never fall, and a deleted row stays as it is |
| `PolicyRuns.MatchingEditIsAccepted` | internal/api/authorization_resources.go:213-235 | An update or delete that names tenant, version and parents of an undeleted row is never refused |
| `PolicyRuns.ScopesChangeAsRequested` | internal/api/authorization_resources.go:642-654 | A grant's scopes are written only as requested and only with 1 to 100 active scopes of its active server, for an active application, all of its tenant |
| `PolicyRuns.PurposeIsFixed` | internal/api/authorization_resources.go:368-430 | Rows never change tenant, server, name, identifier or application, and appear only as requested, scopes only on active servers |
| `AuthorizationRuns.StoredScopesAreStable` | internal/api/oauth_authorization.go:404-404 | In every reachable state re-joining and re-reading the scopes of any stored request or code returns the very same list and delegated part |
| `AuthorizationRuns.PolicyVersionNamesThePolicy` | internal/api/authorization_resources.go:235-235 | Versions never fall, and equal policy versions at two moments of a run mean the same server state, scope rows, grants and assignments |
| `Policies.ChangeOfViewRaisesVersion` | internal/api/authorization_resources.go:803-803 | No management change alters a server's state, scopes, grants or assignments without raising its policy version |
| `Policies.ChangeKeepsPolicyOk` | migrations/000007_delegated_authorization.up.sql:29-48 | Every accepted change keeps identifiers, scope names and active grants unique, and grants assigning only scopes of their own server |
| `Decisions.CapabilitiesAreTheDelegatedScopes` | internal/api/authorization_decisions.go:124-155 | For an unrevoked token of an active member the capability query yields exactly its delegated scopes, each once, and under a byte-wise collation in their stored order |
| `Decisions.BearerCheckRestsOnRevocation` | internal/api/authorization_decisions.go:36-48 | The bearer check succeeds exactly when the token is unrevoked, unexpired, bound to a server and its member is active; its other conditions never fail |
| `Decisions.DecisionFollowsTheToken` | internal/api/authorization_decisions.go:65-122 | With any steps between the three statements of a decision, an operation is allowed exactly when it is a delegated scope of the token, as long as the token is unrevoked and the member active |
| `Decisions.CapabilitiesNeverExceedTheToken` | internal/api/authorization_decisions.go:124-155 | Whatever happened to token, member and policy in the meantime, every capability is one of the token's delegated scopes |
| `Decisions.CapabilityIff` | internal/api/authorization_decisions.go:124-141 | A name is a capability exactly when the token has it and some grant assigns a scope of that name, with member, application, server, grant and scope active and not deleted |
| `Decisions.SameVersionSameCapabilities` | internal/api/authorization_decisions.go:124-155 | Two capability queries that run under one policy version have the same answers for one application and member that are equally live at both moments |
| `ReportedVersions.ReportedVersionNamesTheRows` | internal/api/authorization_decisions.go:36-48 | Two decisions that report the same version have the same answers, when no change of the server falls between bearer check and query in either, and application and member are equally live at both queries |
| `ReportedVersions.VersionStandsStillIffUntouched` | internal/api/authorization_resources.go:713-713 | A server's version is the same at two moments if and only if no accepted change of its policy lies in between |
| `ReportedVersions.StaleVersionIsReported` | internal/api/authorization_decisions.go:106-118 | Whenever a live token has a capability, deleting its grant between check and query makes a decision that reports the old version without capabilities |
| `ReportedVersions.OneVersionTwoAnswers` | internal/api/authorization_decisions.go:106-118 | A run from empty tables in which two decisions for one token report one version, one with a capability and one without |
| `ReportedVersions.NamesRowsIffVersionStandsStill` | internal/api/authorization_decisions.go:65-155 | Over all runs, the reported version is sure to name the rows of the answer if and only if it may not move between check and query |
| `Decisions.CurrentCapabilities` | internal/api/authorization_decisions.go:146-154 | The row loop returns the scope names of the answer, in its order |
| `Decisions.Decide` | internal/api/authorization_decisions.go:65-122 | Allowed exactly when the operation is well formed, an active scope and among the capabilities; unknown operation exactly when no active scope has that name |
| `AuthorizationStore.NormalizeScopeUids` | internal/api/authorization_resources.go:625-640 | Accepts exactly the lists of 1 to 100 distinct uids |
| `AuthorizationStore.ValidateGrantResources` | internal/api/authorization_resources.go:642-654 | Comparing the count of live scopes with the list length accepts exactly the lists whose every uid is a live scope of the server, with application and server live in the tenant |
| `AuthorizationStore.ResolveAuthorizationScopes` | internal/api/oauth_authorization.go:157-212 | Succeeds exactly when some server resolves the request, and answers with that server and the normalized scopes |
| `AuthorizationStore.Store.UpdateApplication` | internal/api/oauth_applications.go:237-331 | Checks the version, writes the row and revokes the application's tokens when it ends up disabled |
| `AuthorizationStore.Store.DeleteApplication` | internal/api/oauth_applications.go:333-375 | Checks the version, deletes the application and revokes its tokens |
| `AuthorizationStore.Store.CreateResourceServer` | internal/api/authorization_resources.go:120-165 | Creates a server unless its tenant already has the identifier |
| `AuthorizationStore.Store.UpdateResourceServer` | internal/api/authorization_resources.go:177-253 | Checks the version, raises both versions and revokes the server's tokens when it ends up disabled |
| `AuthorizationStore.Store.DeleteResourceServer` | internal/api/authorization_resources.go:255-294 | Checks the version, deletes the server, raises its versions and revokes its tokens |
| `AuthorizationStore.Store.CreateResourceServerScope` | internal/api/authorization_resources.go:368-430 | Creates a scope of an active server under an unused, allowed name and raises the policy version |
| `AuthorizationStore.Store.UpdateResourceServerScope` | internal/api/authorization_resources.go:432-520 | Checks the version, raises the policy version and revokes the tokens with the scope when it ends up disabled |
| `AuthorizationStore.Store.DeleteResourceServerScope` | internal/api/authorization_resources.go:522-562 | Checks the version, deletes the scope, raises the policy version and revokes the tokens with the scope |
| `AuthorizationStore.Store.Assign` | internal/api/authorization_resources.go:706-711 | The insert loop leaves the grant with exactly its former and the listed assignments and touches no other grant |
| `AuthorizationStore.Store.CreateApplicationGrant` | internal/api/authorization_resources.go:656-729 | Creates the one active grant for application and server with exactly the listed scopes and raises the policy version, or changes nothing |
| `AuthorizationStore.Store.UpdateApplicationGrant` | internal/api/authorization_resources.go:731-819 | Checks version and scopes, replaces the assignments, raises the policy version and revokes the tokens of application and server, or changes nothing |
| `AuthorizationStore.Store.DeleteApplicationGrant` | internal/api/authorization_resources.go:821-861 | Checks the version, deletes the grant, raises the policy version and revokes the tokens of application and server |
| `AuthorizationStore.Store.CheckStillGranted` | internal/api/oauth_authorization.go:400-416 | Answers whether the server is live and the stored scopes still resolve |
| `AuthorizationStore.Store.AuthorizeRequest` | internal/api/oauth_authorization.go:85-118 | Stores a pending request with the resolved terms exactly when the application is live and the scopes resolve |
| `AuthorizationStore.Store.DecideRequest` | internal/api/oauth_authorization.go:324-463 | Resolves a pending, unexpired request of the member's tenant; approval issues a code only when the terms still hold, and a refusal for changed grants leaves the request pending |
| `AuthorizationStore.Store.ExchangeCode` | internal/api/oauth_authorization.go:490-607 | Issues a token and consumes the code exactly when client, tenant, redirect URI, challenge, expiry, member and grant all check out |
| `Scopes.ScanWords` | internal/api/oauth_authorization.go:130-143 | The loop accepts exactly distinct, supported words and collects the delegated ones; an error names a word at fault |
| `Scopes.NormalizeRequestedScopes` | internal/api/oauth_authorization.go:125-150 | Returns all and the delegated scopes, both sorted, exactly for valid requests, and each error tells what is wrong |
| `Scopes.NormalizeGivesNormalForm` | internal/api/oauth_authorization.go:125-150 | The result is sorted, without duplicates, includes openid and has exactly the words of the request |
| `Scopes.AcceptedWords` | internal/api/oauth_authorization.go:132-146 | An accepted request includes openid, and each of its words is one of three known ones or fits the delegated pattern, but none is offline_access |
| `Scopes.StoredScopesReadBackUnchanged` | internal/api/oauth_authorization.go:404-404 | Round trip: joining a stored list with spaces and reading it again gives the same list and the same delegated part |
| `SigningKeys.KeyRing.EnsureSigningKey` | internal/api/oauth_signing.go:55-94 | Keeps a young active key; otherwise retires it with a publication window, inserts a new active key and retires expired ones |
| `SigningKeys.KeyRing.FindActive` | internal/api/oauth_signing.go:65-70 | Finds an active key, or nothing only when there is none |
| `SigningKeys.ExactlyOneActive` | internal/api/oauth_signing.go:55-94 | After initialization every reachable state has exactly one active key, however far the clocks differ |
| `SigningKeys.RotatesExactlyWhenDue` | internal/api/oauth_signing.go:65-93 | A rotation changes something exactly when no key is active or the active one has reached its age limit; then a new key is active, the old one is published on for at least the token lifetime plus five minutes, and exactly the keys past publication are retired |
| `SigningKeys.SlackIsFiveMinutesOrMore` | internal/api/oauth_signing.go:78-85 | The publication window exceeds the token lifetime by at least five minutes for every configuration, including non-positive lifetimes |
| `SigningKeys.SlackDecides` | internal/api/oauth_signing.go:71-85 | With no server ahead of the database, or with keys older at rotation than their publication by that lead, the clocks fit exactly when lag and lead stay within the slack |
| `SigningKeys.UnexpiredTokensAreVerifiable` | internal/api/oauth_signing.go:235-240 | The signing key of every unexpired token is in the published set, in every run whose clocks fit, for servers behind and ahead of the database |
| `SigningKeys.VerifiableIffClocksFit` | internal/api/oauth_signing.go:55-94 | For every configuration, no run loses the key of an unexpired token if and only if the clocks fit |
| `SigningKeys.SlackIsExact` | internal/api/oauth_signing.go:78-85 | When lag and lead together exceed the slack, some run ends a key's publication before its last token expires |
| `SigningKeys.KeptForIsExact` | internal/api/oauth_signing.go:90-92 | When lag and twice the lead exceed the time a retired key is kept beyond the token lifetime, some rotation retires a key before its last token expires |
| `Migrations.Load` | internal/store/migrations.go:136-167 | Returns all migration files of the directory, sorted, with valid names and strictly increasing versions; each error names a file or version at fault |
| `Migrations.ReadEntries` | internal/store/migrations.go:142-158 | Collects exactly the forward migration files when all names are valid, and an error names one that is not |
| `Migrations.CheckVersions` | internal/store/migrations.go:160-165 | Comparing neighbours of the sorted list finds a repeated version exactly when there is one |
| `Migrations.NeighboursSuffice` | internal/store/migrations.go:160-165 | On sorted names, neighbours with different versions make all versions distinct and strictly increasing |
| `Migrations.VersionNumbersIncrease` | internal/store/migrations.go:160-165 | The versions of a loaded release are six-digit numbers in strictly increasing order |
| `Migrations.Migrator.Migrate` | internal/store/migrations.go:34-134 | Refuses, without effect, a release that lacks or alters a recorded migration; otherwise seals and applies file by file up to where it is cut off |
| `Migrations.Migrator.Run` | internal/store/migrations.go:100-133 | The two loops perform exactly the given number of per-file statements |
| `MigrationProofs.ResumeReachesTheSameDatabase` | internal/store/migrations.go:100-133 | Wherever a run stops, running the release again reaches the schema and history of one uninterrupted run |
| `MigrationProofs.CutOffReleaseIsStillAccepted` | internal/store/migrations.go:66-98 | A release whose run was cut off is never refused when started again |
| `MigrationProofs.LoadedNamesAreDistinct` | internal/store/migrations.go:160-165 | Increasing versions make all loaded names distinct, which the other results about releases rest on |
| `MigrationProofs.AnyNumberOfCrashes` | internal/store/migrations.go:100-133 | The same for any number of interruptions; once one run has finished, further runs apply nothing |
| `MigrationProofs.FinishedIsStable` | internal/store/migrations.go:100-133 | A further run of a finished release, complete or cut off, changes nothing |
| `MigrationScripts.RunExecutesPendingInOrder` | internal/store/migrations.go:112-132 | Wherever a run stops it has executed exactly the first k scripts of the release that were not recorded, in order, and recorded exactly those names; a finished run has executed all |
| `MigrationScripts.CompleteExecutesAllPending` | internal/store/migrations.go:112-132 | An uninterrupted run executes exactly the unrecorded scripts, once each and in release order |
| `MigrationScripts.PendingIsTheRest` | internal/store/migrations.go:112-115 | The scripts a run owes are the files of the release whose names are not in the history |
| `MigrationScripts.OneExecutionPerRecord` | internal/store/migrations.go:120-131 | Over any runs of any releases from an empty database there is one executed script for each recorded name |
| `MigrationProofs.HistoryExtends` | internal/store/migrations.go:34-134 | Along any sequence of runs of any releases the history and the schema are only appended to |
| `MigrationProofs.SuccessRecordsRelease` | internal/store/migrations.go:100-133 | A successful run leaves every file recorded with its own checksum |
| `MigrationProofs.ReleasesOnlyGrow` | internal/store/migrations.go:66-98 | Whatever release is accepted after a successful one contains all its files with unchanged contents |
| `Paging.ListPage` | internal/api/oauth_applications.go:61-97 | The append-and-trim loop returns the page and cursor of the sorted remaining rows |
| `Paging.PageFacts` | internal/api/oauth_applications.go:68-95 | A page is descending, lies past its cursor, and holds exactly the remaining rows up to its next cursor |
| `Paging.PageSize` | internal/api/oauth_applications.go:89-95 | A page has the limit of rows or all that remain, and a next cursor, at its last row, exactly when more remain than fit |
| `Paging.WalkListsLastingRowsOnce` | internal/api/pagination.go:17-44 | Following cursors to the end lists every row that exists throughout exactly once, in descending order, whatever is inserted or deleted between pages |
| `Paging.WalkOfStillTable` | internal/api/oauth_applications.go:68-95 | On an unchanging table the pages put together are the full sorted list |
| `Paging.StillWalkListsSortedTable` | internal/api/pagination.go:17-44 | Following cursors over an unchanging table ends and lists the whole table in order |
| `Paging.SortedIsTheTable` | internal/api/oauth_applications.go:68-78 | The sorted list is strictly descending and has exactly the rows of the table |
| `Truncation.TruncateUtf8` | internal/api/external_integrations.go:420-429 | The loop ends with the longest valid UTF-8 prefix within the maximum, leaves short text alone, and loses at most three bytes of valid text |
| `Truncation.ValidPrefixNear` | internal/api/external_integrations.go:420-429 | Any cut of a valid text has a valid prefix at most three bytes shorter |
| `Truncation.TruncationKeepsWholeCharacters` | internal/api/external_integrations.go:420-429 | Truncating encoded characters yields the encoding of the longest prefix of characters that fits |
| `Truncation.ValidIffEncoded` | internal/api/external_integrations.go:424-427 | The validity test accepts exactly the texts encoded as in section 3 of RFC 3629 |
| `Truncation.ValidIsEncoded` | internal/api/external_integrations.go:424-427 | Every valid text decodes to characters whose encoding is that text |
| `Truncation.EncodingsAreValid` | internal/api/external_integrations.go:420-429 | The validity test accepts every text encoded as in section 3 of RFC 3629 |

## Left out
- WebAuthn, biometric and password login flows: their verdicts come from providers and libraries outside the repository.
- Cryptography (AES-GCM, Argon2, RSA, SHA-256, HMAC): hashes and challenges are compared as plain values.
- HTTP routing, JSON and form decoding, cookies, CSRF, response bodies and client authentication: no state invariant depends on them.
- Email delivery and other foreign calls: the outcome of such a job is any of success, postponement or failure.
- Races between statements inside one transaction at READ COMMITTED where no row is locked, other than in the token exchange: a transaction is one step.
- Advisory locks: signing-key initialization and migration runs are steps that exclude each other.
- Text columns that decide nothing: job payloads and last_error, replay actor and reason, names, display names, descriptions, categories, priorities, assignees.
- Jobs.BackgroundJobStore.Replay: leaves out the refusal of an all-zero uid and of a malformed actor or reason, and the record of the replay, none of which the row effect depends on.
- SupportCases.SupportDesk.UpdateSupportCase: leaves out which principal may change which field, and folds the fields other than the status into one flag, because only the status bears on retention.
- Idempotency.IdempotencyStore.Begin: texts are sequences of characters, so a key that is not valid UTF-8 is not modelled.
- Idempotency.IdempotencyStore.Complete: the same, and the refusal of an all-zero lease uid, which Begin never hands out.
- Support Case messages, tokens and events deleted together with the case, and the cascades of deleting a tenant or project.
- Consent and subject tables and audit events: they follow the rows that are modelled.
- AuthorizationStore.Store.UpdateApplication: leaves out the name and the redirect URIs, on which no token depends.
- AuthorizationStore.Store.DeleteApplication: leaves out the revocation of client secrets, which are used only by client authentication.
- AuthorizationStore.Store.AuthorizeRequest: leaves out the syntax checks (state, nonce, response type, PKCE challenge), the registration of the redirect URI and the rate limit in front, each of which only refuses more.
- AuthorizationStore.Store.ExchangeCode: leaves out the syntax checks of the form and the client authentication before it; its client is the authenticated one.
- AuthorizationStore.Store.DecideRequest: names an existing member of the tenant where the code joins an unrevoked session of the member; sessions are not modelled.
- AuthorizationStore.ResolveAuthorizationScopes: compares the resource identifier as given; its normalization is URL syntax that the tables already hold in normal form.
- AuthorizationStore.NormalizeScopeUids: leaves out the UUID syntax and the sorting, because the assignments form a set.
- The encoding of stored headers and bodies.
- The base64 and JSON coding of page cursors and the parsing of the limit parameter: a cursor is a position.
- Decisions.Decide: leaves out the trimming of the fields, the length limits of the resource and the size limit of the context, which the verdict does not depend on otherwise.
- Whole-second truncation of the times inside signed tokens.
- Creation of applications by its handler, token revocation by the client, consent revocation and password recovery have no method in the store class: they are steps of the runs.
- Signing itself: a token names the key that was active when it was signed.
