# Verified model of the backend's shared-state protocols

The Go backend keeps its promises through short atomic steps that many processes
interleave: a Redis script, an SQL statement, a locked transaction or a mutex section.
This project models those steps in Dafny and proves what holds over every run of them.
Objects whose methods update fields are classes with contracts over their whole new state;
protocols are step functions over a system state, and every sequence of events is a run.

Check everything with `dafny verify dfyconfig.toml`.

## What is modelled

| module | what it is | where the steps are |
|---|---|---|
| TaskRows, TaskProtocol, TaskLoss, TaskAttempts, TaskFailures, TaskResults, TaskOperations | executions, their outbox, and a queue that redelivers and forgets | `SubmitterStep`, `DirectStep`, `DispatcherStep`, `ClaimStep`, `ResultStep` |
| OutboxDispatch | one dispatcher pass, and repeated ones | `DispatchPending` |
| Submissions | bounds of a submission and its way through int32 seconds | `Validate`, `Stored`, `ReadOptions` |
| SecurityRows, SecurityProtocol, SecurityProvenance, SecurityOperations, SecurityAccounts, Totp | second factors: rows, transactions, and the services' read-then-save sequences | `ReadStep`, `DecideStep`, `WriteStep`, `UserStep` |
| Challenges | login challenges in Redis | `ChallengeStore` |
| Receipts | single use of an e-mail receipt, statement by statement | `Step` |
| RefreshTokens | the five refresh-token scripts | `Replace` to `RevokeAllScript` |
| CircuitBreakers | the breaker with operations in flight outside its lock | `CircuitBreaker` |
| ScheduleRegistrars | the schedule cache against a scheduler that may fail | `AsynqRegistrar` |
| RateLimits, RedisRateLimits | both sliding windows against a full history | `Allow`, `Eval` |
| EmailCodes | e-mail codes with cooldown, hourly limits and guesses | `Issued`, `Verified`, `Consumed` |
| Administrators | protection of the last active system administrator | `Deactivated` to `Deleted` |
| ResponseBuffers | the buffering response writer around a panicking handler | `RecoveryWriter`, `Recovery` |
| Backoff | retries with doubling delays in int64 nanoseconds | `Retry` |

## Assumptions

- There is one monotone clock. A Redis key is there through its deadline and may be gone after it.
- Hashes and keyed digests are injective, so a value stands for its hash; random ids,
  tokens and UUIDs never repeat.
- A Redis script and a single SQL statement are atomic. A row lock held to the end of its
  transaction makes the locked part one step, except in Receipts and Administrators, where
  statements interleave.
- The queue reports a conflict of task ids only for an id it accepted, and delivers only
  what it accepted, though with any retry count that is a non-negative int32, any number of
  times and at any time. The maximum of retries is the one submitted, as bounded submissions
  keep it through the outbox.
- int64 security versions do not overflow. `Duration.Seconds` may round, but not across a
  whole number of seconds.
- JSONB gives back some normal form of a payload, and encoding a message strips
  insignificant space and escapes the characters special to HTML; both are parameters.
  Payloads are valid JSON.
- The scheduler takes a leading `CRON_TZ=`, up to the first space, as the time zone.
- Whether a password verifies against the stored hash and whether a code matches a step are
  parameters of the steps that ask.
- Errors, lost replies, contexts that end and handlers' results are parameters or events.
  A process may stop at any step.

## What turned out conditional

Where a promise does not hold of every run, the model keeps the code as it is, a lemma
shows how it fails, and another states exactly when it holds.

- Two transactions can commit with one receipt, even one after the other, when the second
  checks it before its expiry and inserts it after, and another transaction has pruned the
  first one's row in between (`StalledTransactionReusesReceipt`). Such a run exists exactly
  when the receipt is usable at all (`ReuseIsPossibleWhenUsable`); with every insert no later
  than the expiry there is none (`ReceiptIsSingleUse`).
- A running attempt may be ended as failed by another delivery with the same attempt number,
  but only the last one its task was submitted for: exactly when such a delivery is left that
  can still record a failure, or may come (`EndedByOtherExactlyWhenOneIsLeft`,
  `EndedByOtherExactlyOnLastTry`).
- A submission is republished differently when a duration is not a whole number of seconds
  or its payload is not in the column's normal form (`RepublishedAlike`); a duration below a
  second is lost altogether (`OptionsLost`).
- The breaker is right about the next operation exactly unless that carries the 64-bit stamp
  of another generation (`AccurateExactlyUnlessMistaken`, `LateOperationIsMistaken`).
- Without a maximum, the retry delay drops to zero once doubling passes int64
  (`UnboundedDelay`).
- The refresh-token keyspaces mirror each other exactly as long as no store with a lifetime
  below a millisecond replaces a token that another store made (`PairedExactlyWithoutSlips`,
  `TinyTtlBreaksPairing`); one token per user and single use hold regardless.
- A rate-limit window below one millisecond admits everything in Redis
  (`SubMillisecondWindowAdmitsAll`), and in memory it does not. The Retry-After header is a
  second short exactly when the floating-point seconds lost the part below a second, which
  takes a delay of at least 2^24 seconds (`RetryHeaderIsSufficient`,
  `ShortDelaysAreNotRoundedDown`, `LongDelayIsRoundedDown`).
- Replacing schedules again calls the scheduler again exactly when two enabled schedules
  with one id contradict each other (`Replace`, last clauses).
- The last administrator is protected in every run from a database exactly when it has one
  or has no administrator role; a transaction that listed nobody is the one way to lose the
  last one (`ProtectedExactlyWhen`, `LastGoesExactlyThen`, `EmptyListGuardsNothing`).
- In the last millisecond of an hourly counter the script sees no lifetime left and lets an
  issue over the limit through (`EleventhIssueAtTheDeadline`, `IssueGoesThroughExactly`), so
  the bound is stated for [start, start + 1 h).

## Model

| member | source | states |
|---|---|---|
| TaskRows.StatementsFollowStateMachine | pkg/modules/task/model.go:22-42 | a claim or a conditional update only makes an allowed transition, a claim raises the attempt and keeps a start time, neither erases a time once written, and neither touches a terminal row |
| TaskRows.TaskDatabase.CreateExecutionWithPendingPublish | pkg/platform/database/taskstore/postgres.go:83-108 | execution and pending outbox row appear together or not at all: a taken key or idempotency key is a duplicate, an unknown definition an error of its own |
| TaskRows.TaskDatabase.ClaimExecution | pkg/platform/database/taskstore/postgres.go:150-167 | the row is claimed exactly when queued or running with a smaller attempt; otherwise a conflict and no change |
| TaskRows.TaskDatabase.UpdateExecution | pkg/platform/database/dbgen/tasks.sql.go:418-430 | compare-and-set on status and attempt; a mismatch is a conflict and changes nothing |
| TaskRows.TaskDatabase.MarkPublishSucceeded | pkg/platform/database/dbgen/tasks.sql.go:407-411 | only a pending row is marked, and no other row changes |
| TaskLoss.NoSubmissionIsLost | pkg/modules/task/service.go:110-127 | in every reachable state a submission is pending in its outbox or was accepted by the queue, and a row marked published stands for an accepted message |
| TaskLoss.StepKeepsLossInv | pkg/platform/queue/asynq.go:29-63 | every step of submitters, dispatchers, workers and queue keeps the no-loss invariant |
| TaskAttempts.AttemptsAreHandledOnce | pkg/modules/task/service.go:184-193 | under any redelivery the handler runs at most once per execution and attempt |
| TaskAttempts.OneTerminalWrite | pkg/modules/task/service.go:193-230 | a row is terminal exactly when one terminal write committed and exactly when finished_at is set; no second one commits, and it carries the latest claimed attempt |
| TaskAttempts.LatestClaimantFinishes | pkg/modules/task/service.go:216-257 | the terminal write is the latest claimant's, a submitter's on a never-claimed row, or that of a second delivery with the same attempt number |
| TaskResults.EndIsHandlersResult | pkg/modules/task/service.go:193-230 | over every run: a terminal write of a delivery is a success exactly when its handler returned one, with the rows it counted and the time of that return, and a cancellation exactly when the handler ended with its context; failures come only from a failure handler or a submitter |
| TaskResults.ReturnsOnce | pkg/modules/task/service.go:193 | the handler of a delivery returns once, so that result is the one |
| TaskFailures.EndedByOtherExactlyWhenOneIsLeft | pkg/modules/task/service.go:232-257 | without further deliveries, the present attempt can be ended by someone other than its claimant exactly when it is running and another delivery of that attempt, out of retries, can still record a failure |
| TaskFailures.EndedByOtherExactlyOnLastTry | pkg/platform/queue/asynq.go:109-142 | with the queue free to deliver again, that can happen to exactly the running attempts whose task has no retry left; while retries are left only its claimant ends an attempt |
| TaskOperations.SubmissionIsPublished | pkg/modules/task/service.go:110-127 | from any state, an uninterrupted submission creates its queued row and its outbox row, is accepted by the queue, and is marked published |
| TaskOperations.DirectSubmissionFails | pkg/modules/task/service.go:129-152 | without an outbox, a submission the queue refused ends as failed with the error |
| TaskOperations.PassDispatchesAll | pkg/platform/queue/asynq.go:158-174 | an uninterrupted pass over any list publishes exactly its rows of queued executions and marks exactly its rows |
| TaskOperations.AttemptReachesHandler | pkg/modules/task/service.go:175-193 | a delivery that comes in while the row is open with a smaller attempt claims it, keeps its first start time, and calls the handler |
| TaskOperations.HandlerReturns | pkg/modules/task/service.go:193-215 | what the handler returned decides what the delivery goes on to write, stamped with the time of the return |
| TaskOperations.SuccessIsWritten | pkg/modules/task/service.go:215-230 | after a handler returned, the row is Succeeded with its rows, its start and its end, and no error |
| TaskOperations.CancellationIsWritten | pkg/modules/task/service.go:194-212 | after a context ended, the row is Cancelled with the error and that time |
| TaskOperations.ErrorIsHandled | pkg/platform/queue/asynq.go:109-142 | after any other error the row is left running; the failure handler goes on exactly when the last retry is used up and the error is no revocation |
| TaskOperations.LastErrorIsWritten | pkg/modules/task/service.go:232-258 | and then the row is Failed with the error and that time |
| TaskAttempts.AttemptsOnlyGrow | pkg/platform/database/dbgen/tasks.sql.go:14-18 | along a run attempts never decrease and a terminal row never changes |
| TaskAttempts.StepAdvances | pkg/modules/task/model.go:22-42 | every step keeps the invariant and changes statuses only as the state machine allows |
| OutboxDispatch.ListPending | pkg/platform/database/taskstore/postgres.go:194-218 | the first rows, up to the limit as an int32, of all pending rows ordered by creation time and queue id; an error when that limit is negative |
| OutboxDispatch.OrderIsUnique | pkg/platform/database/dbgen/tasks.sql.go:305-306 | the order is total: there is one ordered pending list |
| OutboxDispatch.DispatchPending | pkg/platform/queue/asynq.go:158-174 | the loop ends as the reference pass over the listed rows, or does nothing when listing fails |
| OutboxDispatch.DispatchMarksPrefix | pkg/platform/queue/asynq.go:163-172 | a pass marks exactly a prefix of the ordered list, a strict one only with an error, and the rest is the pending list afterwards |
| OutboxDispatch.PassMarksPrefix | pkg/platform/queue/asynq.go:169-171 | the marked rows are a prefix and nothing else in the database changed |
| OutboxDispatch.PassStopsAtError | pkg/platform/queue/asynq.go:163-173 | no error exactly when every queued row could be published and every row marked |
| OutboxDispatch.PassPublishesQueued | pkg/platform/queue/asynq.go:164-168 | exactly the rows listed as queued among the marked ones were published, in order and once, and the next one exactly if the pass got there and could publish but not mark it |
| OutboxDispatch.DrainsInCeilingManyPasses | pkg/platform/queue/asynq.go:158-174 | N pending rows are drained after k error-free passes with limit L exactly when k >= ceil(N/L) |
| Submissions.Validate | pkg/modules/task/service.go:266-287 | no refusal exactly when all four values are within their bounds |
| Submissions.DurationRoundTrip | pkg/platform/database/taskstore/postgres.go:99-102 | a bounded duration does not overflow its column and loses only its part below one second |
| Submissions.SubmissionSurvivesOutbox | pkg/platform/database/taskstore/postgres.go:194-218 | the payload comes back in the JSONB column's normal form, the rest of the message and the retries unchanged, each duration at most as given and less than a second below |
| Submissions.SecondTripChangesNothing | pkg/platform/database/taskstore/postgres.go:93-103 | what was read back once is stored and read back unchanged |
| Submissions.RepublishedAlike | pkg/platform/queue/asynq.go:29-52 | the dispatcher enqueues the same message and options exactly when all durations are whole seconds and the payload is in normal form but for space and escapes that the encoding evens out |
| Submissions.OptionsLost | pkg/platform/queue/asynq.go:43-51 | an option disappears on republishing exactly when its duration is below one second |
| Submissions.EnqueueOptions | pkg/platform/queue/asynq.go:34-51 | the option list as Publish builds it |
| Submissions.OptionsShowAll | pkg/platform/queue/asynq.go:34-51 | an option is in that list exactly when it says the retries, a queue or task id that is not empty, or a positive duration of the submission |
| Submissions.DurationSurvivesExactlyBelow | pkg/platform/database/taskstore/postgres.go:100-102 | any duration comes back whole to the second exactly when it is below 2^31 seconds |
| SecurityRows.AccountStore.SaveSecurity | pkg/platform/database/iamstore/authentication.go:82-120 | compare-and-set on the version; the email mode also needs an address that is verified at that moment |
| SecurityRows.AccountStore.ConsumeCredential | pkg/platform/database/iamstore/authentication.go:186-237 | accepts only at the given version with a secret and a fresh factor, removes that factor and advances the version; any refusal changes nothing |
| SecurityRows.AccountStore.VerifyEmail | pkg/platform/database/iamstore/authentication.go:245-294 | verifies exactly an active account whose address is the receipt's, with a receipt that has an ID, has not expired and is not consumed |
| SecurityRows.AccountStore.UpdateUser | pkg/platform/database/iamstore/repository.go:169-194 | an address change clears the verification and is refused in the email mode; a taken address or name is a duplicate; otherwise all three columns are written |
| SecurityRows.AccountStore.UpdateUserPassword | pkg/platform/database/iamstore/repository.go:196-216 | password and version change together, and a pending enrolment is dropped |
| SecurityRows.WithoutKeepsOthers | pkg/platform/database/iamstore/authentication.go:213-221 | filtering removes every copy of the accepted hash and nothing else |
| SecurityRows.WritesAdvanceVersion | pkg/platform/database/dbgen/authentication.sql.go:103-105 | every committed write of the row advances the version by one |
| SecurityRows.ConsumedOnce | pkg/platform/database/iamstore/authentication.go:209-235 | a consumed factor cannot be consumed again, whatever version and time are given |
| SecurityProtocol.PasswordStandsAtConsumption | pkg/modules/iam/authentication_service.go:92-109 | whenever a challenge's factor is consumed, the password hash checked at Login is the stored one and the row is of the challenge's version |
| SecurityProtocol.OneChallengePerVersion | pkg/modules/iam/authentication_service.go:143-155 | acceptances have strictly increasing versions, so at most one challenge of a version succeeds, once |
| SecurityProtocol.FactorsAreOneTime | pkg/platform/database/iamstore/authentication.go:209-235 | within one enrolment accepted TOTP steps strictly increase (section 5.2 of RFC 6238) and no recovery code is accepted twice |
| SecurityProtocol.ModeMatchesFactors | pkg/modules/iam/authentication_service.go:279-309 | mode is totp exactly while a secret is stored; mode email means a receipt was consumed for the present address since it was set |
| SecurityProvenance.ChallengesFollowLogin | pkg/modules/iam/authentication_service.go:33-109 | over every run, each challenge was issued by a process that had begun a login with a password that verified against the hash stored at that moment, of an active user, and it is bound to that hash |
| SecurityProvenance.ConsumptionFollowsLogin | pkg/modules/iam/authentication_service.go:114-155 | so when its factor is consumed, a login of the run had verified a password against the very hash that is stored then |
| SecurityProvenance.SavesFollowChecks | pkg/modules/iam/authentication_service.go:310-459 | every save of an enrolment or of a disabling was begun with a password that verified, every save of a confirmation was given a code of the step it stores |
| SecurityProvenance.AcceptancesFollowCodes | pkg/modules/iam/authentication_service.go:386-417 | every accepted factor was given, a TOTP step with a code that matches it |
| SecurityProvenance.VerificationsFollowReceipts | pkg/platform/database/iamstore/authentication.go:245-294 | a verified address was verified with an unexpired receipt for it, inserted as new, since it was set, unless the account was created verified |
| SecurityOperations.LoginIsChallengedExactly | pkg/modules/iam/authentication_service.go:48-109 | from any state, an uninterrupted login gets a challenge for the present version exactly when the password verifies, the user is active and TOTP is in use; otherwise nothing changes |
| SecurityOperations.ChallengeIsAnsweredExactly | pkg/modules/iam/authentication_service.go:114-157 | a challenge is answered, and its factor spent, exactly when the user is active, the row is of its version and in use, the factor fits and the consumption is new |
| SecurityOperations.ModeIsSetExactly | pkg/modules/iam/authentication_service.go:279-309 | the mode is set exactly when it may be, one version later, and nothing else changes |
| SecurityOperations.EnrolmentIsPendingExactly | pkg/modules/iam/authentication_service.go:310-347 | the new secret is pending for ten minutes exactly when the password verifies and there is no secret |
| SecurityOperations.EnrolmentIsConfirmedExactly | pkg/modules/iam/authentication_service.go:348-385 | the pending secret becomes the secret in TOTP mode, with the step and the new codes, exactly while it is pending and the code matches |
| SecurityOperations.FactorIsDisabledExactly | pkg/modules/iam/authentication_service.go:418-459 | with password and factor, no secret, no codes and the default mode are left, two versions later; without either nothing changes |
| SecurityOperations.EmailIsVerifiedExactly | pkg/modules/iam/authentication_service.go:477-496 | the address is verified exactly for an active user and a receipt with an ID that has not expired and is new |
| SecurityOperations.UserIsHistory | pkg/platform/database/iamstore/repository.go:196-255 | over every run the stored password is that of the last reset, and the user is active as was last set |
| SecurityOperations.ResetLeavesFactors | pkg/platform/database/iamstore/repository.go:196-216 | a reset drops a pending enrolment and leaves all other factors, one version later |
| SecurityOperations.ProfileIsUpdatedExactly | pkg/platform/database/iamstore/repository.go:169-194 | refused exactly for a new address in the email mode and for taken names; otherwise all columns are stored and a new address is unverified |
| SecurityAccounts.RunsAreTheAccounts | pkg/platform/authcache/redis.go:128-149 | with one challenge store for all users, every account still runs as it could alone, and the store and the accounts agree on whose challenge each one is |
| SecurityAccounts.ChallengesAreNotShared | pkg/modules/iam/authentication_service.go:128-150 | no challenge is accepted for two users |
| SecurityAccounts.EveryAccountIsRight | pkg/modules/iam/authentication_service.go:92-155 | so every account of every run keeps its modes, one-time factors and password-bound challenges, and a challenge is accepted only for the user it was issued to |
| SecurityProtocol.ConsumingKeepsInv | pkg/modules/iam/authentication_service.go:386-458 | consumption for a challenge or for Disable keeps the invariant and extends the log correctly |
| SecurityProtocol.SavingKeepsInv | pkg/platform/database/iamstore/authentication.go:82-120 | no save, however stale its snapshot, restores a consumed factor or breaks the mode |
| Totp.Verify | pkg/platform/authcrypto/crypto.go:73-105 | returns the first of the three candidate steps that is later than the last one and whose truncated HMAC spells this code, and refuses exactly when there is none or the input is malformed |
| Totp.CodeSpellsTruncatedValue | pkg/platform/authcrypto/crypto.go:97-100 | the expected code is always six digits, and a code equals it exactly when its number is the truncated value modulo a million |
| Totp.ExampleOfTheStandard | pkg/platform/authcrypto/crypto.go:97-99 | the digest worked out in section 5.4 of RFC 4226 truncates to the value given there |
| Totp.CandidateWindow | pkg/platform/authcrypto/crypto.go:86-91 | the exact times at which a step is tried: from the start of the step before it to the end of the step after it, and earlier only for the two steps around the epoch |
| Challenges.ChallengeStore.Issue | pkg/platform/authcache/redis.go:128-135 | a challenge starts with no attempts and 300 seconds to live |
| Challenges.ChallengeStore.Attempt | pkg/platform/authcache/redis.go:136-149 | counts every attempt on a live challenge and lets the first five through |
| Challenges.ChallengeStore.Consume | pkg/platform/authcache/redis.go:150-159 | succeeds exactly when the challenge was still there, and removes it |
| Challenges.KeysAreHistory | pkg/platform/authcache/redis.go:124-159 | the stored counters are a function of the full call history |
| Challenges.AnswersFollowHistory | pkg/platform/authcache/redis.go:136-159 | the history counts exactly the attempts and consumptions the store answers with success |
| Challenges.AttemptIsAnsweredExactly | pkg/platform/authcache/redis.go:136-149 | over every run, an attempt is let through exactly while the challenge lives and was tried fewer than five times, and answers the user and version of the Issue it came from |
| Challenges.ChallengeLimits | pkg/platform/authcache/redis.go:136-159 | at most five attempts of a challenge get through and it is consumed at most once |
| Challenges.GoneChallengeStaysGone | pkg/platform/authcache/redis.go:150-159 | a consumed or expired challenge never lets anything through again |
| Receipts.SecondUseIsLate | pkg/platform/database/iamstore/authentication.go:274-285 | in any statement interleaving a second commit with one receipt inserted after the expiry although it checked before |
| Receipts.ReceiptIsSingleUse | pkg/platform/database/iamstore/authentication.go:150-162 | with every insert no later than the expiry, at most one transaction commits with a receipt, however much is pruned |
| Receipts.UninterruptedIsPunctual | pkg/platform/database/iamstore/authentication.go:150-162 | transactions that check and insert at one time meet that condition |
| Receipts.ReceiptIsAcceptedExactly | pkg/platform/database/iamstore/authentication.go:245-294 | over every run, an uninterrupted transaction whose receipt no other one holds commits exactly when the receipt has an ID, has not expired and was never committed before |
| Receipts.InsertWaitsForHolder | pkg/platform/database/dbgen/authentication.sql.go:89-91 | an insert waits for a transaction that holds the row, goes through when that rolls back and is refused when it commits |
| Receipts.StepKeepsInv | pkg/platform/database/dbgen/authentication.sql.go:89-91 | every statement of every transaction keeps the table consistent with the commits |
| Receipts.StalledTransactionReusesReceipt | pkg/platform/database/iamstore/authentication.go:274-285 | for every usable receipt, a reachable run with one transaction at a time in which it is committed twice |
| Receipts.ReuseIsPossibleWhenUsable | pkg/platform/database/dbgen/authentication.sql.go:173-175 | such a run exists exactly when the receipt is usable at all, so only punctual inserts make it single-use |
| RefreshTokens.RefreshStore.Issue | pkg/modules/iam/refresh.go:81-91 | replaces the user's token by a new one with the same deadline on both keys |
| RefreshTokens.RefreshStore.Lookup | pkg/modules/iam/refresh.go:93-108 | the user of a live token, or an invalid-token error |
| RefreshTokens.RefreshStore.Rotate | pkg/modules/iam/refresh.go:110-128 | rotates exactly a token that is its user's present one |
| RefreshTokens.RefreshStore.Consume | pkg/modules/iam/refresh.go:130-147 | removes both keys of a live pair and reports its user |
| RefreshTokens.RefreshStore.Revoke | pkg/modules/iam/refresh.go:149-162 | removes the token, and the user key only if it names that token |
| RefreshTokens.RefreshStore.RevokeAll | pkg/modules/iam/refresh.go:164-167 | removes the user's pair |
| RefreshTokens.StepKeepsInv | pkg/modules/iam/refresh.go:19-69 | every script, after however stale a lookup and with whatever lifetime, keeps each token named by its user's key, and breaks the mirror exactly when it deletes an old token and then sets nothing |
| RefreshTokens.TokensAreSingleUse | pkg/modules/iam/refresh.go:29-49 | over every run a user has at most one token, and of all rotations and consumptions of a token at most one succeeds |
| RefreshTokens.HandedOutIsGood | pkg/modules/iam/refresh.go:81-128 | over every run, a token that Issue or Rotate handed out is looked up to its user, with the deadline of its lifetime, exactly until it is first replaced, rotated, consumed, revoked or expired |
| RefreshTokens.ThereOnlyIfHandedOut | pkg/modules/iam/refresh.go:19-69 | and no other step puts a token there |
| RefreshTokens.PairedExactlyWithoutSlips | pkg/modules/iam/refresh.go:19-40 | the two keyspaces mirror each other throughout a run exactly when no script of it deletes an old token and then sets nothing |
| RefreshTokens.OneTtlNeverSlips | pkg/modules/iam/refresh.go:71-91 | stores that share one lifetime, whatever it is, never do that |
| RefreshTokens.GoneStaysGone | pkg/modules/iam/refresh.go:93-167 | a token that was rotated, replaced, revoked, consumed or expired is never stored, looked up or accepted again |
| RefreshTokens.GivenUpIsGone | pkg/modules/iam/refresh.go:19-69 | each of these operations does remove the token it is about |
| RefreshTokens.TinyTtlBreaksPairing | pkg/modules/iam/refresh.go:19-40 | reachable runs of two stores with different lifetimes in which issuing or rotating does that |
| CircuitBreakers.CircuitBreaker.Acquire | pkg/platform/resilience/breaker.go:102-116 | admits when closed, admits one probe when half-open, and hands out the generation |
| CircuitBreakers.CircuitBreaker.Record | pkg/platform/resilience/breaker.go:118-151 | ignores another generation; otherwise counts, resets, closes or opens |
| CircuitBreakers.CircuitBreaker.AdvanceState | pkg/platform/resilience/breaker.go:153-159 | goes half-open with a new generation once the timeout has run |
| CircuitBreakers.CircuitBreaker.OpenNow | pkg/platform/resilience/breaker.go:161-167 | opens with a new generation and no failures |
| CircuitBreakers.BreakerIsAccurate | pkg/platform/resilience/breaker.go:102-167 | half-open: exactly the probe in flight; open: nothing of this generation; closed: failures are the streak in the log and below the threshold; nothing admitted before the timeout since any opening; every opening is due to a failure of its own generation |
| CircuitBreakers.AccurateExactlyUnlessMistaken | pkg/platform/resilience/breaker.go:119-123 | the next operation to finish, however it ended, leaves all that true exactly when its generation is not another one with the same 64-bit stamp |
| CircuitBreakers.PhaseFollowsLog | pkg/platform/resilience/breaker.go:118-167 | over every unmistaken run, the breaker is closed exactly when nothing opened it yet or the probe admitted after the last opening succeeded |
| CircuitBreakers.CallIsAdmittedExactly | pkg/platform/resilience/breaker.go:102-116 | a call is admitted exactly when it is closed, however many operations are in flight, or when the timeout has run since the last opening and no probe is in flight |
| CircuitBreakers.FinishOpensExactly | pkg/platform/resilience/breaker.go:118-151 | the next operation to finish opens it exactly when it failed in the present epoch and, if closed, made the streak reach the threshold |
| CircuitBreakers.StepKeepsInv | pkg/platform/resilience/breaker.go:83-100 | every locked section keeps that, and operations of any other stamp are ignored however late |
| CircuitBreakers.EarlyRunsAreUnmistaken | pkg/platform/resilience/breaker.go:119-121 | in runs of fewer than 2^64 generations no stamp is shared |
| CircuitBreakers.LateOperationIsMistaken | pkg/platform/resilience/breaker.go:118-151 | after 2^64 generations an old operation frees the slot of a probe still in flight |
| ScheduleRegistrars.AsynqRegistrar.Replace | pkg/platform/scheduler/asynq.go:43-94 | after any outcome cache and live entries agree unless a rollback failed; no retained schedule was ever without a live entry; success leaves exactly the enabled ids, each running as its last enabled schedule says; repeating makes no call exactly when settled |
| ScheduleRegistrars.AsynqRegistrar.Install | pkg/platform/scheduler/asynq.go:64-78 | register first, unregister the replaced entry after, roll back when that fails |
| ScheduleRegistrars.AsynqRegistrar.RemoveOthers | pkg/platform/scheduler/asynq.go:81-93 | unregisters exactly what is no longer desired and leaves the rest alone |
| ScheduleRegistrars.CacheShows | pkg/platform/scheduler/asynq.go:43-94 | what Replace leaves on success is one live entry for every schedule that has the last word on its id, with its cron expression, zone, payload, task type, retries and timeout, and no other entry but leaked ones |
| ScheduleRegistrars.SpecRoundTrip | pkg/platform/scheduler/asynq.go:96-101 | the scheduler reads the schedule's own zone and expression back exactly when the zone has no space and an expression without one does not start with CRON_TZ= |
| ScheduleRegistrars.FingerprintsTellApart | pkg/platform/scheduler/asynq.go:103-126 | two fingerprints agree exactly when everything but id and enabled does |
| ScheduleRegistrars.CacheIsExact | pkg/platform/scheduler/asynq.go:23-33 | cached entry ids are distinct and, with the leaked ones, are exactly the live ones |
| ScheduleRegistrars.SettledWhenConsistent | pkg/platform/scheduler/asynq.go:60-63 | after success the cache settles the list exactly when no two schedules with one id contradict each other |
| RateLimits.MemoryRateLimiter.Allow | pkg/httpkit/middleware.go:445-479 | refuses bad arguments without change, otherwise prunes, decides and stores under that key only |
| RateLimits.MemoryRunIsPrunedHistory | pkg/httpkit/middleware.go:452-478 | the stored list is the full admission history pruned at the last call |
| RateLimits.MemoryLimiterFollowsRule | pkg/httpkit/middleware.go:445-479 | admits exactly when fewer than limit calls were admitted in (now-window, now] of the full history |
| RateLimits.RetryAfterIsExact | pkg/httpkit/middleware.go:463-471 | absent other calls, waiting the returned delay is necessary and sufficient |
| RateLimits.RetryHeaderIsSufficient | pkg/httpkit/middleware.go:406-412 | the rounded header is sufficient exactly unless the floating-point seconds were rounded down to a whole number; one second less never is |
| RateLimits.ShortDelaysAreNotRoundedDown | pkg/httpkit/middleware.go:407 | with an error below a nanosecond, which doubles have below 2^24 seconds, they are not |
| RateLimits.LongDelayIsRoundedDown | pkg/httpkit/middleware.go:407 | the double nearest to 2^24 seconds and a nanosecond is rounded down |
| RedisRateLimits.RedisServer.Eval | pkg/platform/httpserver/redis_rate_limiter.go:16-38 | the script's decision and the set and deadline it leaves |
| RedisRateLimits.RedisRateLimiter.Allow | pkg/platform/httpserver/redis_rate_limiter.go:60-101 | argument checks, millisecond conversion, a new member per call, and the decision back in nanoseconds |
| RedisRateLimits.RedisRunIsMemoryRun | pkg/platform/httpserver/redis_rate_limiter.go:16-38 | the sorted set holds the in-memory list for the same millisecond times, whenever Redis drops the key |
| RedisRateLimits.RedisLimiterFollowsRule | pkg/platform/httpserver/redis_rate_limiter.go:60-101 | same decisions, remaining counts and delays as the in-memory limiter and the full-history rule |
| RedisRateLimits.DroppingChangesNothing | pkg/platform/httpserver/redis_rate_limiter.go:36-37 | the key's time to live never changes a decision |
| RedisRateLimits.SubMillisecondWindowAdmitsAll | pkg/platform/httpserver/redis_rate_limiter.go:60-101 | a window below one millisecond admits every call |
| EmailCodes.Store.Issue | pkg/platform/authcache/redis.go:45-79 | both counters always advance; the code is stored exactly when nothing asks the caller to wait |
| EmailCodes.Store.EvalVerify | pkg/platform/authcache/redis.go:81-90 | verifyScript: nothing at the limit, a mismatch counts, a match answers and, if asked to, removes the code |
| EmailCodes.Store.Verify | pkg/platform/authcache/redis.go:81-107 | a mismatch counts, a match yields a receipt with the remaining lifetime |
| EmailCodes.Store.VerifyAndConsume | pkg/platform/authcache/redis.go:162-172 | acceptance removes the code in the same step |
| EmailCodes.Store.Consume | pkg/platform/authcache/redis.go:109-122 | removes the code only while it is the receipt's |
| EmailCodes.CodesStayWithinLimits | pkg/platform/authcache/redis.go:45-90 | over every run: mismatches at most 5 per issue, at most 10 issues per address over all purposes and 50 per IP in [start, start + 1 h) of a counter, issues 60 s apart, each accepted code issued before and accepted once |
| EmailCodes.CacheIsHistory | pkg/platform/authcache/redis.go:45-111 | over every run, codes, cooldowns and counters are what the log of issues, guesses and removals says |
| EmailCodes.GuessIsAnsweredExactly | pkg/platform/authcache/redis.go:81-90 | a guess is answered exactly when it is the very code its key's latest issue stored, which lives and has fewer than five wrong guesses; a different one counts as a mismatch |
| EmailCodes.GuessesAreRight | pkg/platform/authcache/redis.go:81-90 | so every acceptance of every run was made with that code, and every mismatch differs from it |
| EmailCodes.ReceiptRemovesExactly | pkg/platform/authcache/redis.go:109-122 | a receipt removes a code exactly while it lives and is the receipt's |
| EmailCodes.RequestIsGrantedExactly | pkg/platform/authcache/redis.go:45-79 | a request gets its code exactly when both hourly counts of the log have room and a minute has passed since the key's last issue |
| EmailCodes.IssueGoesThroughExactly | pkg/platform/authcache/redis.go:45-58 | a code goes out exactly when both counters are within their limits or in their last millisecond, and the cooldown is over |
| EmailCodes.EleventhIssueAtTheDeadline | pkg/platform/authcache/redis.go:45-58 | for every key, a reachable run whose eleventh code goes out in that millisecond |
| EmailCodes.CleanupSparesNewerCode | pkg/platform/authcache/redis.go:109-111 | Consume never deletes a code issued after the receipt's |
| EmailCodes.StepKeepsInv | pkg/platform/authcache/redis.go:45-111 | every script keeps counters, cooldowns and codes consistent with the log |
| Administrators.Store.SetUserActive | pkg/platform/database/iamstore/repository.go:231-255 | refuses to deactivate the only listed active administrator |
| Administrators.Store.ReplaceUserRoles | pkg/platform/database/iamstore/repository.go:342-385 | checks every role first, refuses to strip the only administrator, then leaves exactly the given roles |
| Administrators.Store.UpdateRole | pkg/platform/database/iamstore/repository.go:301-318 | a system role keeps its name |
| Administrators.Store.DeleteRole | pkg/platform/database/iamstore/repository.go:320-340 | a system role is not deleted; another one goes with its assignments |
| Administrators.DeactivationIsExact | pkg/platform/database/iamstore/repository.go:231-255 | refused exactly for the only listed administrator; otherwise that user alone becomes inactive |
| Administrators.ReplacementIsExact | pkg/platform/database/iamstore/repository.go:342-385 | goes through exactly when all roles exist and the only administrator keeps the role; then the user has exactly the given roles and everyone else keeps theirs |
| Administrators.RenameIsExact | pkg/platform/database/iamstore/repository.go:301-318 | refused exactly for a system role's name and a taken name; otherwise the name alone changes |
| Administrators.DeletionIsExact | pkg/platform/database/iamstore/repository.go:320-340 | refused exactly for a system role; otherwise the role and its assignments go, and nothing else |
| Administrators.AdministratorsAreExact | pkg/platform/database/dbgen/rbac.sql.go:345-378 | the listed administrators are the active users who hold the system role named admin |
| Administrators.AnAdministratorRemains | pkg/platform/database/iamstore/repository.go:231-255 | from a nonempty set, no interleaving of locks, lists and writes empties the set of active system administrators |
| Administrators.ProtectedExactlyWhen | pkg/platform/database/iamstore/repository.go:231-255 | once nonempty the set stays nonempty in every run from a database exactly when that database has an active administrator or no administrator role |
| Administrators.LastGoesExactlyThen | pkg/platform/database/iamstore/repository.go:247-251 | a step takes the last administrator exactly when a transaction that listed nobody finishes against the only one there is |
| Administrators.StepKeepsInv | pkg/platform/database/dbgen/rbac.sql.go:345-378 | what a lock holder listed is still there when it writes |
| Administrators.EmptyListGuardsNothing | pkg/platform/database/iamstore/repository.go:243-251 | from every database with an administrator role and nobody in it, a run that the locks allow in which the set becomes nonempty and empty again |
| ResponseBuffers.RecoveryWriter.WriteHeader | pkg/httpkit/middleware.go:117-127 | only the first final status is kept, before and after the commit |
| ResponseBuffers.RecoveryWriter.Write | pkg/httpkit/middleware.go:129-143 | buffers up to 64 KiB and commits exactly when that is exceeded |
| ResponseBuffers.RecoveryWriter.Flush | pkg/httpkit/middleware.go:146-157 | commits what was buffered and then flushes |
| ResponseBuffers.RecoveryWriter.Commit | pkg/httpkit/middleware.go:163-183 | delivers exactly what an unbuffered writer would have delivered so far |
| ResponseBuffers.Recovery | pkg/httpkit/middleware.go:68-95 | same response as unbuffered; after a panic either no handler byte and a 500 page, or exactly the bytes written so far |
| Backoff.Retry | pkg/platform/resilience/retry.go:18-47 | at most MaxAttempts invocations, nil exactly when one succeeded, and the waits in between are the stated delays |
| Backoff.BoundedDelay | pkg/platform/resilience/retry.go:59-71 | with a maximum the delay after failure n+1 is min(initial * 2^n, max) over unbounded integers, even where int64 wraps |
| Backoff.UnboundedDelay | pkg/platform/resilience/retry.go:59-71 | without one it is initial * 2^n while that fits int64 and zero from then on |

## Left out

- Frontend, HTTP routing and handlers, CORS, cookies, logs, metrics, SMTP, configuration and migrations: input and output.
- Argon2, AES-GCM, HMAC-SHA-1, SHA-256, base32 and JSON: parameters, or a value stands for its hash.
- The inside of Asynq, Redis and PostgreSQL: only the steps and errors visible to the code.
- Authorisation, listing, pagination and preferences: easy members.
- The first login of the bootstrap administrator, authentication settings and the issuing of access tokens: not part of the second-factor invariants.
- Logins in the default and email modes: they leave the security row alone; their codes are in EmailCodes and their tokens in RefreshTokens.
- Creating and deleting accounts while their processes run: SecurityProtocol follows accounts that exist throughout; Register is in Receipts for its receipt only.
- Consumption rows of challenges: their insertion is an arbitrary answer in SecurityProtocol, which allows more runs than the table does; receipts are modelled in Receipts.
- The uniqueness lock of submissions: a duplicate is an arbitrary error answer of the queue.
- Submit, Process and Fail as sequential methods: TaskProtocol has their calls as separate steps, since every interleaving matters.
- Concurrent use of one dispatcher pass: OutboxDispatch follows one pass that runs alone, TaskProtocol the interleaved ones.
- 1xx statuses, header snapshots and failing destinations in the response writer.
- Rate limits whose limit or window changes from call to call for one key.
- Receipts.ReceiptIsSingleUse: needs every insert to come no later than the receipt's expiry, because StalledTransactionReusesReceipt shows a run in which it fails without that.
- CircuitBreakers.BreakerIsAccurate: needs that no operation carries the 64-bit stamp of another generation when it finishes, because AccurateExactlyUnlessMistaken shows that it fails otherwise.
