# Verified model of the MUCYORA authentication service

The service keeps its state in database rows that are changed by guarded updates, with Redis
leases and in-process flags around them. This project models those rows, the transactions on
them, and the way calls and jobs interleave between reading and writing, and proves what holds
in every run. `dafny verify dfyconfig.toml` checks everything.

Each database component comes in up to three layers:

- **rows**: datatypes for the tables and functions for the effect of each committed transaction;
- **store**: a class whose methods perform the transaction as the service does, one guarded
  update after another with a rollback when a guard finds no row, proved equal to that effect;
- **protocol**: calls and jobs as processes that read, wait and write in any order, with crashes
  and lapsed leases, and theorems about all runs of such a system.

Beside them, the **outcomes** modules say what each operation does by the fields of the rows alone:
when it succeeds, what it then leaves, and which refusal it gives otherwise.

| files | component |
|---|---|
| `SessionRows`, `SessionInvariant`, `SessionStore`, `SessionUpgrade`, `RefreshProtocol`, `Leases`, `SessionOutcomes`, `RefreshOutcomes` | sessions, refresh tokens, upgrades |
| `AttemptRows`, `AttemptStore`, `AttemptProtocol`, `AttemptLimits`, `AttemptOutcomes` | identity-verification attempts |
| `StepUpRows`, `StepUpProtocol`, `ChallengeStore`, `StepUpOutcomes` | step-up challenges and assertions |
| `World` | the three protocols above running together |
| `Outbox`, `OutboxWorker`, `OutboxOutcomes`, `JobLock` | mail outbox and the distributed job lock |
| `MediaRows`, `MediaCleanup`, `MediaProtocol`, `MediaSafety`, `MediaRuns`, `MediaOutcomes` | uploads, orphan sweep and media deletion |
| `PasswordRows`, `PasswordStore`, `PasswordProtocol`, `PasswordSessions`, `PasswordOutcomes` | password resets, changes and logins |
| `Registration`, `RegistrationStore`, `RegistrationOutcomes`, `RecoveryCodes` | registration, e-mail activation, recovery codes |
| `Idempotency` | idempotency claims |
| `CircuitBreaker`, `Coalescing`, `Semaphore`, `RateLimiter` | in-memory and Redis machines |

## Reading the main results

- **Refresh is serial.** `RefreshProtocol.EveryInterleavingIsSerial`: whatever the interleaving of
  refresh calls (stale read, lease that may lapse, decision on the stale row, transaction,
  release) with maintenance jobs and all other transactions, the rows are those of a serial run
  of indivisible steps. The indivisible refresh, `SessionRows.AtomicRefresh`, is given only the
  token and the call's own time and reads current rows. The lease plays no part in the proof.
  `AtMostOneWinner`, `RetiredSessionsNeverRotate` and `ReachableSessionsAreChains` follow.
- **No privilege without proof.** `World.FullSessionsBelongToVerifiedUsers` and
  `World.AssertionsRestOnPassedAttempts` hold for every run of the combined system, although
  logins, submitters, issuers and consumers all act on reads that may be out of date. Sessions
  there are the interleaved refresh system itself.
- **Counting under leases.** `Outbox.DeadLetteredAtExactlyTheMaximum` holds while batches keep
  within their leader lease; `Outbox.OverrunStrands` is a run where one does not and a mail is
  lost without a dead letter, and `Outbox.FailureStrandsExactly` says when that happens.
- **What a sweep may take.** `MediaSafety.SweepDestroysExactly` gives, for every interleaving of
  uploads, confirmations and deletions, exactly when a sweep destroys the object of a confirmed
  row; `HeldObjectsStay` says when it never does and when no deletion touches a held object.
  `MediaRuns` holds the runs in which a late confirmation, hold or verdict loses its object.
- **A password write closes what came before.** `PasswordProtocol.WriteCancelsEarlierRequests` and
  `WriteEndsEarlierSessions`: whoever is hashing meanwhile, no earlier reset request works and no
  earlier session is ACTIVE again. `ChangeCommitsExactly` says a change loses no update.
  `AcceptedPasswordMovesExactly` also names the one write that is not compared, a login that
  rehashes, and `OldPasswordReturns` is a run where it stores the previous password again.
  `PasswordSessions.SessionsAfterWriteExactly` says which later sessions rest on the old one.

## Facts assumed about the schema and the platform

The database schema is not part of the source tree. The model assumes: unique keys that are never
reused; unique token, assertion and identity digests; unique `(scope, key)` of idempotency records
(the sealed responses hold what was stored); new sessions default to ACTIVE, token generations to
0, outbox rows to a first attempt at their creation time; users start unverified; deleting a
session detaches its tokens; a media row is unique for its attempt and kind of media. Digests and sealing are injective. Each `$transaction` and each
single update is atomic, and the clock never goes backwards. Times are integers of milliseconds.

## Where code and documentation disagree

The model follows the code.

- `docs/advanced-auth-hardening.md` describes recovery-code rotation, but rotation asks the token
  service for 16 bytes and that service refuses fewer than 32, so rotation never succeeds
  (`RecoveryCodes.PasskeyService.AnyUse`).
- `docs/operational-jobs.md` promises dead-lettering after `OUTBOX_MAX_ATTEMPTS`; a failed send
  decides from the count its batch read, so a stale count can pass the limit unnoticed.
- `docs/operational-jobs.md` says jobs conditionally delete what they selected; the deletes are by
  key alone. They are still safe because of what never changes back
  (`RefreshProtocol.JobSurvives`).
- `docs/operational-jobs.md` and `docs/identity-verification.md` exclude held and reviewed media from
  deletion and delete only objects without a row; the code checks that when it selects or looks up,
  not when it deletes (`MediaSafety.DeletionTakesHeldExactly`, `DeletionTakesReviewedExactly`,
  `SweepDestroysExactly`).
- Logging out everywhere is bounded to a hundred sessions per call
  (`SessionStore.AuthStore.RevokeSessions` says exactly when ACTIVE sessions remain).

## Model

| member | source | states |
|---|---|---|
| SessionInvariant.StepKeepsInv | src/modules/auth/authentication.service.ts:308-401 | every transaction on sessions, tokens and upgrade records keeps: one linked chain of tokens per session, a token unrevoked exactly while its session is ACTIVE, owner, level and expiry shared with the session, reason matching status |
| SessionInvariant.RunKeepsInv | src/modules/auth/authentication.service.ts:308-401 | the same over any serial run whose token purges stay within a horizon |
| SessionInvariant.ChainGrows | src/modules/auth/authentication.service.ts:322-349 | rotation consumes the chain's last token and appends the next generation to the whole chain |
| SessionInvariant.CreatedKeeps | src/modules/auth/authentication.service.ts:167-194 | a login's session joins the others with a chain of one unused generation-zero token that shares its owner, level and expiry |
| SessionInvariant.OneLiveTokenPerSession | src/modules/auth/authentication.service.ts:322-349 | a session not past the purge horizon has exactly one unused token, of the highest generation, and all its tokens expire with the session |
| SessionInvariant.ClosedKeeps | src/modules/password/password.service.ts:319-340 | closing sessions and revoking tokens together keeps the invariant whenever the two selections match |
| SessionInvariant.NeverActiveAgain | src/modules/sessions/session-management.service.ts:97-145 | a session that has left ACTIVE is never ACTIVE again in any run of any transactions |
| SessionInvariant.SessionIdentityIsFixed | src/modules/auth/authentication.service.ts:322-333 | owner, level and expiry of a session never change, so rotations never outlive the original expiry |
| RefreshProtocol.CommitIsAtomic | src/modules/auth/authentication.service.ts:280-372 | what a call commits from its stale snapshot equals the indivisible refresh applied to current rows |
| RefreshProtocol.StepIsSerial | src/modules/auth/authentication.service.ts:231-373 | every step of the interleaved system is no transaction or one indivisible transaction |
| RefreshProtocol.EveryInterleavingIsSerial | src/modules/auth/authentication.service.ts:231-373 | every interleaving of refresh calls, jobs and other transactions yields the rows of a serial run |
| RefreshProtocol.ReachableSessionsAreChains | src/modules/auth/authentication.service.ts:308-349 | in every reachable state an unexpired session owns one whole chain of tokens |
| RefreshProtocol.AtMostOneWinner | src/modules/auth/authentication.service.ts:334-349 | however many calls present a token, at most one ever rotates it |
| RefreshProtocol.RetiredSessionsNeverRotate | src/modules/auth/authentication.service.ts:309-321 | once a session leaves ACTIVE no call in flight rotates any of its tokens |
| RefreshProtocol.ReuseCompromises | src/modules/auth/authentication.service.ts:375-401 | a call that has decided on reuse closes the session as COMPROMISED at its commit, marks the presented token and revokes every token |
| RefreshOutcomes.ReuseAfterGraceCompromises | src/modules/auth/authentication.service.ts:280-297 | a call that reads a token used longer ago than the grace period leaves, whatever ran in between, the session COMPROMISED, every token revoked and the reuse noted, unless the row was purged |
| RefreshOutcomes.ReuseWithinGraceChangesNothing | src/modules/auth/authentication.service.ts:280-291 | a token used within the grace period changes no row |
| RefreshOutcomes.UnusableChangesNothing | src/modules/auth/authentication.service.ts:297-306 | an unused token that is revoked or expired, or whose session is over, changes no row |
| RefreshOutcomes.UsableTokenRotatesExactly | src/modules/auth/authentication.service.ts:308-361 | a token usable at the decision is followed by one successor of the next generation exactly when at the commit it is still unused and unrevoked and its session ACTIVE, else no row changes |
| RefreshOutcomes.UndisturbedTokenRotates | src/modules/auth/authentication.service.ts:252-361 | with nothing in between such a token always rotates |
| RefreshOutcomes.LockedSessionTurnsAway | src/modules/auth/authentication.service.ts:266-277 | while a lock of the session runs another call ends without touching rows or lock |
| RefreshProtocol.ReleaseOwnOnly | src/modules/auth/authentication.service.ts:42-47 | a refresh call's release never removes another call's lock |
| RefreshProtocol.JobSurvives | src/modules/operations/operational-jobs.service.ts:243-320 | what a job selected earlier deserves its treatment after any transaction: due sessions stay due, closed sessions closed, expired rows expired |
| SessionUpgrade.SuccessReplacesSession | src/modules/auth/session-upgrade.service.ts:120-242 | success closes the limited session with all its tokens and adds one ACTIVE full session with one generation-zero token |
| SessionUpgrade.AtMostOneReplacement | src/modules/auth/session-upgrade.service.ts:172-193 | in any run, over all keys and callers, a limited session is replaced at most once |
| SessionUpgrade.ReplayReturnsFirstResult | src/modules/auth/session-upgrade.service.ts:77-101 | until the record expires, the same key and body return the first result and change no row; another body is refused |
| SessionUpgrade.AnsweredTokenIsUnrevoked | src/modules/auth/session-upgrade.service.ts:262-277 | whenever an upgrade is answered, the token it names is unrevoked and full, as its session is ACTIVE |
| SessionStore.AuthStore.Rotate | src/modules/auth/authentication.service.ts:308-361 | rotates when both guards hold, otherwise undoes everything |
| SessionStore.AuthStore.RevokeForReuse | src/modules/auth/authentication.service.ts:375-401 | revokes the family and compromises the session, or undoes everything when the presented row is gone |
| SessionStore.AuthStore.RevokeSessions | src/modules/sessions/session-management.service.ts:97-145 | closes at most a hundred matching ACTIVE sessions with their tokens, and leaves none ACTIVE exactly when there were no more than that |
| SessionStore.AuthStore.RevokeForPassword | src/modules/password/password.service.ts:319-340 | closes every ACTIVE session of the user and revokes the user's tokens |
| SessionStore.AuthStore.ExpireSessions | src/modules/operations/operational-jobs.service.ts:284-301 | closes as EXPIRED those of the selected sessions still ACTIVE, with their tokens, and counts them |
| SessionStore.AuthStore.Upgrade | src/modules/auth/session-upgrade.service.ts:75-252 | performs the upgrade's writes in order and ends in the specified rows and outcome, or with nothing changed |
| AttemptProtocol.RowsMove | src/modules/identity-verification/identity-verification.service.ts:411-421 | one step never changes an attempt's identity nor the status of a recorded verdict |
| AttemptProtocol.ClaimKeeps | src/modules/identity-verification/identity-verification.service.ts:411-428 | a successful claim finds nobody else in flight on the attempt |
| AttemptProtocol.WriteKeeps | src/modules/identity-verification/identity-verification.service.ts:537-634 | a verdict or an unguarded unavailability is written by the only submitter in flight |
| AttemptProtocol.AtMostOneInFlight | src/modules/identity-verification/identity-verification.service.ts:411-475 | in every run at most one submitter of an attempt is between claim and final write |
| AttemptProtocol.VerdictsAreAbsorbing | src/modules/identity-verification/identity-verification.service.ts:537-634 | a verdict is never replaced by submitters, unavailability writes or the expiry job |
| AttemptProtocol.AtMostOneVerdict | src/modules/identity-verification/identity-verification.service.ts:537-561 | any run records at most one verdict per attempt |
| AttemptProtocol.VerifiedStepKeeps | src/modules/identity-verification/identity-verification.service.ts:562-576 | a user is VERIFIED only with a PASSED enrolment attempt |
| AttemptProtocol.EnrolmentKeepsLimit | src/modules/identity-verification/identity-verification.service.ts:69-76 | the count taken at creation keeps every interval of window length within the limit |
| AttemptProtocol.CreationKeepsConsecutive | src/modules/identity-verification/identity-verification.service.ts:188-201 | attempt numbers per user and purpose stay 1, 2, 3 without gap or repetition |
| AttemptProtocol.WindowIsNeverExceeded | src/modules/identity-verification/identity-verification.service.ts:120-210 | over whole runs: at most the allowed enrolment attempts in any window, numbered consecutively |
| AttemptOutcomes.NumberedOnce | src/modules/identity-verification/identity-verification.service.ts:188-201 | in every run attempts are numbered by user and purpose from one to their count, each number once |
| AttemptOutcomes.FewInEveryWindow | src/modules/identity-verification/identity-verification.service.ts:120-210 | in every run each interval as long as the window holds at most the allowed enrolment attempts of a user |
| AttemptOutcomes.ClaimsExactly | src/modules/identity-verification/identity-verification.service.ts:378-428 | a submitter's claim goes through exactly when the attempt it read was ready, and has the same status still, whatever ran in between |
| AttemptOutcomes.VerdictExactly | src/modules/identity-verification/identity-verification.service.ts:455-576 | a believable verdict is recorded with its retry date, and the user's status for enrolment, exactly when the attempt is still PROCESSING at the write |
| AttemptOutcomes.UnavailableExactly | src/modules/identity-verification/identity-verification.service.ts:443-634 | a failed or unbelievable answer leaves the attempt unavailable until the retry delay has passed, and no user changed |
| AttemptLimits.VerifiedFlagLostExactly | src/modules/identity-verification/identity-verification.service.ts:562-576 | the VERIFIED flag is lost exactly when a non-passing verdict on an enrolment attempt of the user is recorded |
| AttemptLimits.VerifiedFlagCanBeLost | src/modules/identity-verification/identity-verification.service.ts:133-139 | a run from the start in which a verified user loses the flag although a passed attempt remains |
| AttemptLimits.ClaimsEarlyExactly | src/modules/identity-verification/identity-verification.service.ts:402-421 | after any run, a submitter claims before the row's retry date exactly when the last unavailability recorded since its read set a date still to come |
| AttemptLimits.EarlyClaimHappens | src/modules/identity-verification/identity-verification.service.ts:411-421 | a run from the start in which a claim is possible before the retry date |
| AttemptRows.MapDecision | src/modules/identity-verification/identity-verification.service.ts:692-723 | only PASS passes an attempt and verifies a user; every decision but unavailability is a verdict |
| AttemptStore.VerificationStore.CreateAttempt | src/modules/identity-verification/identity-verification.service.ts:77-231 | creates an attempt exactly for an eligible, unverified, consenting user with no open attempt, the retry date come and the window count below the limit, and else gives the refusal of the first condition that fails; the attempt is numbered one past the user's count |
| AttemptStore.VerificationStore.CompleteAttempt | src/modules/identity-verification/identity-verification.service.ts:519-576 | records the verdict exactly while the attempt is PROCESSING, with its retry date and the user's status for enrolment, or nothing |
| StepUpProtocol.StepMovesForward | src/modules/step-up-verification/step-up-verification.service.ts:226-354 | every step of any caller moves each challenge forward only |
| StepUpProtocol.StepKeepsInv | src/modules/step-up-verification/step-up-verification.service.ts:54-354 | every step keeps the row invariant and what calls in flight believe of it |
| StepUpProtocol.AcceptedAtMostOnce | src/modules/step-up-verification/step-up-verification.service.ts:318-334 | any run accepts an assertion at most once |
| StepUpProtocol.AcceptanceIsWarranted | src/modules/step-up-verification/step-up-verification.service.ts:276-334 | acceptance implies the mapped service, same user, purpose and target, a passed attempt, and an assertion expiring no later than its challenge |
| StepUpProtocol.SealedOnlyWhileVerified | src/modules/step-up-verification/step-up-verification.service.ts:226-245 | in every run sealed assertion material exists exactly while a challenge is VERIFIED |
| StepUpProtocol.OneLiveChallenge | src/modules/step-up-verification/step-up-verification.service.ts:95-110 | in every run a user has at most one live challenge for a purpose and target |
| StepUpOutcomes.TimedThroughout | src/modules/step-up-verification/step-up-verification.service.ts:226-251 | in every run an assertion expires at the smaller of its challenge's expiry and its making plus the lifetime |
| StepUpOutcomes.IssuedAssertionIsAccepted | src/modules/step-up-verification/step-up-verification.service.ts:179-339 | a pending challenge with a passed attempt gets an assertion, which the service of its purpose consumes at any time within its lifetime |
| StepUpOutcomes.MismatchConsumesNothing | src/modules/step-up-verification/step-up-verification.service.ts:276-330 | another service, user, purpose, target or a late time consumes nothing |
| ChallengeStore.SettledBecomesAnswerable | src/modules/step-up-verification/step-up-verification.service.ts:184-216 | once a challenge has left PENDING or is over, lazy expiry leaves an issuer an answer without a claim |
| ChallengeStore.ChallengeLedger.IssueAssertion | src/modules/step-up-verification/step-up-verification.service.ts:179-274 | against any concurrent callers the issuer ends, calls itself at most once, and returns only an assertion stored for a passed attempt with its full lifetime; undisturbed it gives the stored assertion, a new one, NotFound or Incomplete exactly by the row's fields |
| ChallengeStore.ChallengeLedger.ConsumeAssertion | src/modules/step-up-verification/step-up-verification.service.ts:276-339 | a consumption that succeeds matches the claim, comes from the service of the purpose, rests on a passed attempt and leaves the assertion finished; undisturbed it succeeds exactly when such a row is alive |
| ChallengeStore.ChallengeLedger.ExpireDueNow | src/modules/step-up-verification/step-up-verification.service.ts:341-354 | expires what is due and drops its sealed material, keeping the row invariant |
| World.StepKeepsInv | src/modules/auth/session-upgrade.service.ts:143-213 | every step of the combined system keeps the links between sessions, attempts and challenges |
| World.FullSessionsBelongToVerifiedUsers | src/modules/auth/authentication.service.ts:147-183 | in every run a FULL session belongs to a user with a PASSED enrolment attempt, although logins read the status earlier |
| World.UpgradeKeeps | src/modules/auth/session-upgrade.service.ts:143-213 | upgrades create FULL sessions only for users with a passed attempt |
| World.UpgradesExactly | src/modules/auth/session-upgrade.service.ts:120-252 | a first upgrade replaces the session exactly when it is the caller's, limited, ACTIVE and unexpired, the user active and verified, and the attempt the user's passed enrolment |
| World.LoginLevelExactly | src/modules/auth/authentication.service.ts:147-195 | a login opens a FULL session exactly when the user was verified at its read and the risk is low, whatever ran since |
| World.ChallengesExactly | src/modules/step-up-verification/step-up-verification.service.ts:54-165 | a challenge and its attempt are created exactly for an active, verified, consenting user without a live one for the same request |
| World.SessionStepKeeps | src/modules/passkeys/passkey.service.ts:127-161 | login, passkey login, upgrade and all other session transactions keep that guarantee |
| World.AssertionsRestOnPassedAttempts | src/modules/step-up-verification/step-up-verification.service.ts:217-245 | in every run an issued or consumed assertion rests on a PASSED attempt of the same user and purpose |
| JobLock.AtMostOneInTime | src/common/operations/distributed-job-lock.service.ts:22-43 | two executions of a job that are within their lease are the same execution |
| JobLock.FinishSparesOthers | src/common/operations/distributed-job-lock.service.ts:10-15 | a run that ends, even late, leaves every other run's lease in place |
| JobLock.OverlapMeansOverrun | src/common/operations/distributed-job-lock.service.ts:31-36 | a second execution starts only after the first has outlived its lease |
| Outbox.PublishedAndDeadLetteredAreDisjoint | src/integrations/mail/mail-outbox.worker.ts:178-217 | in every interleaving no event is both published and dead-lettered |
| Outbox.ClosedRowsNeverChange | src/integrations/mail/mail-outbox.worker.ts:140-217 | a published or dead-lettered event never changes again, crashes and lapsed leases included |
| Outbox.FailuresAreCounted | src/integrations/mail/mail-outbox.worker.ts:194-216 | an unpublished event's count is its recorded failures |
| Outbox.RunKeepsExact | src/integrations/mail/mail-outbox.worker.ts:77-131 | while batches keep to their lease, counts remembered by the open batch are current |
| Outbox.DeadLetteredAtExactlyTheMaximum | src/integrations/mail/mail-outbox.worker.ts:194-217 | while batches keep to their lease, an unpublished event is dead-lettered exactly at the maximum number of recorded failures |
| OutboxOutcomes.BackoffIsObeyed | src/integrations/mail/mail-outbox.worker.ts:140-228 | in every run, between a recorded failure of an event and any later claim of it, at least min(maximum, base doubled for each of up to ten attempts) seconds pass |
| Outbox.FailureStrandsExactly | src/integrations/mail/mail-outbox.worker.ts:195-215 | a failure leaves an event neither published nor dead-lettered at the limit exactly when the batch's count was stale across it |
| Outbox.StrandedForever | src/integrations/mail/mail-outbox.worker.ts:79-88 | such an event is never selected or changed again |
| Outbox.OverrunStrands | src/integrations/mail/mail-outbox.worker.ts:59-75 | a run from the start, with a batch outliving its lease, that strands an event |
| OutboxWorker.MailOutboxWorker.DispatchEvent | src/integrations/mail/mail-outbox.worker.ts:133-220 | leaves a row that is closed, leased or not yet due as it is; otherwise records the delivery, or the failure with its rest and, at the last attempt, the dead letter |
| OutboxWorker.MailOutboxWorker.DispatchAvailableEvents | src/integrations/mail/mail-outbox.worker.ts:118-130 | the chunked pass gives every selected event its outcome, touches no other, and counts deliveries |
| OutboxWorker.MailOutboxWorker.DispatchBatch | src/integrations/mail/mail-outbox.worker.ts:59-75 | a call during another does nothing, and the flag is always restored |
| OutboxWorker.OutcomeSettles | src/integrations/mail/mail-outbox.worker.ts:176-217 | a claimed event ends unowned, counted once, and published, dead-lettered or rescheduled within the ceiling |
| OutboxWorker.BackoffGrows | src/integrations/mail/mail-outbox.worker.ts:222-228 | backoff never shrinks with the count and never exceeds its ceiling |
| MediaCleanup.CleanupService.ReconcileOrphanedObjects | src/modules/identity-verification/verification-cleanup.service.ts:65-145 | a pass with nothing else running deletes no object of a live row; after a complete legacy scan exactly the old untracked objects of the page, otherwise none |
| MediaCleanup.CleanupService.DigestLegacy | src/modules/identity-verification/verification-cleanup.service.ts:94-112 | digests the readable legacy rows and notices every one it could not read or update |
| MediaCleanup.CleanupService.DeleteUnknown | src/modules/identity-verification/verification-cleanup.service.ts:126-141 | removes from the page what is old and unknown to both lookups, and counts it |
| MediaCleanup.LookupsAgree | src/modules/identity-verification/verification-cleanup.service.ts:113-131 | after a complete scan the two lookups together know exactly the tracked digests |
| MediaCleanup.CleanupService.DeleteExpiredMediaBatch | src/modules/identity-verification/verification-cleanup.service.ts:156-212 | a batch with nothing else running settles its due rows, deleted and marked or counted and rescheduled, and with one row per object spares what is held |
| MediaCleanup.CleanupService.DeleteAttemptMedia | src/modules/identity-verification/verification-cleanup.service.ts:214-245 | deletes up to three unheld objects of the attempt, marks those that went, and with one row per object spares what is held |
| MediaCleanup.HeldObjectsSurvive | src/modules/identity-verification/verification-cleanup.service.ts:158-166 | with one row per object, deleting unheld rows leaves every held object as it was |
| MediaProtocol.RunKeepsInv | src/modules/identity-verification/identity-verification.service.ts:261-321 | in every run of uploads, confirmations and deletions no two media rows name one object, by prefix, metadata and unique key together |
| MediaProtocol.InsertKeepsRows | src/modules/identity-verification/identity-verification.service.ts:269-309 | a confirmed object has no other row |
| MediaOutcomes.ConfirmsExactly | src/modules/identity-verification/identity-verification.service.ts:261-309 | an undisturbed confirmation adds a row exactly for a waiting attempt, its own key and object, and no document yet |
| MediaProtocol.DigestKeeps | src/modules/identity-verification/verification-cleanup.service.ts:95-110 | during the scan every legacy row is left, or its digest known, or the scan is incomplete |
| MediaSafety.SweepDestroysExactly | src/modules/identity-verification/verification-cleanup.service.ts:77-141 | in every run a sweep destroys a live row's object exactly when the row was confirmed after its lookup and the object was old when listed |
| MediaRuns.SweepDestroysConfirmed | src/modules/identity-verification/verification-cleanup.service.ts:116-134 | a run from the start in which a document is confirmed between lookup and deletion and loses its object |
| MediaSafety.HeldObjectsStay | src/modules/identity-verification/verification-cleanup.service.ts:65-245 | with confirmations within the grace period and holds placed before selection, no sweep takes a live row's object and no deletion takes a held one |
| MediaSafety.StepKeepsPages | src/modules/identity-verification/verification-cleanup.service.ts:70-81 | when confirmations are prompt and uploads no longer than the grace period, the old objects of a page can neither be written nor confirmed |
| MediaSafety.DeletionTakesHeldExactly | src/modules/identity-verification/verification-cleanup.service.ts:157-192 | a selected row's object goes under an unexpired hold exactly when a hold still running was placed after the selection |
| MediaSafety.DeletionTakesReviewedExactly | src/modules/identity-verification/verification-cleanup.service.ts:164-192 | the expiry batch takes media under review exactly when the verdict came after its selection; the deletion after a verdict never does |
| MediaRuns.HoldComesLate | src/modules/identity-verification/verification-cleanup.service.ts:158-192 | a run from the start in which a hold is placed after the selection and the held object goes |
| MediaRuns.ReviewComesLate | src/modules/identity-verification/verification-cleanup.service.ts:164-192 | a run from the start in which the verdict for review comes after the selection and the reviewed object goes |
| PasswordProtocol.ResetWorksAtMostOnce | src/modules/password/password.service.ts:173-193 | however many callers hold a reset token it resets a password at most once |
| PasswordOutcomes.ResetSucceedsExactly | src/modules/password/password.service.ts:150-226 | a reset writes the password exactly when its request was open and unexpired and the user active at the read, and the request is still open at the commit; the user's requests and sessions then end |
| PasswordOutcomes.ExpiredRequestStartsNothing | src/modules/password/password.service.ts:168-176 | once the clock has passed a request's expiry no presentation of it starts a reset in the rest of the run |
| PasswordOutcomes.UsedInTime | src/modules/password/password.service.ts:183-193 | a request becomes used only by the commit of a reset that began before its expiry |
| PasswordOutcomes.ChangeSucceedsExactly | src/modules/password/password.service.ts:228-315 | a change writes the password exactly when the current one was given and the hash it verified is still stored |
| PasswordOutcomes.LoginExactly | src/modules/auth/authentication.service.ts:113-207 | a password login opens a session exactly when the password is the one stored at its read |
| PasswordProtocol.WriteCancelsEarlierRequests | src/modules/password/password.service.ts:183-212 | after a reset or change no request issued before it ever works, calls in flight included |
| PasswordProtocol.WriteEndsEarlierSessions | src/modules/password/password.service.ts:319-340 | after a reset or change no session the user then had is ACTIVE again in the rest of the run |
| PasswordProtocol.ChangeCommitsExactly | src/modules/password/password.service.ts:277-296 | a change commits exactly when no hash was stored for the user since it verified the current password |
| PasswordProtocol.AcceptedPasswordMovesExactly | src/modules/auth/authentication.service.ts:195-207 | the accepted password moves only when a reset or change stores another, or a rehashing login's read is out of date |
| PasswordProtocol.OldPasswordReturns | src/modules/auth/authentication.service.ts:163-207 | a run from the start in which a rehashing login stores the previous password again after a change and opens a session that rests on it |
| PasswordProtocol.AtMostOneWorkingRequest | src/modules/password/password.service.ts:95-112 | without recovery codes a user never has two requests that work |
| PasswordProtocol.RequestKeepsOneSpendable | src/modules/password/password.service.ts:95-112 | asking for a reset leaves the new request as the user's only one that works |
| PasswordSessions.SessionsAfterWriteExactly | src/modules/auth/authentication.service.ts:112-194 | a session ACTIVE after a password write was created after it, and rests on a replaced hash exactly when its login read the hash before the write |
| PasswordProtocol.StepKeepsInv | src/modules/password/password.service.ts:150-226 | what calls in flight believe of the rows stays true, and computed hashes stay distinct from stored ones |
| PasswordStore.PasswordService.ResetPassword | src/modules/password/password.service.ts:182-223 | succeeds exactly for an unused, unrevoked request that has not expired; stores the hash, closes the user's requests and sessions and revokes the tokens, or undoes everything |
| PasswordStore.PasswordService.ChangePassword | src/modules/password/password.service.ts:276-313 | replaces the hash that was verified, revokes all requests and ends the sessions, or changes nothing |
| Idempotency.GrantsBalancePurges | src/common/security/idempotency.service.ts:19-65 | in every interleaving claims granted and purges balance: one grant between two purges |
| Idempotency.NoSecondGrantBeforeExpiry | src/common/security/idempotency.service.ts:31-63 | until its record expires a granted claim is the only one for its key |
| Idempotency.LaterClaimsReplay | src/common/security/idempotency.service.ts:35-37 | before expiry the same body is answered with the row and its stored response, another body with a conflict |
| Idempotency.CompletedAtMostOnce | src/common/security/idempotency.service.ts:66-84 | a row is completed at most once, and never after it was answered or purged |
| Idempotency.IdempotencyService.ClaimKey | src/common/security/idempotency.service.ts:19-64 | grants only where no record was found at creation, otherwise resolves the record it finds, or fails when that is gone |
| Coalescing.OneFetchPerCitizen | src/integrations/citizen-api/nida-citizen.adapter.ts:77-92 | in every interleaving at most one fetch of a citizen is in flight |
| Coalescing.StartsBalanceEnds | src/integrations/citizen-api/nida-citizen.adapter.ts:77-92 | starts and ends of a citizen's fetches alternate, however many callers ask |
| Coalescing.DeletesOwnEntry | src/integrations/citizen-api/nida-citizen.adapter.ts:86-88 | the deletion after a fetch removes that fetch's own entry only |
| Coalescing.JoinIsStable | src/integrations/citizen-api/nida-citizen.adapter.ts:77-92 | a caller keeps the fetch it joined, of its own citizen, and its answer never changes |
| Coalescing.CallerGetsItsFetch | src/integrations/citizen-api/nida-citizen.adapter.ts:77-92 | a caller joins a fetch of its own citizen that has not ended, and awaits that one to the end |
| Coalescing.NidaCitizenAdapter.FindByNationalId | src/integrations/citizen-api/nida-citizen.adapter.ts:50-92 | answers from the cache, joins the fetch in flight, or starts and enters one |
| Coalescing.NidaCitizenAdapter.Finally | src/integrations/citizen-api/nida-citizen.adapter.ts:86-88 | removes the entry of the fetch that settled |
| Registration.RunConserves | src/modules/registration/registration.service.ts:225-364 | in every run users, credentials, identities and consumed challenges are equal in number, and e-mails and identities stay unique |
| Registration.StepKeepsAttempts | src/modules/registration/registration-challenge-lifecycle.service.ts:11-60 | a pending challenge has counted no attempt and a consumed one exactly one |
| Registration.VerifiedIffOneTokenUsed | src/modules/email-verification/email-verification.service.ts:56-134 | without purges a user is verified exactly when one of their tokens, and only one, is used |
| Registration.NeverTwoActivations | src/modules/email-verification/email-verification.service.ts:80-110 | with purges there are never two used tokens of a user, nor one of an unverified user |
| Registration.AtMostOneLiveToken | src/modules/email-verification/email-verification.service.ts:195-213 | a user has at most one e-mail token that still works |
| RegistrationOutcomes.ExpiredTokenActivatesNobody | src/modules/email-verification/email-verification.service.ts:70-94 | whatever else happens, a token that is over at a time activates nobody then |
| Registration.ConsentsAreExact | src/modules/registration/registration.service.ts:413-424 | the consent check accepts exactly the required set of types |
| Registration.RecordedAttemptCanBeConsumed | src/modules/registration/registration-challenge-lifecycle.service.ts:36-60 | a challenge whose attempt was just recorded can be consumed |
| RegistrationStore.AccountStore.RegisterTransaction | src/modules/registration/registration.service.ts:225-364 | registers exactly when the key is new, the challenge pending, unexpired and with attempts left, and e-mail and identity free; writes all rows and consumes the challenge, or leaves no trace |
| RegistrationStore.AccountStore.Register | src/modules/registration/registration.service.ts:98-411 | a replay with the same body returns the same user and writes nothing, another body conflicts; otherwise the transaction decides on the rows it finds after whatever ran since the reads, and undisturbed it registers exactly when all conditions hold |
| RegistrationStore.AccountStore.VerifyEmail | src/modules/email-verification/email-verification.service.ts:49-134 | activates exactly with an unused, unreplaced, unexpired token of an unverified user; spends the token and activates its user together, or neither |
| RecoveryCodes.PasskeyService.RotateWith | src/modules/passkeys/passkey.service.ts:296-314 | with a size of code the token service accepts, exactly the new codes are live; otherwise nothing changes |
| RecoveryCodes.PasskeyService.RotateRecoveryCodes | src/modules/passkeys/passkey.service.ts:296-300 | at the sixteen bytes the service asks for, rotation of any positive count fails |
| RecoveryCodes.PasskeyService.ConsumeRecoveryCode | src/modules/passkeys/passkey.service.ts:316-334 | a live code is accepted once and is then spent |
| RecoveryCodes.PasskeyService.AnyUse | src/modules/passkeys/passkey.service.ts:296-346 | for every configured count, no sequence of rotations and consumptions accepts a code |
| CircuitBreaker.RunKeepsInv | src/integrations/citizen-api/citizen-circuit-breaker.ts:20-65 | in every run, stale outcomes included: closed exactly below the threshold, probing exactly while half-open |
| CircuitBreaker.ProbesAreSpaced | src/integrations/citizen-api/citizen-circuit-breaker.ts:20-65 | two probes with no success between them are at least the reset timeout apart |
| CircuitBreaker.CitizenCircuit.AssertRequestAllowed | src/integrations/citizen-api/citizen-circuit-breaker.ts:20-43 | admits as specified and opens a probe at most once |
| CircuitBreaker.CitizenCircuit.RecordFailure | src/integrations/citizen-api/citizen-circuit-breaker.ts:52-65 | counts the failure and opens on a failed probe or at the threshold |
| CircuitBreaker.CitizenCircuit.FetchAndCache | src/integrations/citizen-api/nida-citizen.adapter.ts:94-138 | an admitted fetch reports one outcome: a citizen found, or status 400 or 404, closes the circuit, any other last answer counts as a failure; only throttling, server errors and four network errors are posted again; a refused fetch posts nothing |
| CircuitBreaker.RequestWithRetries | src/integrations/citizen-api/nida-citizen.adapter.ts:140-198 | posts at most retries plus one times, stopping at the first answer not worth retrying |
| Semaphore.NoLostWakeUp | src/integrations/engine/engine.service.ts:170-183 | in every interleaving the counter is the number of holders, and while anybody waits the capacity is held or promised |
| Semaphore.WakesInOrder | src/integrations/engine/engine.service.ts:175-182 | wake-ups are first-in first-out |
| Semaphore.OvercommitsExactly | src/common/security/password-policy.service.ts:130-143 | the capacity is overcommitted exactly when a newcomer overtakes a woken caller |
| Semaphore.PromptRunsRespectLimit | src/common/security/password-policy.service.ts:130-143 | if woken callers resume before the next acquire the limit is never exceeded |
| Semaphore.OvertakingExceedsLimit | src/integrations/engine/engine.service.ts:170-183 | a run in which two calls hold a semaphore of one |
| RateLimiter.AtMostTheLimitPerWindow | src/modules/auth/auth-rate-limiter.service.ts:9-16 | at most the limit of calls is admitted for a key in one window, however the scripts of calls interleave |
| RateLimiter.AtMostTwiceTheLimit | src/modules/auth/auth-rate-limiter.service.ts:56-76 | in any interleaving and any interval of one window length at most twice the limit of calls is admitted for a key |
| RateLimiter.RejectedCountToo | src/modules/auth/auth-rate-limiter.service.ts:9-16 | while a key's window lasts exactly the first scripts pass, up to the limit, however many come |
| RateLimiter.AuthRateLimiter.AssertAllowed | src/modules/auth/auth-rate-limiter.service.ts:56-76 | runs exactly one script for each dimension, with others in between, and allows the call when none was rejected |

## Left out

- Controllers, guards, DTO validation, logging, telemetry, health checks and environment validation: plumbing.
- Encryption, digests, Argon2, JWT signing, WebAuthn verification, S3 and HTTP: foreign code, kept as injective names or as failures that may happen.
- Statement-level isolation inside a transaction: each transaction is one step, so two attempt creations or challenge creations that both read before either writes are not modelled.
- Security-event rows and metrics: nothing in the modelled rows depends on them.
- Login's password check, failure counter and risk assessment: apart from the hash they verify, they decide whether a login happens, which the model leaves open (`lowRisk` is an arbitrary input).
- The citizen cache and its expiry: a cached answer is an input of the lookup.
- Password acceptance rules and the notification a change sends: single checks and plain inserts.
- Passkey challenges in Redis: read-and-delete of one key.
- MediaCleanup.CleanupService.ReconcileOrphanedObjects: nothing else runs during this pass; `MediaProtocol` has the same steps with everything else in between.
- MediaCleanup.CleanupService.DeleteExpiredMediaBatch: nothing else runs during this batch, and the attempts under review are given; `MediaProtocol` has the same steps with everything else in between.
- MediaCleanup.CleanupService.DeleteAttemptMedia: its deletions run together in the service and are one step here, and apart from each other in `MediaProtocol`.
- Object versions: an object is one key, and deleting it by the version recorded at confirmation is deleting it.
- Idempotency: a completion names its row by key and id; the service names it by id alone, which is the same row.
- Methods that are one guarded update (`Claim`, `RecordUnavailable`, `SetIfAbsent`, `Enter` and the like) are proved equal to their effect but not listed; what holds of them is in the protocol modules.
- Outbox.DeadLetteredAtExactlyTheMaximum: order and size of the batch query are not modelled; a batch may hold any eligible events.
- OutboxWorker.MailOutboxWorker.DispatchAvailableEvents: the events of one chunk are dispatched in order, not at once; `Outbox` covers any interleaving.
- RefreshProtocol.EveryInterleavingIsSerial: rate limiting before the read and token issuance after the commit are outside the modelled call; two readings of the clock with no wait between them are one.
