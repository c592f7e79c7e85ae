/**
 * Identity-verification attempts and the users they belong to, and the effect of each
 * committed transaction on them.
 */
module AttemptRows {
  import opened Common

  datatype Purpose = ACCOUNT_ENROLLMENT | DEVICE_TRANSFER | AGREEMENT_SIGNING | ACCOUNT_RECOVERY

  datatype AttemptStatus =
    | PENDING
    | MEDIA_PENDING
    | PROCESSING
    | PASSED
    | FAILED
    | RETRY_REQUIRED
    | REVIEW_REQUIRED
    | PROVIDER_UNAVAILABLE
    | EXPIRED

  /** The user's identity status; the values share names with attempt statuses in the schema. */
  datatype Identity = IdentityUnstarted | IdentityPending | IdentityVerified | IdentityReview | IdentityRetry

  datatype User = User(
    emailVerified: bool,
    accountActive: bool,
    citizenVerified: bool,
    biometricConsent: bool,
    identity: Identity)

  datatype Attempt = Attempt(
    userId: Id,
    purpose: Purpose,
    status: AttemptStatus,
    number: nat,
    startedAt: Time,
    policyVersion: string,
    livenessSession: Option<Id>,
    documentBinding: bool,
    retryAfter: Option<Time>,
    completedAt: Option<Time>)

  datatype Db = Db(users: map<Id, User>, attempts: map<Id, Attempt>, nextId: Id)

  datatype Policy = Policy(version: string, window: nat, maxAttempts: nat, retryDelay: nat)

  // ---- Engine decisions --------------------------------------------------------------------

  datatype Decision = PASS | FAIL | RETRY | MANUAL_REVIEW | UNAVAILABLE | INVALID_REQUEST

  datatype Evaluation = Evaluation(decision: Decision, policyVersion: string, documentBinding: bool, evaluatedAt: Time)

  datatype Mapped = Mapped(attempt: AttemptStatus, user: Identity)

  function MapDecision(decision: Decision): (m: Mapped)
    ensures m.attempt == PASSED <==> m.user == IdentityVerified
    ensures IsVerdict(m.attempt) <==> decision != UNAVAILABLE
  {
    match decision
    case PASS => Mapped(PASSED, IdentityVerified)
    case MANUAL_REVIEW => Mapped(REVIEW_REQUIRED, IdentityReview)
    case RETRY => Mapped(RETRY_REQUIRED, IdentityRetry)
    case UNAVAILABLE => Mapped(PROVIDER_UNAVAILABLE, IdentityPending)
    case FAIL | INVALID_REQUEST => Mapped(FAILED, IdentityRetry)
  }

  const MAX_SKEW: Time := 300_000

  /** Evaluations the service refuses to record: wrong policy, unbound pass, skewed clock, or no verdict at all. */
  predicate Untrusted(evaluation: Evaluation, policyVersion: string, now: Time) {
    || evaluation.policyVersion != policyVersion
    || (evaluation.decision == PASS && !evaluation.documentBinding)
    || now - evaluation.evaluatedAt > MAX_SKEW
    || evaluation.evaluatedAt - now > MAX_SKEW
    || evaluation.decision == UNAVAILABLE
  }

  /** The statuses that carry an engine verdict. */
  predicate IsVerdict(status: AttemptStatus) {
    status in {PASSED, FAILED, RETRY_REQUIRED, REVIEW_REQUIRED}
  }

  // ---- Creating attempts -------------------------------------------------------------------

  function AttemptsOf(db: Db, userId: Id, purpose: Purpose): set<Id> {
    set a | a in db.attempts && db.attempts[a].userId == userId && db.attempts[a].purpose == purpose
  }

  function StartedSince(db: Db, userId: Id, start: Time): set<Id> {
    set a | a in AttemptsOf(db, userId, ACCOUNT_ENROLLMENT) && start <= db.attempts[a].startedAt
  }

  /** The row that a query ordered by descending attempt number returns first. */
  predicate IsLatest(db: Db, userId: Id, purpose: Purpose, latest: Option<Id>) {
    match latest
    case None => AttemptsOf(db, userId, purpose) == {}
    case Some(a) =>
      && a in AttemptsOf(db, userId, purpose)
      && forall b :: b in AttemptsOf(db, userId, purpose) ==> db.attempts[b].number <= db.attempts[a].number
  }

  function NextNumber(db: Db, latest: Option<Id>): nat {
    if latest.Some? && latest.value in db.attempts then db.attempts[latest.value].number + 1 else 1
  }

  datatype CreateOutcome =
    | CreatedAttempt(id: Id)
    | NotEligible
    | AlreadyVerified
    | ConsentRequired
    | InProgress
    | RetryLater
    | LimitReached

  /** The checks of attempt creation, in the order the transaction makes them. */
  function CreateOutcomeFor(db: Db, userId: Id, latest: Option<Id>, now: Time, policy: Policy): CreateOutcome {
    if userId !in db.users then NotEligible
    else
      var user := db.users[userId];
      if !user.emailVerified || !user.accountActive || !user.citizenVerified then NotEligible
      else if user.identity == IdentityVerified then AlreadyVerified
      else if !user.biometricConsent then ConsentRequired
      else if exists a :: a in AttemptsOf(db, userId, ACCOUNT_ENROLLMENT)
                          && db.attempts[a].status in {PENDING, MEDIA_PENDING, PROCESSING} then InProgress
      else if latest.Some? && latest.value in db.attempts && db.attempts[latest.value].retryAfter.Some?
              && now < db.attempts[latest.value].retryAfter.value then RetryLater
      else if policy.maxAttempts <= |StartedSince(db, userId, now - policy.window)| then LimitReached
      else CreatedAttempt(db.nextId)
  }

  function NewAttempt(userId: Id, purpose: Purpose, number: nat, startedAt: Time, version: string): Attempt {
    Attempt(userId, purpose, MEDIA_PENDING, number, startedAt, version, None, true, None, None)
  }

  function WithAttempt(db: Db, userId: Id, purpose: Purpose, latest: Option<Id>, startedAt: Time, version: string): Db {
    db.(attempts := db.attempts[db.nextId := NewAttempt(userId, purpose, NextNumber(db, latest), startedAt, version)],
        nextId := db.nextId + 1)
  }

  /** Enrolment: `now` is the caller's clock, `startedAt` the database's when it inserts the row. */
  function Enrolled(db: Db, userId: Id, latest: Option<Id>, now: Time, startedAt: Time, policy: Policy): Db {
    if CreateOutcomeFor(db, userId, latest, now, policy).CreatedAttempt? then
      WithAttempt(db, userId, ACCOUNT_ENROLLMENT, latest, startedAt, policy.version)
        .(users := db.users[userId := db.users[userId].(identity := IdentityPending)])
    else db
  }

  // ---- Submission --------------------------------------------------------------------------

  /** What a submitter requires of the attempt it read; media and liveness are read with it. */
  predicate Submittable(attempt: Attempt, mediaReady: bool, now: Time) {
    && attempt.livenessSession.Some?
    && attempt.documentBinding
    && mediaReady
    && attempt.status in {MEDIA_PENDING, PROVIDER_UNAVAILABLE}
    && (attempt.retryAfter.Some? ==> attempt.retryAfter.value <= now)
  }

  predicate CanClaim(db: Db, id: Id, seen: Attempt) {
    id in db.attempts && db.attempts[id].userId == seen.userId && db.attempts[id].status == seen.status
  }

  function Claimed(db: Db, id: Id): Db
    requires id in db.attempts
  {
    db.(attempts := db.attempts[id := db.attempts[id].(status := PROCESSING, retryAfter := None)])
  }

  predicate CanComplete(db: Db, id: Id, userId: Id) {
    id in db.attempts && db.attempts[id].userId == userId && db.attempts[id].status == PROCESSING && userId in db.users
  }

  function Completed(db: Db, id: Id, purpose: Purpose, evaluation: Evaluation, retryAfter: Option<Time>): Db
    requires id in db.attempts && db.attempts[id].userId in db.users
  {
    var attempt := db.attempts[id];
    var mapped := MapDecision(evaluation.decision);
    var written := db.(attempts := db.attempts[id :=
      attempt.(status := mapped.attempt, policyVersion := evaluation.policyVersion,
               documentBinding := evaluation.documentBinding,
               completedAt := Some(evaluation.evaluatedAt), retryAfter := retryAfter)]);
    if purpose == ACCOUNT_ENROLLMENT then
      written.(users := db.users[attempt.userId := db.users[attempt.userId].(identity := mapped.user)])
    else written
  }

  /** Unavailability is recorded by key alone, whatever the status has become. */
  function MarkedUnavailable(db: Db, id: Id, retryAfter: Time): Db {
    if id in db.attempts then
      db.(attempts :=
          db.attempts[id := db.attempts[id].(status := PROVIDER_UNAVAILABLE, retryAfter := Some(retryAfter))])
    else db
  }

  predicate Stale(status: AttemptStatus) {
    status in {PENDING, MEDIA_PENDING, PROCESSING, PROVIDER_UNAVAILABLE}
  }

  /** The write half of the stale-attempt job, for keys it read earlier. */
  function AttemptsExpired(db: Db, ids: set<Id>, now: Time): Db {
    db.(attempts := map a | a in db.attempts ::
      if a in ids && Stale(db.attempts[a].status) then db.attempts[a].(status := EXPIRED, completedAt := Some(now))
      else db.attempts[a])
  }

  function WithLiveness(db: Db, id: Id, session: Id): Db {
    if id in db.attempts && db.attempts[id].livenessSession == None && db.attempts[id].status == MEDIA_PENDING then
      db.(attempts := db.attempts[id := db.attempts[id].(livenessSession := Some(session))])
    else db
  }
}
