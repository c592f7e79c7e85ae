/**
 * Enrolment and submission by the fields of the rows: which applicant gets an attempt and which
 * refusal the others get, which attempt is taken for submission, and what an answer of the engine
 * leaves behind.
 */
module AttemptOutcomes {
  import opened Common
  import opened AttemptRows
  import opened AttemptProtocol

  // ---- Starting an attempt ------------------------------------------------------------------

  /** E-mail verified, account active, and a verified citizen identity. */
  predicate IsEligible(users: map<Id, User>, u: Id) {
    u in users && users[u].emailVerified && users[u].accountActive && users[u].citizenVerified
  }

  predicate OfEnrolment(a: Attempt, u: Id) { a.userId == u && a.purpose == ACCOUNT_ENROLLMENT }

  predicate HasOpen(attempts: map<Id, Attempt>, u: Id) {
    exists a :: a in attempts && OfEnrolment(attempts[a], u)
                && attempts[a].status in {PENDING, MEDIA_PENDING, PROCESSING}
  }

  /** An attempt with the greatest number asks to wait. */
  predicate MustWait(attempts: map<Id, Attempt>, latest: Option<Id>, now: Time) {
    latest.Some? && latest.value in attempts && attempts[latest.value].retryAfter.Some?
    && now < attempts[latest.value].retryAfter.value
  }

  function Recent(attempts: map<Id, Attempt>, u: Id, now: Time, window: nat): set<Id> {
    set a | a in attempts && OfEnrolment(attempts[a], u) && now - window <= attempts[a].startedAt
  }

  /** `latest` is an enrolment attempt of the user that none of the user's others outnumbers, or there is none. */
  predicate Newest(attempts: map<Id, Attempt>, u: Id, latest: Option<Id>) {
    match latest
    case None => forall a :: a in attempts ==> !OfEnrolment(attempts[a], u)
    case Some(n) =>
      && n in attempts && OfEnrolment(attempts[n], u)
      && forall a :: a in attempts && OfEnrolment(attempts[a], u) ==> attempts[a].number <= attempts[n].number
  }

  /** The refusals, each by the first condition that fails; without any, an attempt is created. */
  ghost predicate RightOutcome(db: Db, u: Id, latest: Option<Id>, now: Time, policy: Policy, outcome: CreateOutcome) {
    if !IsEligible(db.users, u) then outcome == NotEligible
    else if db.users[u].identity == IdentityVerified then outcome == AlreadyVerified
    else if !db.users[u].biometricConsent then outcome == ConsentRequired
    else if HasOpen(db.attempts, u) then outcome == InProgress
    else if MustWait(db.attempts, latest, now) then outcome == RetryLater
    else if policy.maxAttempts <= |Recent(db.attempts, u, now, policy.window)| then outcome == LimitReached
    else outcome == CreatedAttempt(db.nextId)
  }

  lemma OutcomeIsRight(db: Db, u: Id, latest: Option<Id>, now: Time, policy: Policy)
    requires IsLatest(db, u, ACCOUNT_ENROLLMENT, latest)
    ensures Newest(db.attempts, u, latest)
    ensures RightOutcome(db, u, latest, now, policy, CreateOutcomeFor(db, u, latest, now, policy))
  {
    forall a | a in db.attempts && OfEnrolment(db.attempts[a], u) ensures a in AttemptsOf(db, u, ACCOUNT_ENROLLMENT) {
    }
    assert Recent(db.attempts, u, now, policy.window) == StartedSince(db, u, now - policy.window);
  }

  /** The new row waits for media, numbered one past the newest, and the user is pending; nothing else has changed. */
  ghost predicate Started(before: Db, after: Db, u: Id, latest: Option<Id>, startedAt: Time, version: string) {
    && u in before.users
    && after.nextId == before.nextId + 1
    && after.users == before.users[u := before.users[u].(identity := IdentityPending)]
    && after.attempts.Keys == before.attempts.Keys + {before.nextId}
    && (forall a :: a in before.attempts && a != before.nextId ==> after.attempts[a] == before.attempts[a])
    && after.attempts[before.nextId] == Attempt(
         u, ACCOUNT_ENROLLMENT, MEDIA_PENDING,
         if latest.Some? && latest.value in before.attempts then before.attempts[latest.value].number + 1 else 1,
         startedAt, version, None, true, None, None)
  }

  lemma EnrolmentStarts(db: Db, u: Id, latest: Option<Id>, now: Time, startedAt: Time, policy: Policy)
    requires Keyed(db)
    ensures if CreateOutcomeFor(db, u, latest, now, policy).CreatedAttempt?
            then Started(db, Enrolled(db, u, latest, now, startedAt, policy), u, latest, startedAt, policy.version)
            else Enrolled(db, u, latest, now, startedAt, policy) == db
  {
  }

  /** In every run, attempts are numbered by user and purpose, from one to their count, each number once. */
  lemma NumberedOnce(clock: Time, events: seq<Event>, policy: Policy, u: Id, p: Purpose)
    ensures var attempts := Steps(Start(clock), events, policy).db.attempts;
            var own := set a | a in attempts && attempts[a].userId == u && attempts[a].purpose == p;
            && (forall a :: a in own ==> 1 <= attempts[a].number <= |own|)
            && (forall a, b :: a in own && b in own && attempts[a].number == attempts[b].number ==> a == b)
  {
    StartHolds(clock, policy);
    RunKeepsInv(Start(clock), events, policy);
    var db := Steps(Start(clock), events, policy).db;
    var own := set a | a in db.attempts && db.attempts[a].userId == u && db.attempts[a].purpose == p;
    assert own == AttemptsOf(db, u, p) && Numbered(db, u, p);
    forall a | a in own ensures 1 <= db.attempts[a].number <= |own| {
      assert db.attempts[a].number in NumbersOf(db, u, p);
      NumberInRange(db, u, p, a);
    }
  }

  /**
   * In every run, every interval as long as the window holds at most the allowed number of
   * enrolment attempts of a user.
   */
  lemma FewInEveryWindow(clock: Time, events: seq<Event>, policy: Policy, u: Id, start: Time)
    ensures var attempts := Steps(Start(clock), events, policy).db.attempts;
            |set a | a in attempts && attempts[a].userId == u && attempts[a].purpose == ACCOUNT_ENROLLMENT
                     && start <= attempts[a].startedAt <= start + policy.window| <= policy.maxAttempts
  {
    WindowIsNeverExceeded(clock, events, policy, u, start);
    var db := Steps(Start(clock), events, policy).db;
    assert (set a | a in db.attempts && db.attempts[a].userId == u && db.attempts[a].purpose == ACCOUNT_ENROLLMENT
                    && start <= db.attempts[a].startedAt <= start + policy.window)
           == StartedWithin(db, u, start, policy.window);
  }

  // ---- Submitting ---------------------------------------------------------------------------

  predicate OfSubmitter(e: Event, p: Id)
  {
    (e.Read? || e.Claim? || e.Answer? || e.Write? || e.Crash?) && e.submitter == p
  }

  predicate Others(events: seq<Event>, p: Id) { forall e :: e in events ==> !OfSubmitter(e, p) }

  lemma OthersLeave(sys: System, event: Event, p: Id, policy: Policy)
    requires !OfSubmitter(event, p)
    ensures p in Next(sys, event, policy).submitters <==> p in sys.submitters
    ensures p in sys.submitters ==> Next(sys, event, policy).submitters[p] == sys.submitters[p]
  {
  }

  lemma {:induction false} OthersLeaveThroughout(sys: System, events: seq<Event>, p: Id, policy: Policy)
    requires Others(events, p) && SystemInv(sys, policy)
    ensures SystemInv(Steps(sys, events, policy), policy)
    ensures p in Steps(sys, events, policy).submitters <==> p in sys.submitters
    ensures p in sys.submitters ==> Steps(sys, events, policy).submitters[p] == sys.submitters[p]
    decreases |events|
  {
    if events != [] {
      OthersLeave(sys, events[0], p, policy);
      StepKeepsInv(sys, events[0], policy);
      OthersLeaveThroughout(Next(sys, events[0], policy), events[1..], p, policy);
    }
  }

  /** Liveness done, document bound and uploaded, waiting or unanswered, and its retry date absent or reached. */
  predicate Ready(a: Attempt, mediaReady: bool, now: Time) {
    && a.livenessSession.Some? && a.documentBinding && mediaReady
    && (a.status == MEDIA_PENDING || a.status == PROVIDER_UNAVAILABLE)
    && (a.retryAfter == None || a.retryAfter.value <= now)
  }

  /**
   * A submitter gets its attempt into PROCESSING exactly when the attempt it read was ready and has
   * the same status still at its claim, whatever ran in between.
   */
  lemma ClaimsExactly(sys: System, p: Id, id: Id, mediaReady: bool, others: seq<Event>, policy: Policy)
    requires SystemInv(sys, policy) && p !in sys.submitters && id in sys.db.attempts && Others(others, p)
    ensures var seen, last := sys.db.attempts[id], Steps(Next(sys, Read(p, id, mediaReady), policy), others, policy);
            var done := Next(last, Claim(p), policy);
            if Ready(seen, mediaReady, sys.clock) && id in last.db.attempts
                && last.db.attempts[id].status == seen.status
            then p in done.submitters && done.submitters[p].Evaluating? && done.submitters[p].id == id
                 && done.db == last.db.(attempts :=
                      last.db.attempts[id := last.db.attempts[id].(status := PROCESSING, retryAfter := None)])
            else p !in done.submitters && done.db == last.db
  {
    var begun := Next(sys, Read(p, id, mediaReady), policy);
    StepKeepsInv(sys, Read(p, id, mediaReady), policy);
    OthersLeaveThroughout(begun, others, p, policy);
    var last := Steps(begun, others, policy);
    if p in last.submitters { assert SubmitterInv(last.db, last.clock, last.submitters[p]); }
  }

  /**
   * An answer the service believes: of its policy, bound to the document if it passes, and of the
   * last five minutes.
   */
  predicate Believed(e: Evaluation, version: string, now: Time) {
    && e.policyVersion == version
    && (e.decision == PASS ==> e.documentBinding)
    && now - 300_000 <= e.evaluatedAt <= now + 300_000
    && e.decision != UNAVAILABLE
  }

  predicate Recorded(a: Attempt, e: Evaluation, answeredAt: Time, policy: Policy) {
    && a.status == (match e.decision
                    case PASS => PASSED
                    case MANUAL_REVIEW => REVIEW_REQUIRED
                    case RETRY => RETRY_REQUIRED
                    case _ => FAILED)
    && a.completedAt == Some(e.evaluatedAt)
    && a.retryAfter == if e.decision == RETRY then Some(answeredAt + policy.retryDelay) else None
  }

  predicate Informed(user: User, e: Evaluation) {
    user.identity == match e.decision
                     case PASS => IdentityVerified
                     case MANUAL_REVIEW => IdentityReview
                     case _ => IdentityRetry
  }

  /**
   * The engine answers, others run, the submitter writes. A believed verdict is recorded, with the
   * user's status for enrolment, exactly when the attempt is still PROCESSING; otherwise nothing is.
   */
  lemma VerdictExactly(sys: System, p: Id, e: Evaluation, others: seq<Event>, policy: Policy)
    requires SystemInv(sys, policy) && p in sys.submitters && sys.submitters[p].Evaluating? && Others(others, p)
    requires Believed(e, sys.submitters[p].seen.policyVersion, sys.clock)
    ensures var s, last := sys.submitters[p], Steps(Next(sys, Answer(p, Evaluated(e)), policy), others, policy);
            WritesVerdict(last.db, Next(last, Write(p), policy).db, s, e, sys.clock, policy)
  {
    StepKeepsInv(sys, Answer(p, Evaluated(e)), policy);
    OthersLeaveThroughout(Next(sys, Answer(p, Evaluated(e)), policy), others, p, policy);
    var last := Steps(Next(sys, Answer(p, Evaluated(e)), policy), others, policy);
    WriteRecords(last, p, sys.clock, policy);
  }

  ghost predicate WritesVerdict(found: Db, done: Db, s: Submitter, e: Evaluation, answeredAt: Time, policy: Policy) {
    && s.id in found.attempts && s.seen.userId in found.users
    && if found.attempts[s.id].status != PROCESSING then done == found
       else
         && s.id in done.attempts && s.seen.userId in done.users
         && Recorded(done.attempts[s.id], e, answeredAt, policy)
         && (if s.seen.purpose == ACCOUNT_ENROLLMENT then Informed(done.users[s.seen.userId], e)
              else done.users == found.users)
  }

  lemma WriteRecords(sys: System, p: Id, answeredAt: Time, policy: Policy)
    requires SystemInv(sys, policy) && p in sys.submitters && sys.submitters[p].Recording?
    requires var s := sys.submitters[p];
             s.retryAfter == if s.evaluation.decision == RETRY then Some(answeredAt + policy.retryDelay) else None
    ensures WritesVerdict(sys.db, Next(sys, Write(p), policy).db, sys.submitters[p], sys.submitters[p].evaluation,
                          answeredAt, policy)
  {
    assert SubmitterInv(sys.db, sys.clock, sys.submitters[p]);
  }

  /**
   * A failed or unbelievable answer leaves the attempt unavailable until the retry delay has
   * passed, and no user changed.
   */
  lemma UnavailableExactly(sys: System, p: Id, reply: Reply, others: seq<Event>, policy: Policy)
    requires SystemInv(sys, policy) && p in sys.submitters && sys.submitters[p].Evaluating? && Others(others, p)
    requires reply == EngineFailed
             || (reply.Evaluated? && !Believed(reply.evaluation, sys.submitters[p].seen.policyVersion, sys.clock))
    ensures var id, last := sys.submitters[p].id, Steps(Next(sys, Answer(p, reply), policy), others, policy);
            LeftUnavailable(last.db, Next(last, Write(p), policy).db, id, sys.clock + policy.retryDelay)
  {
    var begun := Next(sys, Answer(p, reply), policy);
    StepKeepsInv(sys, Answer(p, reply), policy);
    OthersLeaveThroughout(begun, others, p, policy);
    GivesUp(Steps(begun, others, policy), p, policy);
  }

  ghost predicate LeftUnavailable(found: Db, done: Db, id: Id, nextTry: Time) {
    && id in found.attempts && done.users == found.users
    && done.attempts
       == found.attempts[id := found.attempts[id].(status := PROVIDER_UNAVAILABLE, retryAfter := Some(nextTry))]
  }

  lemma GivesUp(sys: System, p: Id, policy: Policy)
    requires SystemInv(sys, policy) && p in sys.submitters && sys.submitters[p].GivingUp?
    ensures LeftUnavailable(sys.db, Next(sys, Write(p), policy).db, sys.submitters[p].id, sys.submitters[p].nextTry)
  {
    assert SubmitterInv(sys.db, sys.clock, sys.submitters[p]);
  }

  /** The stale-attempt job closes the open and unanswered among those it selected, and no verdict. */
  lemma ExpiryExactly(sys: System, ids: set<Id>, policy: Policy, a: Id)
    requires a in sys.db.attempts
    ensures a in Next(sys, ExpireStale(ids), policy).db.attempts
    ensures Next(sys, ExpireStale(ids), policy).db.attempts[a] ==
            if a in ids && sys.db.attempts[a].status in {PENDING, MEDIA_PENDING, PROCESSING, PROVIDER_UNAVAILABLE}
            then sys.db.attempts[a].(status := EXPIRED, completedAt := Some(sys.clock)) else sys.db.attempts[a]
  {
  }

  /** A liveness session is given once, while the attempt waits for media. */
  lemma LivenessExactly(sys: System, id: Id, session: Id, policy: Policy)
    requires id in sys.db.attempts
    ensures Next(sys, Liveness(id, session), policy).db ==
            if sys.db.attempts[id].livenessSession == None && sys.db.attempts[id].status == MEDIA_PENDING
            then sys.db.(attempts := sys.db.attempts[id := sys.db.attempts[id].(livenessSession := Some(session))])
            else sys.db
  {
  }
}
