/** The verification transactions as the service performs them, proved equal to their effects in `AttemptRows`. */
module AttemptStore {
  import opened Common
  import opened AttemptRows
  import P = AttemptProtocol
  import O = AttemptOutcomes

  /** Every non-empty set of attempts has one with the greatest number. */
  lemma {:induction false} GreatestNumber(attempts: map<Id, Attempt>, ids: set<Id>) returns (top: Id)
    requires ids != {} && ids <= attempts.Keys
    ensures top in ids && forall b :: b in ids ==> attempts[b].number <= attempts[top].number
    decreases |ids|
  {
    var x :| x in ids;
    var rest := ids - {x};
    top := x;
    if rest != {} {
      var best := GreatestNumber(attempts, rest);
      if attempts[x].number < attempts[best].number { top := best; }
      forall b | b in ids ensures attempts[b].number <= attempts[top].number {
        if b != x { assert b in rest; }
      }
    }
  }

  class VerificationStore {
    var users: map<Id, User>
    var attempts: map<Id, Attempt>
    var nextId: Id

    ghost function Rows(): Db
      reads this
    {
      Db(users, attempts, nextId)
    }

    /** `findFirst` ordered by descending attempt number. */
    method FindLatest(userId: Id, purpose: Purpose) returns (latest: Option<Id>)
      ensures IsLatest(Rows(), userId, purpose, latest)
    {
      var mine := set a | a in attempts && attempts[a].userId == userId && attempts[a].purpose == purpose;
      assert mine == AttemptsOf(Rows(), userId, purpose);
      if mine == {} { return None; }
      ghost var top := GreatestNumber(attempts, mine);
      var found :| found in mine && forall b :: b in mine ==> attempts[b].number <= attempts[found].number;
      return Some(found);
    }

    /** The checks of the enrolment transaction: eligibility, consent, an active attempt, the retry date, the limit. */
    method Decide(userId: Id, now: Time, policy: Policy) returns (outcome: CreateOutcome, latest: Option<Id>)
      ensures IsLatest(Rows(), userId, ACCOUNT_ENROLLMENT, latest)
      ensures outcome == CreateOutcomeFor(Rows(), userId, latest, now, policy)
      ensures O.Newest(attempts, userId, latest) && O.RightOutcome(Rows(), userId, latest, now, policy, outcome)
    {
      latest := FindLatest(userId, ACCOUNT_ENROLLMENT);
      O.OutcomeIsRight(Rows(), userId, latest, now, policy);
      if userId !in users { return NotEligible, latest; }
      var user := users[userId];
      if !user.emailVerified || !user.accountActive || !user.citizenVerified { return NotEligible, latest; }
      if user.identity == IdentityVerified { return AlreadyVerified, latest; }
      if !user.biometricConsent { return ConsentRequired, latest; }
      var mine := set a | a in attempts && attempts[a].userId == userId && attempts[a].purpose == ACCOUNT_ENROLLMENT;
      assert mine == AttemptsOf(Rows(), userId, ACCOUNT_ENROLLMENT);
      if exists a :: a in mine && attempts[a].status in {PENDING, MEDIA_PENDING, PROCESSING} {
        return InProgress, latest;
      }
      if latest.Some? && attempts[latest.value].retryAfter.Some? && now < attempts[latest.value].retryAfter.value {
        return RetryLater, latest;
      }
      var recent := set a | a in mine && now - policy.window <= attempts[a].startedAt;
      assert recent == StartedSince(Rows(), userId, now - policy.window);
      if policy.maxAttempts <= |recent| { return LimitReached, latest; }
      return CreatedAttempt(nextId), latest;
    }

    /** The enrolment transaction: the checks, then the new attempt and the user's status. */
    method CreateAttempt(userId: Id, now: Time, startedAt: Time, policy: Policy)
      returns (outcome: CreateOutcome, ghost latest: Option<Id>)
      modifies this
      ensures O.Newest(old(attempts), userId, latest)
      ensures O.RightOutcome(old(Rows()), userId, latest, now, policy, outcome)
      ensures if outcome.CreatedAttempt? then O.Started(old(Rows()), Rows(), userId, latest, startedAt, policy.version)
              else Rows() == old(Rows())
      ensures Rows() == Enrolled(old(Rows()), userId, latest, now, startedAt, policy)
      ensures outcome.CreatedAttempt? && P.Numbered(old(Rows()), userId, ACCOUNT_ENROLLMENT) ==>
                outcome.id in attempts
                && attempts[outcome.id].number == |AttemptsOf(old(Rows()), userId, ACCOUNT_ENROLLMENT)| + 1
    {
      var newest;
      outcome, newest := Decide(userId, now, policy);
      latest := newest;
      if !outcome.CreatedAttempt? { return outcome, latest; }
      if P.Numbered(Rows(), userId, ACCOUNT_ENROLLMENT) { P.LatestCounts(Rows(), userId, ACCOUNT_ENROLLMENT, newest); }
      var id := nextId;
      var number := if newest.Some? then attempts[newest.value].number + 1 else 1;
      attempts := attempts[id := NewAttempt(userId, ACCOUNT_ENROLLMENT, number, startedAt, policy.version)];
      nextId := nextId + 1;
      users := users[userId := users[userId].(identity := IdentityPending)];
    }

    /** The claim: one guarded update whose count says who won. */
    method Claim(id: Id, seen: Attempt) returns (count: nat)
      modifies this`attempts
      ensures count == if CanClaim(old(Rows()), id, seen) then 1 else 0
      ensures Rows() == if count == 1 then Claimed(old(Rows()), id) else old(Rows())
    {
      if id in attempts && attempts[id].userId == seen.userId && attempts[id].status == seen.status {
        attempts := attempts[id := attempts[id].(status := PROCESSING, retryAfter := None)];
        return 1;
      }
      return 0;
    }

    /** The verdict transaction: guarded update of the attempt, then the user when the purpose is enrolment. */
    method CompleteAttempt(id: Id, userId: Id, purpose: Purpose, evaluation: Evaluation, now: Time, policy: Policy)
      returns (recorded: bool)
      modifies this
      ensures recorded <==>
                && id in old(attempts) && old(attempts)[id].userId == userId && old(attempts)[id].status == PROCESSING
                && userId in old(users)
      ensures recorded && evaluation.decision != UNAVAILABLE ==>
                && id in attempts && userId in users
                && attempts == old(attempts)[id := attempts[id]] && users == old(users)[userId := users[userId]]
                && O.Recorded(attempts[id], evaluation, now, policy)
                && (if purpose == ACCOUNT_ENROLLMENT then O.Informed(users[userId], evaluation)
                     else users == old(users))
      ensures recorded ==>
                Rows() == Completed(old(Rows()), id, purpose, evaluation,
                                    if evaluation.decision == RETRY then Some(now + policy.retryDelay) else None)
      ensures !recorded ==> Rows() == old(Rows())
    {
      var mapped := MapDecision(evaluation.decision);
      var retryAfter := if mapped.attempt == RETRY_REQUIRED then Some(now + policy.retryDelay) else None;
      if id !in attempts || attempts[id].userId != userId || attempts[id].status != PROCESSING || userId !in users {
        return false;
      }
      attempts := attempts[id := attempts[id].(
        status := mapped.attempt, policyVersion := evaluation.policyVersion,
            documentBinding := evaluation.documentBinding,
        completedAt := Some(evaluation.evaluatedAt), retryAfter := retryAfter)];
      if purpose == ACCOUNT_ENROLLMENT {
        users := users[userId := users[userId].(identity := mapped.user)];
      }
      return true;
    }

    /** One update by key, with no guard on the status. */
    method RecordUnavailable(id: Id, now: Time, policy: Policy)
      modifies this`attempts
      ensures Rows() == MarkedUnavailable(old(Rows()), id, now + policy.retryDelay)
    {
      if id in attempts {
        attempts :=
            attempts[id := attempts[id].(status := PROVIDER_UNAVAILABLE, retryAfter := Some(now + policy.retryDelay))];
      }
    }

    /** The write half of the stale-attempt job. */
    method ExpireStaleAttempts(ids: set<Id>, now: Time)
      modifies this`attempts
      ensures Rows() == AttemptsExpired(old(Rows()), ids, now)
    {
      attempts := map a | a in attempts ::
        if a in ids && Stale(attempts[a].status) then attempts[a].(status := EXPIRED, completedAt := Some(now))
        else attempts[a];
    }
  }
}
