/** Step-up challenge rows and the guarded updates that move them forward. */
module StepUpRows {
  import opened Common
  import opened AttemptRows

  datatype ChallengeStatus = CPending | CVerified | CConsumed | CRevoked | CExpired

  datatype Service = MucyoraUser | MucyoraSignature | MucyoraAuthRecovery

  /** The keyed digest of purpose and target is injective, so the target itself stands for it. */
  datatype Challenge = Challenge(
    userId: Id,
    attemptId: Id,
    purpose: Purpose,
    target: string,
    status: ChallengeStatus,
    expiresAt: Time,
    assertion: Option<Id>,
    sealed: Option<Id>,
    assertionExpiresAt: Option<Time>,
    verifiedAt: Option<Time>,
    consumedAt: Option<Time>,
    consumedBy: Option<Service>)

  /** Only this service may consume assertions of the purpose; enrolment is not a step-up purpose. */
  function Consumer(purpose: Purpose): Option<Service> {
    match purpose
    case ACCOUNT_ENROLLMENT => None
    case DEVICE_TRANSFER => Some(MucyoraUser)
    case AGREEMENT_SIGNING => Some(MucyoraSignature)
    case ACCOUNT_RECOVERY => Some(MucyoraAuthRecovery)
  }

  predicate Open(status: ChallengeStatus) { status == CPending || status == CVerified }

  /** Challenges whose own expiry or whose assertion's expiry has come. */
  predicate Due(c: Challenge, now: Time) {
    Open(c.status) && (c.expiresAt <= now || (c.assertionExpiresAt.Some? && c.assertionExpiresAt.value <= now))
  }

  function ExpireOne(c: Challenge, now: Time): Challenge {
    if Due(c, now) then c.(status := CExpired, sealed := None) else c
  }

  function ExpireDue(challenges: map<Id, Challenge>, now: Time): map<Id, Challenge> {
    map i | i in challenges :: ExpireOne(challenges[i], now)
  }

  function NewChallenge(userId: Id, attemptId: Id, purpose: Purpose, target: string, expiresAt: Time): Challenge {
    Challenge(userId, attemptId, purpose, target, CPending, expiresAt, None, None, None, None, None, None)
  }

  /** A VERIFIED challenge whose assertion is still good: the issuer answers with the sealed copy. */
  predicate Reissuable(c: Challenge, now: Time) {
    c.status == CVerified && c.sealed.Some? && c.assertionExpiresAt.Some? && now < c.assertionExpiresAt.value
  }

  predicate CanIssue(challenges: map<Id, Challenge>, id: Id, userId: Id, now: Time) {
    id in challenges && challenges[id].userId == userId && challenges[id].status == CPending
        && now < challenges[id].expiresAt
  }

  /**
   * The claim of the issuing transaction; `assertion` names the fresh token, whose digest and
   * sealed copy are stored.
   */
  function Issued(c: Challenge, assertion: Id, assertionExpiresAt: Time, now: Time): Challenge {
    c.(status := CVerified, assertion := Some(assertion), sealed := Some(assertion), verifiedAt := Some(now),
       assertionExpiresAt := Some(assertionExpiresAt))
  }

  predicate CanConsume(challenges: map<Id, Challenge>, id: Id, now: Time) {
    && id in challenges && challenges[id].status == CVerified
    && challenges[id].assertionExpiresAt.Some? && now < challenges[id].assertionExpiresAt.value
  }

  function ConsumedRow(c: Challenge, service: Service, now: Time): Challenge {
    c.(status := CConsumed, consumedAt := Some(now), consumedBy := Some(service), sealed := None)
  }

  /** What a consumer must present for the row that its assertion names. */
  datatype Claim = Claim(service: Service, userId: Id, purpose: Purpose, target: string, assertion: Id)

  predicate Matches(c: Challenge, claim: Claim, now: Time) {
    && c.userId == claim.userId
    && c.purpose == claim.purpose
    && c.target == claim.target
    && c.status == CVerified
    && c.assertionExpiresAt.Some? && now < c.assertionExpiresAt.value
  }
}
