/**
 * Step-up by the fields of the rows: how long an assertion lives, who may consume it, and what an
 * issuer and then a consumer get when nobody interferes.
 */
module StepUpOutcomes {
  import opened Common
  import opened AttemptRows
  import opened StepUpRows
  import opened StepUpProtocol

  /** The one service that serves each step-up purpose. */
  predicate Serves(service: Service, purpose: Purpose) {
    || (purpose == DEVICE_TRANSFER && service == MucyoraUser)
    || (purpose == AGREEMENT_SIGNING && service == MucyoraSignature)
    || (purpose == ACCOUNT_RECOVERY && service == MucyoraAuthRecovery)
  }

  // ---- Lifetimes ----------------------------------------------------------------------------

  /** An assertion was made before its challenge was over, and lives its time or as long as the challenge. */
  predicate TimedRow(c: Challenge, ttl: Time) {
    && (c.assertion.Some? <==> c.verifiedAt.Some?)
    && (c.verifiedAt.Some? ==>
          && c.verifiedAt.value < c.expiresAt
          && c.assertionExpiresAt == Some(if c.expiresAt < c.verifiedAt.value + ttl then c.expiresAt
                                          else c.verifiedAt.value + ttl))
  }

  ghost predicate Timed(challenges: map<Id, Challenge>, ttl: Time) {
    forall i :: i in challenges ==> TimedRow(challenges[i], ttl)
  }

  lemma StepKeepsTimed(sys: System, event: Event, ttl: Time)
    requires Timed(sys.ledger.challenges, ttl)
    ensures Timed(Next(sys, event, ttl).ledger.challenges, ttl)
  {
  }

  /** In every run each assertion expires at the smaller of its challenge's expiry and its making plus the lifetime. */
  lemma {:induction false} TimedThroughout(sys: System, events: seq<Event>, ttl: Time)
    requires Timed(sys.ledger.challenges, ttl)
    ensures Timed(Steps(sys, events, ttl).ledger.challenges, ttl)
    decreases |events|
  {
    if events != [] {
      StepKeepsTimed(sys, events[0], ttl);
      TimedThroughout(Next(sys, events[0], ttl), events[1..], ttl);
    }
  }

  // ---- Nobody interferes --------------------------------------------------------------------

  /** Due by its own expiry or by its assertion's. */
  predicate Over(c: Challenge, now: Time) {
    c.expiresAt <= now || (c.assertionExpiresAt.Some? && c.assertionExpiresAt.value <= now)
  }

  lemma ExpiryByFields(challenges: map<Id, Challenge>, now: Time, i: Id)
    requires i in challenges
    ensures i in ExpireDue(challenges, now)
    ensures ExpireDue(challenges, now)[i] ==
            if challenges[i].status in {CPending, CVerified} && Over(challenges[i], now)
            then challenges[i].(status := CExpired, sealed := None) else challenges[i]
  {
  }

  /** Issuing: an open challenge of the caller with a passed attempt, and no time lost, becomes VERIFIED. */
  lemma IssuesUndisturbed(sys: System, p: Id, id: Id, ttl: Time)
    requires SystemInv(sys) && p !in sys.calls && id in sys.ledger.challenges
    requires var c := sys.ledger.challenges[id];
             c.status == CPending && sys.ledger.clock < c.expiresAt && c.attemptId in sys.ledger.passed
    ensures var c := sys.ledger.challenges[id];
            var done := Next(Next(Next(sys, IssueBegin(p, id, c.userId), ttl), IssueRead(p), ttl), IssueClaim(p), ttl);
            && done.calls == sys.calls && done.ledger.clock == sys.ledger.clock
            && id in done.ledger.challenges
            && done.ledger.challenges[id] == c.(
                 status := CVerified, verifiedAt := Some(sys.ledger.clock),
                 assertion := Some(sys.ledger.nextId), sealed := Some(sys.ledger.nextId),
                 assertionExpiresAt :=
                     Some(if c.expiresAt < sys.ledger.clock + ttl then c.expiresAt else sys.ledger.clock + ttl))
  {
    assert Sound(sys.ledger, sys.ledger.challenges[id]);
    ExpiryByFields(sys.ledger.challenges, sys.ledger.clock, id);
    var s1 := Next(sys, IssueBegin(p, id, sys.ledger.challenges[id].userId), ttl);
    assert s1.calls[p] == Issuing(id, sys.ledger.challenges[id].userId, sys.ledger.clock);
    var s2 := Next(s1, IssueRead(p), ttl);
    assert s2.calls[p].Claiming?;
    assert s2.calls - {p} == sys.calls;
  }

  /** Consuming: a VERIFIED challenge whose assertion is alive is spent by the matching claim of the right service. */
  lemma ConsumesUndisturbed(sys: System, p: Id, id: Id, claim: StepUpRows.Claim, ttl: Time)
    requires SystemInv(sys) && p !in sys.calls && id in sys.ledger.challenges
    requires var c := sys.ledger.challenges[id];
             && c.status == CVerified && c.assertion == Some(claim.assertion)
             && c.userId == claim.userId && c.purpose == claim.purpose && c.target == claim.target
             && sys.ledger.clock < c.expiresAt
             && c.assertionExpiresAt.Some? && sys.ledger.clock < c.assertionExpiresAt.value
    requires Serves(claim.service, claim.purpose)
    ensures var done :=
            Next(Next(Next(sys, ConsumeBegin(p, claim), ttl), ConsumeRead(p, id), ttl), ConsumeWrite(p), ttl);
            && id in done.ledger.challenges
            && done.ledger.challenges[id] == sys.ledger.challenges[id].(
                 status := CConsumed, consumedAt := Some(sys.ledger.clock), consumedBy := Some(claim.service),
                     sealed := None)
  {
    ExpiryByFields(sys.ledger.challenges, sys.ledger.clock, id);
    var s1 := Next(sys, ConsumeBegin(p, claim), ttl);
    assert s1.calls[p] == Presenting(claim, sys.ledger.clock);
    var s2 := Next(s1, ConsumeRead(p, id), ttl);
    assert s2.calls[p] == Consuming(claim, sys.ledger.clock, id);
  }

  /** A call of another service, or for another user, purpose, target or time, changes no challenge but by expiry. */
  lemma MismatchConsumesNothing(sys: System, p: Id, id: Id, claim: StepUpRows.Claim, ttl: Time)
    requires SystemInv(sys) && p !in sys.calls && id in sys.ledger.challenges
    requires var c := sys.ledger.challenges[id];
             || c.status != CVerified || c.assertion != Some(claim.assertion)
             || c.userId != claim.userId || c.purpose != claim.purpose || c.target != claim.target
             || c.assertionExpiresAt == None || c.assertionExpiresAt.value <= sys.ledger.clock
             || !Serves(claim.service, claim.purpose)
    ensures var done :=
            Next(Next(Next(sys, ConsumeBegin(p, claim), ttl), ConsumeRead(p, id), ttl), ConsumeWrite(p), ttl);
            done.ledger == Next(sys, ConsumeBegin(p, claim), ttl).ledger
  {
    ExpiryByFields(sys.ledger.challenges, sys.ledger.clock, id);
  }

  /** An assertion issued at once and presented within its lifetime by the right service is accepted. */
  lemma IssuedAssertionIsAccepted(sys: System, p: Id, id: Id, service: Service, delay: nat, ttl: Time)
    requires SystemInv(sys) && p !in sys.calls && id in sys.ledger.challenges
    requires var c := sys.ledger.challenges[id];
             && c.status == CPending && c.attemptId in sys.ledger.passed && Serves(service, c.purpose)
             && sys.ledger.clock + delay < c.expiresAt && delay < ttl
    ensures var c := sys.ledger.challenges[id];
            var issued :=
                Next(Next(Next(sys, IssueBegin(p, id, c.userId), ttl), IssueRead(p), ttl), IssueClaim(p), ttl);
            var later := Next(issued, Tick(delay), ttl);
            var claim := StepUpRows.Claim(service, c.userId, c.purpose, c.target, sys.ledger.nextId);
            var done :=
                Next(Next(Next(later, ConsumeBegin(p, claim), ttl), ConsumeRead(p, id), ttl), ConsumeWrite(p), ttl);
            && id in done.ledger.challenges && done.ledger.challenges[id].status == CConsumed
            && done.ledger.challenges[id].consumedBy == Some(service)
  {
    var c := sys.ledger.challenges[id];
    IssuesUndisturbed(sys, p, id, ttl);
    var s1 := Next(sys, IssueBegin(p, id, c.userId), ttl);
    var s2 := Next(s1, IssueRead(p), ttl);
    var issued := Next(s2, IssueClaim(p), ttl);
    StepKeepsInv(sys, IssueBegin(p, id, c.userId), ttl);
    StepKeepsInv(s1, IssueRead(p), ttl);
    StepKeepsInv(s2, IssueClaim(p), ttl);
    StepKeepsInv(issued, Tick(delay), ttl);
    var claim := StepUpRows.Claim(service, c.userId, c.purpose, c.target, sys.ledger.nextId);
    ConsumesUndisturbed(Next(issued, Tick(delay), ttl), p, id, claim, ttl);
  }

  /** Every open challenge for the same request is over. */
  predicate NoneLive(challenges: map<Id, Challenge>, userId: Id, purpose: Purpose, target: string, now: Time) {
    forall i :: i in challenges && challenges[i].userId == userId && challenges[i].purpose == purpose
                && challenges[i].target == target && challenges[i].status in {CPending, CVerified} ==>
      challenges[i].expiresAt <= now
  }

  /**
   * A challenge is created exactly when the purpose is served and no open, unexpired one is there
   * for the same request.
   */
  lemma CreatesExactly(l: Ledger, calls: map<Id, Call>, userId: Id, attempt: Id, purpose: Purpose, target: string,
                       now: Time,
                       life: Time, ttl: Time)
    requires LedgerInv(l) && now <= l.clock
    ensures var done := Next(System(l, calls), Create(userId, attempt, purpose, target, now, life), ttl).ledger;
            if purpose != ACCOUNT_ENROLLMENT && NoneLive(l.challenges, userId, purpose, target, now)
            then
              && done.challenges.Keys == l.challenges.Keys + {l.nextId} && done.nextId == l.nextId + 1
              && (forall i :: i in l.challenges ==> done.challenges[i] == l.challenges[i])
              && done.challenges[l.nextId]
                 == Challenge(userId, attempt, purpose, target, CPending, now + life, None, None, None, None, None,
                              None)
            else done == l
  {
    assert forall s: Service :: Serves(s, purpose) <==> Consumer(purpose) == Some(s);
  }
}
