/**
 * Issuing and consuming as one caller sees them: its own database operations in order, with
 * everything that other callers may do in between. `IssueAssertion` calls itself after losing a
 * race, as the service does, and is shown to do so at most once.
 */
module ChallengeStore {
  import opened Common
  import opened AttemptRows
  import opened StepUpRows
  import opened StepUpProtocol
  import O = StepUpOutcomes

  datatype IssueOutcome =
    | Assertion(assertion: Id, expiresAt: Time)
    | NotFound
    | Incomplete

  /** Nothing an issuer can still lose a race for: the challenge has left PENDING, is over by `now`, or was purged. */
  predicate Settled(l: Ledger, id: Id, now: Time) {
    id < l.nextId && (id in l.challenges ==> l.challenges[id].status != CPending || l.challenges[id].expiresAt <= now)
  }

  lemma SettledPersists(l: Ledger, l': Ledger, id: Id, now: Time)
    requires LedgerInv(l) && LedgerInv(l') && Forward(l, l') && Settled(l, id, now)
    ensures Settled(l', id, now)
  {
    if id in l'.challenges { assert Sound(l', l'.challenges[id]); }
  }

  lemma ExpiryQualifies(l: Ledger, now: Time, ttl: Time)
    requires LedgerInv(l) && O.Timed(l.challenges, ttl)
    ensures var e := Expired(l, now);
            LedgerInv(e) && Forward(l, e) && O.Timed(e.challenges, ttl)
                && LazilyExpired(l.challenges, e.challenges, now)
  {
    ExpiryKeeps(l, now);
    ExpiryMovesForward(l, now);
    forall i | i in l.challenges ensures O.TimedRow(Expired(l, now).challenges[i], ttl) {
      O.ExpiryByFields(l.challenges, now, i);
    }
  }

  /** Issuing at `now`, or only using up a key, qualifies as a step. */
  lemma Qualifies(l: Ledger, id: Id, userId: Id, now: Time, ttl: Time)
    requires LedgerInv(l) && O.Timed(l.challenges, ttl)
    requires id in l.challenges ==> l.challenges[id].attemptId in l.passed
    ensures var unused := l.(nextId := l.nextId + 1); LedgerInv(unused) && Forward(l, unused)
    ensures CanIssue(l.challenges, id, userId, now) ==>
              var issued := IssuedIn(l, id, now, ttl);
              LedgerInv(issued) && Forward(l, issued) && O.Timed(issued.challenges, ttl)
  {
    KeyIsUsedUp(l);
    if CanIssue(l.challenges, id, userId, now) {
      IssueKeeps(l, id, userId, now, ttl);
      assert Sound(l, l.challenges[id]);
    }
  }

  lemma KeyIsUsedUp(l: Ledger)
    requires LedgerInv(l)
    ensures LedgerInv(l.(nextId := l.nextId + 1)) && Forward(l, l.(nextId := l.nextId + 1))
  {
    forall i | i in l.challenges ensures Sound(l.(nextId := l.nextId + 1), l.challenges[i]) {
      assert Sound(l, l.challenges[i]);
    }
  }

  /** Open challenges whose time is over are closed and lose their sealed material; no other changes. */
  ghost predicate LazilyExpired(before: map<Id, Challenge>, after: map<Id, Challenge>, now: Time) {
    && after.Keys == before.Keys
    && forall i :: i in before ==>
         after[i] == if before[i].status in {CPending, CVerified} && O.Over(before[i], now)
                     then before[i].(status := CExpired, sealed := None) else before[i]
  }

  /** The answer to an issuer that nobody interferes with, by the row as it is at the call. */
  function Expected(l: Ledger, ttl: Time, userId: Id, id: Id): IssueOutcome {
    if id !in l.challenges || l.challenges[id].userId != userId || l.challenges[id].status !in {CPending, CVerified}
       || O.Over(l.challenges[id], l.clock) then NotFound
    else
      var c := l.challenges[id];
      if c.status == CVerified && c.assertion.Some? && c.assertionExpiresAt.Some? then
        Assertion(c.assertion.value, c.assertionExpiresAt.value)
      else if c.attemptId !in l.passed then Incomplete
      else Assertion(l.nextId, if c.expiresAt < l.clock + ttl then c.expiresAt else l.clock + ttl)
  }

  /** What the issuer finds after its lazy expiry leads to that answer. */
  lemma ExpectedAfterExpiry(l: Ledger, e: Ledger, ttl: Time, userId: Id, id: Id)
    requires LedgerInv(l) && e == Expired(l, l.clock)
    ensures id !in e.challenges || e.challenges[id].userId != userId || !Open(e.challenges[id].status)
            ==> Expected(l, ttl, userId, id) == NotFound
    ensures id in e.challenges && e.challenges[id].userId == userId && Open(e.challenges[id].status) ==>
              var c := e.challenges[id];
              if Reissuable(c, l.clock)
                  then Expected(l, ttl, userId, id) == Assertion(c.sealed.value, c.assertionExpiresAt.value)
              else if c.attemptId !in l.passed then Expected(l, ttl, userId, id) == Incomplete
              else Expected(l, ttl, userId, id) == Assertion(l.nextId, Min(c.expiresAt, l.clock + ttl))
                   && c.status == CPending && l.clock < c.expiresAt
  {
    if id in l.challenges {
      assert Sound(l, l.challenges[id]);
      O.ExpiryByFields(l.challenges, l.clock, id);
    }
  }

  /** What the issuer finds open at its second look can be answered at once, without a claim. */
  ghost predicate Answerable(l: Ledger, id: Id, now: Time) {
    id < l.nextId && (id in l.challenges && Open(l.challenges[id].status) ==> Reissuable(l.challenges[id], now))
  }

  lemma SettledBecomesAnswerable(l: Ledger, id: Id, now: Time)
    requires LedgerInv(l) && Settled(l, id, now)
    ensures Answerable(Expired(l, now), id, now)
  {
    if id in l.challenges { assert Sound(l, l.challenges[id]); }
  }

  lemma AnswerablePersists(l: Ledger, l': Ledger, id: Id, now: Time)
    requires LedgerInv(l) && LedgerInv(l') && Forward(l, l') && Answerable(l, id, now)
    ensures Answerable(l', id, now)
  {
    if id in l'.challenges { assert Sound(l', l'.challenges[id]); }
  }

  class ChallengeLedger {
    var challenges: map<Id, Challenge>
    var passed: set<Id>
    var clock: Time
    var nextId: Id
    /** The lifetime of an assertion. */
    const ttl: Time

    ghost predicate Valid()
      reads this
    {
      LedgerInv(State()) && O.Timed(challenges, ttl)
    }

    ghost function State(): Ledger
      reads this
    {
      Ledger(challenges, passed, clock, nextId)
    }

    /**
     * Any number of steps by other callers, jobs and the clock; `StepMovesForward` and
     * `StepKeepsTimed` show each one qualifies. `quiet` says that there are none.
     */
    method Interference(ghost quiet: bool)
      requires Valid()
      modifies this
      ensures Valid() && Forward(old(State()), State())
      ensures quiet ==> State() == old(State())
    {
    }

    method ExpireDueNow(now: Time)
      requires Valid() && now <= clock
      modifies this`challenges
      ensures State() == Expired(old(State()), now)
      ensures Valid() && Forward(old(State()), State())
      ensures LazilyExpired(old(challenges), challenges, now)
    {
      challenges := map i | i in challenges ::
        if Due(challenges[i], now) then challenges[i].(status := CExpired, sealed := None) else challenges[i];
      assert State() == Expired(old(State()), now);
      ExpiryQualifies(old(State()), now, ttl);
    }

    /** The lazy expiry that opens every call: time passes before and after the update itself. */
    method BeginAt(now: Time, ghost id: Id, ghost quiet: bool)
      requires Valid() && now == clock
      modifies this
      ensures Valid() && Forward(old(State()), State())
      ensures Settled(old(State()), id, now) ==> Answerable(State(), id, now)
      ensures quiet ==> State() == Expired(old(State()), now)
    {
      ghost var entry := State();
      Interference(quiet);
      ghost var due := State();
      ExpireDueNow(now);
      ForwardIsTransitive(entry, due, State());
      ghost var expired := State();
      Interference(quiet);
      ForwardIsTransitive(entry, expired, State());
      if Settled(entry, id, now) {
        SettledPersists(entry, due, id, now);
        SettledBecomesAnswerable(due, id, now);
        AnswerablePersists(expired, State(), id, now);
      }
    }

    /** The claim of the issuing transaction: a guarded update and its count. */
    method ClaimChallenge(id: Id, userId: Id, now: Time, assertionExpiresAt: Time)
      returns (claimed: bool, assertion: Id)
      requires Valid()
      requires id in challenges ==>
                 challenges[id].attemptId in passed
                 && assertionExpiresAt == if challenges[id].expiresAt < now + ttl then challenges[id].expiresAt
                      else now + ttl
      modifies this`challenges, this`nextId
      ensures claimed <==>
                && id in old(challenges) && old(challenges)[id].userId == userId
                     && old(challenges)[id].status == CPending
                && now < old(challenges)[id].expiresAt
      ensures assertion == old(nextId)
      ensures challenges == if claimed
              then old(challenges)[id := Issued(old(challenges)[id], assertion, assertionExpiresAt, now)]
              else old(challenges)
      ensures nextId == old(nextId) + 1
      ensures Valid() && Forward(old(State()), State())
    {
      Qualifies(State(), id, userId, now, ttl);
      claimed := id in challenges && challenges[id].userId == userId && challenges[id].status == CPending
          && now < challenges[id].expiresAt;
      assertion := nextId;
      nextId := nextId + 1;
      if claimed {
        challenges := challenges[id := challenges[id].(
          status := CVerified, assertion := Some(assertion), sealed := Some(assertion),
          verifiedAt := Some(now), assertionExpiresAt := Some(assertionExpiresAt))];
        assert State() == IssuedIn(old(State()), id, now, ttl);
      } else {
        assert State() == old(State()).(nextId := old(nextId) + 1);
      }
    }

    /** The row as read, and the answer it gives at once, if it does: none, the stored assertion, or not yet. */
    method FindAnswer(userId: Id, id: Id, now: Time) returns (answer: Option<IssueOutcome>)
      requires Valid()
      ensures answer == Some(NotFound) <==>
                id !in challenges || challenges[id].userId != userId
                    || challenges[id].status in {CConsumed, CRevoked, CExpired}
      ensures answer != Some(NotFound) ==>
                if Reissuable(challenges[id], now)
                then challenges[id].sealed == challenges[id].assertion && challenges[id].attemptId in passed
                     && answer == Some(Assertion(challenges[id].sealed.value, challenges[id].assertionExpiresAt.value))
                else answer == if challenges[id].attemptId !in passed then Some(Incomplete) else None
    {
      if id !in challenges || challenges[id].userId != userId || !Open(challenges[id].status) { return Some(NotFound); }
      var seen := challenges[id];
      assert Sound(State(), seen);
      if Reissuable(seen, now) { return Some(Assertion(seen.sealed.value, seen.assertionExpiresAt.value)); }
      if seen.attemptId !in passed { return Some(Incomplete); }
      return None;
    }

    /**
     * One call of the issuer. `selfCalls` counts how often it called itself: never when the
     * challenge was settled on entry, and at most once in any environment. `found` is the state of
     * the deciding read. Every assertion it returns is stored on its row, and `Valid` fixes its
     * lifetime there; with nobody interfering the outcome is the expected one.
     */
    method IssueAssertion(userId: Id, id: Id, ghost quiet: bool)
      returns (outcome: IssueOutcome, ghost selfCalls: nat, ghost found: Ledger)
      requires Valid()
      modifies this
      ensures Valid() && Forward(old(State()), State())
      ensures Forward(old(State()), found)
      ensures selfCalls <= 1
      ensures Settled(old(State()), id, old(clock)) ==> selfCalls == 0
      ensures outcome.Assertion? && id in challenges ==>
                && challenges[id].userId == userId
                && challenges[id].assertion == Some(outcome.assertion)
                && challenges[id].assertionExpiresAt == Some(outcome.expiresAt)
                && challenges[id].attemptId in passed
                && outcome.expiresAt <= challenges[id].expiresAt
      ensures outcome.NotFound? <==>
                id !in found.challenges || found.challenges[id].userId != userId
                || found.challenges[id].status in {CConsumed, CRevoked, CExpired}
      ensures outcome.Incomplete? ==> found.challenges[id].attemptId !in found.passed
      ensures quiet ==> outcome == Expected(old(State()), ttl, userId, id)
      ensures quiet && outcome.Assertion? ==> id in challenges && challenges[id].status == CVerified
      decreases !Settled(State(), id, clock)
    {
      ghost var entry := State();
      var now := clock;
      BeginAt(now, id, quiet);
      found := State();
      if quiet { ExpectedAfterExpiry(entry, found, ttl, userId, id); }
      var answer := FindAnswer(userId, id, now);
      if answer.Some? { return answer.value, 0, found; }
      var seen := challenges[id];
      Interference(quiet);
      ForwardIsTransitive(entry, found, State());
      var assertionExpiresAt := Min(seen.expiresAt, now + ttl);
      ghost var before := State();
      var claimed, assertion := ClaimChallenge(id, userId, now, assertionExpiresAt);
      ForwardIsTransitive(entry, before, State());
      if claimed {
        return Assertion(assertion, assertionExpiresAt), 0, found;
      }
      ghost var lost := State();
      Interference(quiet);
      ForwardIsTransitive(entry, lost, State());
      SettledPersists(lost, State(), id, now);
      ghost var again := State();
      outcome, selfCalls, found := IssueAssertion(userId, id, quiet);
      selfCalls := selfCalls + 1;
      ForwardIsTransitive(entry, again, State());
      ForwardIsTransitive(entry, again, found);
    }

    /** The guarded update that spends an assertion. */
    method SpendChallenge(id: Id, service: Service, now: Time) returns (spent: bool)
      requires Valid()
      requires id in challenges && challenges[id].status == CVerified ==>
               Consumer(challenges[id].purpose) == Some(service)
      modifies this`challenges
      ensures spent <==>
                && id in old(challenges) && old(challenges)[id].status == CVerified
                && old(challenges)[id].assertionExpiresAt.Some? && now < old(challenges)[id].assertionExpiresAt.value
      ensures challenges == if spent then old(challenges)[id := ConsumedRow(old(challenges)[id], service, now)]
              else old(challenges)
      ensures Valid() && Forward(old(State()), State())
    {
      spent := id in challenges && challenges[id].status == CVerified
               && challenges[id].assertionExpiresAt.Some? && now < challenges[id].assertionExpiresAt.value;
      if spent {
        ConsumptionKeeps(State(), id, service, now);
        challenges := challenges[id := challenges[id].(
          status := CConsumed, consumedAt := Some(now), consumedBy := Some(service), sealed := None)];
      }
    }

    /** The row that the unique index on assertion digests returns. */
    method FindByAssertion(assertion: Id) returns (found: Option<Id>)
      ensures found.Some? ==> found.value in challenges && challenges[found.value].assertion == Some(assertion)
      ensures found.None? ==> forall i :: i in challenges ==> challenges[i].assertion != Some(assertion)
    {
      if !exists i :: i in challenges && challenges[i].assertion == Some(assertion) { return None; }
      var id :| id in challenges && challenges[id].assertion == Some(assertion);
      return Some(id);
    }

    /** The row is there, alive, and is what the claim says. */
    ghost predicate Consumable(claim: StepUpRows.Claim)
      reads this
    {
      O.Serves(claim.service, claim.purpose)
      && exists i :: i in challenges && Fits(challenges[i], claim) && !O.Over(challenges[i], clock)
    }

    /** Consumption: service check, expiry, lookup by assertion, match, guarded update. */
    method ConsumeAssertion(claim: StepUpRows.Claim, ghost quiet: bool) returns (consumed: Option<Challenge>)
      requires Valid()
      modifies this
      ensures Valid() && Forward(old(State()), State())
      ensures consumed.Some? ==> Finished(State(), claim.assertion)
      ensures consumed.Some? ==> Accepted(consumed.value, claim, old(clock), passed)
      ensures quiet ==> (consumed.Some? <==> old(Consumable(claim)))
    {
      if Consumer(claim.purpose) != Some(claim.service) { return None; }
      ghost var entry := State();
      var now := clock;
      BeginAt(now, 0, quiet);
      var found := FindMatch(claim, now);
      if found.None? {
        if quiet { NotConsumable(entry, State(), claim, now); }
        return None;
      }
      ghost var read := State();
      consumed := SpendFound(found.value, claim, now, quiet);
      ForwardIsTransitive(entry, read, State());
    }

    /** What runs between the lookup and the guarded update, and that update. */
    method SpendFound(id: Id, claim: StepUpRows.Claim, now: Time, ghost quiet: bool)
      returns (consumed: Option<Challenge>)
      requires Valid() && O.Serves(claim.service, claim.purpose) && id in challenges && Fits(challenges[id], claim)
      requires challenges[id].assertionExpiresAt.Some? && now < challenges[id].assertionExpiresAt.value
      modifies this
      ensures Valid() && Forward(old(State()), State())
      ensures quiet ==> consumed.Some?
      ensures consumed.Some? ==> Finished(State(), claim.assertion) && Accepted(consumed.value, claim, now, passed)
    {
      ghost var read := State();
      Interference(quiet);
      ghost var before := State();
      assert id in challenges ==> Later(read.challenges[id], challenges[id]);
      var spent := SpendChallenge(id, claim.service, now);
      ForwardIsTransitive(read, before, State());
      if !spent { return None; }
      assert Sound(before, before.challenges[id]);
      return Some(challenges[id]);
    }

    /** The lookup by assertion and the match of what it returns. */
    method FindMatch(claim: StepUpRows.Claim, now: Time) returns (found: Option<Id>)
      requires Valid()
      ensures found.Some? ==>
                found.value in challenges && Fits(challenges[found.value], claim)
                && challenges[found.value].assertionExpiresAt.Some?
                     && now < challenges[found.value].assertionExpiresAt.value
      ensures found.None? ==> forall i :: i in challenges && Fits(challenges[i], claim) ==>
                challenges[i].assertionExpiresAt.Some? && challenges[i].assertionExpiresAt.value <= now
    {
      found := FindByAssertion(claim.assertion);
      if found.None? { return None; }
      assert Sound(State(), challenges[found.value]);
      if !Matches(challenges[found.value], claim, now) { return None; }
    }
  }

  /**
   * The consumed row: what the claim says, of a passed attempt, spent at `now` by the service that
   * serves its purpose.
   */
  predicate Accepted(c: Challenge, claim: StepUpRows.Claim, now: Time, passed: set<Id>) {
    && O.Serves(claim.service, claim.purpose)
    && c.assertion == Some(claim.assertion)
    && c.userId == claim.userId && c.purpose == claim.purpose && c.target == claim.target
    && c.attemptId in passed
    && c.status == CConsumed && c.consumedBy == Some(claim.service) && c.consumedAt == Some(now) && c.sealed == None
    && c.assertionExpiresAt.Some? && now < c.assertionExpiresAt.value
  }

  /** The row is VERIFIED and is what the claim says. */
  predicate Fits(c: Challenge, claim: StepUpRows.Claim) {
    && c.assertion == Some(claim.assertion) && c.status == CVerified
    && c.userId == claim.userId && c.purpose == claim.purpose && c.target == claim.target
  }

  /** What does not match after the lazy expiry did not match, alive, before it. */
  lemma NotConsumable(l: Ledger, expired: Ledger, claim: StepUpRows.Claim, now: Time)
    requires LedgerInv(l) && expired == Expired(l, now)
    requires forall i :: i in expired.challenges && Fits(expired.challenges[i], claim) ==>
               expired.challenges[i].assertionExpiresAt.Some? && expired.challenges[i].assertionExpiresAt.value <= now
    ensures forall i :: i in l.challenges && Fits(l.challenges[i], claim) ==> O.Over(l.challenges[i], now)
  {
    forall i | i in l.challenges && Fits(l.challenges[i], claim) ensures O.Over(l.challenges[i], now) {
      O.ExpiryByFields(l.challenges, now, i);
    }
  }
}
