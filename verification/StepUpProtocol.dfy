/**
 * Step-up challenges under concurrent issuers, consumers and expirers. Each call first reads the
 * clock and expires what is due, later reads a row, and later still writes under a guard.
 */
module StepUpProtocol {
  import opened Common
  import opened AttemptRows
  import opened StepUpRows

  /** `passed` holds the attempts whose status is PASSED, a status that is never left. */
  datatype Ledger = Ledger(challenges: map<Id, Challenge>, passed: set<Id>, clock: Time, nextId: Id)

  // ---- Invariant of the rows ----------------------------------------------------------------

  ghost predicate Sound(l: Ledger, c: Challenge) {
    && Consumer(c.purpose).Some?
    && (c.sealed.Some? <==> c.status == CVerified)
    && (c.sealed.Some? ==> c.sealed == c.assertion)
    && (c.status == CPending ==> c.assertion == None)
    && (c.status in {CVerified, CConsumed} ==> c.assertion.Some?)
    && (c.assertion.Some? <==> c.assertionExpiresAt.Some?)
    && (c.assertion.Some? ==>
         c.assertion.value < l.nextId && c.attemptId in l.passed && c.assertionExpiresAt.value <= c.expiresAt)
    && (c.status == CConsumed ==> c.consumedBy == Consumer(c.purpose))
  }

  /** The unique index on assertion digests. */
  ghost predicate UniqueAssertions(l: Ledger) {
    forall i, j | i in l.challenges && j in l.challenges :: 
      l.challenges[i].assertion.Some? && l.challenges[i].assertion == l.challenges[j].assertion ==> i == j
  }

  predicate SameRequest(a: Challenge, b: Challenge) {
    a.userId == b.userId && a.purpose == b.purpose && a.target == b.target
  }

  predicate Live(c: Challenge, now: Time) { Open(c.status) && now < c.expiresAt }

  /** One live challenge at most for each user, purpose and target. */
  ghost predicate OneLivePerRequest(l: Ledger) {
    forall i, j | i in l.challenges && j in l.challenges ::
      (Live(l.challenges[i], l.clock) && Live(l.challenges[j], l.clock)
       && SameRequest(l.challenges[i], l.challenges[j])) ==> i == j
  }

  ghost predicate LedgerInv(l: Ledger) {
    && (forall i :: i in l.challenges ==> i < l.nextId && Sound(l, l.challenges[i]))
    && UniqueAssertions(l)
    && OneLivePerRequest(l)
  }

  // ---- Forward motion -----------------------------------------------------------------------

  predicate SameOrigin(a: Challenge, b: Challenge) {
    SameRequest(a, b) && a.attemptId == b.attemptId && a.expiresAt == b.expiresAt
  }

  /** A challenge row only moves forward: PENDING to anything, VERIFIED to an end, an end nowhere. */
  predicate Later(a: Challenge, b: Challenge) {
    && SameOrigin(a, b)
    && (a.status == CVerified ==>
          b.status in {CVerified, CConsumed, CExpired} && b.assertion == a.assertion
              && b.assertionExpiresAt == a.assertionExpiresAt)
    && (!Open(a.status) ==> b == a)
  }

  ghost predicate Forward(l: Ledger, l': Ledger) {
    && l.clock <= l'.clock
    && l.nextId <= l'.nextId
    && l.passed <= l'.passed
    && (forall i :: i in l.challenges && i in l'.challenges ==> Later(l.challenges[i], l'.challenges[i]))
    && (forall i :: i < l.nextId && i !in l.challenges ==> i !in l'.challenges)
  }

  lemma ForwardIsTransitive(a: Ledger, b: Ledger, c: Ledger)
    requires LedgerInv(a) && Forward(a, b) && Forward(b, c)
    ensures Forward(a, c)
  {
  }

  // ---- The concurrent system ----------------------------------------------------------------

  datatype Call =
    | Issuing(id: Id, userId: Id, now: Time)
    | Claiming(id: Id, userId: Id, now: Time, seen: Challenge)
    | Presenting(claim: StepUpRows.Claim, now: Time)
    | Consuming(claim: StepUpRows.Claim, now: Time, id: Id)

  datatype System = System(ledger: Ledger, calls: map<Id, Call>)

  datatype Event =
    | Tick(delta: nat)
    | Pass(attempt: Id)
    | Create(userId: Id, attempt: Id, purpose: Purpose, target: string, now: Time, ttl: Time)
    | Expire(now: Time)
    | Purge(ids: set<Id>)
    | IssueBegin(call: Id, id: Id, userId: Id)
    | IssueRead(call: Id)
    | IssueClaim(call: Id)
    | ConsumeBegin(call: Id, claim: StepUpRows.Claim)
    | ConsumeRead(call: Id, id: Id)
    | ConsumeWrite(call: Id)
    | Crash(call: Id)

  function Expired(l: Ledger, now: Time): Ledger { l.(challenges := ExpireDue(l.challenges, now)) }

  predicate CanCreate(l: Ledger, userId: Id, purpose: Purpose, target: string, now: Time) {
    && Consumer(purpose).Some?
    && now <= l.clock
    && forall i :: i in l.challenges && Live(l.challenges[i], now)
                   ==> !(l.challenges[i].userId == userId && l.challenges[i].purpose == purpose
                         && l.challenges[i].target == target)
  }

  /** The issuing transaction: a fresh assertion that expires no later than its challenge. */
  function IssuedIn(l: Ledger, id: Id, now: Time, ttl: Time): Ledger
    requires id in l.challenges
  {
    var c := l.challenges[id];
    l.(challenges := l.challenges[id := Issued(c, l.nextId, Min(c.expiresAt, now + ttl), now)], nextId := l.nextId + 1)
  }

  predicate Accepts(sys: System, event: Event) {
    && event.ConsumeWrite? && event.call in sys.calls && sys.calls[event.call].Consuming?
    && CanConsume(sys.ledger.challenges, sys.calls[event.call].id, sys.calls[event.call].now)
  }

  /** One step; an event that is not enabled changes nothing. */
  function Next(sys: System, event: Event, ttl: Time): System {
    var l := sys.ledger;
    match event
    case Tick(delta) => sys.(ledger := l.(clock := l.clock + delta))
    case Pass(attempt) => sys.(ledger := l.(passed := l.passed + {attempt}))
    case Create(userId, attempt, purpose, target, now, life) =>
      if CanCreate(l, userId, purpose, target, now) then
        sys.(ledger :=
            l.(challenges := l.challenges[l.nextId := NewChallenge(userId, attempt, purpose, target, now + life)],
                          nextId := l.nextId + 1))
      else sys
    case Expire(now) => if now <= l.clock then sys.(ledger := Expired(l, now)) else sys
    case Purge(ids) =>
      if forall i :: i in ids && i in l.challenges ==> !Open(l.challenges[i].status) then
        sys.(ledger := l.(challenges := l.challenges - ids))
      else sys
    case IssueBegin(p, id, userId) =>
      if p in sys.calls then sys
      else sys.(ledger := Expired(l, l.clock), calls := sys.calls[p := Issuing(id, userId, l.clock)])
    case IssueRead(p) =>
      if p in sys.calls && sys.calls[p].Issuing? then
        var c := sys.calls[p];
        if c.id in l.challenges && l.challenges[c.id].userId == c.userId && Open(l.challenges[c.id].status)
           && !Reissuable(l.challenges[c.id], c.now) && l.challenges[c.id].attemptId in l.passed then
          sys.(calls := sys.calls[p := Claiming(c.id, c.userId, c.now, l.challenges[c.id])])
        else sys.(calls := sys.calls - {p})
      else sys
    case IssueClaim(p) =>
      if p in sys.calls && sys.calls[p].Claiming? then
        var c := sys.calls[p];
        sys.(calls := sys.calls - {p},
             ledger := if CanIssue(l.challenges, c.id, c.userId, c.now) then IssuedIn(l, c.id, c.now, ttl) else l)
      else sys
    case ConsumeBegin(p, claim) =>
      if p in sys.calls || Consumer(claim.purpose) != Some(claim.service) then sys
      else sys.(ledger := Expired(l, l.clock), calls := sys.calls[p := Presenting(claim, l.clock)])
    case ConsumeRead(p, id) =>
      if p in sys.calls && sys.calls[p].Presenting? && id in l.challenges
         && l.challenges[id].assertion == Some(sys.calls[p].claim.assertion)
         && Matches(l.challenges[id], sys.calls[p].claim, sys.calls[p].now) then
        sys.(calls := sys.calls[p := Consuming(sys.calls[p].claim, sys.calls[p].now, id)])
      else sys
    case ConsumeWrite(p) =>
      if p in sys.calls && sys.calls[p].Consuming? then
        var c := sys.calls[p];
        sys.(calls := sys.calls - {p},
             ledger := if CanConsume(l.challenges, c.id, c.now) then
                         l.(challenges := l.challenges[c.id := ConsumedRow(l.challenges[c.id], c.claim.service, c.now)])
                       else l)
      else sys
    case Crash(p) => sys.(calls := sys.calls - {p})
  }

  function Steps(sys: System, events: seq<Event>, ttl: Time): System
    decreases |events|
  {
    if events == [] then sys else Steps(Next(sys, events[0], ttl), events[1..], ttl)
  }

  /** A stale read still names the right row, a passed attempt, or the assertion presented. */
  ghost predicate CallInv(l: Ledger, c: Call) {
    match c
    case Issuing(_, _, now) => now <= l.clock
    case Claiming(id, userId, now, seen) =>
      && now <= l.clock
      && id < l.nextId
      && seen.attemptId in l.passed
      && (id in l.challenges ==> SameOrigin(seen, l.challenges[id]))
    case Presenting(claim, now) => now <= l.clock && Consumer(claim.purpose) == Some(claim.service)
    case Consuming(claim, now, id) =>
      && now <= l.clock
      && id < l.nextId
      && Consumer(claim.purpose) == Some(claim.service)
      && (id in l.challenges ==>
            && l.challenges[id].assertion == Some(claim.assertion)
            && l.challenges[id].userId == claim.userId
            && l.challenges[id].purpose == claim.purpose
            && l.challenges[id].target == claim.target
            && l.challenges[id].status != CPending)
  }

  ghost predicate SystemInv(sys: System) {
    && LedgerInv(sys.ledger)
    && forall p :: p in sys.calls ==> CallInv(sys.ledger, sys.calls[p])
  }

  // ---- One step -----------------------------------------------------------------------------

  lemma StepMovesForward(sys: System, event: Event, ttl: Time)
    requires SystemInv(sys)
    ensures Forward(sys.ledger, Next(sys, event, ttl).ledger)
  {
    var l := sys.ledger;
    match event {
      case Expire(now) => ExpiryMovesForward(l, now);
      case IssueBegin(_, _, _) => ExpiryMovesForward(l, l.clock);
      case ConsumeBegin(_, _) => ExpiryMovesForward(l, l.clock);
      case _ =>
    }
  }

  lemma ExpiryMovesForward(l: Ledger, now: Time)
    requires LedgerInv(l)
    ensures Forward(l, Expired(l, now))
  {
  }

  lemma CallSurvives(l: Ledger, l': Ledger, c: Call)
    requires LedgerInv(l) && CallInv(l, c) && Forward(l, l')
    ensures CallInv(l', c)
  {
  }

  lemma ExpiryKeeps(l: Ledger, now: Time)
    requires LedgerInv(l)
    ensures LedgerInv(Expired(l, now))
  {
    var l' := Expired(l, now);
    forall i | i in l'.challenges
      ensures Sound(l', l'.challenges[i]) && SameOrigin(l.challenges[i], l'.challenges[i])
      ensures l'.challenges[i].assertion in {None, l.challenges[i].assertion}
      ensures Live(l'.challenges[i], l.clock) ==> Live(l.challenges[i], l.clock)
    {
      assert Sound(l, l.challenges[i]);
    }
    assert UniqueAssertions(l');
    assert OneLivePerRequest(l');
  }

  lemma IssueKeeps(l: Ledger, id: Id, userId: Id, now: Time, ttl: Time)
    requires LedgerInv(l) && CanIssue(l.challenges, id, userId, now) && l.challenges[id].attemptId in l.passed
    ensures LedgerInv(IssuedIn(l, id, now, ttl))
  {
  }

  lemma ConsumptionKeeps(l: Ledger, id: Id, service: Service, now: Time)
    requires LedgerInv(l) && CanConsume(l.challenges, id, now) && Consumer(l.challenges[id].purpose) == Some(service)
    ensures LedgerInv(l.(challenges := l.challenges[id := ConsumedRow(l.challenges[id], service, now)]))
  {
  }

  lemma CreationKeeps(l: Ledger, userId: Id, attempt: Id, purpose: Purpose, target: string, now: Time, life: Time)
    requires LedgerInv(l) && CanCreate(l, userId, purpose, target, now)
    ensures LedgerInv(l.(challenges :=
            l.challenges[l.nextId := NewChallenge(userId, attempt, purpose, target, now + life)],
                         nextId := l.nextId + 1))
  {
  }

  lemma StepKeepsLedger(sys: System, event: Event, ttl: Time)
    requires SystemInv(sys)
    ensures LedgerInv(Next(sys, event, ttl).ledger)
  {
    var l := sys.ledger;
    match event {
      case Create(u, a, p, t, now, life) => if CanCreate(l, u, p, t, now) { CreationKeeps(l, u, a, p, t, now, life); }
      case Expire(now) => ExpiryKeeps(l, now);
      case IssueBegin(_, _, _) => ExpiryKeeps(l, l.clock);
      case ConsumeBegin(_, _) => ExpiryKeeps(l, l.clock);
      case IssueClaim(p) =>
        if p in sys.calls && sys.calls[p].Claiming? {
          var c := sys.calls[p];
          assert CallInv(l, c);
          if CanIssue(l.challenges, c.id, c.userId, c.now) { IssueKeeps(l, c.id, c.userId, c.now, ttl); }
        }
      case ConsumeWrite(p) =>
        if p in sys.calls && sys.calls[p].Consuming? {
          var c := sys.calls[p];
          assert CallInv(l, c);
          if CanConsume(l.challenges, c.id, c.now) { ConsumptionKeeps(l, c.id, c.claim.service, c.now); }
        }
      case _ =>
    }
  }

  lemma StepKeepsInv(sys: System, event: Event, ttl: Time)
    requires SystemInv(sys)
    ensures SystemInv(Next(sys, event, ttl))
  {
    var sys' := Next(sys, event, ttl);
    StepKeepsLedger(sys, event, ttl);
    StepMovesForward(sys, event, ttl);
    forall p | p in sys'.calls ensures CallInv(sys'.ledger, sys'.calls[p]) {
      if p in sys.calls && sys.calls[p] == sys'.calls[p] {
        CallSurvives(sys.ledger, sys'.ledger, sys.calls[p]);
      }
    }
  }

  lemma {:induction false} RunKeepsInv(sys: System, events: seq<Event>, ttl: Time)
    requires SystemInv(sys)
    ensures SystemInv(Steps(sys, events, ttl))
    decreases |events|
  {
    if events != [] {
      StepKeepsInv(sys, events[0], ttl);
      RunKeepsInv(Next(sys, events[0], ttl), events[1..], ttl);
    }
  }

  // ---- Whole runs ---------------------------------------------------------------------------

  /** How many consumptions of the assertion a run accepts. */
  function Acceptances(sys: System, events: seq<Event>, assertion: Id, ttl: Time): nat
    decreases |events|
  {
    if events == [] then 0
    else (if Accepts(sys, events[0]) && sys.calls[events[0].call].claim.assertion == assertion then 1 else 0)
         + Acceptances(Next(sys, events[0], ttl), events[1..], assertion, ttl)
  }

  /** An assertion that was issued and is no longer VERIFIED on any row. */
  ghost predicate Finished(l: Ledger, assertion: Id) {
    && assertion < l.nextId
    && forall i :: i in l.challenges && l.challenges[i].assertion == Some(assertion) ==> !Open(l.challenges[i].status)
  }

  lemma FinishedPersists(sys: System, event: Event, assertion: Id, ttl: Time)
    requires SystemInv(sys) && Finished(sys.ledger, assertion)
    ensures Finished(Next(sys, event, ttl).ledger, assertion)
  {
  }

  lemma {:induction false} NoneAcceptedOnceFinished(sys: System, events: seq<Event>, assertion: Id, ttl: Time)
    requires SystemInv(sys) && Finished(sys.ledger, assertion)
    ensures Acceptances(sys, events, assertion, ttl) == 0
    decreases |events|
  {
    if events != [] {
      StepKeepsInv(sys, events[0], ttl);
      FinishedPersists(sys, events[0], assertion, ttl);
      if Accepts(sys, events[0]) {
        assert CallInv(sys.ledger, sys.calls[events[0].call]);
      }
      NoneAcceptedOnceFinished(Next(sys, events[0], ttl), events[1..], assertion, ttl);
    }
  }

  /** However many consumers race with it, an assertion is accepted at most once in any run. */
  lemma {:induction false} AcceptedAtMostOnce(sys: System, events: seq<Event>, assertion: Id, ttl: Time)
    requires SystemInv(sys)
    ensures Acceptances(sys, events, assertion, ttl) <= 1
    decreases |events|
  {
    if events != [] {
      var sys' := Next(sys, events[0], ttl);
      StepKeepsInv(sys, events[0], ttl);
      if Accepts(sys, events[0]) && sys.calls[events[0].call].claim.assertion == assertion {
        assert CallInv(sys.ledger, sys.calls[events[0].call]);
        assert Finished(sys'.ledger, assertion);
        NoneAcceptedOnceFinished(sys', events[1..], assertion, ttl);
      } else {
        AcceptedAtMostOnce(sys', events[1..], assertion, ttl);
      }
    }
  }

  /** Acceptance, though decided on a stale read, implies everything the consumer relies on. */
  lemma AcceptanceIsWarranted(sys: System, event: Event, ttl: Time)
    requires SystemInv(sys) && Accepts(sys, event)
    ensures var c, before, after := sys.calls[event.call],
                                    sys.ledger.challenges[sys.calls[event.call].id],
                                    Next(sys, event, ttl).ledger.challenges[sys.calls[event.call].id];
            && Consumer(before.purpose) == Some(c.claim.service)
            && before.userId == c.claim.userId && before.purpose == c.claim.purpose && before.target == c.claim.target
            && before.assertion == Some(c.claim.assertion)
            && before.attemptId in sys.ledger.passed
            && c.now < before.assertionExpiresAt.value <= before.expiresAt
            && after.status == CConsumed && after.consumedBy == Some(c.claim.service) && after.sealed == None
  {
    assert CallInv(sys.ledger, sys.calls[event.call]);
    assert Sound(sys.ledger, sys.ledger.challenges[sys.calls[event.call].id]);
  }

  /** Sealed assertion material is kept exactly while a challenge is VERIFIED, and only for a passed attempt. */
  lemma SealedOnlyWhileVerified(clock: Time, events: seq<Event>, ttl: Time, id: Id)
    requires id in Steps(System(Ledger(map[], {}, clock, 0), map[]), events, ttl).ledger.challenges
    ensures var l := Steps(System(Ledger(map[], {}, clock, 0), map[]), events, ttl).ledger;
            && (l.challenges[id].sealed.Some? <==> l.challenges[id].status == CVerified)
            && (l.challenges[id].sealed.Some? ==> l.challenges[id].attemptId in l.passed)
  {
    var start := System(Ledger(map[], {}, clock, 0), map[]);
    RunKeepsInv(start, events, ttl);
    assert Sound(Steps(start, events, ttl).ledger, Steps(start, events, ttl).ledger.challenges[id]);
  }

  /** In every run a user has at most one live challenge for a purpose and target. */
  lemma OneLiveChallenge(clock: Time, events: seq<Event>, ttl: Time, i: Id, j: Id)
    requires var l := Steps(System(Ledger(map[], {}, clock, 0), map[]), events, ttl).ledger;
             && i in l.challenges && j in l.challenges
             && Live(l.challenges[i], l.clock) && Live(l.challenges[j], l.clock)
             && SameRequest(l.challenges[i], l.challenges[j])
    ensures i == j
  {
    RunKeepsInv(System(Ledger(map[], {}, clock, 0), map[]), events, ttl);
  }
}
