/**
 * The session, verification and step-up protocols running together. What each needs from the
 * others it reads from their rows, possibly long before it writes its own.
 */
module World {
  import opened Common
  import S = SessionRows
  import SI = SessionInvariant
  import RP = RefreshProtocol
  import A = AttemptRows
  import AP = AttemptProtocol
  import R = StepUpRows
  import SU = StepUpProtocol
  import SO = StepUpOutcomes
  import O = SessionOutcomes

  /** A login or passkey login that has read the user's identity status but not yet created its session. */
  datatype Login = Login(userId: Id, verified: bool)

  datatype World = World(sessions: RP.System, attempts: AP.System, stepUp: SU.System, logins: map<Id, Login>)

  datatype Event =
    | Tick(delta: nat)
    | LoginRead(login: Id, userId: Id)
    | LoginCommit(login: Id, lowRisk: bool, expiresAt: Time)
    | Upgrade(request: S.UpgradeRequest, key: string, now: Time, ttl: S.UpgradeLifetimes)
    | OnSessions(sessionEvent: RP.Event)
    | OnAttempts(attemptEvent: AP.Event)
    | OnChallenges(challengeEvent: SU.Event)
    | CreateChallenge(userId: Id, purpose: A.Purpose, target: string, latest: Option<Id>, now: Time, life: Time)

  datatype Settings = Settings(policy: A.Policy, stepUpVersion: string, assertionTtl: Time, replayGrace: Time)

  function PassedAttempts(db: A.Db): set<Id> { set a | a in db.attempts && db.attempts[a].status == A.PASSED }

  /** After verification rows change, the step-up side reads the new statuses. */
  function WithAttempts(w: World, attempts: AP.System): World {
    w.(attempts := attempts,
       stepUp := w.stepUp.(ledger := w.stepUp.ledger.(passed := PassedAttempts(attempts.db))))
  }

  function EligibilityOf(db: A.Db, request: S.UpgradeRequest): S.Eligibility {
    S.Eligibility(
      request.userId in db.users && db.users[request.userId].accountActive,
      request.userId in db.users && db.users[request.userId].identity == A.IdentityVerified,
      request.attemptId in db.attempts
      && db.attempts[request.attemptId].userId == request.userId
      && db.attempts[request.attemptId].purpose == A.ACCOUNT_ENROLLMENT
      && db.attempts[request.attemptId].status == A.PASSED)
  }

  predicate MayStepUp(user: A.User) {
    user.accountActive && user.identity == A.IdentityVerified && user.biometricConsent
  }

  /** A challenge needs a verified, active, consenting user and no live challenge for the same request. */
  predicate CanChallenge(w: World, userId: Id, purpose: A.Purpose, target: string, latest: Option<Id>, now: Time) {
    && userId in w.attempts.db.users
    && MayStepUp(w.attempts.db.users[userId])
    && A.IsLatest(w.attempts.db, userId, purpose, latest)
    && SU.CanCreate(w.stepUp.ledger, userId, purpose, target, now)
  }

  /** Transactions that create sessions have events of their own, which supply what they read elsewhere. */
  predicate Opens(e: RP.Event) { e.Transact? && (e.op.Create? || e.op.Upgrade?) }

  function Next(w: World, event: Event, settings: Settings): World {
    match event
    case Tick(delta) =>
      w.(sessions := RP.Next(w.sessions, RP.Tick(delta), settings.replayGrace),
         attempts := AP.Next(w.attempts, AP.Tick(delta), settings.policy),
         stepUp := SU.Next(w.stepUp, SU.Tick(delta), settings.assertionTtl))
    case LoginRead(p, userId) =>
      if p !in w.logins && userId in w.attempts.db.users then
        w.(logins := w.logins[p := Login(userId, w.attempts.db.users[userId].identity == A.IdentityVerified)])
      else w
    case LoginCommit(p, lowRisk, expiresAt) =>
      if p in w.logins then
        var level := if w.logins[p].verified && lowRisk then S.FULL else S.LIMITED;
        var op := S.Create(w.logins[p].userId, level, expiresAt);
        w.(sessions := RP.Next(w.sessions, RP.Transact(op), settings.replayGrace), logins := w.logins - {p})
      else w
    case Upgrade(request, key, now, ttl) =>
      var op := S.Upgrade(request, key, now, EligibilityOf(w.attempts.db, request), ttl);
      w.(sessions := RP.Next(w.sessions, RP.Transact(op), settings.replayGrace))
    case OnSessions(e) => if Opens(e) || e.Tick? then w
        else w.(sessions := RP.Next(w.sessions, e, settings.replayGrace))
    case OnAttempts(e) =>
      if e.Tick? || e.StepUp? then w else WithAttempts(w, AP.Next(w.attempts, e, settings.policy))
    case OnChallenges(e) =>
      if e.Tick? || e.Pass? || e.Create? then w else w.(stepUp := SU.Next(w.stepUp, e, settings.assertionTtl))
    case CreateChallenge(userId, purpose, target, latest, now, life) =>
      if CanChallenge(w, userId, purpose, target, latest, now) then
        var attempt := w.attempts.db.nextId;
        var with :=
            WithAttempts(w,
                         AP.Next(w.attempts, AP.StepUp(userId, purpose, latest, settings.stepUpVersion),
                                 settings.policy));
        with.(stepUp :=
            SU.Next(with.stepUp, SU.Create(userId, attempt, purpose, target, now, life), settings.assertionTtl))
      else w
  }

  function Steps(w: World, events: seq<Event>, settings: Settings): World
    decreases |events|
  {
    if events == [] then w else Steps(Next(w, events[0], settings), events[1..], settings)
  }

  function Start(clock: Time): World {
    World(RP.Start(clock), AP.Start(clock), SU.System(SU.Ledger(map[], {}, clock, 0), map[]), map[])
  }

  // ---- Invariant ----------------------------------------------------------------------------

  ghost predicate FullMeansPassed(w: World) {
    forall s :: s in w.sessions.db.sessions && w.sessions.db.sessions[s].level == S.FULL ==>
      AP.HasPassed(w.attempts.db, w.sessions.db.sessions[s].userId, A.ACCOUNT_ENROLLMENT)
  }

  /** What a login remembers may be stale, but a user it saw VERIFIED has a passed attempt for good. */
  ghost predicate LoginsWarranted(w: World) {
    forall p :: p in w.logins && w.logins[p].verified ==>
        AP.HasPassed(w.attempts.db, w.logins[p].userId, A.ACCOUNT_ENROLLMENT)
  }

  /** Each challenge's attempt exists and is of the same user and purpose. */
  ghost predicate ChallengesLinked(w: World) {
    forall c :: c in w.stepUp.ledger.challenges ==>
      && w.stepUp.ledger.challenges[c].attemptId in w.attempts.db.attempts
      && w.attempts.db.attempts[w.stepUp.ledger.challenges[c].attemptId].userId == w.stepUp.ledger.challenges[c].userId
      && w.attempts.db.attempts[w.stepUp.ledger.challenges[c].attemptId].purpose
           == w.stepUp.ledger.challenges[c].purpose
  }

  ghost predicate WorldInv(w: World, settings: Settings) {
    && RP.SystemInv(w.sessions, settings.replayGrace)
    && AP.SystemInv(w.attempts, settings.policy)
    && SU.SystemInv(w.stepUp)
    && w.stepUp.ledger.passed == PassedAttempts(w.attempts.db)
    && FullMeansPassed(w)
    && LoginsWarranted(w)
    && ChallengesLinked(w)
  }

  // ---- Steps --------------------------------------------------------------------------------

  lemma AttemptsStayPassed(sys: AP.System, event: AP.Event, policy: A.Policy)
    requires AP.SystemInv(sys, policy)
    ensures PassedAttempts(sys.db) <= PassedAttempts(AP.Next(sys, event, policy).db)
    ensures forall a :: a in sys.db.attempts ==>
              a in AP.Next(sys, event, policy).db.attempts
                  && AP.SameAttempt(sys.db.attempts[a], AP.Next(sys, event, policy).db.attempts[a])
  {
    forall a | a in sys.db.attempts
      ensures a in AP.Next(sys, event, policy).db.attempts
              && AP.Moves(sys.db.attempts[a], AP.Next(sys, event, policy).db.attempts[a])
    {
      AP.RowsMove(sys, event, policy, a);
    }
  }

  lemma LearningMorePasses(sys: SU.System, passed: set<Id>)
    requires SU.SystemInv(sys) && sys.ledger.passed <= passed
    ensures SU.SystemInv(sys.(ledger := sys.ledger.(passed := passed)))
  {
    var l' := sys.ledger.(passed := passed);
    forall i | i in l'.challenges ensures SU.Sound(l', l'.challenges[i]) {
      assert SU.Sound(sys.ledger, l'.challenges[i]);
    }
    forall p | p in sys.calls ensures SU.CallInv(l', sys.calls[p]) {
      assert SU.CallInv(sys.ledger, sys.calls[p]);
    }
  }

  lemma AttemptStepKeeps(w: World, event: AP.Event, settings: Settings)
    requires WorldInv(w, settings)
    ensures WorldInv(WithAttempts(w, AP.Next(w.attempts, event, settings.policy)), settings)
  {
    var next := AP.Next(w.attempts, event, settings.policy);
    AP.StepKeepsInv(w.attempts, event, settings.policy);
    AttemptsStayPassed(w.attempts, event, settings.policy);
    LearningMorePasses(w.stepUp, PassedAttempts(next.db));
    forall u | AP.HasPassed(w.attempts.db, u, A.ACCOUNT_ENROLLMENT)
        ensures AP.HasPassed(next.db, u, A.ACCOUNT_ENROLLMENT) {
      AP.PassedPersists(w.attempts, event, settings.policy, u, A.ACCOUNT_ENROLLMENT);
    }
  }

  /** No step on challenges changes which attempt a challenge names; creation names the attempt it created. */
  lemma ChallengeStepKeeps(w: World, event: SU.Event, settings: Settings)
    requires WorldInv(w, settings)
    requires !event.Pass?
    requires event.Create? ==>
               && event.attempt in w.attempts.db.attempts
               && w.attempts.db.attempts[event.attempt].userId == event.userId
               && w.attempts.db.attempts[event.attempt].purpose == event.purpose
    ensures WorldInv(w.(stepUp := SU.Next(w.stepUp, event, settings.assertionTtl)), settings)
  {
    SU.StepKeepsInv(w.stepUp, event, settings.assertionTtl);
    SU.StepMovesForward(w.stepUp, event, settings.assertionTtl);
  }

  lemma TickKeeps(w: World, delta: nat, settings: Settings)
    requires WorldInv(w, settings)
    ensures WorldInv(Next(w, Tick(delta), settings), settings)
  {
    var w0 := w.(sessions := RP.Next(w.sessions, RP.Tick(delta), settings.replayGrace));
    RP.StepKeepsSystemInv(w.sessions, RP.Tick(delta), settings.replayGrace);
    var w1 := WithAttempts(w0, AP.Next(w.attempts, AP.Tick(delta), settings.policy));
    AttemptStepKeeps(w0, AP.Tick(delta), settings);
    ChallengeStepKeeps(w1, SU.Tick(delta), settings);
    assert Next(w, Tick(delta), settings) == w1.(stepUp := SU.Next(w1.stepUp, SU.Tick(delta), settings.assertionTtl));
  }

  /** Refresh calls, jobs and closing transactions create no session and change no session's owner or level. */
  lemma NoneOpened(sys: RP.System, e: RP.Event, grace: Time)
    requires RP.SystemInv(sys, grace) && !Opens(e)
    ensures forall s :: s in RP.Next(sys, e, grace).db.sessions ==>
              s in sys.db.sessions && SI.SameIdentity(sys.db.sessions[s], RP.Next(sys, e, grace).db.sessions[s])
  {
    var ops := RP.SerialOp(sys, e, grace);
    RP.StepIsSerial(sys, e, grace);
    if ops != [] {
      assert ops[1..] == [];
      forall s | s in S.Apply(sys.db, ops[0]).sessions
        ensures s in sys.db.sessions && SI.SameIdentity(sys.db.sessions[s], S.Apply(sys.db, ops[0]).sessions[s])
      {
        SI.IdentityIsFixedByStep(sys.db, ops[0], s);
      }
    }
  }

  /** Every way a session comes into being or changes leaves FULL sessions with users who have passed. */
  lemma SessionStepKeeps(w: World, event: Event, settings: Settings)
    requires WorldInv(w, settings) && (event.LoginRead? || event.LoginCommit? || event.Upgrade? || event.OnSessions?)
    ensures WorldInv(Next(w, event, settings), settings)
  {
    match event {
      case OnSessions(e) =>
        RP.StepKeepsSystemInv(w.sessions, e, settings.replayGrace);
        if !Opens(e) { NoneOpened(w.sessions, e, settings.replayGrace); }
      case Upgrade(request, key, now, ttl) =>
        var op := S.Upgrade(request, key, now, EligibilityOf(w.attempts.db, request), ttl);
        RP.StepKeepsSystemInv(w.sessions, RP.Transact(op), settings.replayGrace);
        UpgradeKeeps(w, request, key, now, ttl, settings);
      case LoginCommit(p, lowRisk, expiresAt) =>
        LoginKeeps(w, p, lowRisk, expiresAt, settings);
      case LoginRead(p, userId) =>
    }
  }

  /** The level was decided on a read that may be old, but what it saw of a verified user holds for good. */
  lemma LoginKeeps(w: World, p: Id, lowRisk: bool, expiresAt: Time, settings: Settings)
    requires WorldInv(w, settings)
    ensures WorldInv(Next(w, LoginCommit(p, lowRisk, expiresAt), settings), settings)
  {
    if p in w.logins {
      var level := if w.logins[p].verified && lowRisk then S.FULL else S.LIMITED;
      RP.StepKeepsSystemInv(w.sessions, RP.Transact(S.Create(w.logins[p].userId, level, expiresAt)),
                            settings.replayGrace);
    }
  }

  lemma UpgradeKeeps(w: World, request: S.UpgradeRequest, key: string, now: Time, ttl: S.UpgradeLifetimes,
                     settings: Settings)
    requires WorldInv(w, settings)
    ensures FullMeansPassed(Next(w, Upgrade(request, key, now, ttl), settings))
  {
    var op := S.Upgrade(request, key, now, EligibilityOf(w.attempts.db, request), ttl);
    var after := S.Apply(w.sessions.db, op);
    forall s | s in after.sessions && after.sessions[s].level == S.FULL
      ensures AP.HasPassed(w.attempts.db, after.sessions[s].userId, A.ACCOUNT_ENROLLMENT)
    {
      if s in w.sessions.db.sessions { SI.IdentityIsFixedByStep(w.sessions.db, op, s); }
    }
  }

  lemma CreateChallengeKeeps(w: World, event: Event, settings: Settings)
    requires WorldInv(w, settings) && event.CreateChallenge?
    ensures WorldInv(Next(w, event, settings), settings)
  {
    if CanChallenge(w, event.userId, event.purpose, event.target, event.latest, event.now) {
      var step := AP.StepUp(event.userId, event.purpose, event.latest, settings.stepUpVersion);
      var with := WithAttempts(w, AP.Next(w.attempts, step, settings.policy));
      AttemptStepKeeps(w, step, settings);
      ChallengeStepKeeps(with,
                         SU.Create(event.userId, w.attempts.db.nextId, event.purpose, event.target, event.now,
                                   event.life), settings);
    }
  }

  lemma StepKeepsInv(w: World, event: Event, settings: Settings)
    requires WorldInv(w, settings)
    ensures WorldInv(Next(w, event, settings), settings)
  {
    match event {
      case Tick(delta) => TickKeeps(w, delta, settings);
      case OnAttempts(e) => AttemptStepKeeps(w, e, settings);
      case OnChallenges(e) => if !e.Pass? && !e.Create? { ChallengeStepKeeps(w, e, settings); }
      case CreateChallenge(_, _, _, _, _, _) => CreateChallengeKeeps(w, event, settings);
      case _ => SessionStepKeeps(w, event, settings);
    }
  }

  lemma {:induction false} RunKeepsInv(w: World, events: seq<Event>, settings: Settings)
    requires WorldInv(w, settings)
    ensures WorldInv(Steps(w, events, settings), settings)
    decreases |events|
  {
    if events != [] {
      StepKeepsInv(w, events[0], settings);
      RunKeepsInv(Next(w, events[0], settings), events[1..], settings);
    }
  }

  lemma StartHolds(clock: Time, settings: Settings)
    ensures WorldInv(Start(clock), settings)
  {
    AP.StartHolds(clock, settings.policy);
  }

  // ---- The combined guarantee ---------------------------------------------------------------

  /**
   * In every run, a FULL session exists only for a user with a PASSED enrolment attempt, although
   * login and passkey login read the identity status long before they create the session.
   */
  lemma FullSessionsBelongToVerifiedUsers(clock: Time, events: seq<Event>, settings: Settings, s: Id)
    requires var sessions := Steps(Start(clock), events, settings).sessions.db.sessions;
             s in sessions && sessions[s].level == S.FULL
    ensures var w := Steps(Start(clock), events, settings);
            AP.HasPassed(w.attempts.db, w.sessions.db.sessions[s].userId, A.ACCOUNT_ENROLLMENT)
  {
    StartHolds(clock, settings);
    RunKeepsInv(Start(clock), events, settings);
  }

  /** In every run, an issued or consumed assertion rests on a PASSED attempt of the same user and purpose. */
  lemma AssertionsRestOnPassedAttempts(clock: Time, events: seq<Event>, settings: Settings, c: Id)
    requires c in Steps(Start(clock), events, settings).stepUp.ledger.challenges
    requires Steps(Start(clock), events, settings).stepUp.ledger.challenges[c].status in {R.CVerified, R.CConsumed}
    ensures var w := Steps(Start(clock), events, settings);
            var challenge := w.stepUp.ledger.challenges[c];
            && challenge.attemptId in w.attempts.db.attempts
            && w.attempts.db.attempts[challenge.attemptId].status == A.PASSED
            && w.attempts.db.attempts[challenge.attemptId].userId == challenge.userId
            && w.attempts.db.attempts[challenge.attemptId].purpose == challenge.purpose
  {
    StartHolds(clock, settings);
    RunKeepsInv(Start(clock), events, settings);
    var w := Steps(Start(clock), events, settings);
    assert SU.Sound(w.stepUp.ledger, w.stepUp.ledger.challenges[c]);
  }

  // ---- By the fields of the rows ------------------------------------------------------------

  predicate OfLogin(e: Event, p: Id) { (e.LoginRead? || e.LoginCommit?) && e.login == p }

  lemma OthersLeaveLogin(w: World, event: Event, p: Id, settings: Settings)
    requires !OfLogin(event, p)
    ensures p in Next(w, event, settings).logins <==> p in w.logins
    ensures p in w.logins ==> Next(w, event, settings).logins[p] == w.logins[p]
  {
  }

  lemma {:induction false} OthersLeaveLoginThroughout(w: World, events: seq<Event>, p: Id, settings: Settings)
    requires forall e :: e in events ==> !OfLogin(e, p)
    ensures p in Steps(w, events, settings).logins <==> p in w.logins
    ensures p in w.logins ==> Steps(w, events, settings).logins[p] == w.logins[p]
    decreases |events|
  {
    if events != [] {
      OthersLeaveLogin(w, events[0], p, settings);
      OthersLeaveLoginThroughout(Next(w, events[0], settings), events[1..], p, settings);
    }
  }

  /**
   * A login opens a FULL session exactly when the user was verified at its read and its risk is
   * low, else a LIMITED one.
   */
  lemma LoginLevelExactly(w: World, p: Id, userId: Id, others: seq<Event>, lowRisk: bool, expiresAt: Time,
                          settings: Settings)
    requires p !in w.logins && userId in w.attempts.db.users && forall e :: e in others ==> !OfLogin(e, p)
    ensures var last := Steps(Next(w, LoginRead(p, userId), settings), others, settings);
            var done := Next(last, LoginCommit(p, lowRisk, expiresAt), settings).sessions.db;
            var verified := w.attempts.db.users[userId].identity == A.IdentityVerified;
            O.Opened(last.sessions.db, done, userId, if verified && lowRisk then S.FULL else S.LIMITED, expiresAt)
  {
    OthersLeaveLoginThroughout(Next(w, LoginRead(p, userId), settings), others, p, settings);
    var last := Steps(Next(w, LoginRead(p, userId), settings), others, settings);
    var verified := w.attempts.db.users[userId].identity == A.IdentityVerified;
    O.CreationOpens(last.sessions.db, userId, if verified && lowRisk then S.FULL else S.LIMITED, expiresAt);
  }

  /** The user is active and verified, and the named attempt is the user's, for enrolment, and PASSED. */
  predicate Proven(db: A.Db, request: S.UpgradeRequest) {
    && request.userId in db.users
    && db.users[request.userId].accountActive && db.users[request.userId].identity == A.IdentityVerified
    && request.attemptId in db.attempts
    && db.attempts[request.attemptId].userId == request.userId
    && db.attempts[request.attemptId].purpose == A.ACCOUNT_ENROLLMENT
    && db.attempts[request.attemptId].status == A.PASSED
  }

  /** A first upgrade replaces the limited session exactly when it may be upgraded and its user is proven. */
  lemma UpgradesExactly(w: World, request: S.UpgradeRequest, key: string, now: Time, ttl: S.UpgradeLifetimes,
                        settings: Settings)
    requires S.UpgradeKey(request.sessionId, key) !in w.sessions.db.upgrades
    ensures var done := Next(w, Upgrade(request, key, now, ttl), settings).sessions.db;
            if O.MayUpgrade(w.sessions.db.sessions, request, now) && Proven(w.attempts.db, request)
            then O.Replaced(w.sessions.db, done, request, key, now, ttl)
            else done == w.sessions.db
  {
    O.UpgradeExactly(w.sessions.db, request, key, now, EligibilityOf(w.attempts.db, request), ttl);
  }

  /** Active, verified, consenting, for a step-up purpose, and without a live challenge for the same request. */
  ghost predicate MayChallenge(w: World, userId: Id, purpose: A.Purpose, target: string, now: Time) {
    && userId in w.attempts.db.users && w.attempts.db.users[userId].accountActive
    && w.attempts.db.users[userId].identity == A.IdentityVerified && w.attempts.db.users[userId].biometricConsent
    && purpose != A.ACCOUNT_ENROLLMENT
    && SO.NoneLive(w.stepUp.ledger.challenges, userId, purpose, target, now)
  }

  lemma MayChallengeIsChecked(w: World, userId: Id, purpose: A.Purpose, target: string, latest: Option<Id>, now: Time)
    requires now <= w.stepUp.ledger.clock && A.IsLatest(w.attempts.db, userId, purpose, latest)
    ensures CanChallenge(w, userId, purpose, target, latest, now) <==> MayChallenge(w, userId, purpose, target, now)
  {
  }

  /** The attempt of a new challenge waits for media, and the challenge names it. */
  ghost predicate Challenged(w: World, done: World, userId: Id, purpose: A.Purpose, target: string, now: Time,
                             life: Time) {
    var attempt, id := w.attempts.db.nextId, w.stepUp.ledger.nextId;
    && attempt in done.attempts.db.attempts
    && done.attempts.db.attempts[attempt].userId == userId && done.attempts.db.attempts[attempt].purpose == purpose
    && done.attempts.db.attempts[attempt].status == A.MEDIA_PENDING
    && done.stepUp.ledger.challenges == w.stepUp.ledger.challenges[id := R.Challenge(
         userId, attempt, purpose, target, R.CPending, now + life, None, None, None, None, None, None)]
  }

  /** A challenge and its attempt are created exactly for a user who may have one; otherwise nothing happens. */
  lemma ChallengesExactly(w: World, userId: Id, purpose: A.Purpose, target: string, latest: Option<Id>, now: Time,
                          life: Time, settings: Settings)
    requires now <= w.stepUp.ledger.clock && A.IsLatest(w.attempts.db, userId, purpose, latest)
    ensures var done := Next(w, CreateChallenge(userId, purpose, target, latest, now, life), settings);
            if MayChallenge(w, userId, purpose, target, now)
                then Challenged(w, done, userId, purpose, target, now, life)
            else done == w
  {
    MayChallengeIsChecked(w, userId, purpose, target, latest, now);
  }
}
