/**
 * Verification attempts under concurrent submitters. A submitter reads the attempt, claims it by
 * comparing the status it read, waits for the engine, and writes a verdict or an unavailability;
 * meanwhile other submitters, attempt creation and the stale-attempt job run freely.
 */
module AttemptProtocol {
  import opened Common
  import opened AttemptRows

  datatype Submitter =
    | Ready(id: Id, seen: Attempt)
    | Evaluating(id: Id, seen: Attempt)
    | Recording(id: Id, seen: Attempt, evaluation: Evaluation, retryAfter: Option<Time>)
    | GivingUp(id: Id, seen: Attempt, nextTry: Time)

  datatype Reply = Evaluated(evaluation: Evaluation) | EngineFailed | OtherError

  datatype System = System(db: Db, clock: Time, submitters: map<Id, Submitter>)

  datatype Event =
    | Tick(delta: nat)
    | AddUser(user: User)
    | EditUser(userId: Id, user: User)
    | Enrol(userId: Id, latest: Option<Id>, now: Time)
    | StepUp(userId: Id, purpose: Purpose, latest: Option<Id>, version: string)
    | Liveness(id: Id, session: Id)
    | Read(submitter: Id, id: Id, mediaReady: bool)
    | Claim(submitter: Id)
    | Answer(submitter: Id, reply: Reply)
    | Write(submitter: Id)
    | Crash(submitter: Id)
    | ExpireStale(ids: set<Id>)

  function Answered(s: Submitter, reply: Reply, clock: Time, policy: Policy): Option<Submitter> {
    match reply
    case OtherError => None
    case EngineFailed => Some(GivingUp(s.id, s.seen, clock + policy.retryDelay))
    case Evaluated(evaluation) =>
      if Untrusted(evaluation, s.seen.policyVersion, clock) then Some(GivingUp(s.id, s.seen, clock + policy.retryDelay))
      else Some(Recording(s.id, s.seen, evaluation,
                          if MapDecision(evaluation.decision).attempt == RETRY_REQUIRED
                              then Some(clock + policy.retryDelay) else None))
  }

  predicate Records(sys: System, event: Event) {
    && event.Write? && event.submitter in sys.submitters
    && var s := sys.submitters[event.submitter];
       s.Recording? && CanComplete(sys.db, s.id, s.seen.userId)
  }

  /** One step; an event that is not enabled changes nothing. */
  function Next(sys: System, event: Event, policy: Policy): System {
    match event
    case Tick(delta) => sys.(clock := sys.clock + delta)
    case AddUser(user) =>
      sys.(db :=
          sys.db.(users := sys.db.users[sys.db.nextId := user.(identity := IdentityUnstarted)],
                  nextId := sys.db.nextId + 1))
    case EditUser(userId, user) =>
      if userId in sys.db.users then
        sys.(db := sys.db.(users := sys.db.users[userId := user.(identity := sys.db.users[userId].identity)]))
      else sys
    case Enrol(userId, latest, now) =>
      if now <= sys.clock && IsLatest(sys.db, userId, ACCOUNT_ENROLLMENT, latest) then
        sys.(db := Enrolled(sys.db, userId, latest, now, sys.clock, policy))
      else sys
    case StepUp(userId, purpose, latest, version) =>
      if purpose != ACCOUNT_ENROLLMENT && userId in sys.db.users && IsLatest(sys.db, userId, purpose, latest) then
        sys.(db := WithAttempt(sys.db, userId, purpose, latest, sys.clock, version))
      else sys
    case Liveness(id, session) => sys.(db := WithLiveness(sys.db, id, session))
    case Read(p, id, mediaReady) =>
      if p !in sys.submitters && id in sys.db.attempts && Submittable(sys.db.attempts[id], mediaReady, sys.clock) then
        sys.(submitters := sys.submitters[p := Ready(id, sys.db.attempts[id])])
      else sys
    case Claim(p) =>
      if p in sys.submitters && sys.submitters[p].Ready? then
        var s := sys.submitters[p];
        if CanClaim(sys.db, s.id, s.seen) then
          sys.(db := Claimed(sys.db, s.id), submitters := sys.submitters[p := Evaluating(s.id, s.seen)])
        else sys.(submitters := sys.submitters - {p})
      else sys
    case Answer(p, reply) =>
      if p in sys.submitters && sys.submitters[p].Evaluating? then
        match Answered(sys.submitters[p], reply, sys.clock, policy)
        case Some(s) => sys.(submitters := sys.submitters[p := s])
        case None => sys.(submitters := sys.submitters - {p})
      else sys
    case Write(p) =>
      if p in sys.submitters && (sys.submitters[p].Recording? || sys.submitters[p].GivingUp?) then
        var s := sys.submitters[p];
        sys.(submitters := sys.submitters - {p},
             db := if s.GivingUp? then MarkedUnavailable(sys.db, s.id, s.nextTry)
                   else if CanComplete(sys.db, s.id, s.seen.userId)
                       then Completed(sys.db, s.id, s.seen.purpose, s.evaluation, s.retryAfter)
                   else sys.db)
      else sys
    case Crash(p) => sys.(submitters := sys.submitters - {p})
    case ExpireStale(ids) => sys.(db := AttemptsExpired(sys.db, ids, sys.clock))
  }

  function Steps(sys: System, events: seq<Event>, policy: Policy): System
    decreases |events|
  {
    if events == [] then sys else Steps(Next(sys, events[0], policy), events[1..], policy)
  }

  // ---- Invariant ----------------------------------------------------------------------------

  ghost predicate Keyed(db: Db) {
    && (forall u :: u in db.users ==> u < db.nextId)
    && (forall a :: a in db.attempts ==> a < db.nextId && db.attempts[a].userId in db.users)
  }

  function NumbersOf(db: Db, userId: Id, purpose: Purpose): set<nat> {
    set a | a in AttemptsOf(db, userId, purpose) :: db.attempts[a].number
  }

  function OneTo(n: nat): set<nat> { if n == 0 then {} else OneTo(n - 1) + {n} }

  /** The attempts of a user for a purpose are numbered 1, 2, ... without gap or repetition. */
  ghost predicate Numbered(db: Db, userId: Id, purpose: Purpose) {
    && NumbersOf(db, userId, purpose) == OneTo(|AttemptsOf(db, userId, purpose)|)
    && DistinctNumbers(db, AttemptsOf(db, userId, purpose))
  }

  ghost predicate DistinctNumbers(db: Db, ids: set<Id>)
    requires ids <= db.attempts.Keys
  {
    forall a, b | a in ids && b in ids :: db.attempts[a].number == db.attempts[b].number ==> a == b
  }

  ghost predicate Consecutive(db: Db) { forall u, p :: Numbered(db, u, p) }

  function StartedWithin(db: Db, userId: Id, start: Time, window: nat): set<Id> {
    set a | a in AttemptsOf(db, userId, ACCOUNT_ENROLLMENT) && start <= db.attempts[a].startedAt <= start + window
  }

  /** No interval as long as the window holds more enrolment attempts of one user than allowed. */
  ghost predicate Limited(db: Db, policy: Policy) {
    forall u, t: Time :: |StartedWithin(db, u, t, policy.window)| <= policy.maxAttempts
  }

  predicate HasPassed(db: Db, userId: Id, purpose: Purpose) {
    exists a :: a in db.attempts && db.attempts[a].userId == userId && db.attempts[a].purpose == purpose
        && db.attempts[a].status == PASSED
  }

  ghost predicate VerifiedMeansPassed(db: Db) {
    forall u :: u in db.users && db.users[u].identity == IdentityVerified ==> HasPassed(db, u, ACCOUNT_ENROLLMENT)
  }

  /** The fields no transaction changes. */
  predicate SameAttempt(a: Attempt, b: Attempt) {
    a.userId == b.userId && a.purpose == b.purpose && a.number == b.number && a.startedAt == b.startedAt
  }

  predicate InFlight(s: Submitter) { !s.Ready? }

  ghost predicate SubmitterInv(db: Db, clock: Time, s: Submitter) {
    && s.id in db.attempts
    && SameAttempt(s.seen, db.attempts[s.id])
    && s.seen.status in {MEDIA_PENDING, PROVIDER_UNAVAILABLE}
    && (InFlight(s) ==> db.attempts[s.id].status in {PROCESSING, EXPIRED})
    && (s.seen.retryAfter.Some? ==> s.seen.retryAfter.value <= clock)
    && (s.Recording? ==> s.evaluation.decision != UNAVAILABLE)
  }

  /** Between its claim and its final write a submitter has its attempt to itself. */
  ghost predicate Exclusive(submitters: map<Id, Submitter>) {
    forall p, q | p in submitters && q in submitters && InFlight(submitters[p]) && InFlight(submitters[q]) ::
      submitters[p].id == submitters[q].id ==> p == q
  }

  ghost predicate SubmittersInv(sys: System) {
    && Keyed(sys.db)
    && (forall p :: p in sys.submitters ==> SubmitterInv(sys.db, sys.clock, sys.submitters[p]))
    && Exclusive(sys.submitters)
  }

  ghost predicate SystemInv(sys: System, policy: Policy) {
    && SubmittersInv(sys)
    && Consecutive(sys.db)
    && Limited(sys.db, policy)
    && VerifiedMeansPassed(sys.db)
  }

  // ---- What one step does to any attempt ----------------------------------------------------

  /** How one step may change an attempt row: verdicts are final, and identity is fixed. */
  ghost predicate Moves(a: Attempt, b: Attempt) {
    && SameAttempt(a, b)
    && (IsVerdict(a.status) ==> b.status == a.status && b.completedAt == a.completedAt)
  }

  lemma RowsMove(sys: System, event: Event, policy: Policy, id: Id)
    requires SubmittersInv(sys) && id in sys.db.attempts
    ensures id in Next(sys, event, policy).db.attempts
    ensures Moves(sys.db.attempts[id], Next(sys, event, policy).db.attempts[id])
  {
  }

  /** Steps that neither create attempts nor touch their numbers, times or owners. */
  ghost predicate SameSchedule(db: Db, db': Db) {
    && db'.attempts.Keys == db.attempts.Keys
    && forall a :: a in db.attempts ==> SameAttempt(db.attempts[a], db'.attempts[a])
  }

  lemma SameNumbers(db: Db, db': Db, userId: Id, purpose: Purpose)
    requires AttemptsOf(db', userId, purpose) == AttemptsOf(db, userId, purpose)
    requires forall a :: a in AttemptsOf(db, userId, purpose) ==> db'.attempts[a].number == db.attempts[a].number
    ensures NumbersOf(db', userId, purpose) == NumbersOf(db, userId, purpose)
  {
  }

  lemma ScheduleKeeps(db: Db, db': Db, policy: Policy)
    requires Consecutive(db) && Limited(db, policy) && SameSchedule(db, db')
    ensures Consecutive(db') && Limited(db', policy)
  {
    forall u, p ensures Numbered(db', u, p) {
      assert Numbered(db, u, p);
      assert AttemptsOf(db', u, p) == AttemptsOf(db, u, p);
      SameNumbers(db, db', u, p);
    }
    forall u, t: Time ensures |StartedWithin(db', u, t, policy.window)| <= policy.maxAttempts {
      assert StartedWithin(db', u, t, policy.window) == StartedWithin(db, u, t, policy.window);
    }
  }

  // ---- Creation keeps numbering and the window ----------------------------------------------

  lemma {:induction false} OneToMembers(n: nat, i: nat)
    ensures i in OneTo(n) <==> 1 <= i <= n
  {
    if n > 0 {
      OneToMembers(n - 1, i);
    }
  }

  /** The latest attempt carries the number of attempts there are. */
  lemma LatestCounts(db: Db, userId: Id, purpose: Purpose, latest: Option<Id>)
    requires Numbered(db, userId, purpose) && IsLatest(db, userId, purpose, latest)
    ensures NextNumber(db, latest) == |AttemptsOf(db, userId, purpose)| + 1
  {
    var n := |AttemptsOf(db, userId, purpose)|;
    if latest.Some? {
      var last := db.attempts[latest.value].number;
      assert last in NumbersOf(db, userId, purpose);
      OneToMembers(n, last);
      OneToMembers(n, n);
      assert n in NumbersOf(db, userId, purpose);
      var b :| b in AttemptsOf(db, userId, purpose) && db.attempts[b].number == n;
    }
  }

  lemma AttemptsGrow(db: Db, userId: Id, purpose: Purpose, latest: Option<Id>, startedAt: Time, version: string)
    requires Keyed(db)
    ensures db.nextId !in AttemptsOf(db, userId, purpose)
    ensures AttemptsOf(WithAttempt(db, userId, purpose, latest, startedAt, version), userId, purpose)
            == AttemptsOf(db, userId, purpose) + {db.nextId}
  {
  }

  lemma CreationExtendsNumbers(db: Db, userId: Id, purpose: Purpose, latest: Option<Id>, startedAt: Time,
                               version: string)
    requires Keyed(db) && Numbered(db, userId, purpose) && IsLatest(db, userId, purpose, latest)
    ensures Numbered(WithAttempt(db, userId, purpose, latest, startedAt, version), userId, purpose)
  {
    var db' := WithAttempt(db, userId, purpose, latest, startedAt, version);
    LatestCounts(db, userId, purpose, latest);
    AttemptsGrow(db, userId, purpose, latest, startedAt, version);
    ExtendedNumbers(db, db', userId, purpose);
  }

  /** One more row carrying the next number keeps the numbering. */
  lemma ExtendedNumbers(db: Db, db': Db, userId: Id, purpose: Purpose)
    requires Numbered(db, userId, purpose)
    requires db.nextId !in AttemptsOf(db, userId, purpose)
    requires AttemptsOf(db', userId, purpose) == AttemptsOf(db, userId, purpose) + {db.nextId}
    requires forall a :: a in AttemptsOf(db, userId, purpose) ==> db'.attempts[a].number == db.attempts[a].number
    requires db.nextId in db'.attempts && db'.attempts[db.nextId].number == |AttemptsOf(db, userId, purpose)| + 1
    ensures Numbered(db', userId, purpose)
  {
    var before, n := AttemptsOf(db, userId, purpose), |AttemptsOf(db, userId, purpose)|;
    RangeGrows(db, db', userId, purpose);
    forall a | a in before ensures db'.attempts[a].number <= n {
      NumberInRange(db, userId, purpose, a);
    }
    StaysDistinct(db, db', before);
  }

  lemma RangeGrows(db: Db, db': Db, userId: Id, purpose: Purpose)
    requires NumbersOf(db, userId, purpose) == OneTo(|AttemptsOf(db, userId, purpose)|)
    requires db.nextId !in AttemptsOf(db, userId, purpose)
    requires AttemptsOf(db', userId, purpose) == AttemptsOf(db, userId, purpose) + {db.nextId}
    requires forall a :: a in AttemptsOf(db, userId, purpose) ==> db'.attempts[a].number == db.attempts[a].number
    requires db.nextId in db'.attempts && db'.attempts[db.nextId].number == |AttemptsOf(db, userId, purpose)| + 1
    ensures NumbersOf(db', userId, purpose) == OneTo(|AttemptsOf(db', userId, purpose)|)
  {
    var n := |AttemptsOf(db, userId, purpose)|;
    NumbersGrow(db, db', userId, purpose, n + 1);
    assert |AttemptsOf(db', userId, purpose)| == n + 1;
  }

  lemma StaysDistinct(db: Db, db': Db, ids: set<Id>)
    requires ids <= db.attempts.Keys && ids + {db.nextId} <= db'.attempts.Keys
    requires DistinctNumbers(db, ids)
    requires forall a :: a in ids ==> db'.attempts[a].number == db.attempts[a].number < db'.attempts[db.nextId].number
    ensures DistinctNumbers(db', ids + {db.nextId})
  {
  }

  lemma NumberInRange(db: Db, userId: Id, purpose: Purpose, a: Id)
    requires Numbered(db, userId, purpose) && a in AttemptsOf(db, userId, purpose)
    ensures 1 <= db.attempts[a].number <= |AttemptsOf(db, userId, purpose)|
  {
    assert db.attempts[a].number in NumbersOf(db, userId, purpose);
    OneToMembers(|AttemptsOf(db, userId, purpose)|, db.attempts[a].number);
  }

  lemma NumbersGrow(db: Db, db': Db, userId: Id, purpose: Purpose, number: nat)
    requires db.nextId in db'.attempts && db'.attempts[db.nextId].number == number
    requires AttemptsOf(db', userId, purpose) == AttemptsOf(db, userId, purpose) + {db.nextId}
    requires forall a :: a in AttemptsOf(db, userId, purpose) ==> db'.attempts[a].number == db.attempts[a].number
    ensures NumbersOf(db', userId, purpose) == NumbersOf(db, userId, purpose) + {number}
  {
    forall m | m in NumbersOf(db, userId, purpose) + {number} ensures m in NumbersOf(db', userId, purpose) {
      if m == number {
        assert db.nextId in AttemptsOf(db', userId, purpose);
      } else {
        var a :| a in AttemptsOf(db, userId, purpose) && db.attempts[a].number == m;
        assert a in AttemptsOf(db', userId, purpose);
      }
    }
  }

  lemma CreationKeepsConsecutive(db: Db, userId: Id, purpose: Purpose, latest: Option<Id>, startedAt: Time,
                                 version: string)
    requires Keyed(db) && Consecutive(db) && IsLatest(db, userId, purpose, latest)
    ensures Consecutive(WithAttempt(db, userId, purpose, latest, startedAt, version))
  {
    var db' := WithAttempt(db, userId, purpose, latest, startedAt, version);
    forall u, p ensures Numbered(db', u, p) {
      assert Numbered(db, u, p);
      if u == userId && p == purpose {
        CreationExtendsNumbers(db, userId, purpose, latest, startedAt, version);
      } else {
        assert AttemptsOf(db', u, p) == AttemptsOf(db, u, p);
        SameNumbers(db, db', u, p);
      }
    }
  }

  /** The count taken since `now - window` covers every interval that the new attempt can fall into. */
  lemma EnrolmentKeepsLimit(db: Db, userId: Id, latest: Option<Id>, now: Time, startedAt: Time, policy: Policy)
    requires Keyed(db) && Limited(db, policy) && now <= startedAt
    requires CreateOutcomeFor(db, userId, latest, now, policy).CreatedAttempt?
    ensures Limited(WithAttempt(db, userId, ACCOUNT_ENROLLMENT, latest, startedAt, policy.version), policy)
  {
    var db' := WithAttempt(db, userId, ACCOUNT_ENROLLMENT, latest, startedAt, policy.version);
    forall u, t: Time ensures |StartedWithin(db', u, t, policy.window)| <= policy.maxAttempts {
      assert |StartedWithin(db, u, t, policy.window)| <= policy.maxAttempts;
      if u == userId && t <= startedAt <= t + policy.window {
        assert StartedWithin(db', u, t, policy.window) == StartedWithin(db, u, t, policy.window) + {db.nextId};
        SubsetSize(StartedWithin(db, u, t, policy.window), StartedSince(db, userId, now - policy.window));
      } else {
        assert StartedWithin(db', u, t, policy.window) == StartedWithin(db, u, t, policy.window);
      }
    }
  }

  /** Attempts for step-up purposes do not count against the enrolment window. */
  lemma StepUpKeepsLimit(db: Db, userId: Id, purpose: Purpose, latest: Option<Id>, startedAt: Time, version: string,
                         policy: Policy)
    requires Keyed(db) && Limited(db, policy) && purpose != ACCOUNT_ENROLLMENT
    ensures Limited(WithAttempt(db, userId, purpose, latest, startedAt, version), policy)
  {
    var db' := WithAttempt(db, userId, purpose, latest, startedAt, version);
    forall u, t: Time ensures |StartedWithin(db', u, t, policy.window)| <= policy.maxAttempts {
      assert |StartedWithin(db, u, t, policy.window)| <= policy.maxAttempts;
      assert StartedWithin(db', u, t, policy.window) == StartedWithin(db, u, t, policy.window);
    }
  }

  lemma ScheduleStepKeeps(sys: System, event: Event, policy: Policy)
    requires SystemInv(sys, policy)
    ensures Consecutive(Next(sys, event, policy).db) && Limited(Next(sys, event, policy).db, policy)
  {
    var db, db' := sys.db, Next(sys, event, policy).db;
    if event.Enrol? && event.now <= sys.clock && IsLatest(db, event.userId, ACCOUNT_ENROLLMENT, event.latest)
       && CreateOutcomeFor(db, event.userId, event.latest, event.now, policy).CreatedAttempt? {
      CreationKeepsConsecutive(db, event.userId, ACCOUNT_ENROLLMENT, event.latest, sys.clock, policy.version);
      EnrolmentKeepsLimit(db, event.userId, event.latest, event.now, sys.clock, policy);
      ScheduleKeeps(WithAttempt(db, event.userId, ACCOUNT_ENROLLMENT, event.latest, sys.clock, policy.version), db',
                    policy);
    } else if event.StepUp? && db' != db {
      CreationKeepsConsecutive(db, event.userId, event.purpose, event.latest, sys.clock, event.version);
      StepUpKeepsLimit(db, event.userId, event.purpose, event.latest, sys.clock, event.version, policy);
    } else {
      ScheduleKeeps(db, db', policy);
    }
  }

  // ---- Exclusion and finality ---------------------------------------------------------------

  lemma PassedPersists(sys: System, event: Event, policy: Policy, userId: Id, purpose: Purpose)
    requires SystemInv(sys, policy) && HasPassed(sys.db, userId, purpose)
    ensures HasPassed(Next(sys, event, policy).db, userId, purpose)
  {
    var a :| a in sys.db.attempts && sys.db.attempts[a].userId == userId && sys.db.attempts[a].purpose == purpose
             && sys.db.attempts[a].status == PASSED;
    RowsMove(sys, event, policy, a);
  }

  lemma VerifiedStepKeeps(sys: System, event: Event, policy: Policy)
    requires SystemInv(sys, policy)
    ensures VerifiedMeansPassed(Next(sys, event, policy).db)
  {
    var db' := Next(sys, event, policy).db;
    forall u | u in db'.users && db'.users[u].identity == IdentityVerified
        ensures HasPassed(db', u, ACCOUNT_ENROLLMENT) {
      if u in sys.db.users && sys.db.users[u].identity == IdentityVerified {
        PassedPersists(sys, event, policy, u, ACCOUNT_ENROLLMENT);
      } else {
        assert Records(sys, event);
        var s := sys.submitters[event.submitter];
        assert db'.attempts[s.id].status == PASSED;
      }
    }
  }

  /** Steps outside submission never move an attempt out of PROCESSING except to EXPIRED. */
  lemma BystandersKeep(sys: System, event: Event, policy: Policy)
    requires SubmittersInv(sys)
    requires !(event.Read? || event.Claim? || event.Answer? || event.Write? || event.Crash?)
    ensures SubmittersInv(Next(sys, event, policy))
  {
  }

  lemma ReaderKeeps(sys: System, event: Event, policy: Policy)
    requires SubmittersInv(sys) && (event.Read? || event.Crash?)
    ensures SubmittersInv(Next(sys, event, policy))
  {
  }

  /** The engine's answer leaves its submitter in flight or sends it away. */
  lemma AnswerKeeps(sys: System, event: Event, policy: Policy)
    requires SubmittersInv(sys) && event.Answer?
    ensures SubmittersInv(Next(sys, event, policy))
  {
  }

  /** Nobody else is in flight on an attempt whose status can still be claimed. */
  lemma ClaimKeeps(sys: System, event: Event, policy: Policy)
    requires SubmittersInv(sys) && event.Claim?
    ensures SubmittersInv(Next(sys, event, policy))
  {
  }

  /** The writer leaves, and it was the only one in flight on its attempt. */
  lemma WriteKeeps(sys: System, event: Event, policy: Policy)
    requires SubmittersInv(sys) && event.Write?
    ensures SubmittersInv(Next(sys, event, policy))
  {
  }

  lemma SubmittersStepKeep(sys: System, event: Event, policy: Policy)
    requires SubmittersInv(sys)
    ensures SubmittersInv(Next(sys, event, policy))
  {
    match event {
      case Read(_, _, _) | Crash(_) => ReaderKeeps(sys, event, policy);
      case Answer(_, _) => AnswerKeeps(sys, event, policy);
      case Claim(_) => ClaimKeeps(sys, event, policy);
      case Write(_) => WriteKeeps(sys, event, policy);
      case _ => BystandersKeep(sys, event, policy);
    }
  }

  lemma StepKeepsInv(sys: System, event: Event, policy: Policy)
    requires SystemInv(sys, policy)
    ensures SystemInv(Next(sys, event, policy), policy)
  {
    ScheduleStepKeeps(sys, event, policy);
    VerifiedStepKeeps(sys, event, policy);
    SubmittersStepKeep(sys, event, policy);
  }

  lemma {:induction false} RunKeepsInv(sys: System, events: seq<Event>, policy: Policy)
    requires SystemInv(sys, policy)
    ensures SystemInv(Steps(sys, events, policy), policy)
    decreases |events|
  {
    if events != [] {
      StepKeepsInv(sys, events[0], policy);
      RunKeepsInv(Next(sys, events[0], policy), events[1..], policy);
    }
  }

  // ---- Whole runs ---------------------------------------------------------------------------

  /** How many steps of a run record an engine verdict on the attempt. */
  function Verdicts(sys: System, events: seq<Event>, id: Id, policy: Policy): nat
    decreases |events|
  {
    if events == [] then 0
    else (if Records(sys, events[0]) && sys.submitters[events[0].submitter].id == id then 1 else 0)
         + Verdicts(Next(sys, events[0], policy), events[1..], id, policy)
  }

  /** A verdict is final: no interleaving of submitters, unavailability writes or the expiry job replaces it. */
  lemma {:induction false} VerdictsAreAbsorbing(sys: System, events: seq<Event>, id: Id, policy: Policy)
    requires SystemInv(sys, policy) && id in sys.db.attempts && IsVerdict(sys.db.attempts[id].status)
    ensures Verdicts(sys, events, id, policy) == 0
    ensures id in Steps(sys, events, policy).db.attempts
    ensures Steps(sys, events, policy).db.attempts[id].status == sys.db.attempts[id].status
    decreases |events|
  {
    if events != [] {
      StepKeepsInv(sys, events[0], policy);
      RowsMove(sys, events[0], policy, id);
      VerdictsAreAbsorbing(Next(sys, events[0], policy), events[1..], id, policy);
    }
  }

  /** An attempt receives at most one engine verdict in any run. */
  lemma {:induction false} AtMostOneVerdict(sys: System, events: seq<Event>, id: Id, policy: Policy)
    requires SystemInv(sys, policy)
    ensures Verdicts(sys, events, id, policy) <= 1
    decreases |events|
  {
    if events != [] {
      var sys' := Next(sys, events[0], policy);
      StepKeepsInv(sys, events[0], policy);
      if Records(sys, events[0]) && sys.submitters[events[0].submitter].id == id {
        assert IsVerdict(sys'.db.attempts[id].status);
        VerdictsAreAbsorbing(sys', events[1..], id, policy);
      } else {
        AtMostOneVerdict(sys', events[1..], id, policy);
      }
    }
  }

  function Start(clock: Time): System { System(Db(map[], map[], 0), clock, map[]) }

  lemma StartHolds(clock: Time, policy: Policy)
    ensures SystemInv(Start(clock), policy)
  {
    var db := Start(clock).db;
    forall u, p ensures Numbered(db, u, p) {
      assert AttemptsOf(db, u, p) == {};
    }
    forall u, t: Time ensures |StartedWithin(db, u, t, policy.window)| <= policy.maxAttempts {
      assert StartedWithin(db, u, t, policy.window) == {};
    }
  }

  /**
   * The sliding limit over whole runs: whatever was created, expired or answered, every interval
   * as long as the window holds at most the allowed number of enrolment attempts of a user, and
   * the attempts are numbered 1 to their count.
   */
  lemma WindowIsNeverExceeded(clock: Time, events: seq<Event>, policy: Policy, userId: Id, start: Time)
    ensures var db := Steps(Start(clock), events, policy).db;
            && |StartedWithin(db, userId, start, policy.window)| <= policy.maxAttempts
            && forall p :: NumbersOf(db, userId, p) == OneTo(|AttemptsOf(db, userId, p)|)
  {
    StartHolds(clock, policy);
    RunKeepsInv(Start(clock), events, policy);
    var db := Steps(Start(clock), events, policy).db;
    forall p ensures NumbersOf(db, userId, p) == OneTo(|AttemptsOf(db, userId, p)|) {
      assert Numbered(db, userId, p);
    }
  }

  /** In every run, at most one submitter of an attempt is between its claim and its final write. */
  lemma AtMostOneInFlight(clock: Time, events: seq<Event>, policy: Policy, p: Id, q: Id)
    requires var s := Steps(Start(clock), events, policy).submitters;
             p in s && q in s && InFlight(s[p]) && InFlight(s[q]) && s[p].id == s[q].id
    ensures p == q
  {
    StartHolds(clock, policy);
    RunKeepsInv(Start(clock), events, policy);
  }
}
