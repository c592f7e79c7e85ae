/**
 * Refresh calls as they really interleave: a row read before the lock, a lease that may lapse,
 * a decision taken on the stale row, a transaction, and a release. Maintenance jobs likewise
 * read keys first and write later. The rows such a system produces are those of a serial run
 * of indivisible transactions.
 */
module RefreshProtocol {
  import opened Common
  import opened Leases
  import opened SessionRows
  import opened SessionInvariant

  const LOCK_TTL: Time := 5_000

  /** Where a refresh call stands; `lock` is the random value it wrote under the session's lock key. */
  datatype Call =
    | Unlocked(snap: Snapshot)
    | Locked(snap: Snapshot, lock: Id)
    | Rotating(snap: Snapshot, lock: Id, now: Time)
    | Compromising(snap: Snapshot, lock: Id, now: Time)
    | Leaving(snap: Snapshot, lock: Id)

  /** The keys a maintenance job selected, before it writes. */
  datatype Job =
    | ExpireJob(sids: set<Id>, now: Time)
    | PurgeSessionsJob(sids: set<Id>)
    | PurgeTokensJob(tids: set<Id>, cutoff: Time)
    | PurgeUpgradesJob(keys: set<UpgradeKey>, now: Time)

  datatype System = System(
    db: Db,
    clock: Time,
    calls: map<Id, Call>,
    jobs: map<Id, Job>,
    locks: Table<Id>,
    nextLock: Id)

  datatype Event =
    | Tick(delta: nat)
    | Read(call: Id, tokenId: Id)
    | Acquire(call: Id)
    | Decide(call: Id)
    | Commit(call: Id)
    | Release(call: Id)
    | Crash(call: Id)
    | Transact(op: Op)
    | Select(job: Id, choice: Job)
    | Write(job: Id)

  predicate Usable(snap: Snapshot, clock: Time) {
    && snap.token.revokedAt == None
    && clock < snap.token.expiresAt
    && snap.session.status == ACTIVE
    && clock < snap.session.expiresAt
  }

  /** The decision a call takes on its snapshot once it holds the lock. */
  function Decided(snap: Snapshot, lock: Id, clock: Time, grace: Time): Call {
    if snap.token.usedAt.Some? then
      if clock - snap.token.usedAt.value <= grace then Leaving(snap, lock) else Compromising(snap, lock, clock)
    else if Usable(snap, clock) then Rotating(snap, lock, clock)
    else Leaving(snap, lock)
  }

  function RotateTransaction(db: Db, snap: Snapshot, now: Time): Db {
    if CanRotate(db, snap.tokenId, snap.token.sessionId, now) then Rotated(db, snap, now) else db
  }

  /** Marking the presented token fails when its row was purged, which rolls the whole transaction back. */
  function CompromiseTransaction(db: Db, snap: Snapshot, now: Time): Db {
    if snap.tokenId in db.tokens then Compromised(db, snap.tokenId, snap.token.sessionId, now) else db
  }

  predicate Selects(db: Db, clock: Time, job: Job) {
    match job
    case ExpireJob(sids, now) =>
      now <= clock && forall s :: s in sids ==>
          s in db.sessions && db.sessions[s].status == ACTIVE && db.sessions[s].expiresAt <= now
    case PurgeSessionsJob(sids) => forall s :: s in sids ==> s in db.sessions && db.sessions[s].status != ACTIVE
    case PurgeTokensJob(tids, cutoff) =>
      cutoff <= clock && forall t :: t in tids ==> t in db.tokens && db.tokens[t].expiresAt <= cutoff
    case PurgeUpgradesJob(keys, now) =>
      now <= clock && forall k :: k in keys ==> k in db.upgrades && db.upgrades[k].expiresAt <= now
  }

  function JobOp(job: Job): Op {
    match job
    case ExpireJob(sids, now) => Expire(sids, now)
    case PurgeSessionsJob(sids) => PurgeSessions(sids)
    case PurgeTokensJob(tids, cutoff) => PurgeTokens(tids, cutoff)
    case PurgeUpgradesJob(keys, now) => PurgeUpgrades(keys, now)
  }

  /** Transactions whose rows are all read inside them. */
  predicate SelfContained(op: Op) {
    op.Create? || op.PasswordChange? || op.Upgrade?
        || (op.Logout? && op.reason in {USER_LOGOUT, USER_LOGOUT_ALL, USER_SESSION_REVOKED})
  }

  /** One step of the whole system; an event that is not enabled changes nothing. */
  function Next(sys: System, event: Event, grace: Time): System {
    match event
    case Tick(delta) => sys.(clock := sys.clock + delta)
    case Read(call, tid) =>
      if call !in sys.calls && tid in sys.db.tokens && sys.db.tokens[tid].sessionId in sys.db.sessions then
        var token := sys.db.tokens[tid];
        sys.(calls := sys.calls[call := Unlocked(Snapshot(tid, token, sys.db.sessions[token.sessionId]))])
      else sys
    case Acquire(call) =>
      if call in sys.calls && sys.calls[call].Unlocked? then
        var snap := sys.calls[call].snap;
        if Held(sys.locks, snap.token.sessionId, sys.clock) then sys.(calls := sys.calls - {call})
        else sys.(calls := sys.calls[call := Locked(snap, sys.nextLock)],
                  locks := Acquired(sys.locks, snap.token.sessionId, sys.nextLock, LOCK_TTL, sys.clock),
                  nextLock := sys.nextLock + 1)
      else sys
    case Decide(call) =>
      if call in sys.calls && sys.calls[call].Locked? then
        sys.(calls := sys.calls[call := Decided(sys.calls[call].snap, sys.calls[call].lock, sys.clock, grace)])
      else sys
    case Commit(call) =>
      if call in sys.calls && (sys.calls[call].Rotating? || sys.calls[call].Compromising?) then
        var c := sys.calls[call];
        sys.(db := if c.Rotating? then RotateTransaction(sys.db, c.snap, c.now)
            else CompromiseTransaction(sys.db, c.snap, c.now),
             calls := sys.calls[call := Leaving(c.snap, c.lock)])
      else sys
    case Release(call) =>
      if call in sys.calls && sys.calls[call].Leaving? then
        var c := sys.calls[call];
        sys.(locks := Released(sys.locks, c.snap.token.sessionId, c.lock, sys.clock), calls := sys.calls - {call})
      else sys
    case Crash(call) => sys.(calls := sys.calls - {call})
    case Transact(op) => if SelfContained(op) then sys.(db := Apply(sys.db, op)) else sys
    case Select(job, choice) =>
      if job !in sys.jobs && Selects(sys.db, sys.clock, choice) then sys.(jobs := sys.jobs[job := choice]) else sys
    case Write(job) =>
      if job in sys.jobs then sys.(db := Apply(sys.db, JobOp(sys.jobs[job])), jobs := sys.jobs - {job}) else sys
  }

  function Steps(sys: System, events: seq<Event>, grace: Time): System
    decreases |events|
  {
    if events == [] then sys else Steps(Next(sys, events[0], grace), events[1..], grace)
  }

  // ---- Abstraction to serial transactions ---------------------------------------------------

  predicate Rotates(sys: System, event: Event) {
    && event.Commit? && event.call in sys.calls && sys.calls[event.call].Rotating?
    && var c := sys.calls[event.call]; CanRotate(sys.db, c.snap.tokenId, c.snap.token.sessionId, c.now)
  }

  predicate Compromises(sys: System, event: Event) {
    && event.Commit? && event.call in sys.calls && sys.calls[event.call].Compromising?
    && sys.calls[event.call].snap.tokenId in sys.db.tokens
  }

  /** The indivisible transaction an event amounts to. A refresh carries only the token and the call's own time. */
  function SerialOp(sys: System, event: Event, grace: Time): seq<Op> {
    if Rotates(sys, event) || Compromises(sys, event) then
      [Refresh(sys.calls[event.call].snap.tokenId, sys.calls[event.call].now, grace)]
    else if event.Transact? && SelfContained(event.op) then [event.op]
    else if event.Write? && event.job in sys.jobs then [JobOp(sys.jobs[event.job])]
    else []
  }

  function SerialRun(sys: System, events: seq<Event>, grace: Time): seq<Op>
    decreases |events|
  {
    if events == [] then []
    else SerialOp(sys, events[0], grace) + SerialRun(Next(sys, events[0], grace), events[1..], grace)
  }

  /** A snapshot may be out of date, but only in fields that move one way. */
  ghost predicate Faithful(db: Db, snap: Snapshot) {
    && snap.tokenId < db.nextId
    && snap.token.sessionId < db.nextId
    && (snap.token.sessionId in db.sessions ==> SameIdentity(snap.session, db.sessions[snap.token.sessionId]))
    && (snap.tokenId in db.tokens ==>
          var t := db.tokens[snap.tokenId];
          && t.sessionId == snap.token.sessionId
          && t.userId == snap.token.userId
          && t.tokenType == snap.token.tokenType
          && t.generation == snap.token.generation
          && t.expiresAt == snap.token.expiresAt
          && (snap.token.usedAt.Some? ==> t.usedAt == snap.token.usedAt))
  }

  ghost predicate CallInv(db: Db, clock: Time, c: Call, grace: Time) {
    && Faithful(db, c.snap)
    && (c.Rotating? ==> c.now <= clock && c.snap.token.usedAt == None)
    && (c.Compromising? ==> c.now <= clock && c.snap.token.usedAt.Some? && grace < c.now - c.snap.token.usedAt.value)
  }

  /** What a job selected earlier is still entitled to the same treatment. */
  ghost predicate JobInv(db: Db, job: Job) {
    match job
    case ExpireJob(sids, now) => forall s :: s in sids ==>
        s < db.nextId && (s in db.sessions ==> db.sessions[s].expiresAt <= now)
    case PurgeSessionsJob(sids) => forall s :: s in sids ==> Retired(db, s)
    case PurgeTokensJob(tids, cutoff) =>
      forall t :: t in tids ==> t < db.nextId && (t in db.tokens ==> db.tokens[t].expiresAt <= cutoff)
    case PurgeUpgradesJob(keys, now) =>
      forall k :: k in keys ==> Retired(db, k.sessionId) && (k in db.upgrades ==> db.upgrades[k].expiresAt <= now)
  }

  ghost predicate SystemInv(sys: System, grace: Time) {
    && Inv(sys.db, sys.clock)
    && (forall c :: c in sys.calls ==> CallInv(sys.db, sys.clock, sys.calls[c], grace))
    && (forall j :: j in sys.jobs ==> JobInv(sys.db, sys.jobs[j])
                                      && (sys.jobs[j].PurgeTokensJob? ==> sys.jobs[j].cutoff <= sys.clock))
  }

  // ---- Stale reads stay faithful -------------------------------------------------------------

  lemma FaithfulSurvives(db: Db, op: Op, snap: Snapshot)
    requires KeysBelowNext(db) && Faithful(db, snap)
    ensures Faithful(Apply(db, op), snap)
  {
  }

  lemma JobSurvives(db: Db, op: Op, job: Job)
    requires KeysBelowNext(db) && JobInv(db, job)
    ensures JobInv(Apply(db, op), job)
  {
  }

  lemma JobWellChosen(db: Db, job: Job)
    requires JobInv(db, job)
    ensures WellChosen(db, JobOp(job))
  {
  }

  /** What commits from a stale snapshot is what the indivisible refresh does to current rows. */
  lemma CommitIsAtomic(db: Db, c: Call, clock: Time, grace: Time)
    requires CallInv(db, clock, c, grace) && Linked(db)
    ensures c.Rotating? && CanRotate(db, c.snap.tokenId, c.snap.token.sessionId, c.now) ==>
              Rotated(db, c.snap, c.now) == AtomicRefresh(db, c.snap.tokenId, c.now, grace)
    ensures c.Compromising? ==>
            CompromiseTransaction(db, c.snap, c.now) == AtomicRefresh(db, c.snap.tokenId, c.now, grace)
  {
  }

  lemma InvWeakens(db: Db, h: Time, h': Time)
    requires Inv(db, h) && h <= h'
    ensures Inv(db, h')
  {
  }

  /** One step of the system is no transaction or one indivisible transaction on the same rows. */
  lemma StepIsSerial(sys: System, event: Event, grace: Time)
    requires SystemInv(sys, grace)
    ensures Next(sys, event, grace).db == Run(sys.db, SerialOp(sys, event, grace))
    ensures RunWellChosen(sys.db, SerialOp(sys, event, grace))
  {
    var ops := SerialOp(sys, event, grace);
    if event.Commit? && event.call in sys.calls {
      CommitIsAtomic(sys.db, sys.calls[event.call], sys.clock, grace);
    }
    if event.Write? && event.job in sys.jobs {
      JobWellChosen(sys.db, sys.jobs[event.job]);
    }
    if ops != [] {
      assert ops[1..] == [];
    }
  }

  /** Inflight calls and jobs keep their claims while one transaction commits. */
  lemma InFlightSurvives(sys: System, op: Op, grace: Time)
    requires SystemInv(sys, grace) && WellChosen(sys.db, op) && Within(op, sys.clock)
    ensures SystemInv(sys.(db := Apply(sys.db, op)), grace)
  {
    StepKeepsInv(sys.db, op, sys.clock);
    forall c | c in sys.calls ensures Faithful(Apply(sys.db, op), sys.calls[c].snap) {
      FaithfulSurvives(sys.db, op, sys.calls[c].snap);
    }
    forall j | j in sys.jobs ensures JobInv(Apply(sys.db, op), sys.jobs[j]) {
      JobSurvives(sys.db, op, sys.jobs[j]);
    }
  }

  /** Steps that commit nothing keep the invariant: new snapshots are faithful, decisions follow from them. */
  lemma QuietStepKeepsInv(sys: System, event: Event, grace: Time)
    requires SystemInv(sys, grace) && Next(sys, event, grace).db == sys.db
    ensures SystemInv(Next(sys, event, grace), grace)
  {
    InvWeakens(sys.db, sys.clock, Next(sys, event, grace).clock);
  }

  lemma StepKeepsSystemInv(sys: System, event: Event, grace: Time)
    requires SystemInv(sys, grace)
    ensures SystemInv(Next(sys, event, grace), grace)
  {
    var ops := SerialOp(sys, event, grace);
    StepIsSerial(sys, event, grace);
    if ops == [] {
      QuietStepKeepsInv(sys, event, grace);
    } else {
      CommittingStepKeeps(sys, event, grace);
    }
  }

  lemma CommittingStepKeeps(sys: System, event: Event, grace: Time)
    requires SystemInv(sys, grace) && SerialOp(sys, event, grace) != []
    ensures SystemInv(Next(sys, event, grace), grace)
  {
    var op := SerialOp(sys, event, grace)[0];
    assert Next(sys, event, grace).db == Apply(sys.db, op) && WellChosen(sys.db, op) by {
      StepIsSerial(sys, event, grace);
      assert SerialOp(sys, event, grace)[1..] == [];
    }
    assert SystemInv(sys.(db := Apply(sys.db, op)), grace) by { InFlightSurvives(sys, op, grace); }
    assert Fewer(sys, Next(sys, event, grace)) by { CommittingLeaves(sys, event, grace); }
    OneLeaves(sys.(db := Apply(sys.db, op)), Next(sys, event, grace), grace);
  }

  /** The clock stands, calls have gone or are leaving, and jobs have gone; the others are as they were. */
  ghost predicate Fewer(sys: System, sys': System) {
    && sys'.clock == sys.clock
    && (forall c :: c in sys'.calls ==>
          c in sys.calls && sys'.calls[c].snap == sys.calls[c].snap
          && (sys'.calls[c].Leaving? || sys'.calls[c] == sys.calls[c]))
    && (forall j :: j in sys'.jobs ==> j in sys.jobs && sys'.jobs[j] == sys.jobs[j])
  }

  lemma CommittingLeaves(sys: System, event: Event, grace: Time)
    requires SerialOp(sys, event, grace) != []
    ensures Fewer(sys, Next(sys, event, grace))
  {
  }

  /** A call or a job that has written has nothing more to claim. */
  lemma OneLeaves(sys: System, sys': System, grace: Time)
    requires SystemInv(sys, grace) && sys'.db == sys.db && Fewer(sys, sys')
    ensures SystemInv(sys', grace)
  {
    forall c | c in sys'.calls ensures CallInv(sys'.db, sys'.clock, sys'.calls[c], grace) {
      assert CallInv(sys.db, sys.clock, sys.calls[c], grace);
    }
  }

  lemma {:induction false} SerialConcat(db: Db, first: seq<Op>, rest: seq<Op>)
    requires RunWellChosen(db, first) && RunWellChosen(Run(db, first), rest)
    ensures Run(db, first + rest) == Run(Run(db, first), rest)
    ensures RunWellChosen(db, first + rest)
    decreases |first|
  {
    if first == [] {
      assert first + rest == rest;
    } else {
      assert (first + rest)[1..] == first[1..] + rest;
      SerialConcat(Apply(db, first[0]), first[1..], rest);
    }
  }

  /** Every interleaving of refresh calls, jobs and other transactions yields the rows of a serial run. */
  lemma {:induction false} EveryInterleavingIsSerial(sys: System, events: seq<Event>, grace: Time)
    requires SystemInv(sys, grace)
    ensures Steps(sys, events, grace).db == Run(sys.db, SerialRun(sys, events, grace))
    ensures RunWellChosen(sys.db, SerialRun(sys, events, grace))
    ensures SystemInv(Steps(sys, events, grace), grace)
    decreases |events|
  {
    if events != [] {
      StepIsSerial(sys, events[0], grace);
      StepKeepsSystemInv(sys, events[0], grace);
      var sys' := Next(sys, events[0], grace);
      EveryInterleavingIsSerial(sys', events[1..], grace);
      SerialConcat(sys.db, SerialOp(sys, events[0], grace), SerialRun(sys', events[1..], grace));
    }
  }

  function Start(clock: Time): System { System(EMPTY, clock, map[], map[], map[], 0) }

  /** In every reachable state an unexpired session owns one whole chain of tokens ending in its only unused one. */
  lemma ReachableSessionsAreChains(clock: Time, events: seq<Event>, grace: Time, s: Id) returns (chain: seq<Id>)
    requires var sys := Steps(Start(clock), events, grace);
             s in sys.db.sessions && sys.clock < sys.db.sessions[s].expiresAt
    ensures IsChain(Steps(Start(clock), events, grace).db.tokens, s, chain)
  {
    EveryInterleavingIsSerial(Start(clock), events, grace);
    var sys := Steps(Start(clock), events, grace);
    chain :| IsChain(sys.db.tokens, s, chain);
  }

  // ---- Consequences -------------------------------------------------------------------------

  /** How many commits of a run rotate the given token. */
  function Winners(sys: System, events: seq<Event>, tokenId: Id, grace: Time): nat
    decreases |events|
  {
    if events == [] then 0
    else (if Rotates(sys, events[0]) && sys.calls[events[0].call].snap.tokenId == tokenId then 1 else 0)
         + Winners(Next(sys, events[0], grace), events[1..], tokenId, grace)
  }

  /** The token was issued and is used, or its row is gone. */
  ghost predicate Spent(db: Db, tokenId: Id) {
    tokenId < db.nextId && (tokenId in db.tokens ==> db.tokens[tokenId].usedAt.Some?)
  }

  lemma SpentIsAbsorbing(db: Db, op: Op, tokenId: Id)
    requires Spent(db, tokenId)
    ensures Spent(Apply(db, op), tokenId)
  {
  }

  lemma {:induction false} NoWinnerOnceSpent(sys: System, events: seq<Event>, tokenId: Id, grace: Time)
    requires SystemInv(sys, grace) && Spent(sys.db, tokenId)
    ensures Winners(sys, events, tokenId, grace) == 0
    decreases |events|
  {
    if events != [] {
      StepIsSerial(sys, events[0], grace);
      StepKeepsSystemInv(sys, events[0], grace);
      var ops := SerialOp(sys, events[0], grace);
      if ops != [] {
        SpentIsAbsorbing(sys.db, ops[0], tokenId);
        assert ops[1..] == [];
      }
      NoWinnerOnceSpent(Next(sys, events[0], grace), events[1..], tokenId, grace);
    }
  }

  /** However many calls present one refresh token, at most one of them ever rotates it. */
  lemma {:induction false} AtMostOneWinner(sys: System, events: seq<Event>, tokenId: Id, grace: Time)
    requires SystemInv(sys, grace)
    ensures Winners(sys, events, tokenId, grace) <= 1
    decreases |events|
  {
    if events != [] {
      StepKeepsSystemInv(sys, events[0], grace);
      var sys' := Next(sys, events[0], grace);
      if Rotates(sys, events[0]) && sys.calls[events[0].call].snap.tokenId == tokenId {
        NoWinnerOnceSpent(sys', events[1..], tokenId, grace);
      } else {
        AtMostOneWinner(sys', events[1..], tokenId, grace);
      }
    }
  }

  /** How many commits of a run rotate any token of the given session. */
  function SessionRotations(sys: System, events: seq<Event>, sessionId: Id, grace: Time): nat
    decreases |events|
  {
    if events == [] then 0
    else (if Rotates(sys, events[0]) && sys.calls[events[0].call].snap.token.sessionId == sessionId then 1 else 0)
         + SessionRotations(Next(sys, events[0], grace), events[1..], sessionId, grace)
  }

  /** Once a session leaves ACTIVE no call in flight, however stale its read, rotates any of its tokens. */
  lemma {:induction false} RetiredSessionsNeverRotate(sys: System, events: seq<Event>, sessionId: Id, grace: Time)
    requires SystemInv(sys, grace) && Retired(sys.db, sessionId)
    ensures SessionRotations(sys, events, sessionId, grace) == 0
    ensures Retired(Steps(sys, events, grace).db, sessionId)
    decreases |events|
  {
    if events != [] {
      StepIsSerial(sys, events[0], grace);
      StepKeepsSystemInv(sys, events[0], grace);
      var ops := SerialOp(sys, events[0], grace);
      if ops != [] {
        RetiredIsAbsorbing(sys.db, ops[0], sessionId);
        assert ops[1..] == [];
      }
      RetiredSessionsNeverRotate(Next(sys, events[0], grace), events[1..], sessionId, grace);
    }
  }

  /**
   * A used token presented after the grace period compromises its session: the commit closes
   * the session and revokes every token of it, whatever else ran since the call read its row.
   */
  lemma ReuseCompromises(sys: System, call: Id, grace: Time)
    requires SystemInv(sys, grace) && Compromises(sys, Commit(call))
    ensures var snap, db' := sys.calls[call].snap, Next(sys, Commit(call), grace).db;
            && db'.sessions[snap.token.sessionId].status == COMPROMISED
            && db'.tokens[snap.tokenId].reuseDetectedAt == Some(sys.calls[call].now)
            && (forall t :: t in db'.tokens && db'.tokens[t].sessionId == snap.token.sessionId ==>
                 db'.tokens[t].revokedAt.Some?)
            && Retired(db', snap.token.sessionId)
  {
    CommitIsAtomic(sys.db, sys.calls[call], sys.clock, grace);
  }

  /** The lock's release takes away only a lease that the releasing call itself wrote. */
  lemma ReleaseOwnOnly(sys: System, call: Id, grace: Time, sessionId: Id)
    requires Held(sys.locks, sessionId, sys.clock)
    requires call in sys.calls && sys.calls[call].Leaving? && sys.locks[sessionId].owner != sys.calls[call].lock
    ensures Held(Next(sys, Release(call), grace).locks, sessionId, sys.clock)
  {
    var c := sys.calls[call];
    ReleaseSparesOthers(sys.locks, c.snap.token.sessionId, c.lock, sys.clock, sessionId);
  }
}
