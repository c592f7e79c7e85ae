/**
 * What one refresh call does, from its read to its commit, by the fields of the rows it read and
 * of the rows it finds: other calls, jobs and transactions run in every gap between its steps.
 */
module RefreshOutcomes {
  import opened Common
  import opened SessionRows
  import opened SessionInvariant
  import opened RefreshProtocol

  /** What the others do between reading and locking, locking and deciding, deciding and committing. */
  datatype Gaps = Gaps(read: seq<Event>, lock: seq<Event>, decision: seq<Event>)

  predicate Others(events: seq<Event>, call: Id) {
    forall e :: e in events && (e.Read? || e.Acquire? || e.Decide? || e.Commit? || e.Release? || e.Crash?) ==>
        e.call != call
  }

  predicate Alone(gaps: Gaps, call: Id) {
    Others(gaps.read, call) && Others(gaps.lock, call) && Others(gaps.decision, call)
  }

  function BeforeLock(sys: System, call: Id, tokenId: Id, gaps: Gaps, grace: Time): System {
    Steps(Next(sys, Read(call, tokenId), grace), gaps.read, grace)
  }

  function BeforeDecision(sys: System, call: Id, tokenId: Id, gaps: Gaps, grace: Time): System {
    Steps(Next(BeforeLock(sys, call, tokenId, gaps, grace), Acquire(call), grace), gaps.lock, grace)
  }

  function BeforeCommit(sys: System, call: Id, tokenId: Id, gaps: Gaps, grace: Time): System {
    Steps(Next(BeforeDecision(sys, call, tokenId, gaps, grace), Decide(call), grace), gaps.decision, grace)
  }

  function AfterCommit(sys: System, call: Id, tokenId: Id, gaps: Gaps, grace: Time): System {
    Next(BeforeCommit(sys, call, tokenId, gaps, grace), Commit(call), grace)
  }

  /** No unexpired lock of the session stands in the way. */
  predicate Free(sys: System, sessionId: Id) {
    sessionId in sys.locks ==> sys.locks[sessionId].expiresAt <= sys.clock
  }

  /** The call begins on rows that exist, and the others let it run. */
  ghost predicate Runs(sys: System, call: Id, tokenId: Id, gaps: Gaps, grace: Time) {
    && SystemInv(sys, grace) && Alone(gaps, call) && call !in sys.calls
    && tokenId in sys.db.tokens
    && Free(BeforeLock(sys, call, tokenId, gaps, grace), sys.db.tokens[tokenId].sessionId)
  }

  lemma OthersLeaveCall(sys: System, event: Event, call: Id, grace: Time)
    requires Others([event], call)
    ensures call in Next(sys, event, grace).calls <==> call in sys.calls
    ensures call in sys.calls ==> Next(sys, event, grace).calls[call] == sys.calls[call]
  {
    assert event in [event];
  }

  lemma {:induction false} OthersLeaveCallThroughout(sys: System, events: seq<Event>, call: Id, grace: Time)
    requires Others(events, call) && SystemInv(sys, grace)
    ensures SystemInv(Steps(sys, events, grace), grace)
    ensures sys.clock <= Steps(sys, events, grace).clock
    ensures call in Steps(sys, events, grace).calls <==> call in sys.calls
    ensures call in sys.calls ==> Steps(sys, events, grace).calls[call] == sys.calls[call]
    decreases |events|
  {
    if events != [] {
      OthersLeaveCall(sys, events[0], call, grace);
      StepKeepsSystemInv(sys, events[0], grace);
      OthersLeaveCallThroughout(Next(sys, events[0], grace), events[1..], call, grace);
    }
  }

  /** The call arrives at its decision with the lock and with the rows it read. */
  lemma ArrivesAtDecision(sys: System, call: Id, tokenId: Id, gaps: Gaps, grace: Time)
    requires Runs(sys, call, tokenId, gaps, grace)
    ensures var token, s := sys.db.tokens[tokenId], BeforeDecision(sys, call, tokenId, gaps, grace);
            && token.sessionId in sys.db.sessions
            && SystemInv(s, grace) && sys.clock <= s.clock
            && call in s.calls && s.calls[call].Locked?
            && s.calls[call].snap == Snapshot(tokenId, token, sys.db.sessions[token.sessionId])
  {
    var s1 := Next(sys, Read(call, tokenId), grace);
    StepKeepsSystemInv(sys, Read(call, tokenId), grace);
    OthersLeaveCallThroughout(s1, gaps.read, call, grace);
    var s2 := BeforeLock(sys, call, tokenId, gaps, grace);
    StepKeepsSystemInv(s2, Acquire(call), grace);
    OthersLeaveCallThroughout(Next(s2, Acquire(call), grace), gaps.lock, call, grace);
  }

  /** What it decided stands at its commit. */
  lemma ArrivesAtCommit(sys: System, call: Id, tokenId: Id, gaps: Gaps, grace: Time)
    requires Runs(sys, call, tokenId, gaps, grace)
    ensures var s, t := BeforeDecision(sys, call, tokenId, gaps, grace), BeforeCommit(sys, call, tokenId, gaps, grace);
            && SystemInv(t, grace) && s.clock <= t.clock
            && call in t.calls && call in Next(s, Decide(call), grace).calls
            && Next(s, Decide(call), grace).calls[call] == t.calls[call]
  {
    ArrivesAtDecision(sys, call, tokenId, gaps, grace);
    var s := BeforeDecision(sys, call, tokenId, gaps, grace);
    StepKeepsSystemInv(s, Decide(call), grace);
    OthersLeaveCallThroughout(Next(s, Decide(call), grace), gaps.decision, call, grace);
  }

  /** The rows after reuse was committed. */
  ghost predicate Ended(found: Db, after: Db, tokenId: Id, sid: Id, now: Time) {
    if tokenId !in found.tokens then after == found
    else
      && after.nextId == found.nextId && after.upgrades == found.upgrades
      && after.sessions.Keys == found.sessions.Keys && after.tokens.Keys == found.tokens.Keys
      && sid in after.sessions && after.sessions[sid].status == COMPROMISED
      && after.sessions[sid].reason == Some(REFRESH_TOKEN_REUSE) && after.sessions[sid].revokedAt == Some(now)
      && (forall s :: s in found.sessions && s != sid ==> after.sessions[s] == found.sessions[s])
      && tokenId in after.tokens && after.tokens[tokenId].reuseDetectedAt == Some(now)
      && (forall t :: t in found.tokens ==>
            if found.tokens[t].sessionId == sid
                then after.tokens[t].sessionId == sid && after.tokens[t].revokedAt == Some(now)
            else after.tokens[t] == found.tokens[t])
  }

  lemma CompromiseEnds(sys: System, call: Id, grace: Time)
    requires SystemInv(sys, grace) && call in sys.calls && sys.calls[call].Compromising?
    ensures var c := sys.calls[call];
            Ended(sys.db, Next(sys, Commit(call), grace).db, c.snap.tokenId, c.snap.token.sessionId, c.now)
  {
    assert CallInv(sys.db, sys.clock, sys.calls[call], grace);
  }

  /**
   * A token used longer ago than the grace period: unless its row has been purged meanwhile, the
   * session ends COMPROMISED, all its tokens revoked, whatever ran in between.
   */
  lemma ReuseAfterGraceCompromises(sys: System, call: Id, tokenId: Id, gaps: Gaps, grace: Time)
    requires Runs(sys, call, tokenId, gaps, grace)
    requires sys.db.tokens[tokenId].usedAt.Some?
    requires BeforeDecision(sys, call, tokenId, gaps, grace).clock - sys.db.tokens[tokenId].usedAt.value > grace
    ensures Ended(BeforeCommit(sys, call, tokenId, gaps, grace).db, AfterCommit(sys, call, tokenId, gaps, grace).db,
                  tokenId,
                  sys.db.tokens[tokenId].sessionId, BeforeDecision(sys, call, tokenId, gaps, grace).clock)
  {
    ArrivesAtDecision(sys, call, tokenId, gaps, grace);
    ArrivesAtCommit(sys, call, tokenId, gaps, grace);
    CompromiseEnds(BeforeCommit(sys, call, tokenId, gaps, grace), call, grace);
  }

  /** A token used within the grace period: the call changes no row. */
  lemma ReuseWithinGraceChangesNothing(sys: System, call: Id, tokenId: Id, gaps: Gaps, grace: Time)
    requires Runs(sys, call, tokenId, gaps, grace)
    requires sys.db.tokens[tokenId].usedAt.Some?
    requires BeforeDecision(sys, call, tokenId, gaps, grace).clock - sys.db.tokens[tokenId].usedAt.value <= grace
    ensures AfterCommit(sys, call, tokenId, gaps, grace).db == BeforeCommit(sys, call, tokenId, gaps, grace).db
  {
    ArrivesAtDecision(sys, call, tokenId, gaps, grace);
    ArrivesAtCommit(sys, call, tokenId, gaps, grace);
  }

  /** An unused token that is revoked or expired, or whose session is over, when the call decides: no row changes. */
  lemma UnusableChangesNothing(sys: System, call: Id, tokenId: Id, gaps: Gaps, grace: Time)
    requires Runs(sys, call, tokenId, gaps, grace)
    requires var token, session := sys.db.tokens[tokenId], sys.db.sessions[sys.db.tokens[tokenId].sessionId];
             var now := BeforeDecision(sys, call, tokenId, gaps, grace).clock;
             && token.usedAt == None
             && (token.revokedAt.Some? || token.expiresAt <= now || session.status != ACTIVE
                 || session.expiresAt <= now)
    ensures AfterCommit(sys, call, tokenId, gaps, grace).db == BeforeCommit(sys, call, tokenId, gaps, grace).db
  {
    ArrivesAtDecision(sys, call, tokenId, gaps, grace);
    ArrivesAtCommit(sys, call, tokenId, gaps, grace);
  }

  /** The old token is used at `now` and names a successor of the next generation that is otherwise its equal. */
  predicate Follows(read: Token, spent: Token, next: Token, nextId: Id, now: Time) {
    && spent == read.(usedAt := Some(now), replacedBy := Some(nextId))
    && next.userId == read.userId && next.sessionId == read.sessionId && next.tokenType == read.tokenType
    && next.generation == read.generation + 1 && next.expiresAt == read.expiresAt
    && next.usedAt == None && next.replacedBy == None && next.revokedAt == None && !next.revoked
    && next.reuseDetectedAt == None
  }

  /** One token has been followed by one new token; of the other rows only the session's last use has moved. */
  ghost predicate Succeeded(before: Db, after: Db, tokenId: Id, now: Time) {
    && tokenId in before.tokens && before.nextId !in before.tokens
    && after.tokens.Keys == before.tokens.Keys + {before.nextId}
    && Follows(before.tokens[tokenId], after.tokens[tokenId], after.tokens[before.nextId], before.nextId, now)
    && (forall t :: t in before.tokens && t != tokenId ==> after.tokens[t] == before.tokens[t])
    && before.tokens[tokenId].sessionId in before.sessions
    && after.sessions == Touched(before.sessions, before.tokens[tokenId].sessionId, now)
    && after.upgrades == before.upgrades
  }

  function Touched(sessions: map<Id, Session>, sid: Id, now: Time): map<Id, Session>
    requires sid in sessions
  {
    sessions[sid := sessions[sid].(lastUsedAt := Some(now), version := sessions[sid].version + 1)]
  }

  predicate StillUsable(db: Db, tokenId: Id, sid: Id) {
    && tokenId in db.tokens && db.tokens[tokenId].usedAt == None && db.tokens[tokenId].revokedAt == None
    && sid in db.sessions && db.sessions[sid].status == ACTIVE
  }

  lemma RotationSucceeds(sys: System, call: Id, grace: Time)
    requires SystemInv(sys, grace) && call in sys.calls && sys.calls[call].Rotating?
    requires var c := sys.calls[call]; c.now < c.snap.token.expiresAt && c.now < c.snap.session.expiresAt
    ensures var c := sys.calls[call];
            if StillUsable(sys.db, c.snap.tokenId, c.snap.token.sessionId)
            then Succeeded(sys.db, Next(sys, Commit(call), grace).db, c.snap.tokenId, c.now)
            else Next(sys, Commit(call), grace).db == sys.db
  {
    var c := sys.calls[call];
    assert CallInv(sys.db, sys.clock, c, grace);
    if StillUsable(sys.db, c.snap.tokenId, c.snap.token.sessionId) {
      assert sys.db.nextId !in sys.db.tokens;
      assert sys.db.tokens[c.snap.tokenId].sessionId == c.snap.token.sessionId;
    }
  }

  /**
   * An unused token, usable when the call decides, rotates exactly when at the commit its row is
   * still there, unused and unrevoked, and its session still ACTIVE; otherwise no row changes.
   */
  lemma UsableTokenRotatesExactly(sys: System, call: Id, tokenId: Id, gaps: Gaps, grace: Time)
    requires Runs(sys, call, tokenId, gaps, grace)
    requires var token, session := sys.db.tokens[tokenId], sys.db.sessions[sys.db.tokens[tokenId].sessionId];
             var now := BeforeDecision(sys, call, tokenId, gaps, grace).clock;
             && token.usedAt == None && token.revokedAt == None && now < token.expiresAt
             && session.status == ACTIVE && now < session.expiresAt
    ensures var found, db := BeforeCommit(sys, call, tokenId, gaps, grace).db,
            AfterCommit(sys, call, tokenId, gaps, grace).db;
            if StillUsable(found, tokenId, sys.db.tokens[tokenId].sessionId)
            then Succeeded(found, db, tokenId, BeforeDecision(sys, call, tokenId, gaps, grace).clock)
            else db == found
  {
    ArrivesAtDecision(sys, call, tokenId, gaps, grace);
    ArrivesAtCommit(sys, call, tokenId, gaps, grace);
    RotationSucceeds(BeforeCommit(sys, call, tokenId, gaps, grace), call, grace);
  }

  /** With nothing in between, such a token always rotates. */
  lemma UndisturbedTokenRotates(sys: System, call: Id, tokenId: Id, grace: Time)
    requires Runs(sys, call, tokenId, Gaps([], [], []), grace)
    requires var token, session := sys.db.tokens[tokenId], sys.db.sessions[sys.db.tokens[tokenId].sessionId];
             && token.usedAt == None && token.revokedAt == None && sys.clock < token.expiresAt
             && session.status == ACTIVE && sys.clock < session.expiresAt
    ensures Succeeded(sys.db, AfterCommit(sys, call, tokenId, Gaps([], [], []), grace).db, tokenId, sys.clock)
  {
    ArrivesAtDecision(sys, call, tokenId, Gaps([], [], []), grace);
    UsableTokenRotatesExactly(sys, call, tokenId, Gaps([], [], []), grace);
  }

  /** While a lock of the session runs, another call ends without a decision and without touching a row or the lock. */
  lemma LockedSessionTurnsAway(sys: System, call: Id, grace: Time)
    requires call in sys.calls && sys.calls[call].Unlocked?
    requires var sid := sys.calls[call].snap.token.sessionId; sid in sys.locks && sys.clock < sys.locks[sid].expiresAt
    ensures var sys' := Next(sys, Acquire(call), grace);
            call !in sys'.calls && sys'.db == sys.db && sys'.locks == sys.locks
  {
  }
}
