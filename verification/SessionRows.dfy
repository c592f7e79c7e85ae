/**
 * The session, refresh-token and session-upgrade rows, and the effect that each committed
 * transaction has on them. A refresh token is named by the key of its row: digests are
 * unique and never reissued, so presenting a token and naming its row are the same thing.
 */
module SessionRows {
  import opened Common

  datatype SessionStatus = ACTIVE | REVOKED | EXPIRED | COMPROMISED

  datatype SessionLevel = LIMITED | FULL

  datatype Reason =
    | REFRESH_TOKEN_REUSE
    | LIMITED_TO_FULL_SESSION_UPGRADE
    | PASSWORD_CHANGED
    | SESSION_EXPIRED
    | USER_LOGOUT
    | USER_LOGOUT_ALL
    | USER_SESSION_REVOKED

  datatype Session = Session(
    userId: Id,
    level: SessionLevel,
    status: SessionStatus,
    expiresAt: Time,
    lastUsedAt: Option<Time>,
    revokedAt: Option<Time>,
    reason: Option<Reason>,
    version: nat)

  datatype Token = Token(
    userId: Id,
    sessionId: Id,
    tokenType: SessionLevel,
    generation: nat,
    expiresAt: Time,
    usedAt: Option<Time>,
    replacedBy: Option<Id>,
    revokedAt: Option<Time>,
    revoked: bool,
    reuseDetectedAt: Option<Time>)

  datatype Transport = COOKIE | NATIVE

  /** The upgrade request whose keyed digest is stored; the digest is injective, so it is the request itself. */
  datatype UpgradeRequest = UpgradeRequest(userId: Id, sessionId: Id, attemptId: Id, transport: Transport)

  datatype UpgradeResult = UpgradeResult(userId: Id, sessionId: Id, tokenId: Id, transport: Transport)

  /** A response is present exactly when the record is COMPLETED. */
  datatype UpgradeRecord = UpgradeRecord(request: UpgradeRequest, response: Option<UpgradeResult>, expiresAt: Time)

  /** Upgrade records are unique per scope, which names the limited session, and idempotency key. */
  datatype UpgradeKey = UpgradeKey(sessionId: Id, key: string)

  datatype Db = Db(
    sessions: map<Id, Session>,
    tokens: map<Id, Token>,
    upgrades: map<UpgradeKey, UpgradeRecord>,
    nextId: Id)

  const EMPTY := Db(map[], map[], map[], 0)

  // ---- Session creation: login and passkey login -------------------------------------------

  function NewSession(userId: Id, level: SessionLevel, expiresAt: Time): Session {
    Session(userId, level, ACTIVE, expiresAt, None, None, None, 0)
  }

  function NewToken(userId: Id, sessionId: Id, level: SessionLevel, generation: nat, expiresAt: Time): Token {
    Token(userId, sessionId, level, generation, expiresAt, None, None, None, false, None)
  }

  /** A new ACTIVE session together with its generation-zero refresh token. */
  function Created(db: Db, userId: Id, level: SessionLevel, expiresAt: Time): Db {
    var sid, tid := db.nextId, db.nextId + 1;
    db.(sessions := db.sessions[sid := NewSession(userId, level, expiresAt)],
        tokens := db.tokens[tid := NewToken(userId, sid, level, 0, expiresAt)],
        nextId := db.nextId + 2)
  }

  // ---- Refresh ----------------------------------------------------------------------------

  /** What a refresh call read before it took the lock: the token's row joined with its session's row. */
  datatype Snapshot = Snapshot(tokenId: Id, token: Token, session: Session)

  /** The guards of the two updates inside the rotation transaction. */
  predicate CanRotate(db: Db, tokenId: Id, sessionId: Id, now: Time) {
    && sessionId in db.sessions
    && db.sessions[sessionId].status == ACTIVE
    && now < db.sessions[sessionId].expiresAt
    && tokenId in db.tokens
    && db.tokens[tokenId].usedAt == None
    && db.tokens[tokenId].revokedAt == None
    && now < db.tokens[tokenId].expiresAt
  }

  /** Rotation consumes the token and links it to a successor built from the snapshot's fields. */
  function Rotated(db: Db, snap: Snapshot, now: Time): Db
    requires CanRotate(db, snap.tokenId, snap.token.sessionId, now)
  {
    var sid, tid, next := snap.token.sessionId, snap.tokenId, db.nextId;
    var session := db.sessions[sid];
    var successor :=
        NewToken(snap.token.userId, sid, snap.session.level, snap.token.generation + 1, snap.session.expiresAt);
    db.(sessions := db.sessions[sid := session.(lastUsedAt := Some(now), version := session.version + 1)],
        tokens := db.tokens[next := successor][tid := db.tokens[tid].(usedAt := Some(now), replacedBy := Some(next))],
        nextId := db.nextId + 1)
  }

  /** Reuse handling: every token of the session is revoked and the session becomes COMPROMISED, whatever it was. */
  function Compromised(db: Db, tokenId: Id, sessionId: Id, now: Time): Db
    requires tokenId in db.tokens
  {
    var revoked := map t | t in db.tokens ::
      if db.tokens[t].sessionId == sessionId then db.tokens[t].(revokedAt := Some(now)) else db.tokens[t];
    var sessions := map s | s in db.sessions ::
      if s == sessionId then
        db.sessions[s].(status := COMPROMISED, revokedAt := Some(now), reason := Some(REFRESH_TOKEN_REUSE),
                        version := db.sessions[s].version + 1)
      else db.sessions[s];
    db.(sessions := sessions, tokens := revoked[tokenId := revoked[tokenId].(reuseDetectedAt := Some(now))])
  }

  /**
   * The refresh call as one indivisible step that reads only current rows: the sequential
   * specification that the interleaved protocol is compared with.
   */
  function AtomicRefresh(db: Db, tokenId: Id, now: Time, grace: Time): Db {
    if tokenId !in db.tokens || db.tokens[tokenId].sessionId !in db.sessions then db
    else
      var token := db.tokens[tokenId];
      if token.usedAt.Some? then
        if now - token.usedAt.value <= grace then db else Compromised(db, tokenId, token.sessionId, now)
      else if CanRotate(db, tokenId, token.sessionId, now) then
        Rotated(db, Snapshot(tokenId, token, db.sessions[token.sessionId]), now)
      else db
  }

  // ---- Revocation and expiry ---------------------------------------------------------------

  function StatusFor(reason: Reason): SessionStatus {
    match reason
    case REFRESH_TOKEN_REUSE => COMPROMISED
    case SESSION_EXPIRED => EXPIRED
    case _ => REVOKED
  }

  /** ACTIVE sessions among `sids` are closed for `reason`; unrevoked tokens among `tids` are revoked. */
  function Closed(db: Db, sids: set<Id>, tids: set<Id>, reason: Reason, now: Time, flag: bool): Db {
    db.(sessions := map s | s in db.sessions ::
          if s in sids && db.sessions[s].status == ACTIVE then
            db.sessions[s].(status := StatusFor(reason), revokedAt := Some(now), reason := Some(reason),
                            version := db.sessions[s].version + 1)
          else db.sessions[s],
        tokens := map t | t in db.tokens ::
          if t in tids && db.tokens[t].revokedAt == None then
            db.tokens[t].(revokedAt := Some(now), revoked := db.tokens[t].revoked || flag)
          else db.tokens[t])
  }

  function TokensOfSessions(db: Db, sids: set<Id>): (tids: set<Id>) {
    set t | t in db.tokens && db.tokens[t].sessionId in sids
  }

  function TokensOfUser(db: Db, userId: Id): (tids: set<Id>) {
    set t | t in db.tokens && db.tokens[t].userId == userId
  }

  function SessionsOfUser(db: Db, userId: Id): (sids: set<Id>) {
    set s | s in db.sessions && db.sessions[s].userId == userId
  }

  /** Logout, logout-all and owned-session revocation close the sessions the transaction selected. */
  function LoggedOut(db: Db, sids: set<Id>, reason: Reason, now: Time): Db {
    Closed(db, sids, TokensOfSessions(db, sids), reason, now, false)
  }

  /** Password reset and change close every session of the user and revoke tokens by owner. */
  function PasswordRevoked(db: Db, userId: Id, now: Time): Db {
    Closed(db, SessionsOfUser(db, userId), TokensOfUser(db, userId), PASSWORD_CHANGED, now, true)
  }

  /** The expiry job closes sessions whose keys it read before its transaction began. */
  function SessionsExpired(db: Db, sids: set<Id>, now: Time): Db {
    Closed(db, sids, TokensOfSessions(db, sids), SESSION_EXPIRED, now, true)
  }

  // ---- Retention purges --------------------------------------------------------------------

  function WithoutTokens(db: Db, tids: set<Id>): Db { db.(tokens := db.tokens - tids) }

  /** Deleting a session detaches its tokens; a detached token is rejected by every call and is dropped here. */
  function WithoutSessions(db: Db, sids: set<Id>): Db {
    db.(sessions := db.sessions - sids, tokens := db.tokens - TokensOfSessions(db, sids))
  }

  function WithoutUpgrades(db: Db, keys: set<UpgradeKey>): Db { db.(upgrades := db.upgrades - keys) }

  // ---- Limited-to-full upgrade -------------------------------------------------------------

  /** Facts about the caller that the transaction reads from the user and attempt rows. */
  datatype Eligibility = Eligibility(accountActive: bool, identityVerified: bool, attemptPassed: bool)

  datatype UpgradeOutcome =
    | UpgradedTo(result: UpgradeResult)
    | Replayed(result: UpgradeResult)
    | KeyReused
    | InProgress
    | AlreadyUpgraded
    | IdentityNotVerified
    | AttemptInvalid

  predicate Upgradable(db: Db, request: UpgradeRequest, now: Time) {
    && request.sessionId in db.sessions
    && var s := db.sessions[request.sessionId];
       s.userId == request.userId && s.status == ACTIVE && s.level == LIMITED && now < s.expiresAt
  }

  function UpgradeOutcomeFor(db: Db, request: UpgradeRequest, key: string, now: Time,
                             who: Eligibility): UpgradeOutcome {
    var unique := UpgradeKey(request.sessionId, key);
    if unique in db.upgrades then
      var existing := db.upgrades[unique];
      if existing.request != request then KeyReused
      else if existing.response.Some? && now < existing.expiresAt then Replayed(existing.response.value)
      else InProgress
    else if !Upgradable(db, request, now) then AlreadyUpgraded
    else if !who.accountActive || !who.identityVerified then IdentityNotVerified
    else if !who.attemptPassed then AttemptInvalid
    else UpgradedTo(UpgradeResult(request.userId, db.nextId, db.nextId + 1, request.transport))
  }

  /** Lifetimes the upgrade adds to `now`: of the full session's refresh token, and of the idempotency record. */
  datatype UpgradeLifetimes = UpgradeLifetimes(refresh: Time, record: Time)

  /** Only a first, successful upgrade changes rows; every other outcome rolls back. */
  function Upgraded(db: Db, request: UpgradeRequest, key: string, now: Time, who: Eligibility,
                    ttl: UpgradeLifetimes): Db {
    var outcome := UpgradeOutcomeFor(db, request, key, now, who);
    if !outcome.UpgradedTo? then db
    else
      var sids := {request.sessionId};
      var closed := Closed(db, sids, TokensOfSessions(db, sids), LIMITED_TO_FULL_SESSION_UPGRADE, now, true);
      Created(closed, request.userId, FULL, now + ttl.refresh)
        .(upgrades := db.upgrades[UpgradeKey(request.sessionId, key) :=
                        UpgradeRecord(request, Some(outcome.result), now + ttl.record)])
  }

  // ---- Serial runs -------------------------------------------------------------------------

  /** Every committed transaction on these rows, each one indivisible. */
  datatype Op =
    | Create(userId: Id, level: SessionLevel, expiresAt: Time)
    | Refresh(tokenId: Id, now: Time, grace: Time)
    | Logout(sids: set<Id>, reason: Reason, now: Time)
    | PasswordChange(userId: Id, now: Time)
    | Expire(sids: set<Id>, now: Time)
    | Upgrade(request: UpgradeRequest, key: string, now: Time, who: Eligibility, ttl: UpgradeLifetimes)
    | PurgeTokens(tids: set<Id>, cutoff: Time)
    | PurgeSessions(sids: set<Id>)
    | PurgeUpgrades(keys: set<UpgradeKey>, now: Time)

  function Apply(db: Db, op: Op): Db {
    match op
    case Create(userId, level, expiresAt) => Created(db, userId, level, expiresAt)
    case Refresh(tokenId, now, grace) => AtomicRefresh(db, tokenId, now, grace)
    case Logout(sids, reason, now) => LoggedOut(db, sids, reason, now)
    case PasswordChange(userId, now) => PasswordRevoked(db, userId, now)
    case Expire(sids, now) => SessionsExpired(db, sids, now)
    case Upgrade(request, key, now, who, ttl) => Upgraded(db, request, key, now, who, ttl)
    case PurgeTokens(tids, _) => WithoutTokens(db, tids)
    case PurgeSessions(sids) => WithoutSessions(db, sids)
    case PurgeUpgrades(keys, _) => WithoutUpgrades(db, keys)
  }

  /** What the code itself guarantees about the arguments of a step: how its rows were selected. */
  ghost predicate WellChosen(db: Db, op: Op) {
    match op
    case Logout(_, reason, _) => reason in {USER_LOGOUT, USER_LOGOUT_ALL, USER_SESSION_REVOKED}
    case Expire(sids, now) => forall s :: s in sids && s in db.sessions ==> db.sessions[s].expiresAt <= now
    case PurgeTokens(tids, cutoff) => forall t :: t in tids && t in db.tokens ==> db.tokens[t].expiresAt <= cutoff
    case PurgeSessions(sids) => forall s :: s in sids && s in db.sessions ==> db.sessions[s].status != ACTIVE
    case PurgeUpgrades(keys, now) => forall k :: k in keys && k in db.upgrades ==> db.upgrades[k].expiresAt <= now
    case _ => true
  }

  function Run(db: Db, ops: seq<Op>): Db
    decreases |ops|
  {
    if ops == [] then db else Run(Apply(db, ops[0]), ops[1..])
  }

  ghost predicate RunWellChosen(db: Db, ops: seq<Op>)
    decreases |ops|
  {
    ops == [] || (WellChosen(db, ops[0]) && RunWellChosen(Apply(db, ops[0]), ops[1..]))
  }
}
