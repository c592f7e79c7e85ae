/**
 * Logins, logouts, expiry and upgrades by the fields of the rows: what is opened, what is closed
 * and why, and which answer an upgrade gives.
 */
module SessionOutcomes {
  import opened Common
  import opened SessionRows

  // ---- Opening ------------------------------------------------------------------------------

  /** One ACTIVE session and its first token, with the same owner, level and expiry; nothing else has changed. */
  ghost predicate Opened(before: Db, after: Db, userId: Id, level: SessionLevel, expiresAt: Time) {
    var sid, tid := before.nextId, before.nextId + 1;
    && after.nextId == before.nextId + 2 && after.upgrades == before.upgrades
    && after.sessions == before.sessions[sid := Session(userId, level, ACTIVE, expiresAt, None, None, None, 0)]
    && after.tokens == before.tokens[tid := Token(userId, sid, level, 0, expiresAt, None, None, None, false, None)]
  }

  lemma CreationOpens(db: Db, userId: Id, level: SessionLevel, expiresAt: Time)
    ensures Opened(db, Created(db, userId, level, expiresAt), userId, level, expiresAt)
  {
  }

  // ---- Closing ------------------------------------------------------------------------------

  /** The chosen sessions that are ACTIVE end in `status` for `reason`; every other session is as it was. */
  ghost predicate Closes(before: map<Id, Session>, after: map<Id, Session>, sids: set<Id>, status: SessionStatus,
                         reason: Reason, now: Time) {
    && after.Keys == before.Keys
    && forall s :: s in before ==>
         if s in sids && before[s].status == ACTIVE
         then after[s] == before[s].(status := status, reason := Some(reason), revokedAt := Some(now),
                                     version := before[s].version + 1)
         else after[s] == before[s]
  }

  /** The unrevoked tokens of the chosen sessions are revoked; every other token is as it was. */
  ghost predicate Revokes(before: map<Id, Token>, after: map<Id, Token>, sids: set<Id>, now: Time, flagged: bool) {
    && after.Keys == before.Keys
    && forall t :: t in before ==>
         if before[t].sessionId in sids && before[t].revokedAt == None
         then after[t] == before[t].(revokedAt := Some(now), revoked := before[t].revoked || flagged)
         else after[t] == before[t]
  }

  lemma LogoutCloses(db: Db, sids: set<Id>, reason: Reason, now: Time)
    requires reason != REFRESH_TOKEN_REUSE && reason != SESSION_EXPIRED
    ensures Closes(db.sessions, LoggedOut(db, sids, reason, now).sessions, sids, REVOKED, reason, now)
    ensures Revokes(db.tokens, LoggedOut(db, sids, reason, now).tokens, sids, now, false)
  {
  }

  lemma ExpiryCloses(db: Db, sids: set<Id>, now: Time)
    ensures Closes(db.sessions, SessionsExpired(db, sids, now).sessions, sids, EXPIRED, SESSION_EXPIRED, now)
    ensures Revokes(db.tokens, SessionsExpired(db, sids, now).tokens, sids, now, true)
  {
  }

  /** Purges take the chosen rows, and with a session its tokens; every other row is as it was. */
  lemma PurgesExactly(db: Db, ids: set<Id>, keys: set<UpgradeKey>)
    ensures WithoutTokens(db, ids) == db.(tokens := map t | t in db.tokens && t !in ids :: db.tokens[t])
    ensures WithoutSessions(db, ids) == db.(sessions := map s | s in db.sessions && s !in ids :: db.sessions[s],
                                            tokens := map t | t in db.tokens
                                                && db.tokens[t].sessionId !in ids :: db.tokens[t])
    ensures WithoutUpgrades(db, keys) == db.(upgrades := map k | k in db.upgrades && k !in keys :: db.upgrades[k])
  {
    var tokens := map t | t in db.tokens && t !in ids :: db.tokens[t];
    assert db.tokens - ids == tokens;
    var sessions := map s | s in db.sessions && s !in ids :: db.sessions[s];
    assert db.sessions - ids == sessions;
    var detached := map t | t in db.tokens && db.tokens[t].sessionId !in ids :: db.tokens[t];
    assert db.tokens - TokensOfSessions(db, ids) == detached;
    var upgrades := map k | k in db.upgrades && k !in keys :: db.upgrades[k];
    assert db.upgrades - keys == upgrades;
  }

  // ---- Upgrading ----------------------------------------------------------------------------

  /** A limited session of the caller, ACTIVE and not expired. */
  predicate MayUpgrade(sessions: map<Id, Session>, request: UpgradeRequest, now: Time) {
    && request.sessionId in sessions
    && sessions[request.sessionId].userId == request.userId
    && sessions[request.sessionId].status == ACTIVE
    && sessions[request.sessionId].level == LIMITED
    && now < sessions[request.sessionId].expiresAt
  }

  /** The answer, by the first condition that fails; without any, the session is replaced. */
  ghost predicate RightAnswer(db: Db, request: UpgradeRequest, key: string, now: Time, who: Eligibility,
                              outcome: UpgradeOutcome) {
    var unique := UpgradeKey(request.sessionId, key);
    if unique in db.upgrades && db.upgrades[unique].request != request then outcome == KeyReused
    else if unique in db.upgrades && db.upgrades[unique].response.Some? && now < db.upgrades[unique].expiresAt then
      outcome == Replayed(db.upgrades[unique].response.value)
    else if unique in db.upgrades then outcome == InProgress
    else if !MayUpgrade(db.sessions, request, now) then outcome == AlreadyUpgraded
    else if !who.accountActive || !who.identityVerified then outcome == IdentityNotVerified
    else if !who.attemptPassed then outcome == AttemptInvalid
    else outcome == UpgradedTo(UpgradeResult(request.userId, db.nextId, db.nextId + 1, request.transport))
  }

  /** The rows after an upgrade: the limited session closed, a full one opened, and the answer kept for the same key. */
  ghost predicate Replaced(before: Db, after: Db, request: UpgradeRequest, key: string, now: Time,
                           ttl: UpgradeLifetimes) {
    var closed := Closed(before, {request.sessionId}, TokensOfSessions(before, {request.sessionId}),
                         LIMITED_TO_FULL_SESSION_UPGRADE, now, true);
    && Closes(before.sessions, closed.sessions, {request.sessionId}, REVOKED, LIMITED_TO_FULL_SESSION_UPGRADE, now)
    && Revokes(before.tokens, closed.tokens, {request.sessionId}, now, true)
    && closed.nextId == before.nextId && closed.upgrades == before.upgrades
    && Opened(closed, after.(upgrades := before.upgrades), request.userId, FULL, now + ttl.refresh)
    && after.upgrades == before.upgrades[UpgradeKey(request.sessionId, key) := UpgradeRecord(
         request, Some(UpgradeResult(request.userId, before.nextId, before.nextId + 1, request.transport)),
             now + ttl.record)]
  }

  /** The answer and the rows of every upgrade, first or repeated. */
  lemma UpgradeExactly(db: Db, request: UpgradeRequest, key: string, now: Time, who: Eligibility, ttl: UpgradeLifetimes)
    ensures var outcome := UpgradeOutcomeFor(db, request, key, now, who);
            && RightAnswer(db, request, key, now, who, outcome)
            && (if outcome.UpgradedTo?
                 then Replaced(db, Upgraded(db, request, key, now, who, ttl), request, key, now, ttl)
                else Upgraded(db, request, key, now, who, ttl) == db)
  {
  }
}
