/**
 * The transactions as the services perform them: guarded updates one after the other, with a
 * rollback when a guard finds no row. Each is proved equal to its effect in `SessionRows`.
 */
module SessionStore {
  import opened Common
  import opened SessionRows
  import O = SessionOutcomes

  const REVOCATION_BATCH := 100

  function ActiveAmong(sessions: map<Id, Session>, matching: set<Id>): set<Id> {
    set s | s in sessions && s in matching && sessions[s].status == ACTIVE
  }

  /** What stays ACTIVE after a bounded revocation is exactly what was not selected. */
  lemma ActiveAfterLogout(db: Db, selected: set<Id>, matching: set<Id>, reason: Reason, now: Time)
    requires StatusFor(reason) != ACTIVE
    ensures ActiveAmong(LoggedOut(db, selected, reason, now).sessions, matching)
            == ActiveAmong(db.sessions, matching) - selected
  {
  }

  /** A full batch leaves nothing exactly when there was no more than a batch. */
  lemma NoneLeft<T>(selected: set<T>, active: set<T>)
    requires selected <= active && |selected| == Min(REVOCATION_BATCH, |active|)
    ensures active - selected == {} <==> |active| <= REVOCATION_BATCH
  {
    assert |active - selected| == |active| - |selected|;
  }

  lemma NoneActiveLeft(db: Db, selected: set<Id>, matching: set<Id>, reason: Reason, now: Time)
    requires StatusFor(reason) != ACTIVE && selected <= ActiveAmong(db.sessions, matching)
    requires |selected| == Min(REVOCATION_BATCH, |ActiveAmong(db.sessions, matching)|)
    ensures var after := LoggedOut(db, selected, reason, now).sessions;
            (forall s :: s in after && s in matching ==> after[s].status != ACTIVE)
            <==> |ActiveAmong(db.sessions, matching)| <= REVOCATION_BATCH
  {
    var after := LoggedOut(db, selected, reason, now).sessions;
    ActiveAfterLogout(db, selected, matching, reason, now);
    NoneLeft(selected, ActiveAmong(db.sessions, matching));
    if forall s :: s in after && s in matching ==> after[s].status != ACTIVE {
      assert ActiveAmong(after, matching) == {};
    } else {
      var s :| s in after && s in matching && after[s].status == ACTIVE;
      assert s in ActiveAmong(after, matching);
    }
  }

  class AuthStore {
    var sessions: map<Id, Session>
    var tokens: map<Id, Token>
    var upgrades: map<UpgradeKey, UpgradeRecord>
    var nextId: Id

    ghost function Rows(): Db
      reads this
    {
      Db(sessions, tokens, upgrades, nextId)
    }

    constructor ()
      ensures Rows() == EMPTY
    {
      sessions, tokens, upgrades, nextId := map[], map[], map[], 0;
    }

    /** The session-creating transaction of login and of passkey login. */
    method CreateSession(userId: Id, level: SessionLevel, expiresAt: Time) returns (sessionId: Id, tokenId: Id)
      modifies this`sessions, this`tokens, this`nextId
      ensures Rows() == Created(old(Rows()), userId, level, expiresAt)
      ensures O.Opened(old(Rows()), Rows(), userId, level, expiresAt)
      ensures sessionId == old(nextId) && tokenId == old(nextId) + 1
    {
      sessionId := nextId;
      sessions := sessions[sessionId := NewSession(userId, level, expiresAt)];
      tokenId := nextId + 1;
      tokens := tokens[tokenId := NewToken(userId, sessionId, level, 0, expiresAt)];
      nextId := nextId + 2;
    }

    /** The rotation transaction of a refresh call; `None` when either guard fails and everything is undone. */
    method Rotate(snap: Snapshot, now: Time) returns (replacement: Option<Id>)
      requires snap.tokenId < nextId
      modifies this
      ensures replacement.Some? <==>
                && snap.token.sessionId in old(sessions) && old(sessions)[snap.token.sessionId].status == ACTIVE
                && now < old(sessions)[snap.token.sessionId].expiresAt
                && snap.tokenId in old(tokens) && old(tokens)[snap.tokenId].usedAt == None
                && old(tokens)[snap.tokenId].revokedAt == None && now < old(tokens)[snap.tokenId].expiresAt
      ensures replacement.Some? ==> replacement.value == old(nextId) && Rows() == Rotated(old(Rows()), snap, now)
      ensures replacement.None? ==> Rows() == old(Rows())
    {
      var sessions0, tokens0, nextId0 := sessions, tokens, nextId;
      var sid, tid := snap.token.sessionId, snap.tokenId;
      if sid !in sessions || sessions[sid].status != ACTIVE || sessions[sid].expiresAt <= now {
        return None;
      }
      sessions := sessions[sid := sessions[sid].(lastUsedAt := Some(now), version := sessions[sid].version + 1)];
      var created := nextId;
      tokens :=
          tokens[created :=
              NewToken(snap.token.userId, sid, snap.session.level, snap.token.generation + 1, snap.session.expiresAt)];
      nextId := nextId + 1;
      if tid !in tokens || tokens[tid].usedAt != None || tokens[tid].revokedAt != None || tokens[tid].expiresAt <= now {
        sessions, tokens, nextId := sessions0, tokens0, nextId0;
        return None;
      }
      tokens := tokens[tid := tokens[tid].(usedAt := Some(now), replacedBy := Some(created))];
      return Some(created);
    }

    /** The reuse transaction: tokens first, then the presented token, then the session. */
    method RevokeForReuse(tokenId: Id, sessionId: Id, now: Time) returns (committed: bool)
      modifies this
      ensures committed <==> tokenId in old(tokens)
      ensures committed ==> Rows() == Compromised(old(Rows()), tokenId, sessionId, now)
      ensures !committed ==> Rows() == old(Rows())
    {
      var tokens0 := tokens;
      tokens := map t | t in tokens ::
        if tokens[t].sessionId == sessionId then tokens[t].(revokedAt := Some(now)) else tokens[t];
      if tokenId !in tokens {
        tokens := tokens0;
        return false;
      }
      tokens := tokens[tokenId := tokens[tokenId].(reuseDetectedAt := Some(now))];
      if sessionId in sessions {
        var s := sessions[sessionId];
        sessions := sessions[sessionId := s.(status := COMPROMISED, revokedAt := Some(now),
                                             reason := Some(REFRESH_TOKEN_REUSE), version := s.version + 1)];
      }
      return true;
    }

    /** `updateMany` on sessions by key, guarded by ACTIVE. */
    method CloseActive(sids: set<Id>, reason: Reason, now: Time)
      modifies this`sessions
      ensures Rows() == Closed(old(Rows()), sids, {}, reason, now, false)
    {
      sessions := map s | s in sessions ::
        if s in sids && sessions[s].status == ACTIVE then
          sessions[s].(status := StatusFor(reason), revokedAt := Some(now), reason := Some(reason),
                       version := sessions[s].version + 1)
        else sessions[s];
    }

    /** Logout and its two relatives: at most a hundred matching ACTIVE sessions are selected and closed. */
    method RevokeSessions(matching: set<Id>, reason: Reason, now: Time) returns (selected: set<Id>)
      requires StatusFor(reason) == REVOKED
      modifies this
      ensures forall s :: s in selected ==> s in old(sessions) && s in matching && old(sessions)[s].status == ACTIVE
      ensures |selected| == Min(100, |set s | s in old(sessions) && s in matching && old(sessions)[s].status == ACTIVE|)
      ensures (forall s :: s in sessions && s in matching ==> sessions[s].status != ACTIVE)
              <==> |set s | s in old(sessions) && s in matching && old(sessions)[s].status == ACTIVE| <= 100
      ensures Rows() == LoggedOut(old(Rows()), selected, reason, now)
      ensures O.Closes(old(sessions), sessions, selected, REVOKED, reason, now)
      ensures O.Revokes(old(tokens), tokens, selected, now, false)
    {
      var active := ActiveAmong(sessions, matching);
      ghost var some := SubsetOfSize(active, REVOCATION_BATCH);
      selected :| selected <= active && |selected| == Min(REVOCATION_BATCH, |active|);
      assert active == set s | s in sessions && s in matching && sessions[s].status == ACTIVE;
      O.LogoutCloses(Rows(), selected, reason, now);
      NoneActiveLeft(Rows(), selected, matching, reason, now);
      CloseSelected(selected, reason, now);
    }

    method CloseSelected(selected: set<Id>, reason: Reason, now: Time)
      modifies this`sessions, this`tokens
      ensures Rows() == LoggedOut(old(Rows()), selected, reason, now)
    {
      if selected != {} {
        CloseActive(selected, reason, now);
        tokens := map t | t in tokens ::
          if tokens[t].sessionId in selected && tokens[t].revokedAt == None then tokens[t].(revokedAt := Some(now))
          else tokens[t];
      }
      assert Rows() == LoggedOut(old(Rows()), selected, reason, now);
    }

    /** The session part of a password reset or change: sessions by owner, then tokens by owner. */
    method RevokeForPassword(userId: Id, now: Time)
      modifies this
      ensures Rows() == PasswordRevoked(old(Rows()), userId, now)
    {
      var owned := set s | s in sessions && sessions[s].userId == userId;
      CloseActive(owned, PASSWORD_CHANGED, now);
      tokens := map t | t in tokens ::
        if tokens[t].userId == userId && tokens[t].revokedAt == None then
          tokens[t].(revoked := true, revokedAt := Some(now))
        else tokens[t];
      assert tokens == PasswordRevoked(old(Rows()), userId, now).tokens;
    }

    /** The write half of the expiry job, for keys it read earlier; returns how many sessions it expired. */
    method ExpireSessions(ids: set<Id>, now: Time) returns (count: nat)
      modifies this
      ensures Rows() == SessionsExpired(old(Rows()), ids, now)
      ensures count == |set s | s in old(sessions) && s in ids && old(sessions)[s].status == ACTIVE|
      ensures O.Closes(old(sessions), sessions, ids, EXPIRED, SESSION_EXPIRED, now)
      ensures O.Revokes(old(tokens), tokens, ids, now, true)
    {
      O.ExpiryCloses(Rows(), ids, now);
      assert ActiveAmong(sessions, ids) == set s | s in sessions && s in ids && sessions[s].status == ACTIVE;
      count := CloseExpired(ids, now);
    }

    method CloseExpired(ids: set<Id>, now: Time) returns (count: nat)
      modifies this`sessions, this`tokens
      ensures Rows() == SessionsExpired(old(Rows()), ids, now)
      ensures count == |ActiveAmong(old(sessions), ids)|
    {
      count := |ActiveAmong(sessions, ids)|;
      CloseActive(ids, SESSION_EXPIRED, now);
      tokens := map t | t in tokens ::
        if tokens[t].sessionId in ids && tokens[t].revokedAt == None then
          tokens[t].(revoked := true, revokedAt := Some(now))
        else tokens[t];
      assert tokens == SessionsExpired(old(Rows()), ids, now).tokens;
    }

    /** The middle of the upgrade: close the limited session and its tokens, then create the full one. */
    method ReplaceSession(sid: Id, userId: Id, now: Time, expiresAt: Time) returns (full: Id, token: Id)
      modifies this`sessions, this`tokens, this`nextId
      ensures Rows() == Created(Closed(old(Rows()), {sid}, TokensOfSessions(old(Rows()), {sid}),
                                       LIMITED_TO_FULL_SESSION_UPGRADE, now, true), userId, FULL, expiresAt)
      ensures full == old(nextId) && token == old(nextId) + 1
    {
      CloseActive({sid}, LIMITED_TO_FULL_SESSION_UPGRADE, now);
      tokens := map t | t in tokens ::
        if tokens[t].sessionId == sid && tokens[t].revokedAt == None then
          tokens[t].(revoked := true, revokedAt := Some(now))
        else tokens[t];
      assert tokens == Closed(old(Rows()), {sid}, TokensOfSessions(old(Rows()), {sid}),
                              LIMITED_TO_FULL_SESSION_UPGRADE, now, true).tokens;
      full, token := CreateSession(userId, FULL, expiresAt);
    }

    /** The serializable upgrade transaction: its answer and its rows, by the rows it finds. */
    method Upgrade(request: UpgradeRequest, key: string, now: Time, who: Eligibility, ttl: UpgradeLifetimes)
      returns (outcome: UpgradeOutcome)
      modifies this
      ensures O.RightAnswer(old(Rows()), request, key, now, who, outcome)
      ensures if outcome.UpgradedTo? then O.Replaced(old(Rows()), Rows(), request, key, now, ttl)
              else Rows() == old(Rows())
      ensures Rows() == Upgraded(old(Rows()), request, key, now, who, ttl)
    {
      O.UpgradeExactly(Rows(), request, key, now, who, ttl);
      outcome := PerformUpgrade(request, key, now, who, ttl);
    }

    /** The transaction's steps, in the order the service writes. */
    method PerformUpgrade(request: UpgradeRequest, key: string, now: Time, who: Eligibility, ttl: UpgradeLifetimes)
      returns (outcome: UpgradeOutcome)
      modifies this
      ensures outcome == UpgradeOutcomeFor(old(Rows()), request, key, now, who)
      ensures Rows() == Upgraded(old(Rows()), request, key, now, who, ttl)
    {
      var unique := UpgradeKey(request.sessionId, key);
      if unique in upgrades {
        var existing := upgrades[unique];
        if existing.request != request { return KeyReused; }
        if existing.response.Some? && now < existing.expiresAt { return Replayed(existing.response.value); }
        return InProgress;
      }
      var upgrades0 := upgrades;
      upgrades := upgrades[unique := UpgradeRecord(request, None, now + ttl.record)];
      var refusal := Refusal(request, now, who);
      if refusal.Some? {
        upgrades := upgrades0;
        return refusal.value;
      }
      var full, token := ReplaceSession(request.sessionId, request.userId, now, now + ttl.refresh);
      var result := UpgradeResult(request.userId, full, token, request.transport);
      upgrades := upgrades[unique := upgrades[unique].(response := Some(result))];
      return UpgradedTo(result);
    }

    /** The checks on the limited session, its user and the named attempt. */
    method Refusal(request: UpgradeRequest, now: Time, who: Eligibility) returns (refusal: Option<UpgradeOutcome>)
      ensures refusal == if !Upgradable(Rows(), request, now) then Some(AlreadyUpgraded)
                         else if !who.accountActive || !who.identityVerified then Some(IdentityNotVerified)
                         else if !who.attemptPassed then Some(AttemptInvalid)
                         else None
    {
      var sid := request.sessionId;
      if sid !in sessions || sessions[sid].userId != request.userId || sessions[sid].status != ACTIVE
         || sessions[sid].level != LIMITED || sessions[sid].expiresAt <= now {
        return Some(AlreadyUpgraded);
      }
      if !who.accountActive || !who.identityVerified { return Some(IdentityNotVerified); }
      if !who.attemptPassed { return Some(AttemptInvalid); }
      return None;
    }
  }
}
