/**
 * What every committed transaction keeps: each session owns one chain of refresh tokens, a
 * token is unrevoked exactly while its session is ACTIVE, and nothing outlives its session.
 */
module SessionInvariant {
  import opened Common
  import opened SessionRows

  ghost predicate KeysBelowNext(db: Db) {
    && (forall s :: s in db.sessions ==> s < db.nextId)
    && (forall t :: t in db.tokens ==> t < db.nextId)
  }

  /** A token agrees with its session on owner, level and expiry. */
  ghost predicate Linked(db: Db) {
    forall t :: t in db.tokens ==>
      && db.tokens[t].sessionId in db.sessions
      && db.tokens[t].userId == db.sessions[db.tokens[t].sessionId].userId
      && db.tokens[t].tokenType == db.sessions[db.tokens[t].sessionId].level
      && db.tokens[t].expiresAt == db.sessions[db.tokens[t].sessionId].expiresAt
  }

  ghost predicate UnrevokedIffActive(db: Db)
    requires Linked(db)
  {
    forall t :: t in db.tokens ==>
      (db.tokens[t].revokedAt == None <==> db.sessions[db.tokens[t].sessionId].status == ACTIVE)
  }

  /** The stored reason determines the status; the legacy `revoked` flag is never set on a live token. */
  ghost predicate ReasonsMatch(db: Db) {
    && (forall s :: s in db.sessions ==>
          db.sessions[s].status == if db.sessions[s].reason == None then ACTIVE
              else StatusFor(db.sessions[s].reason.value))
    && (forall t :: t in db.tokens ==> db.tokens[t].revoked ==> db.tokens[t].revokedAt.Some?)
  }

  /** A token has a use time exactly when it has a successor. */
  ghost predicate UsedIffReplaced(db: Db) {
    forall t :: t in db.tokens ==> (db.tokens[t].usedAt.Some? <==> db.tokens[t].replacedBy.Some?)
  }

  /** Place `i` of the chain holds generation `i`, linked to the next place, or unused when it is the last. */
  ghost predicate Placed(tokens: map<Id, Token>, s: Id, chain: seq<Id>, i: nat)
    requires i < |chain|
  {
    && chain[i] in tokens
    && tokens[chain[i]].sessionId == s
    && tokens[chain[i]].generation == i
    && if i == |chain| - 1 then
         tokens[chain[i]].usedAt == None && tokens[chain[i]].replacedBy == None
       else
         tokens[chain[i]].usedAt.Some? && tokens[chain[i]].replacedBy == Some(chain[i + 1])
  }

  /** `chain` lists exactly the tokens of session `s`, in order of generation. */
  ghost predicate IsChain(tokens: map<Id, Token>, s: Id, chain: seq<Id>) {
    && |chain| > 0
    && (forall i: nat :: i < |chain| ==> Placed(tokens, s, chain, i))
    && (forall t :: t in tokens && tokens[t].sessionId == s ==> t in chain)
  }

  /** Sessions expiring after `horizon`, the latest cutoff any token purge has used, have their whole chain. */
  ghost predicate Chained(db: Db, horizon: Time) {
    forall s :: s in db.sessions && horizon < db.sessions[s].expiresAt ==> exists chain :: IsChain(db.tokens, s, chain)
  }

  /** Stored upgrade responses name a session of the requesting user; no record is left in progress. */
  ghost predicate UpgradesComplete(db: Db) {
    forall k :: k in db.upgrades ==>
      && db.upgrades[k].response.Some?
      && db.upgrades[k].request.sessionId == k.sessionId
      && k.sessionId < db.nextId
      && Retired(db, k.sessionId)
      && db.upgrades[k].response.value.userId == db.upgrades[k].request.userId
      && db.upgrades[k].response.value.transport == db.upgrades[k].request.transport
  }

  /** The session existed once and can never be ACTIVE again. */
  ghost predicate Retired(db: Db, s: Id) {
    s < db.nextId && (s in db.sessions ==> db.sessions[s].status != ACTIVE)
  }

  ghost predicate Inv(db: Db, horizon: Time) {
    && KeysBelowNext(db)
    && Linked(db)
    && UnrevokedIffActive(db)
    && ReasonsMatch(db)
    && UsedIffReplaced(db)
    && Chained(db, horizon)
    && UpgradesComplete(db)
  }

  /** Token purges allowed by `horizon` use no later cutoff. */
  predicate Within(op: Op, horizon: Time) { op.PurgeTokens? ==> op.cutoff <= horizon }

  // ---- Chains survive every step that leaves links alone ------------------------------------

  /** Same place in the chain: the fields that revocation never touches. */
  predicate SameLink(a: Token, b: Token) {
    a.sessionId == b.sessionId && a.generation == b.generation && a.usedAt == b.usedAt && a.replacedBy == b.replacedBy
  }

  ghost predicate SameLinks(tokens: map<Id, Token>, tokens': map<Id, Token>, s: Id) {
    && (forall t :: t in tokens && tokens[t].sessionId == s ==> t in tokens' && SameLink(tokens[t], tokens'[t]))
    && (forall t :: t in tokens' && tokens'[t].sessionId == s ==> t in tokens && tokens[t].sessionId == s)
  }

  lemma ChainCarries(tokens: map<Id, Token>, tokens': map<Id, Token>, s: Id, chain: seq<Id>)
    requires IsChain(tokens, s, chain) && SameLinks(tokens, tokens', s)
    ensures IsChain(tokens', s, chain)
  {
    forall i: nat | i < |chain| ensures Placed(tokens', s, chain, i) {
      assert Placed(tokens, s, chain, i);
    }
  }

  lemma ChainsCarry(db: Db, db': Db, h: Time)
    requires Chained(db, h)
    requires forall s :: s in db'.sessions && h < db'.sessions[s].expiresAt ==>
               s in db.sessions && h < db.sessions[s].expiresAt && SameLinks(db.tokens, db'.tokens, s)
    ensures Chained(db', h)
  {
    forall s | s in db'.sessions && h < db'.sessions[s].expiresAt
      ensures exists chain :: IsChain(db'.tokens, s, chain)
    {
      var chain :| IsChain(db.tokens, s, chain);
      ChainCarries(db.tokens, db'.tokens, s, chain);
    }
  }

  // ---- One lemma per kind of transaction ----------------------------------------------------

  lemma CreatedKeeps(db: Db, userId: Id, level: SessionLevel, expiresAt: Time, h: Time)
    requires Inv(db, h)
    ensures Inv(Created(db, userId, level, expiresAt), h)
  {
    CreatedKeepsChains(db, userId, level, expiresAt, h);
  }

  lemma CreatedKeepsChains(db: Db, userId: Id, level: SessionLevel, expiresAt: Time, h: Time)
    requires KeysBelowNext(db) && Linked(db) && Chained(db, h)
    ensures Chained(Created(db, userId, level, expiresAt), h)
  {
    var db' := Created(db, userId, level, expiresAt);
    forall s | s in db'.sessions && h < db'.sessions[s].expiresAt
      ensures exists chain :: IsChain(db'.tokens, s, chain)
    {
      if s == db.nextId {
        var chain := [db.nextId + 1];
        assert Placed(db'.tokens, s, chain, 0);
        assert IsChain(db'.tokens, s, chain);
      } else {
        var chain :| IsChain(db.tokens, s, chain);
        ChainCarries(db.tokens, db'.tokens, s, chain);
      }
    }
  }

  lemma RotatedKeeps(db: Db, tid: Id, now: Time, h: Time)
    requires Inv(db, h)
    requires tid in db.tokens && CanRotate(db, tid, db.tokens[tid].sessionId, now)
    ensures Inv(Rotated(db, Snapshot(tid, db.tokens[tid], db.sessions[db.tokens[tid].sessionId]), now), h)
  {
    RotatedKeepsChains(db, tid, now, h);
  }

  lemma RotatedKeepsChains(db: Db, tid: Id, now: Time, h: Time)
    requires KeysBelowNext(db) && Linked(db) && Chained(db, h)
    requires tid in db.tokens && CanRotate(db, tid, db.tokens[tid].sessionId, now)
    ensures Chained(Rotated(db, Snapshot(tid, db.tokens[tid], db.sessions[db.tokens[tid].sessionId]), now), h)
  {
    var sid := db.tokens[tid].sessionId;
    var db' := Rotated(db, Snapshot(tid, db.tokens[tid], db.sessions[sid]), now);
    forall s | s in db'.sessions && h < db'.sessions[s].expiresAt
      ensures exists chain :: IsChain(db'.tokens, s, chain)
    {
      var chain :| IsChain(db.tokens, s, chain);
      if s == sid {
        ChainGrows(db, tid, now, chain);
      } else {
        ChainCarries(db.tokens, db'.tokens, s, chain);
      }
    }
  }

  /** The one live token is the chain's last; rotation appends its successor. */
  lemma ChainGrows(db: Db, tid: Id, now: Time, chain: seq<Id>)
    requires KeysBelowNext(db) && Linked(db)
    requires tid in db.tokens && CanRotate(db, tid, db.tokens[tid].sessionId, now)
    requires IsChain(db.tokens, db.tokens[tid].sessionId, chain)
    ensures var sid := db.tokens[tid].sessionId;
            IsChain(Rotated(db, Snapshot(tid, db.tokens[tid], db.sessions[sid]), now).tokens, sid, chain + [db.nextId])
  {
    var sid, last := db.tokens[tid].sessionId, |chain| - 1;
    var tokens' := Rotated(db, Snapshot(tid, db.tokens[tid], db.sessions[sid]), now).tokens;
    var i :| 0 <= i < |chain| && chain[i] == tid;
    assert Placed(db.tokens, sid, chain, i);
    assert i == last;
    forall j: nat | j <= |chain| ensures Placed(tokens', sid, chain + [db.nextId], j) {
      if j < |chain| { assert Placed(db.tokens, sid, chain, j); }
    }
  }

  predicate SameIdentity(a: Session, b: Session) {
    a.userId == b.userId && a.level == b.level && a.expiresAt == b.expiresAt
  }

  predicate SameToken(a: Token, b: Token) {
    SameLink(a, b) && a.userId == b.userId && a.tokenType == b.tokenType && a.expiresAt == b.expiresAt
  }

  /** A session row after a closing step: untouched, or closed for a stated reason. */
  predicate SameOrClosed(a: Session, b: Session) {
    && SameIdentity(a, b)
    && (b == a || (b.reason.Some? && b.status == StatusFor(b.reason.value)))
  }

  /** A step that creates nothing, only closes or deletes, and keeps revocation in step with session status. */
  ghost predicate Closing(db: Db, db': Db, h: Time) {
    && db'.nextId == db.nextId
    && db'.upgrades == db.upgrades
    && (forall s :: s in db'.sessions ==> s in db.sessions && SameOrClosed(db.sessions[s], db'.sessions[s]))
    && (forall t :: t in db'.tokens ==>
          && t in db.tokens
          && SameToken(db.tokens[t], db'.tokens[t])
          && db'.tokens[t].sessionId in db'.sessions
          && (db'.tokens[t].revokedAt == None <==> db'.sessions[db'.tokens[t].sessionId].status == ACTIVE)
          && (db'.tokens[t].revoked ==> db'.tokens[t].revokedAt.Some?))
    && (forall t | t in db.tokens && db.tokens[t].sessionId in db'.sessions ::
          h < db'.sessions[db.tokens[t].sessionId].expiresAt ==> t in db'.tokens)
  }

  lemma ClosingKeeps(db: Db, db': Db, h: Time)
    requires Inv(db, h) && Closing(db, db', h)
    ensures Inv(db', h)
  {
    forall s | s in db'.sessions && h < db'.sessions[s].expiresAt ensures SameLinks(db.tokens, db'.tokens, s) {
    }
    ChainsCarry(db, db', h);
  }

  lemma CompromisedKeeps(db: Db, tid: Id, now: Time, h: Time)
    requires Inv(db, h) && tid in db.tokens
    ensures Inv(Compromised(db, tid, db.tokens[tid].sessionId, now), h)
  {
    var sid := db.tokens[tid].sessionId;
    var db' := Compromised(db, tid, sid, now);
    forall t | t in db'.tokens
      ensures t in db.tokens && SameToken(db.tokens[t], db'.tokens[t])
      ensures db'.tokens[t].revokedAt == None <==> db'.sessions[db'.tokens[t].sessionId].status == ACTIVE
    {
      assert db.tokens[t].sessionId != sid ==>
          db'.sessions[db.tokens[t].sessionId] == db.sessions[db.tokens[t].sessionId];
    }
    assert Closing(db, db', h);
    ClosingKeeps(db, db', h);
  }

  lemma ClosedKeeps(db: Db, sids: set<Id>, tids: set<Id>, reason: Reason, now: Time, flag: bool, h: Time)
    requires Inv(db, h)
    requires forall t :: t in db.tokens ==> (t in tids <==> db.tokens[t].sessionId in sids)
    ensures Inv(Closed(db, sids, tids, reason, now, flag), h)
  {
    var db' := Closed(db, sids, tids, reason, now, flag);
    ClosedIsClosing(db, sids, tids, reason, now, flag, h);
    ClosingKeeps(db, db', h);
  }

  lemma ClosedIsClosing(db: Db, sids: set<Id>, tids: set<Id>, reason: Reason, now: Time, flag: bool, h: Time)
    requires Inv(db, h)
    requires forall t :: t in db.tokens ==> (t in tids <==> db.tokens[t].sessionId in sids)
    ensures Closing(db, Closed(db, sids, tids, reason, now, flag), h)
  {
    var db' := Closed(db, sids, tids, reason, now, flag);
    forall t | t in db.tokens
      ensures SameToken(db.tokens[t], db'.tokens[t])
      ensures db'.tokens[t].revokedAt == None <==> db'.sessions[db'.tokens[t].sessionId].status == ACTIVE
    {
    }
  }

  lemma TokensPurgedKeeps(db: Db, tids: set<Id>, cutoff: Time, h: Time)
    requires Inv(db, h) && cutoff <= h && WellChosen(db, PurgeTokens(tids, cutoff))
    ensures Inv(WithoutTokens(db, tids), h)
  {
    ClosingKeeps(db, WithoutTokens(db, tids), h);
  }

  lemma SessionsPurgedKeeps(db: Db, sids: set<Id>, h: Time)
    requires Inv(db, h) && WellChosen(db, PurgeSessions(sids))
    ensures Inv(WithoutSessions(db, sids), h)
  {
    ClosingKeeps(db, WithoutSessions(db, sids), h);
  }

  lemma UpgradedKeeps(db: Db, request: UpgradeRequest, key: string, now: Time, who: Eligibility,
                      ttl: UpgradeLifetimes, h: Time)
    requires Inv(db, h)
    ensures Inv(Upgraded(db, request, key, now, who, ttl), h)
  {
    if UpgradeOutcomeFor(db, request, key, now, who).UpgradedTo? {
      FirstUpgradeKeeps(db, request, key, now, who, ttl, h);
    } else {
      assert Upgraded(db, request, key, now, who, ttl) == db;
    }
  }

  lemma FirstUpgradeKeeps(db: Db, request: UpgradeRequest, key: string, now: Time, who: Eligibility,
                          ttl: UpgradeLifetimes, h: Time)
    requires Inv(db, h) && UpgradeOutcomeFor(db, request, key, now, who).UpgradedTo?
    ensures Inv(Upgraded(db, request, key, now, who, ttl), h)
  {
    var sids := {request.sessionId};
    var closed := Closed(db, sids, TokensOfSessions(db, sids), LIMITED_TO_FULL_SESSION_UPGRADE, now, true);
    var created := Created(closed, request.userId, FULL, now + ttl.refresh);
    assert Inv(created, h) by { ReplacedKeeps(db, request.sessionId, request.userId, now, now + ttl.refresh, h); }
    assert UpgradesComplete(Upgraded(db, request, key, now, who, ttl)) by {
      UpgradedKeepsRecords(db, request, key, now, who, ttl);
    }
    RecordKeeps(created, Upgraded(db, request, key, now, who, ttl), h);
  }

  /** Closing the one session and opening the other. */
  lemma ReplacedKeeps(db: Db, sid: Id, userId: Id, now: Time, expiresAt: Time, h: Time)
    requires Inv(db, h)
    ensures var closed := Closed(db, {sid}, TokensOfSessions(db, {sid}), LIMITED_TO_FULL_SESSION_UPGRADE, now, true);
            Inv(Created(closed, userId, FULL, expiresAt), h)
  {
    var closed := Closed(db, {sid}, TokensOfSessions(db, {sid}), LIMITED_TO_FULL_SESSION_UPGRADE, now, true);
    ClosedKeeps(db, {sid}, TokensOfSessions(db, {sid}), LIMITED_TO_FULL_SESSION_UPGRADE, now, true, h);
    CreatedKeeps(closed, userId, FULL, expiresAt, h);
  }

  lemma UpgradedKeepsRecords(db: Db, request: UpgradeRequest, key: string, now: Time, who: Eligibility,
                             ttl: UpgradeLifetimes)
    requires KeysBelowNext(db) && UpgradesComplete(db)
    ensures UpgradesComplete(Upgraded(db, request, key, now, who, ttl))
  {
  }

  /** Changing only upgrade records keeps everything but what is said of the records. */
  lemma RecordKeeps(db: Db, db': Db, h: Time)
    requires Inv(db, h) && db' == db.(upgrades := db'.upgrades) && UpgradesComplete(db')
    ensures Inv(db', h)
  {
    ChainsCarry(db, db', h);
  }

  /** Every transaction, whatever its arguments, keeps the invariant. */
  lemma StepKeepsInv(db: Db, op: Op, h: Time)
    requires Inv(db, h) && WellChosen(db, op) && Within(op, h)
    ensures Inv(Apply(db, op), h)
  {
    match op {
      case Create(userId, level, expiresAt) => CreatedKeeps(db, userId, level, expiresAt, h);
      case Refresh(tid, now, grace) =>
        if tid in db.tokens {
          if CanRotate(db, tid, db.tokens[tid].sessionId, now) { RotatedKeeps(db, tid, now, h); }
          CompromisedKeeps(db, tid, now, h);
        }
      case Logout(sids, reason, now) => ClosedKeeps(db, sids, TokensOfSessions(db, sids), reason, now, false, h);
      case PasswordChange(userId, now) =>
        ClosedKeeps(db, SessionsOfUser(db, userId), TokensOfUser(db, userId), PASSWORD_CHANGED, now, true, h);
      case Expire(sids, now) => ClosedKeeps(db, sids, TokensOfSessions(db, sids), SESSION_EXPIRED, now, true, h);
      case Upgrade(request, key, now, who, ttl) => UpgradedKeeps(db, request, key, now, who, ttl, h);
      case PurgeTokens(tids, cutoff) => TokensPurgedKeeps(db, tids, cutoff, h);
      case PurgeSessions(sids) => SessionsPurgedKeeps(db, sids, h);
      case PurgeUpgrades(_, _) =>
    }
  }

  // ---- Whole runs ---------------------------------------------------------------------------

  lemma {:induction false} RunKeepsInv(db: Db, ops: seq<Op>, h: Time)
    requires Inv(db, h) && RunWellChosen(db, ops)
    requires forall op :: op in ops ==> Within(op, h)
    ensures Inv(Run(db, ops), h)
    decreases |ops|
  {
    if ops != [] {
      StepKeepsInv(db, ops[0], h);
      RunKeepsInv(Apply(db, ops[0]), ops[1..], h);
    }
  }

  /**
   * While a session has not passed the purge horizon it has exactly one unused token, which is
   * its latest generation, and every token of it expires exactly when the session does.
   */
  lemma OneLiveTokenPerSession(db: Db, h: Time, s: Id) returns (live: Id)
    requires Inv(db, h) && s in db.sessions && h < db.sessions[s].expiresAt
    ensures live in db.tokens && db.tokens[live].sessionId == s && db.tokens[live].usedAt == None
    ensures forall t :: t in db.tokens && db.tokens[t].sessionId == s ==>
              && db.tokens[t].generation <= db.tokens[live].generation
              && (t != live ==> db.tokens[t].usedAt.Some?)
              && db.tokens[t].expiresAt == db.sessions[s].expiresAt
  {
    var chain :| IsChain(db.tokens, s, chain);
    live := chain[|chain| - 1];
    assert Placed(db.tokens, s, chain, |chain| - 1);
    forall t | t in db.tokens && db.tokens[t].sessionId == s
      ensures db.tokens[t].generation <= db.tokens[live].generation && (t != live ==> db.tokens[t].usedAt.Some?)
    {
      var i :| 0 <= i < |chain| && chain[i] == t;
      assert Placed(db.tokens, s, chain, i);
    }
  }

  // ---- What never comes back ----------------------------------------------------------------

  lemma RetiredIsAbsorbing(db: Db, op: Op, s: Id)
    requires Retired(db, s)
    ensures Retired(Apply(db, op), s)
  {
  }

  /** A session that has left ACTIVE, or was purged, is never ACTIVE again in any run. */
  lemma {:induction false} NeverActiveAgain(db: Db, ops: seq<Op>, s: Id)
    requires Retired(db, s)
    ensures Retired(Run(db, ops), s)
    decreases |ops|
  {
    if ops != [] {
      RetiredIsAbsorbing(db, ops[0], s);
      NeverActiveAgain(Apply(db, ops[0]), ops[1..], s);
    }
  }

  lemma IdentityIsFixedByStep(db: Db, op: Op, s: Id)
    requires KeysBelowNext(db) && s in db.sessions && s in Apply(db, op).sessions
    ensures SameIdentity(db.sessions[s], Apply(db, op).sessions[s])
  {
  }

  lemma KeysStayBelowNext(db: Db, op: Op)
    requires KeysBelowNext(db)
    ensures KeysBelowNext(Apply(db, op))
  {
  }

  /** Owner, level and expiry of a session never change; in particular no rotation extends a session's life. */
  lemma {:induction false} SessionIdentityIsFixed(db: Db, ops: seq<Op>, s: Id)
    requires KeysBelowNext(db) && s in db.sessions && s in Run(db, ops).sessions
    ensures SameIdentity(db.sessions[s], Run(db, ops).sessions[s])
    decreases |ops|
  {
    if ops != [] {
      var db' := Apply(db, ops[0]);
      KeysStayBelowNext(db, ops[0]);
      if s !in db'.sessions {
        AbsentStaysAbsent(db', ops[1..], s);
      } else {
        IdentityIsFixedByStep(db, ops[0], s);
        SessionIdentityIsFixed(db', ops[1..], s);
      }
    }
  }

  lemma {:induction false} AbsentStaysAbsent(db: Db, ops: seq<Op>, s: Id)
    requires s < db.nextId && s !in db.sessions
    ensures s !in Run(db, ops).sessions
    decreases |ops|
  {
    if ops != [] {
      AbsentStaysAbsent(Apply(db, ops[0]), ops[1..], s);
    }
  }
}
