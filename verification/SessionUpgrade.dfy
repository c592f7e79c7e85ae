/** Replacing a LIMITED session by a FULL one: single winner, and replays that change nothing. */
module SessionUpgrade {
  import opened Common
  import opened SessionRows
  import opened SessionInvariant

  predicate Succeeds(db: Db, op: Op, sessionId: Id) {
    && op.Upgrade?
    && op.request.sessionId == sessionId
    && UpgradeOutcomeFor(db, op.request, op.key, op.now, op.who).UpgradedTo?
  }

  /** How many upgrades of `sessionId` create a full session during a run, over all keys and callers. */
  function Replacements(db: Db, ops: seq<Op>, sessionId: Id): nat
    decreases |ops|
  {
    if ops == [] then 0
    else (if Succeeds(db, ops[0], sessionId) then 1 else 0) + Replacements(Apply(db, ops[0]), ops[1..], sessionId)
  }

  /**
   * The replacement: the limited session is closed with all its tokens; one ACTIVE full session
   * with one token appears.
   */
  lemma SuccessReplacesSession(db: Db, op: Op, h: Time)
    requires Inv(db, h) && op.Upgrade? && Succeeds(db, op, op.request.sessionId)
    ensures var db', result := Apply(db, op), UpgradeOutcomeFor(db, op.request, op.key, op.now, op.who).result;
            && Retired(db', op.request.sessionId)
            && op.request.sessionId in db'.sessions
            && db'.sessions[op.request.sessionId].status == REVOKED
            && db'.sessions[op.request.sessionId].reason == Some(LIMITED_TO_FULL_SESSION_UPGRADE)
            && (forall t :: t in db'.tokens && db'.tokens[t].sessionId == op.request.sessionId ==>
                 db'.tokens[t].revokedAt.Some?)
            && db'.sessions.Keys == db.sessions.Keys + {result.sessionId} && result.sessionId !in db.sessions
            && db'.sessions[result.sessionId] == NewSession(op.request.userId, FULL, op.now + op.ttl.refresh)
            && (forall t :: t in db'.tokens && db'.tokens[t].sessionId == result.sessionId <==> t == result.tokenId)
            && db'.tokens[result.tokenId].generation == 0
            && op.who == Eligibility(true, true, true)
  {
    var sids := {op.request.sessionId};
    var closed := Closed(db, sids, TokensOfSessions(db, sids), LIMITED_TO_FULL_SESSION_UPGRADE, op.now, true);
    assert Apply(db, op).sessions == Created(closed, op.request.userId, FULL, op.now + op.ttl.refresh).sessions;
  }

  lemma {:induction false} NoReplacementOnceRetired(db: Db, ops: seq<Op>, sessionId: Id)
    requires Retired(db, sessionId)
    ensures Replacements(db, ops, sessionId) == 0
    decreases |ops|
  {
    if ops != [] {
      RetiredIsAbsorbing(db, ops[0], sessionId);
      NoReplacementOnceRetired(Apply(db, ops[0]), ops[1..], sessionId);
    }
  }

  /** Any number of concurrent or repeated upgrades, with any keys, replace a limited session at most once. */
  lemma {:induction false} AtMostOneReplacement(db: Db, ops: seq<Op>, sessionId: Id, h: Time)
    requires Inv(db, h) && RunWellChosen(db, ops)
    requires forall op :: op in ops ==> Within(op, h)
    ensures Replacements(db, ops, sessionId) <= 1
    decreases |ops|
  {
    if ops != [] {
      StepKeepsInv(db, ops[0], h);
      if Succeeds(db, ops[0], sessionId) {
        SuccessReplacesSession(db, ops[0], h);
        NoReplacementOnceRetired(Apply(db, ops[0]), ops[1..], sessionId);
      } else {
        AtMostOneReplacement(Apply(db, ops[0]), ops[1..], sessionId, h);
      }
    }
  }

  ghost predicate RecordSurvives(op: Op, until: Time) { op.PurgeUpgrades? ==> op.now < until }

  lemma RecordSurvivesStep(db: Db, op: Op, k: UpgradeKey)
    requires k in db.upgrades && WellChosen(db, op) && RecordSurvives(op, db.upgrades[k].expiresAt)
    ensures k in Apply(db, op).upgrades && Apply(db, op).upgrades[k] == db.upgrades[k]
  {
  }

  lemma {:induction false} RecordIsStable(db: Db, ops: seq<Op>, k: UpgradeKey)
    requires k in db.upgrades && RunWellChosen(db, ops)
    requires forall op :: op in ops ==> RecordSurvives(op, db.upgrades[k].expiresAt)
    ensures k in Run(db, ops).upgrades && Run(db, ops).upgrades[k] == db.upgrades[k]
    decreases |ops|
  {
    if ops != [] {
      RecordSurvivesStep(db, ops[0], k);
      RecordIsStable(Apply(db, ops[0]), ops[1..], k);
    }
  }

  /**
   * After a successful upgrade and any run in between, a repetition with the same key and body
   * before the record expires returns the first result and changes no row; another body is refused.
   */
  lemma ReplayReturnsFirstResult(db: Db, first: Op, ops: seq<Op>, again: Op)
    requires first.Upgrade? && Succeeds(db, first, first.request.sessionId)
    requires again.Upgrade? && again.key == first.key && again.request.sessionId == first.request.sessionId
    requires again.now < first.now + first.ttl.record
    requires RunWellChosen(Apply(db, first), ops)
    requires forall op :: op in ops ==> RecordSurvives(op, first.now + first.ttl.record)
    ensures var db' := Run(Apply(db, first), ops);
            var result := UpgradeOutcomeFor(db, first.request, first.key, first.now, first.who).result;
            && Apply(db', again) == db'
            && UpgradeOutcomeFor(db', again.request, again.key, again.now, again.who)
               == if again.request == first.request then Replayed(result) else KeyReused
  {
    var k := UpgradeKey(first.request.sessionId, first.key);
    assert Apply(db, first).upgrades[k].expiresAt == first.now + first.ttl.record;
    RecordIsStable(Apply(db, first), ops, k);
  }

  // ---- The response after the transaction ---------------------------------------------------

  /** The service answers only while the full session it names is still ACTIVE and unexpired. */
  predicate Answers(db: Db, result: UpgradeResult, now: Time) {
    && result.sessionId in db.sessions
    && var s := db.sessions[result.sessionId];
       s.userId == result.userId && s.status == ACTIVE && s.level == FULL && now < s.expiresAt
  }

  /** Whenever a replay is answered, the token it returns belongs to that session and is unrevoked while it exists. */
  lemma AnsweredTokenIsUnrevoked(db: Db, result: UpgradeResult, now: Time, h: Time)
    requires Inv(db, h) && Answers(db, result, now)
    requires result.tokenId in db.tokens && db.tokens[result.tokenId].sessionId == result.sessionId
    ensures db.tokens[result.tokenId].revokedAt == None && db.tokens[result.tokenId].tokenType == FULL
  {
  }
}
