/**
 * Registration and e-mail activation. A registration checks a challenge it read earlier, then
 * writes a user, a credential, an identity and a token and consumes the challenge in one
 * transaction; activation spends one token and activates its user in another.
 */
module Registration {
  import opened Common

  datatype ChallengeStatus = PENDING | CONSUMED

  datatype Challenge = Challenge(status: ChallengeStatus, consumedAt: Option<Time>, expiresAt: Time, attempts: nat,
                                 identity: string, email: string)

  datatype User = User(email: string, pendingEmail: bool, emailVerifiedAt: Option<Time>)

  datatype EmailToken = EmailToken(userId: Id, expiresAt: Time, usedAt: Option<Time>, supersededAt: Option<Time>)

  /** The request digest covers challenge, e-mail, password and consents and is injective. */
  datatype Record = Record(request: string, response: Option<Id>)

  datatype Db = Db(
    challenges: map<Id, Challenge>,
    users: map<Id, User>,
    credentials: set<Id>,
    identities: map<Id, string>,
    tokens: map<Id, EmailToken>,
    records: map<string, Record>,
    nextId: Id)

  const EMPTY := Db(map[], map[], {}, map[], map[], map[], 0)

  datatype Consent = BIOMETRIC_PROCESSING | IDENTITY_DATA_PROCESSING | PRIVACY_POLICY | TERMS_OF_SERVICE | OTHER

  const REQUIRED_CONSENTS := {BIOMETRIC_PROCESSING, IDENTITY_DATA_PROCESSING, PRIVACY_POLICY, TERMS_OF_SERVICE}

  /** The service compares sizes and looks for each required consent; together that is set equality. */
  predicate ConsentsAccepted(supplied: seq<Consent>) {
    var types := set c | c in supplied;
    |types| == |REQUIRED_CONSENTS| && forall c :: c in REQUIRED_CONSENTS ==> c in types
  }

  lemma ConsentsAreExact(supplied: seq<Consent>)
    ensures ConsentsAccepted(supplied) <==> (set c | c in supplied) == REQUIRED_CONSENTS
  {
    var types := set c | c in supplied;
    if ConsentsAccepted(supplied) {
      assert REQUIRED_CONSENTS <= types;
      assert |types - REQUIRED_CONSENTS| == |types| - |REQUIRED_CONSENTS|;
    }
  }

  // ---- Challenge lifecycle ------------------------------------------------------------------

  predicate CanRecordAttempt(c: Challenge, now: Time, maxAttempts: nat) {
    c.status == PENDING && c.consumedAt == None && now < c.expiresAt && c.attempts < maxAttempts
  }

  predicate CanConsume(c: Challenge, now: Time, maxAttempts: nat) {
    c.status == PENDING && c.consumedAt == None && now < c.expiresAt && c.attempts <= maxAttempts
  }

  // ---- Registration -------------------------------------------------------------------------

  datatype Request = Request(challengeId: Id, email: string, digest: string, key: string, tokenLife: nat)

  datatype Outcome =
    | Registered(userId: Id)
    | ReplayedAs(userId: Id)
    | IdempotencyConflict
    | InvalidChallenge
    | Unavailable

  /** What makes the transaction commit; anything else leaves no trace, not even a counted attempt. */
  predicate Commits(db: Db, r: Request, seen: Challenge, now: Time, maxAttempts: nat) {
    && r.key !in db.records
    && r.challengeId in db.challenges
    && CanRecordAttempt(db.challenges[r.challengeId], now, maxAttempts)
    && (forall u :: u in db.users ==> db.users[u].email != r.email)
    && (forall u :: u in db.identities ==> db.identities[u] != seen.identity)
  }

  function RegisteredRows(db: Db, r: Request, seen: Challenge, now: Time): Db
    requires r.challengeId in db.challenges
  {
    var uid, tid := db.nextId, db.nextId + 1;
    var c := db.challenges[r.challengeId];
    Db(db.challenges[r.challengeId := c.(attempts := c.attempts + 1, status := CONSUMED, consumedAt := Some(now))],
       db.users[uid := User(r.email, true, None)],
       db.credentials + {uid},
       db.identities[uid := seen.identity],
       db.tokens[tid := EmailToken(uid, now + r.tokenLife, None, None)],
       db.records[r.key := Record(r.digest, Some(uid))],
       db.nextId + 2)
  }

  function RegistrationOf(db: Db, r: Request, seen: Challenge, now: Time, maxAttempts: nat): Db {
    if Commits(db, r, seen, now, maxAttempts) then RegisteredRows(db, r, seen, now) else db
  }

  // ---- Activation ---------------------------------------------------------------------------

  predicate Usable(t: EmailToken, now: Time) { t.usedAt == None && t.supersededAt == None && now < t.expiresAt }

  predicate CanActivate(db: Db, tokenId: Id, now: Time) {
    && tokenId in db.tokens && Usable(db.tokens[tokenId], now)
    && var uid := db.tokens[tokenId].userId;
       uid in db.users && db.users[uid].pendingEmail && db.users[uid].emailVerifiedAt == None
  }

  function Activated(db: Db, tokenId: Id, now: Time): Db {
    if CanActivate(db, tokenId, now) then
      var uid := db.tokens[tokenId].userId;
      db.(tokens := db.tokens[tokenId := db.tokens[tokenId].(usedAt := Some(now))],
          users := db.users[uid := db.users[uid].(emailVerifiedAt := Some(now), pendingEmail := false)])
    else db
  }

  /** Resending supersedes the user's live tokens and adds one. Whether to resend was read before. */
  function Resent(db: Db, userId: Id, now: Time, tokenLife: nat): Db {
    if userId in db.users then
      var superseded := map t | t in db.tokens ::
        if db.tokens[t].userId == userId && Usable(db.tokens[t], now) then db.tokens[t].(supersededAt := Some(now))
        else db.tokens[t];
      db.(tokens := superseded[db.nextId := EmailToken(userId, now + tokenLife, None, None)], nextId := db.nextId + 1)
    else db
  }

  // ---- Runs ---------------------------------------------------------------------------------

  datatype Op =
    | Issue(identity: string, email: string, expiresAt: Time)
    | Register(request: Request, seen: Challenge, now: Time, maxAttempts: nat)
    | Verify(tokenId: Id, now: Time)
    | Resend(userId: Id, now: Time, tokenLife: nat)
    | Purge(tokens: set<Id>)
    | Forget(keys: set<string>)

  function Apply(db: Db, op: Op): Db {
    match op
    case Issue(identity, email, expiresAt) =>
      db.(challenges := db.challenges[db.nextId := Challenge(PENDING, None, expiresAt, 0, identity, email)],
          nextId := db.nextId + 1)
    case Register(request, seen, now, maxAttempts) => RegistrationOf(db, request, seen, now, maxAttempts)
    case Verify(tokenId, now) => Activated(db, tokenId, now)
    case Resend(userId, now, tokenLife) => Resent(db, userId, now, tokenLife)
    case Purge(tokens) => db.(tokens := db.tokens - tokens)
    case Forget(keys) => db.(records := db.records - keys)
  }

  function Run(db: Db, ops: seq<Op>): Db
    decreases |ops|
  {
    if ops == [] then db else Run(Apply(db, ops[0]), ops[1..])
  }

  function Consumed(db: Db): set<Id> { set c | c in db.challenges && db.challenges[c].status == CONSUMED }

  function UsedTokens(db: Db, userId: Id): set<Id> {
    set t | t in db.tokens && db.tokens[t].userId == userId && db.tokens[t].usedAt.Some?
  }

  // ---- Conservation -------------------------------------------------------------------------

  ghost predicate Keyed(db: Db) {
    && (forall u :: u in db.users ==> u < db.nextId)
    && (forall c :: c in db.challenges ==> c < db.nextId)
    && (forall t :: t in db.tokens ==> t < db.nextId && db.tokens[t].userId in db.users)
  }

  /** A challenge's attempt is counted exactly when it is consumed: a failed registration leaves no trace. */
  ghost predicate AttemptsMatch(db: Db) {
    forall c :: c in db.challenges ==>
      && db.challenges[c].attempts == (if db.challenges[c].status == CONSUMED then 1 else 0)
      && (db.challenges[c].consumedAt.Some? <==> db.challenges[c].status == CONSUMED)
  }

  ghost predicate Unique(db: Db) {
    && (forall u, v :: u in db.users && v in db.users && db.users[u].email == db.users[v].email ==> u == v)
    && (forall u, v :: u in db.identities && v in db.identities && db.identities[u] == db.identities[v] ==> u == v)
  }

  ghost predicate Settled(db: Db) {
    && (forall u :: u in db.users ==> (db.users[u].pendingEmail <==> db.users[u].emailVerifiedAt == None))
    && (forall k :: k in db.records ==> db.records[k].response.Some? && db.records[k].response.value in db.users)
  }

  /** Users, credentials, identities and consumed challenges come in equal numbers. */
  ghost predicate Balanced(db: Db) {
    db.credentials == db.users.Keys && db.identities.Keys == db.users.Keys && |Consumed(db)| == |db.users.Keys|
  }

  ghost predicate Conserved(db: Db) {
    Keyed(db) && AttemptsMatch(db) && Unique(db) && Settled(db) && Balanced(db)
  }

  /** A committed registration adds one user and consumes one challenge that was not consumed. */
  lemma RegistrationBalances(db: Db, r: Request, seen: Challenge, now: Time, maxAttempts: nat)
    requires Keyed(db) && Balanced(db) && Commits(db, r, seen, now, maxAttempts)
    ensures Balanced(RegisteredRows(db, r, seen, now))
  {
    ConsumesOne(db, r, seen, now, maxAttempts);
    assert RegisteredRows(db, r, seen, now).users.Keys == db.users.Keys + {db.nextId};
    assert RegisteredRows(db, r, seen, now).identities.Keys == db.identities.Keys + {db.nextId};
  }

  lemma ConsumesOne(db: Db, r: Request, seen: Challenge, now: Time, maxAttempts: nat)
    requires Commits(db, r, seen, now, maxAttempts)
    ensures Consumed(RegisteredRows(db, r, seen, now)) == Consumed(db) + {r.challengeId}
            && r.challengeId !in Consumed(db)
  {
    var challenges' := RegisteredRows(db, r, seen, now).challenges;
    forall c | c != r.challengeId ensures c in challenges' <==> c in db.challenges {
    }
  }

  lemma StepKeepsBalance(db: Db, op: Op)
    requires Keyed(db) && Balanced(db)
    ensures Balanced(Apply(db, op))
  {
    if op.Register? && Commits(db, op.request, op.seen, op.now, op.maxAttempts) {
      RegistrationBalances(db, op.request, op.seen, op.now, op.maxAttempts);
    } else {
      assert Consumed(Apply(db, op)) == Consumed(db);
      assert Apply(db, op).users.Keys == db.users.Keys;
    }
  }

  lemma StepKeepsKeys(db: Db, op: Op)
    requires Keyed(db)
    ensures Keyed(Apply(db, op))
  {
  }

  lemma StepKeepsUnique(db: Db, op: Op)
    requires Keyed(db) && Unique(db)
    ensures Unique(Apply(db, op))
  {
  }

  lemma StepKeepsAttempts(db: Db, op: Op)
    requires AttemptsMatch(db) && Settled(db)
    ensures AttemptsMatch(Apply(db, op)) && Settled(Apply(db, op))
  {
  }

  lemma StepConserves(db: Db, op: Op)
    requires Conserved(db)
    ensures Conserved(Apply(db, op))
  {
    StepKeepsBalance(db, op);
    StepKeepsKeys(db, op);
    StepKeepsUnique(db, op);
    StepKeepsAttempts(db, op);
  }

  /** In every run the four counts agree: nothing is registered twice from a challenge, an e-mail or an identity. */
  lemma {:induction false} RunConserves(db: Db, ops: seq<Op>)
    requires Conserved(db)
    ensures Conserved(Run(db, ops))
    decreases |ops|
  {
    if ops != [] {
      StepConserves(db, ops[0]);
      RunConserves(Apply(db, ops[0]), ops[1..]);
    }
  }

  /** The second guard of the transaction cannot fail once the first has passed: a recorded attempt can be consumed. */
  lemma RecordedAttemptCanBeConsumed(c: Challenge, now: Time, maxAttempts: nat)
    requires CanRecordAttempt(c, now, maxAttempts)
    ensures CanConsume(c.(attempts := c.attempts + 1), now, maxAttempts)
  {
  }

  // ---- One activation -----------------------------------------------------------------------

  ghost predicate OneUse(db: Db) {
    forall u :: u in db.users ==>
      |UsedTokens(db, u)| == if db.users[u].emailVerifiedAt.Some? then 1 else 0
  }

  /** Without purges, a user is verified exactly when one, and only one, of their tokens is used. */
  lemma {:induction false} VerifiedIffOneTokenUsed(db: Db, ops: seq<Op>)
    requires Conserved(db) && OneUse(db) && forall op :: op in ops ==> !op.Purge?
    ensures OneUse(Run(db, ops))
    decreases |ops|
  {
    if ops != [] {
      StepConserves(db, ops[0]);
      StepKeepsOneUse(db, ops[0]);
      VerifiedIffOneTokenUsed(Apply(db, ops[0]), ops[1..]);
    }
  }

  /** A step either activates `u` with one token or leaves the user's used tokens as they are, save for purges. */
  lemma UsedTokensMove(db: Db, op: Op, u: Id)
    requires Keyed(db) && u in db.users && u in Apply(db, op).users
    ensures op.Verify? && CanActivate(db, op.tokenId, op.now) && db.tokens[op.tokenId].userId == u ==>
              && UsedTokens(Apply(db, op), u) == UsedTokens(db, u) + {op.tokenId}
              && db.users[u].emailVerifiedAt == None && Apply(db, op).users[u].emailVerifiedAt.Some?
    ensures !(op.Verify? && CanActivate(db, op.tokenId, op.now) && db.tokens[op.tokenId].userId == u) ==>
              && UsedTokens(Apply(db, op), u) <= UsedTokens(db, u)
              && (!op.Purge? ==> UsedTokens(Apply(db, op), u) == UsedTokens(db, u))
              && Apply(db, op).users[u].emailVerifiedAt == db.users[u].emailVerifiedAt
  {
    var db' := Apply(db, op);
    if op.Verify? && CanActivate(db, op.tokenId, op.now) && db.tokens[op.tokenId].userId == u {
      assert UsedTokens(db', u) == UsedTokens(db, u) + {op.tokenId};
    } else if !op.Purge? {
      assert UsedTokens(db', u) == UsedTokens(db, u);
    }
  }

  lemma NewcomersHaveNoUse(db: Db, op: Op, u: Id)
    requires Keyed(db) && u !in db.users && u in Apply(db, op).users
    ensures UsedTokens(Apply(db, op), u) == {} && Apply(db, op).users[u].emailVerifiedAt == None
  {
  }

  lemma StepKeepsOneUse(db: Db, op: Op)
    requires Keyed(db) && OneUse(db) && !op.Purge?
    ensures OneUse(Apply(db, op))
  {
    var db' := Apply(db, op);
    forall u | u in db'.users ensures |UsedTokens(db', u)| == if db'.users[u].emailVerifiedAt.Some? then 1 else 0 {
      if u in db.users {
        UsedTokensMove(db, op, u);
        if db.users[u].emailVerifiedAt == None { assert UsedTokens(db, u) == {}; }
      } else {
        NewcomersHaveNoUse(db, op, u);
      }
    }
  }

  /** With purges the used token may be gone, but never is there a used token without a verified user, or two. */
  ghost predicate AtMostOneUse(db: Db) {
    forall u :: u in db.users ==>
      |UsedTokens(db, u)| <= if db.users[u].emailVerifiedAt.Some? then 1 else 0
  }

  lemma {:induction false} NeverTwoActivations(db: Db, ops: seq<Op>)
    requires Conserved(db) && AtMostOneUse(db)
    ensures AtMostOneUse(Run(db, ops))
    decreases |ops|
  {
    if ops != [] {
      StepConserves(db, ops[0]);
      StepKeepsAtMostOneUse(db, ops[0]);
      NeverTwoActivations(Apply(db, ops[0]), ops[1..]);
    }
  }

  lemma StepKeepsAtMostOneUse(db: Db, op: Op)
    requires Keyed(db) && AtMostOneUse(db)
    ensures AtMostOneUse(Apply(db, op))
  {
    var db' := Apply(db, op);
    forall u | u in db'.users ensures |UsedTokens(db', u)| <= if db'.users[u].emailVerifiedAt.Some? then 1 else 0 {
      if u in db.users {
        UsedTokensMove(db, op, u);
        if db.users[u].emailVerifiedAt == None { assert UsedTokens(db, u) == {}; }
        if UsedTokens(db', u) <= UsedTokens(db, u) { SubsetSize(UsedTokens(db', u), UsedTokens(db, u)); }
      } else {
        NewcomersHaveNoUse(db, op, u);
      }
    }
  }

  // ---- One live token -----------------------------------------------------------------------

  ghost predicate OneLiveToken(db: Db, clock: Time) {
    forall s, t | s in db.tokens && t in db.tokens && db.tokens[s].userId == db.tokens[t].userId ::
      Usable(db.tokens[s], clock) && Usable(db.tokens[t], clock) ==> s == t
  }

  /** Resending uses a time read before; it is no later than the clock. */
  predicate NotAfter(op: Op, clock: Time) { op.Resend? ==> op.now <= clock }

  lemma StepKeepsOneLiveToken(db: Db, op: Op, clock: Time)
    requires Keyed(db) && OneLiveToken(db, clock) && NotAfter(op, clock)
    ensures OneLiveToken(Apply(db, op), clock)
  {
  }

  /** Whatever was sent, resent or used before `clock`, a user has at most one token that still works then. */
  lemma {:induction false} AtMostOneLiveToken(db: Db, ops: seq<Op>, clock: Time)
    requires Keyed(db) && OneLiveToken(db, clock) && forall op :: op in ops ==> NotAfter(op, clock)
    ensures OneLiveToken(Run(db, ops), clock)
    decreases |ops|
  {
    if ops != [] {
      StepKeepsKeys(db, ops[0]);
      StepKeepsOneLiveToken(db, ops[0], clock);
      AtMostOneLiveToken(Apply(db, ops[0]), ops[1..], clock);
    }
  }
}
