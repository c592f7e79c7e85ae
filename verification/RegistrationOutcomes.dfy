/**
 * Registration and activation by the fields of the rows: who is registered, which e-mail token
 * works and until when, and what each leaves behind.
 */
module RegistrationOutcomes {
  import opened Common
  import opened Registration

  // ---- Registration -------------------------------------------------------------------------

  /** A pending challenge that is not over and has attempts left. */
  predicate ChallengeGood(challenges: map<Id, Challenge>, id: Id, now: Time, maxAttempts: nat) {
    && id in challenges
    && challenges[id].status == PENDING && challenges[id].consumedAt == None
    && now < challenges[id].expiresAt && challenges[id].attempts < maxAttempts
  }

  predicate Taken(db: Db, email: string, identity: string) {
    || (exists u :: u in db.users && db.users[u].email == email)
    || (exists u :: u in db.identities && db.identities[u] == identity)
  }

  /** The key is new, the challenge good, and neither e-mail nor identity taken. */
  predicate MayRegister(db: Db, r: Request, identity: string, now: Time, maxAttempts: nat) {
    r.key !in db.records && ChallengeGood(db.challenges, r.challengeId, now, maxAttempts)
        && !Taken(db, r.email, identity)
  }

  /**
   * One unverified user with credential, identity and e-mail token; the challenge consumed; the
   * answer kept under the key.
   */
  ghost predicate Added(before: Db, after: Db, r: Request, identity: string, now: Time) {
    var uid := before.nextId;
    && r.challengeId in before.challenges
    && after.users == before.users[uid := User(r.email, true, None)]
    && after.credentials == before.credentials + {uid}
    && after.identities == before.identities[uid := identity]
    && after.tokens == before.tokens[uid + 1 := EmailToken(uid, now + r.tokenLife, None, None)]
    && after.records == before.records[r.key := Record(r.digest, Some(uid))]
    && after.nextId == before.nextId + 2
    && after.challenges == before.challenges[r.challengeId := before.challenges[r.challengeId].(
         status := CONSUMED, consumedAt := Some(now), attempts := before.challenges[r.challengeId].attempts + 1)]
  }

  lemma RegistersExactly(db: Db, r: Request, seen: Challenge, now: Time, maxAttempts: nat)
    ensures Commits(db, r, seen, now, maxAttempts) <==> MayRegister(db, r, seen.identity, now, maxAttempts)
    ensures if MayRegister(db, r, seen.identity, now, maxAttempts)
            then Added(db, RegistrationOf(db, r, seen, now, maxAttempts), r, seen.identity, now)
            else RegistrationOf(db, r, seen, now, maxAttempts) == db
  {
  }

  // ---- Activation ---------------------------------------------------------------------------

  /** An unused token that no later one has replaced and whose time is not over, of a user not yet verified. */
  predicate MayActivate(db: Db, tokenId: Id, now: Time) {
    && tokenId in db.tokens
    && db.tokens[tokenId].usedAt == None && db.tokens[tokenId].supersededAt == None
         && now < db.tokens[tokenId].expiresAt
    && db.tokens[tokenId].userId in db.users
    && db.users[db.tokens[tokenId].userId].pendingEmail && db.users[db.tokens[tokenId].userId].emailVerifiedAt == None
  }

  ghost predicate ActivatedBy(before: Db, after: Db, tokenId: Id, now: Time) {
    && tokenId in before.tokens && before.tokens[tokenId].userId in before.users
    && var uid := before.tokens[tokenId].userId;
       after == before.(tokens := before.tokens[tokenId := before.tokens[tokenId].(usedAt := Some(now))],
                        users :=
                            before.users[uid :=
                                before.users[uid].(emailVerifiedAt := Some(now), pendingEmail := false)])
  }

  lemma ActivatesExactly(db: Db, tokenId: Id, now: Time)
    ensures CanActivate(db, tokenId, now) <==> MayActivate(db, tokenId, now)
    ensures if MayActivate(db, tokenId, now) then ActivatedBy(db, Activated(db, tokenId, now), tokenId, now)
            else Activated(db, tokenId, now) == db
  {
  }

  lemma TokensMove(db: Db, op: Op, t: Id)
    requires Keyed(db) && t < db.nextId && t in Apply(db, op).tokens
    ensures t in db.tokens && Apply(db, op).tokens[t].expiresAt == db.tokens[t].expiresAt
    ensures Apply(db, op).tokens[t].userId == db.tokens[t].userId
  {
  }

  /** Whatever else happens, a token that is over at a time activates nobody then or later. */
  lemma {:induction false} ExpiredTokenActivatesNobody(db: Db, ops: seq<Op>, t: Id, now: Time)
    requires Keyed(db) && t in db.tokens && db.tokens[t].expiresAt <= now
    ensures Apply(Run(db, ops), Verify(t, now)) == Run(db, ops)
    decreases |ops|
  {
    if ops == [] {
      ActivatesExactly(db, t, now);
    } else {
      var db' := Apply(db, ops[0]);
      StepKeepsKeys(db, ops[0]);
      if t in db'.tokens {
        TokensMove(db, ops[0], t);
        ExpiredTokenActivatesNobody(db', ops[1..], t, now);
      } else {
        GoneActivatesNobody(db', ops[1..], t, now);
      }
    }
  }

  lemma {:induction false} GoneActivatesNobody(db: Db, ops: seq<Op>, t: Id, now: Time)
    requires Keyed(db) && t < db.nextId && t !in db.tokens
    ensures Apply(Run(db, ops), Verify(t, now)) == Run(db, ops)
    decreases |ops|
  {
    if ops != [] {
      StepKeepsKeys(db, ops[0]);
      if t in Apply(db, ops[0]).tokens { TokensMove(db, ops[0], t); }
      GoneActivatesNobody(Apply(db, ops[0]), ops[1..], t, now);
    }
  }

  /** Resending replaces the tokens that are unused, unreplaced and not over, by one; every other row is as it was. */
  lemma ResendReplaces(db: Db, userId: Id, now: Time, tokenLife: nat)
    requires Keyed(db) && userId in db.users
    ensures var after := Apply(db, Resend(userId, now, tokenLife));
            && after == db.(tokens := after.tokens, nextId := db.nextId + 1)
            && after.tokens.Keys == db.tokens.Keys + {db.nextId}
            && after.tokens[db.nextId] == EmailToken(userId, now + tokenLife, None, None)
            && forall t :: t in db.tokens ==>
                 after.tokens[t] == if db.tokens[t].userId == userId && db.tokens[t].usedAt == None
                                       && db.tokens[t].supersededAt == None && now < db.tokens[t].expiresAt
                                    then db.tokens[t].(supersededAt := Some(now)) else db.tokens[t]
  {
  }
}
