/** Registration and activation as the services perform them: ordered writes, undone when a guard finds no row. */
module RegistrationStore {
  import opened Common
  import opened Registration
  import O = RegistrationOutcomes

  class AccountStore {
    var challenges: map<Id, Challenge>
    var users: map<Id, User>
    var credentials: set<Id>
    var identities: map<Id, string>
    var tokens: map<Id, EmailToken>
    var records: map<string, Record>
    var nextId: Id

    ghost function Rows(): Db
      reads this
    {
      Db(challenges, users, credentials, identities, tokens, records, nextId)
    }

    method RecordAttempt(id: Id, now: Time, maxAttempts: nat) returns (recorded: bool)
      modifies this`challenges
      ensures recorded <==> id in old(challenges) && CanRecordAttempt(old(challenges)[id], now, maxAttempts)
      ensures challenges == if recorded
              then old(challenges)[id := old(challenges)[id].(attempts := old(challenges)[id].attempts + 1)]
              else old(challenges)
    {
      recorded := id in challenges && challenges[id].status == PENDING && challenges[id].consumedAt == None
                  && now < challenges[id].expiresAt && challenges[id].attempts < maxAttempts;
      if recorded {
        challenges := challenges[id := challenges[id].(attempts := challenges[id].attempts + 1)];
      }
    }

    method Consume(id: Id, now: Time, maxAttempts: nat) returns (consumed: bool)
      modifies this`challenges
      ensures consumed <==> id in old(challenges) && CanConsume(old(challenges)[id], now, maxAttempts)
      ensures challenges == if consumed
              then old(challenges)[id := old(challenges)[id].(status := CONSUMED, consumedAt := Some(now))]
              else old(challenges)
    {
      consumed := id in challenges && challenges[id].status == PENDING && challenges[id].consumedAt == None
                  && now < challenges[id].expiresAt && challenges[id].attempts <= maxAttempts;
      if consumed {
        challenges := challenges[id := challenges[id].(status := CONSUMED, consumedAt := Some(now))];
      }
    }

    /** The registration transaction: its answer and its rows, by the rows it finds. */
    method RegisterTransaction(r: Request, seen: Challenge, now: Time, maxAttempts: nat) returns (outcome: Outcome)
      modifies this
      ensures Rows() == RegistrationOf(old(Rows()), r, seen, now, maxAttempts)
      ensures outcome == if O.MayRegister(old(Rows()), r, seen.identity, now, maxAttempts) then Registered(old(nextId))
                         else if r.key !in old(records)
                                 && !O.ChallengeGood(old(challenges), r.challengeId, now, maxAttempts)
                         then InvalidChallenge
                         else Unavailable
      ensures if outcome.Registered? then O.Added(old(Rows()), Rows(), r, seen.identity, now) else Rows() == old(Rows())
    {
      O.RegistersExactly(Rows(), r, seen, now, maxAttempts);
      outcome := PerformRegistration(r, seen, now, maxAttempts);
    }

    /** The transaction's writes in order; a failed guard undoes all of them. */
    method PerformRegistration(r: Request, seen: Challenge, now: Time, maxAttempts: nat) returns (outcome: Outcome)
      modifies this
      ensures Rows() == RegistrationOf(old(Rows()), r, seen, now, maxAttempts)
      ensures outcome == if Commits(old(Rows()), r, seen, now, maxAttempts) then Registered(old(nextId))
                         else if r.key !in old(records)
                                 && !(r.challengeId in old(challenges)
                                      && CanRecordAttempt(old(challenges)[r.challengeId], now, maxAttempts))
                         then InvalidChallenge
                         else Unavailable
    {
      if r.key in records { return Unavailable; }
      var records0, challenges0 := records, challenges;
      records := records[r.key := Record(r.digest, None)];
      var recorded := RecordAttempt(r.challengeId, now, maxAttempts);
      if !recorded {
        records := records0;
        return InvalidChallenge;
      }
      if (exists u :: u in users && users[u].email == r.email)
          || (exists u :: u in identities && identities[u] == seen.identity) {
        records, challenges := records0, challenges0;
        return Unavailable;
      }
      var uid := CreateAccount(r, seen.identity, now);
      RecordedAttemptCanBeConsumed(challenges0[r.challengeId], now, maxAttempts);
      var consumed := Consume(r.challengeId, now, maxAttempts);
      assert consumed;
      records := records[r.key := Record(r.digest, Some(uid))];
      return Registered(uid);
    }

    /** User, credential, identity and first e-mail token. */
    method CreateAccount(r: Request, identity: string, now: Time) returns (uid: Id)
      modifies this`users, this`credentials, this`identities, this`tokens, this`nextId
      ensures uid == old(nextId) && nextId == old(nextId) + 2
      ensures users == old(users)[uid := User(r.email, true, None)]
      ensures credentials == old(credentials) + {uid}
      ensures identities == old(identities)[uid := identity]
      ensures tokens == old(tokens)[uid + 1 := EmailToken(uid, now + r.tokenLife, None, None)]
    {
      uid := nextId;
      users := users[uid := User(r.email, true, None)];
      credentials := credentials + {uid};
      identities := identities[uid := identity];
      tokens := tokens[nextId + 1 := EmailToken(uid, now + r.tokenLife, None, None)];
      nextId := nextId + 2;
    }

    /** Other registrations, activations, resends and purges, or none, while this one opens the snapshot and hashes. */
    method Interference(ghost quiet: bool)
      requires Conserved(Rows())
      modifies this
      ensures Conserved(Rows())
      ensures quiet ==> Rows() == old(Rows())
    {
    }

    /**
     * A finished request with the same key and body answers with its user; another body conflicts.
     * Otherwise the challenge is read, others may run, and the transaction decides on the rows
     * `found`: what was true at the read counts only where the transaction checks it again.
     */
    method Register(r: Request, readAt: Time, now: Time, maxAttempts: nat, ghost quiet: bool)
      returns (outcome: Outcome, ghost found: Db)
      requires Conserved(Rows())
      modifies this
      ensures Conserved(Rows())
      ensures r.key in old(records) ==> Rows() == old(Rows())
      ensures r.key in old(records) && old(records)[r.key].request == r.digest ==>
                outcome == ReplayedAs(old(records)[r.key].response.value)
      ensures r.key in old(records) && old(records)[r.key].request != r.digest ==> outcome == IdempotencyConflict
      ensures outcome.Registered? ==>
                && r.key !in old(records) && r.challengeId in old(challenges)
                && var seen := old(challenges)[r.challengeId];
                   && seen.email == r.email
                   && O.MayRegister(found, r, seen.identity, now, maxAttempts)
                   && O.Added(found, Rows(), r, seen.identity, now)
                   && outcome.userId == found.nextId
      ensures !outcome.Registered? ==> Rows() == found
      ensures quiet && readAt <= now ==>
                (outcome.Registered? <==>
                  && r.challengeId in old(challenges) && old(challenges)[r.challengeId].email == r.email
                  && O.MayRegister(old(Rows()), r, old(challenges)[r.challengeId].identity, now, maxAttempts))
    {
      found := Rows();
      if r.key in records {
        var existing := records[r.key];
        if existing.request != r.digest || existing.response == None || existing.response.value !in users {
          return IdempotencyConflict, found;
        }
        return ReplayedAs(existing.response.value), found;
      }
      if r.challengeId !in challenges { return InvalidChallenge, found; }
      var seen := challenges[r.challengeId];
      if seen.status != PENDING || seen.consumedAt.Some? || seen.expiresAt <= readAt || seen.email != r.email {
        return InvalidChallenge, found;
      }
      Interference(quiet);
      found := Rows();
      outcome := RegisterTransaction(r, seen, now, maxAttempts);
      StepConserves(found, Op.Register(r, seen, now, maxAttempts));
    }

    /** The activation transaction: spend the token, then activate the user, or undo. */
    method VerifyEmail(tokenId: Id, now: Time) returns (verified: bool)
      modifies this`tokens, this`users
      ensures verified <==> O.MayActivate(old(Rows()), tokenId, now)
      ensures if verified then O.ActivatedBy(old(Rows()), Rows(), tokenId, now) else Rows() == old(Rows())
      ensures Rows() == Activated(old(Rows()), tokenId, now)
    {
      O.ActivatesExactly(Rows(), tokenId, now);
      if tokenId !in tokens || tokens[tokenId].usedAt.Some? || tokens[tokenId].supersededAt.Some?
          || tokens[tokenId].expiresAt <= now {
        return false;
      }
      var tokens0 := tokens;
      tokens := tokens[tokenId := tokens[tokenId].(usedAt := Some(now))];
      var uid := tokens[tokenId].userId;
      if uid !in users || !users[uid].pendingEmail || users[uid].emailVerifiedAt.Some? {
        tokens := tokens0;
        return false;
      }
      users := users[uid := users[uid].(emailVerifiedAt := Some(now), pendingEmail := false)];
      return true;
    }
  }
}
