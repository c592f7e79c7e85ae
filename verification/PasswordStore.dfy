/** The password transactions as the service performs them, proved equal to their effects in `PasswordRows`. */
module PasswordStore {
  import opened Common
  import opened PasswordRows
  import O = PasswordOutcomes
  import S = SessionRows
  import opened SessionStore

  class PasswordService {
    const auth: AuthStore
    var credentials: map<Id, Hash>
    var resets: map<Id, Reset>
    var nextReset: Id

    constructor ()
      ensures Rows() == Db(map[], map[], 0, S.EMPTY) && fresh(auth)
    {
      auth := new AuthStore();
      credentials, resets, nextReset := map[], map[], 0;
    }

    ghost function Rows(): Db
      reads this, auth
    {
      Db(credentials, resets, nextReset, auth.Rows())
    }

    /** The transaction of a reset request: revoke what still works, then create. */
    method Forgot(userId: Id, now: Time, expiresAt: Time) returns (created: Id)
      modifies this
      ensures Rows() == Requested(old(Rows()), userId, now, expiresAt)
      ensures created == old(nextReset)
    {
      resets := map r | r in resets ::
        if resets[r].userId == userId && resets[r].usedAt == None && resets[r].revokedAt == None
            && now < resets[r].expiresAt then
          resets[r].(revokedAt := Some(now))
        else resets[r];
      created := nextReset;
      assert resets[created := Reset(userId, expiresAt, None, None)]
          == Requested(old(Rows()), userId, now, expiresAt).resets;
      resets := resets[created := Reset(userId, expiresAt, None, None)];
      nextReset := nextReset + 1;
    }

    method CancelOthers(userId: Id, keep: Option<Id>, now: Time)
      requires keep.Some? ==> keep.value in resets && resets[keep.value].usedAt.Some?
      modifies this`resets
      ensures resets == Cancelled(old(resets), userId, now)
    {
      resets := map r | r in resets ::
        if resets[r].userId == userId && keep != Some(r) && resets[r].usedAt == None && resets[r].revokedAt == None then
          resets[r].(revokedAt := Some(now))
        else resets[r];
    }

    /** The reset transaction: spend the request, store the hash, revoke the other requests, end the sessions. */
    method ResetPassword(resetId: Id, userId: Id, hash: Hash, now: Time) returns (changed: bool)
      modifies this, auth
      ensures changed <==>
                && resetId in old(resets) && old(resets)[resetId].usedAt == None
                     && old(resets)[resetId].revokedAt == None
                && now < old(resets)[resetId].expiresAt && userId in old(credentials)
      ensures changed && old(resets)[resetId].userId == userId ==>
                O.Written(old(Rows()), Rows(), userId, hash, now) && resets[resetId].usedAt == Some(now)
      ensures changed ==> Rows() == ResetDone(old(Rows()), resetId, userId, hash, now)
      ensures !changed ==> Rows() == old(Rows())
    {
      if resetId !in resets || resets[resetId].usedAt != None || resets[resetId].revokedAt != None
          || resets[resetId].expiresAt <= now {
        return false;
      }
      var resets0 := resets;
      resets := resets[resetId := resets[resetId].(usedAt := Some(now))];
      if userId !in credentials {
        resets := resets0;
        return false;
      }
      if resets[resetId].userId == userId { O.ResetWrites(old(Rows()), resetId, userId, hash, now); }
      credentials := credentials[userId := hash];
      CancelOthers(userId, Some(resetId), now);
      auth.RevokeForPassword(userId, now);
      return true;
    }

    /** The change transaction: compare and replace the hash, revoke the requests, end the sessions. */
    method ChangePassword(userId: Id, seen: Hash, hash: Hash, now: Time) returns (changed: bool)
      modifies this, auth
      ensures changed <==> userId in old(credentials) && old(credentials)[userId] == seen
      ensures changed ==> O.Written(old(Rows()), Rows(), userId, hash, now)
      ensures changed ==> Rows() == ChangeDone(old(Rows()), userId, hash, now)
      ensures !changed ==> Rows() == old(Rows())
    {
      if userId !in credentials || credentials[userId] != seen { return false; }
      O.ChangeWrites(Rows(), userId, hash, now);
      credentials := credentials[userId := hash];
      CancelOthers(userId, None, now);
      auth.RevokeForPassword(userId, now);
      return true;
    }

    /** The credential half of the login transaction, after the session is created. */
    method Login(userId: Id, level: S.SessionLevel, expiresAt: Time, rehash: Option<Hash>)
      returns (sessionId: Id, tokenId: Id)
      modifies this`credentials, auth
      ensures Rows() == LoggedIn(old(Rows()), userId, level, expiresAt, rehash)
      ensures sessionId == old(auth.nextId) && tokenId == sessionId + 1
    {
      sessionId, tokenId := auth.CreateSession(userId, level, expiresAt);
      if rehash.Some? { credentials := credentials[userId := rehash.value]; }
    }
  }
}
