/**
 * Credentials and password-reset requests, and the effect of each committed transaction on
 * them and on the session rows of the same user.
 */
module PasswordRows {
  import opened Common
  import S = SessionRows

  /**
   * A hash accepts exactly its password; the random salt makes every computed hash new. `dated`
   * hashes need a rehash.
   */
  datatype Hash = Hash(password: string, salt: Id, dated: bool)

  datatype Reset = Reset(userId: Id, expiresAt: Time, usedAt: Option<Time>, revokedAt: Option<Time>)

  datatype Db = Db(credentials: map<Id, Hash>, resets: map<Id, Reset>, nextReset: Id, auth: S.Db)

  predicate Open(r: Reset) { r.usedAt == None && r.revokedAt == None }

  predicate Spendable(r: Reset, now: Time) { Open(r) && now < r.expiresAt }

  /** Asking for a reset revokes the user's requests that still work and adds one. */
  function Requested(db: Db, userId: Id, now: Time, expiresAt: Time): Db {
    var revoked := map r | r in db.resets ::
      if db.resets[r].userId == userId && Spendable(db.resets[r], now) then db.resets[r].(revokedAt := Some(now))
      else db.resets[r];
    db.(resets := revoked[db.nextReset := Reset(userId, expiresAt, None, None)], nextReset := db.nextReset + 1)
  }

  /** A recovery code adds a request and revokes none. */
  function Recovered(db: Db, userId: Id, expiresAt: Time): Db {
    db.(resets := db.resets[db.nextReset := Reset(userId, expiresAt, None, None)], nextReset := db.nextReset + 1)
  }

  /** Revokes every open request of the user, expired ones too. */
  function Cancelled(resets: map<Id, Reset>, userId: Id, now: Time): map<Id, Reset> {
    map r | r in resets ::
      if resets[r].userId == userId && Open(resets[r]) then resets[r].(revokedAt := Some(now)) else resets[r]
  }

  predicate CanReset(db: Db, resetId: Id, userId: Id, now: Time) {
    resetId in db.resets && Spendable(db.resets[resetId], now) && userId in db.credentials
  }

  function ResetDone(db: Db, resetId: Id, userId: Id, hash: Hash, now: Time): Db
    requires resetId in db.resets
  {
    db.(credentials := db.credentials[userId := hash],
        resets := Cancelled(db.resets[resetId := db.resets[resetId].(usedAt := Some(now))], userId, now),
        auth := S.PasswordRevoked(db.auth, userId, now))
  }

  /** The update compares the whole stored hash with the one the caller's password was checked against. */
  predicate CanChange(db: Db, userId: Id, seen: Hash) { userId in db.credentials && db.credentials[userId] == seen }

  function ChangeDone(db: Db, userId: Id, hash: Hash, now: Time): Db {
    db.(credentials := db.credentials[userId := hash],
        resets := Cancelled(db.resets, userId, now),
        auth := S.PasswordRevoked(db.auth, userId, now))
  }

  /** Login creates its session and, when the hash it read was dated, stores a new one by key alone. */
  function LoggedIn(db: Db, userId: Id, level: S.SessionLevel, expiresAt: Time, rehash: Option<Hash>): Db {
    db.(auth := S.Created(db.auth, userId, level, expiresAt),
        credentials := if rehash.Some? then db.credentials[userId := rehash.value] else db.credentials)
  }
}
