/**
 * Owner-checked leases in a shared key-value store: `SET key owner EX ttl NX` to acquire, and
 * a script that deletes the key only while it still holds the caller's own value.
 */
module Leases {
  import opened Common

  datatype Lease = Lease(owner: Id, expiresAt: Time)

  type Table<K> = map<K, Lease>

  /** A key past its expiry reads as absent. */
  predicate Held<K>(table: Table<K>, key: K, now: Time) {
    key in table && now < table[key].expiresAt
  }

  function Acquired<K>(table: Table<K>, key: K, owner: Id, ttl: Time, now: Time): Table<K> {
    if Held(table, key, now) then table else table[key := Lease(owner, now + ttl)]
  }

  function Released<K>(table: Table<K>, key: K, owner: Id, now: Time): Table<K> {
    if Held(table, key, now) && table[key].owner == owner then table - {key} else table
  }

  /** A release never removes a lease that belongs to somebody else. */
  lemma ReleaseSparesOthers<K>(table: Table<K>, key: K, owner: Id, now: Time, other: K)
    requires Held(table, other, now) && (other != key || table[other].owner != owner)
    ensures Held(Released(table, key, owner, now), other, now)
    ensures Released(table, key, owner, now)[other] == table[other]
  {
  }
}
