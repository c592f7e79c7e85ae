/**
 * Verification media rows and stored objects. An object is named by its key; `digest` is the
 * keyed reference digest.
 */
module MediaRows {
  import opened Common

  /** Uploads confirm identity documents only; older rows may hold other kinds. */
  datatype MediaType = ID_DOCUMENT | OTHER_MEDIA

  /** `key` is what the sealed reference holds; it opens only when `readable`. */
  datatype Media = Media(
    attemptId: Id,
    mediaType: MediaType,
    key: string,
    readable: bool,
    digest: Option<string>,
    deletedAt: Option<Time>,
    expiresAt: Time,
    legalHoldUntil: Option<Time>,
    nextDeletionAttemptAt: Time,
    deletionAttempts: nat)

  datatype Object = Object(key: string, lastModified: Time)

  /** Which storage deletions and which row updates fail during a pass. */
  datatype Faults = Faults(storage: set<string>, rows: set<Id>)

  datatype Limits = Limits(batch: nat, retryBase: nat, retryMax: nat)

  function Delay(attempts: nat, limits: Limits): nat {
    Min(limits.retryMax, limits.retryBase * Pow2(if attempts < 10 then attempts else 10)) * 1_000
  }

  predicate Live(m: Media) { m.deletedAt == None }

  predicate OnHold(m: Media, now: Time) { m.legalHoldUntil.Some? && now < m.legalHoldUntil.value }

  /** Rows written before digests existed. */
  predicate Legacy(m: Media) { m.digest == None && Live(m) }

  function LegacyRows(media: map<Id, Media>): set<Id> { set i | i in media && Legacy(media[i]) }

  /** A stored digest is the digest of the row's own key. */
  ghost predicate DigestsHold(media: map<Id, Media>, digest: string -> string) {
    forall i :: i in media && media[i].digest.Some? ==> media[i].digest.value == digest(media[i].key)
  }

  /** One row at most for each object. */
  ghost predicate OneRowPerObject(media: map<Id, Media>) {
    forall i, j :: i in media && j in media && media[i].key == media[j].key ==> i == j
  }

  /** Some row, deleted or not, names the digest, or a live legacy row would once its key is digested. */
  predicate Tracked(media: map<Id, Media>, digest: string -> string, d: string) {
    exists i :: i in media && (media[i].digest == Some(d) || (Legacy(media[i]) && digest(media[i].key) == d))
  }

  /** Every legacy row was returned by the bounded query, opened, and updated. */
  predicate ScanComplete(media: map<Id, Media>, scanned: set<Id>, faults: Faults, limits: Limits) {
    |scanned| < limits.batch && forall i :: i in scanned && i in media ==> media[i].readable && i !in faults.rows
  }

  /** Scanned rows that open and whose update goes through receive their digest. */
  function Digested(media: map<Id, Media>, scanned: set<Id>, digest: string -> string, faults: Faults): map<Id, Media> {
    map i | i in media ::
      if i in scanned && Legacy(media[i]) && media[i].readable && i !in faults.rows then
        media[i].(digest := Some(digest(media[i].key)))
      else media[i]
  }

  /** The objects of the page that are old, untracked, and whose deletion succeeds. */
  function Orphans(media: map<Id, Media>, page: seq<Object>, digest: string -> string, cutoff: Time,
                   faults: Faults): set<string> {
    set o | o in page && o.lastModified <= cutoff && !Tracked(media, digest, digest(o.key))
        && o.key !in faults.storage :: o.key
  }

  function DueRows(media: map<Id, Media>, underReview: set<Id>, now: Time): set<Id> {
    set i | i in media && Due(media[i], underReview, now)
  }

  function FreeRows(media: map<Id, Media>, attemptId: Id, now: Time): set<Id> {
    set i | i in media && media[i].attemptId == attemptId && Live(media[i]) && !OnHold(media[i], now)
  }

  predicate Due(m: Media, underReview: set<Id>, now: Time) {
    Live(m) && m.expiresAt <= now && m.nextDeletionAttemptAt <= now && !OnHold(m, now) && m.attemptId !in underReview
  }
}
