/**
 * Deleting verification media, each pass by itself: the orphan sweep over a page of stored
 * objects, the batch for expired media, and the deletion after a verdict. Storage and decryption
 * may fail on any item. `MediaProtocol` lets the steps of the passes interleave.
 */
module MediaCleanup {
  import opened Common
  import opened MediaRows

  class CleanupService {
    var media: map<Id, Media>
    var objects: set<string>

    /** `findMany` with a limit: any rows matching, as many as allowed. */
    method Take(matching: set<Id>, limit: nat) returns (taken: set<Id>)
      ensures taken <= matching && |taken| == Min(limit, |matching|)
    {
      ghost var subset := SubsetOfSize(matching, limit);
      taken :| taken <= matching && |taken| == Min(limit, |matching|);
    }

    /** The first loop of the sweep: digest the legacy rows, noting any that cannot be read or updated. */
    method DigestLegacy(scanned: set<Id>, digest: string -> string, faults: Faults)
      returns (byDigest: map<string, Id>, unreadable: bool)
      requires scanned <= LegacyRows(media)
      modifies this`media
      ensures media == Digested(old(media), scanned, digest, faults)
      ensures unreadable <==> exists i :: i in scanned && (!old(media)[i].readable || i in faults.rows)
      ensures forall d :: d in byDigest ==> byDigest[d] in scanned && digest(old(media)[byDigest[d]].key) == d
      ensures forall i :: i in scanned && old(media)[i].readable ==> digest(old(media)[i].key) in byDigest
    {
      byDigest, unreadable := map[], false;
      var left := scanned;
      while left != {}
        invariant left <= scanned
        invariant media == Digested(old(media), scanned - left, digest, faults)
        invariant unreadable <==> exists i :: i in scanned - left && (!old(media)[i].readable || i in faults.rows)
        invariant forall d :: d in byDigest ==>
                  byDigest[d] in scanned - left && digest(old(media)[byDigest[d]].key) == d
        invariant forall i :: i in scanned - left && old(media)[i].readable ==> digest(old(media)[i].key) in byDigest
        decreases left
      {
        var i :| i in left;
        assert media[i] == old(media)[i];
        if media[i].readable {
          var d := digest(media[i].key);
          byDigest := byDigest[d := i];
          if i in faults.rows {
            unreadable := true;
          } else if media[i].digest == None {
            media := media[i := media[i].(digest := Some(d))];
          }
        } else {
          unreadable := true;
        }
        left := left - {i};
        assert scanned - left == (scanned - (left + {i})) + {i};
      }
      assert scanned - left == scanned;
    }

    /** The digests of the page that some row stores. */
    method TrackedDigests(page: seq<Object>, digest: string -> string) returns (tracked: set<string>)
      ensures forall d :: d in tracked <==> OnThePage(page, digest, d) && Stored(media, d)
    {
      var onPage := set o | o in page :: digest(o.key);
      tracked := set i | i in media && media[i].digest.Some?
          && media[i].digest.value in onPage :: media[i].digest.value;
    }

    /** The second loop: delete what is old, unknown to both lookups, and only after a complete scan. */
    method DeleteUnknown(page: seq<Object>, byDigest: map<string, Id>, tracked: set<string>, complete: bool,
                         digest: string -> string, cutoff: Time, faults: Faults)
      returns (deleted: nat, ghost removed: set<string>)
      requires forall i, j :: 0 <= i < j < |page| ==> page[i].key != page[j].key
      modifies this`objects
      ensures objects == old(objects) - removed && deleted == |removed|
      ensures removed == set o | o in page && complete && o.lastModified <= cutoff && digest(o.key) !in byDigest
                                 && digest(o.key) !in tracked && o.key !in faults.storage :: o.key
    {
      deleted, removed := 0, {};
      for n := 0 to |page|
        invariant objects == old(objects) - removed && deleted == |removed|
        invariant removed == set o | o in page[..n] && complete && o.lastModified <= cutoff
                  && digest(o.key) !in byDigest
                                     && digest(o.key) !in tracked && o.key !in faults.storage :: o.key
      {
        var item := page[n];
        assert page[..n + 1] == page[..n] + [item];
        if item.lastModified > cutoff { continue; }
        var d := digest(item.key);
        if d !in byDigest && d !in tracked && complete {
          if item.key !in faults.storage {
            objects := objects - {item.key};
            deleted := deleted + 1;
            removed := removed + {item.key};
          }
        }
      }
      assert page[..|page|] == page;
    }

    /**
     * One pass of the sweep. When the legacy scan is complete it removes exactly the old untracked
     * objects of the page whose deletion succeeds; otherwise it removes nothing.
     */
    method ReconcileOrphanedObjects(page: seq<Object>, digest: string -> string, cutoff: Time, faults: Faults,
                                    limits: Limits)
      returns (deleted: nat, ghost removed: set<string>, ghost scanned: set<Id>)
      requires DigestsHold(media, digest)
      requires forall i, j :: 0 <= i < j < |page| ==> page[i].key != page[j].key
      modifies this
      ensures objects == old(objects) - removed && deleted == |removed|
      ensures removed == if ScanComplete(old(media), scanned, faults, limits)
              then Orphans(old(media), page, digest, cutoff, faults) else {}
      ensures scanned <= LegacyRows(old(media)) && |scanned| == Min(limits.batch, |LegacyRows(old(media))|)
      ensures media == Digested(old(media), scanned, digest, faults) && DigestsHold(media, digest)
      ensures forall i :: i in old(media) && Live(old(media)[i]) ==> old(media)[i].key !in removed
    {
      var chosen := Take(LegacyRows(media), limits.batch);
      scanned := chosen;
      var byDigest, unreadable := DigestLegacy(chosen, digest, faults);
      var complete := |chosen| < limits.batch && !unreadable;
      assert complete <==> ScanComplete(old(media), scanned, faults, limits);
      if complete { SubsetSize(scanned, LegacyRows(old(media))); }
      var tracked := TrackedDigests(page, digest);
      deleted, removed := DeleteUnknown(page, byDigest, tracked, complete, digest, cutoff, faults);
      if complete {
        forall o | o in page
          ensures Tracked(old(media), digest, digest(o.key)) <==> digest(o.key) in byDigest || digest(o.key) in tracked
        {
          LookupsAgree(old(media), media, scanned, byDigest, tracked, page, digest, faults, o);
        }
        assert removed == Orphans(old(media), page, digest, cutoff, faults);
      }
    }

    /** One item of a deletion batch: open, delete the object, then record the deletion or the retry. */
    method DeleteItem(i: Id, now: Time, faults: Faults, limits: Limits) returns (count: nat)
      requires i in media
      modifies this
      ensures media == old(media)[i := SettledRow(old(media)[i], i, now, faults, limits)]
      ensures objects == old(objects) - Removed(old(media), {i}, faults)
      ensures count == if Deletes(old(media)[i], i, faults) then 1 else 0
    {
      var item := media[i];
      count := 0;
      if item.readable && item.key !in faults.storage {
        objects := objects - {item.key};
        if i !in faults.rows {
          media := media[i := item.(deletedAt := Some(now))];
          return 1;
        }
      }
      media := media[i := item.(deletionAttempts := item.deletionAttempts + 1,
                                nextDeletionAttemptAt := now + Delay(item.deletionAttempts, limits))];
    }

    /** Expired media past its retry time, free of legal hold and not under manual review. */
    method DeleteExpiredMediaBatch(underReview: set<Id>, now: Time, faults: Faults, limits: Limits)
      returns (deleted: nat, ghost chosen: set<Id>)
      modifies this
      ensures chosen <= DueRows(old(media), underReview, now)
              && |chosen| == Min(limits.batch, |DueRows(old(media), underReview, now)|)
      ensures objects == old(objects) - Removed(old(media), chosen, faults)
      ensures media == Settled(old(media), chosen, now, faults, limits)
      ensures deleted == |Deletions(old(media), chosen, faults)|
      ensures OneRowPerObject(old(media)) ==> SparesHeld(old(media), old(objects), objects, now)
    {
      var batch := Take(DueRows(media, underReview, now), limits.batch);
      chosen := batch;
      HeldObjectsSurvive(media, batch, objects, now, faults);
      deleted := DeleteEach(batch, now, faults, limits);
    }

    method DeleteEach(batch: set<Id>, now: Time, faults: Faults, limits: Limits) returns (deleted: nat)
      requires batch <= media.Keys
      modifies this
      ensures objects == old(objects) - Removed(old(media), batch, faults)
      ensures media == Settled(old(media), batch, now, faults, limits)
      ensures deleted == |Deletions(old(media), batch, faults)|
    {
      deleted := 0;
      var left := batch;
      while left != {}
        invariant left <= batch
        invariant objects == old(objects) - Removed(old(media), batch - left, faults)
        invariant media == Settled(old(media), batch - left, now, faults, limits)
        invariant deleted == |Deletions(old(media), batch - left, faults)|
        decreases left
      {
        var i :| i in left;
        ghost var done := batch - left;
        OneMoreSettled(old(media), done, i, now, faults, limits);
        assert batch - (left - {i}) == done + {i};
        var count := DeleteItem(i, now, faults, limits);
        deleted := deleted + count;
        left := left - {i};
      }
      assert batch - left == batch;
    }

    /** The media of an attempt that has its verdict; a failure is left to the expiry batch. */
    method DeleteAttemptMedia(attemptId: Id, now: Time, faults: Faults) returns (ghost chosen: set<Id>)
      modifies this
      ensures chosen <= FreeRows(old(media), attemptId, now)
              && |chosen| == Min(3, |FreeRows(old(media), attemptId, now)|)
      ensures objects == old(objects) - Removed(old(media), chosen, faults)
      ensures media == map i | i in old(media) ::
                if i in Deletions(old(media), chosen, faults) then old(media)[i].(deletedAt := Some(now))
                else old(media)[i]
      ensures OneRowPerObject(old(media)) ==> SparesHeld(old(media), old(objects), objects, now)
    {
      var items := Take(FreeRows(media, attemptId, now), 3);
      chosen := items;
      HeldObjectsSurvive(media, items, objects, now, faults);
      objects := objects - Removed(media, items, faults);
      var gone := Deletions(media, items, faults);
      media := map i | i in media :: if i in gone then media[i].(deletedAt := Some(now)) else media[i];
    }
  }

  /** Reference opened, object deleted, row update through. */
  predicate Deletes(m: Media, i: Id, faults: Faults) { m.readable && m.key !in faults.storage && i !in faults.rows }

  function Deletions(media: map<Id, Media>, ids: set<Id>, faults: Faults): set<Id> {
    set i | i in ids && i in media && Deletes(media[i], i, faults)
  }

  /** The objects that go, whether or not their row's update then succeeds. */
  function Removed(media: map<Id, Media>, ids: set<Id>, faults: Faults): set<string> {
    set i | i in ids && i in media && media[i].readable && media[i].key !in faults.storage :: media[i].key
  }

  function SettledRow(m: Media, i: Id, now: Time, faults: Faults, limits: Limits): Media {
    if Deletes(m, i, faults) then m.(deletedAt := Some(now))
    else m.(deletionAttempts := m.deletionAttempts + 1,
            nextDeletionAttemptAt := now + Delay(m.deletionAttempts, limits))
  }

  function Settled(media: map<Id, Media>, done: set<Id>, now: Time, faults: Faults, limits: Limits): map<Id, Media> {
    map i | i in media :: if i in done then SettledRow(media[i], i, now, faults, limits) else media[i]
  }

  lemma OneMoreSettled(media: map<Id, Media>, done: set<Id>, i: Id, now: Time, faults: Faults, limits: Limits)
    requires i in media && i !in done
    ensures Settled(media, done + {i}, now, faults, limits)
            == Settled(media, done, now, faults, limits)[i := SettledRow(media[i], i, now, faults, limits)]
    ensures Settled(media, done, now, faults, limits)[i] == media[i]
    ensures Removed(media, done + {i}, faults) == Removed(media, done, faults) + Removed(media, {i}, faults)
    ensures Removed(Settled(media, done, now, faults, limits), {i}, faults) == Removed(media, {i}, faults)
    ensures |Deletions(media, done + {i}, faults)|
            == |Deletions(media, done, faults)| + if Deletes(media[i], i, faults) then 1 else 0
  {
    if Deletes(media[i], i, faults) {
      assert Deletions(media, done + {i}, faults) == Deletions(media, done, faults) + {i};
    } else {
      assert Deletions(media, done + {i}, faults) == Deletions(media, done, faults);
    }
  }

  /** The object of a row under an unexpired hold is there if it was. */
  ghost predicate SparesHeld(media: map<Id, Media>, before: set<string>, after: set<string>, now: Time) {
    forall i :: i in media && OnHold(media[i], now) ==> (media[i].key in after <==> media[i].key in before)
  }

  /** With one row per object, deleting rows that are free of legal hold spares every held object. */
  lemma HeldObjectsSurvive(media: map<Id, Media>, chosen: set<Id>, objects: set<string>, now: Time, faults: Faults)
    requires forall i :: i in chosen && i in media ==> !OnHold(media[i], now)
    ensures OneRowPerObject(media) ==> SparesHeld(media, objects, objects - Removed(media, chosen, faults), now)
  {
  }

  predicate OnThePage(page: seq<Object>, digest: string -> string, d: string) {
    exists o :: o in page && digest(o.key) == d
  }

  predicate Stored(media: map<Id, Media>, d: string) { exists i :: i in media && media[i].digest == Some(d) }

  lemma LookupsAgree(before: map<Id, Media>, after: map<Id, Media>, scanned: set<Id>, byDigest: map<string, Id>,
                     tracked: set<string>,
                     page: seq<Object>, digest: string -> string, faults: Faults, o: Object)
    requires o in page && DigestsHold(before, digest)
    requires after == Digested(before, scanned, digest, faults) && scanned == LegacyRows(before)
    requires forall i :: i in scanned ==> before[i].readable && i !in faults.rows
    requires forall d :: d in byDigest ==> byDigest[d] in scanned && digest(before[byDigest[d]].key) == d
    requires forall i :: i in scanned ==> digest(before[i].key) in byDigest
    requires forall d :: d in tracked <==> OnThePage(page, digest, d) && Stored(after, d)
    ensures Tracked(before, digest, digest(o.key)) <==> digest(o.key) in byDigest || digest(o.key) in tracked
  {
    var d := digest(o.key);
    if Tracked(before, digest, d) {
      var i :| i in before && (before[i].digest == Some(d) || (Legacy(before[i]) && digest(before[i].key) == d));
      assert i in after;
      if before[i].digest == Some(d) { assert after[i].digest == Some(d); } else { assert i in scanned; }
    }
    if d in byDigest { assert byDigest[d] in before; }
    if d in tracked {
      var i :| i in after && after[i].digest == Some(d);
      assert i in before;
    }
  }
}
