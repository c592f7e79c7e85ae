/**
 * Confirmations, selections, deletions and sweeps by the fields of the rows: what each step may
 * take, and what it leaves.
 */
module MediaOutcomes {
  import opened Common
  import opened MediaRows
  import opened MediaProtocol
  import A = AttemptRows

  // ---- Confirming ---------------------------------------------------------------------------

  /** The three steps of a confirmation with nothing in between. */
  function Confirming3(sys: System, p: Id, a: Id, key: string, st: Settings): System {
    Next(Next(Next(sys, Ask(p, a, key), st), Head(p), st), Insert(p), st)
  }

  /**
   * The attempt waits for media, the key is its own, the object is there and bound to it, and it
   * has no document yet.
   */
  predicate MayConfirm(sys: System, a: Id, key: string, st: Settings) {
    && a in sys.attempts && sys.attempts[a] == A.MEDIA_PENDING
    && st.prefix(a) <= key && key in sys.objects
    && key in sys.policies && sys.policies[key].attemptId == a && sys.policies[key].mediaType == ID_DOCUMENT
    && (forall i :: i in sys.media && sys.media[i].attemptId == a ==> sys.media[i].mediaType != ID_DOCUMENT)
  }

  lemma ConfirmsExactly(sys: System, p: Id, a: Id, key: string, st: Settings)
    requires p !in sys.processes
    ensures var done := Confirming3(sys, p, a, key, st);
            && done.processes == sys.processes && done.objects == sys.objects
            && if MayConfirm(sys, a, key, st)
               then done.nextId == sys.nextId + 1
                    && done.media == sys.media[sys.nextId := Media(
                         a, ID_DOCUMENT, key, true, Some(st.digest(key)), None, sys.clock + st.retention, None,
                             sys.clock, 0)]
               else done.media == sys.media && done.nextId == sys.nextId
  {
    var s1 := Next(sys, Ask(p, a, key), st);
    var s2 := Next(s1, Head(p), st);
    if s1 != sys { assert s1.processes - {p} == sys.processes; }
    if p in s2.processes { assert s2.processes - {p} == sys.processes; }
  }

  // ---- Selecting ----------------------------------------------------------------------------

  /** There, its time and its retry date come, not held, and its attempt not under review. */
  predicate Deletable(sys: System, i: Id) {
    && i in sys.media && sys.media[i].deletedAt == None
    && sys.media[i].expiresAt <= sys.clock && sys.media[i].nextDeletionAttemptAt <= sys.clock
    && NotHeld(sys.media[i], sys.clock)
    && (sys.media[i].attemptId in sys.attempts ==> sys.attempts[sys.media[i].attemptId] != A.REVIEW_REQUIRED)
  }

  predicate NotHeld(m: Media, now: Time) { m.legalHoldUntil == None || m.legalHoldUntil.value <= now }

  lemma DeletableIsDue(sys: System, i: Id)
    ensures i in DueRows(sys.media, UnderReview(sys), sys.clock) <==> Deletable(sys, i)
  {
    if i in sys.media {
      var a := sys.media[i].attemptId;
      assert a in UnderReview(sys) <==> a in sys.attempts && sys.attempts[a] == A.REVIEW_REQUIRED;
    }
  }

  function Picked(media: map<Id, Media>, ids: set<Id>): map<Id, Media>
    requires ids <= media.Keys
  {
    map i | i in ids :: media[i]
  }

  /** The expiry batch takes a bounded number of rows, all of them deletable. */
  lemma BatchSelectsExactly(sys: System, p: Id, chosen: set<Id>, st: Settings)
    requires p !in sys.processes && chosen <= sys.media.Keys
    ensures var done := Next(sys, SelectDue(p, chosen), st);
            if |chosen| <= st.limits.batch && (forall i :: i in chosen ==> Deletable(sys, i))
            then done == sys.(processes := sys.processes[p := Deleting(
                   Picked(sys.media, chosen), chosen, {}, {}, true)])
            else done == sys
  {
    forall i | i in chosen ensures i in DueRows(sys.media, UnderReview(sys), sys.clock) <==> Deletable(sys, i) {
      DeletableIsDue(sys, i);
    }
    assert Chosen(sys.media, chosen) == Picked(sys.media, chosen);
  }

  /** After a verdict other than review, up to three rows of the attempt that are there and not held. */
  lemma VerdictSelectsExactly(sys: System, p: Id, a: Id, chosen: set<Id>, st: Settings)
    requires p !in sys.processes && chosen <= sys.media.Keys
    ensures var done := Next(sys, SelectAttempt(p, a, chosen), st);
            if a in sys.attempts && sys.attempts[a] in {A.PASSED, A.FAILED, A.RETRY_REQUIRED} && |chosen| <= 3
               && (forall i :: i in chosen ==>
                     sys.media[i].attemptId == a && sys.media[i].deletedAt == None && NotHeld(sys.media[i], sys.clock))
            then done == sys.(processes := sys.processes[p := Deleting(
                   Picked(sys.media, chosen), chosen, {}, {}, false)])
            else done == sys
  {
    assert Chosen(sys.media, chosen) == Picked(sys.media, chosen);
  }

  // ---- Deleting -----------------------------------------------------------------------------

  /** The object goes when its reference opens and storage agrees; the rows wait for the next step. */
  lemma RemovesExactly(sys: System, p: Id, i: Id, ok: bool, st: Settings)
    requires p in sys.processes && sys.processes[p].Deleting? && i in sys.processes[p].left && i in sys.media
    ensures var done := Next(sys, Remove(p, i, ok), st);
            && done.media == sys.media && p in done.processes && done.processes[p].Deleting?
            && if ok && sys.media[i].readable
               then done.objects == sys.objects - {sys.media[i].key} && i in done.processes[p].gone
               else done.objects == sys.objects && (sys.processes[p].retries ==> i in done.processes[p].failed)
  {
  }

  /**
   * A row whose object is gone is marked; a failed one is counted and put off, the longer the more
   * often it had failed.
   */
  lemma MarksAndRetriesExactly(sys: System, p: Id, i: Id, st: Settings)
    requires p in sys.processes && sys.processes[p].Deleting? && i in sys.media && i in sys.processes[p].seen
    ensures var c, m := sys.processes[p], sys.media[i];
            && (i in c.gone ==>
                  Next(sys, Mark(p, i, true), st).media ==
                  if m.deletedAt == None then sys.media[i := m.(deletedAt := Some(sys.clock))] else sys.media)
            && (i in c.failed ==>
                  Next(sys, Retry(p, i), st).media ==
                  if m.deletedAt.Some? then sys.media
                  else sys.media[i := m.(
                         deletionAttempts := m.deletionAttempts + 1,
                         nextDeletionAttemptAt := sys.clock + PutOff(c.seen[i].deletionAttempts, st.limits) * 1_000)])
  {
    DelayInMilliseconds(sys.processes[p].seen[i].deletionAttempts, st.limits);
  }

  /** Seconds: the base doubled for each of up to ten failures, up to the maximum. */
  function PutOff(failures: nat, limits: Limits): nat
  {
    Min(limits.retryMax, limits.retryBase * Pow2(Min(failures, 10)))
  }

  lemma DelayInMilliseconds(failures: nat, limits: Limits)
    ensures Delay(failures, limits) == PutOff(failures, limits) * 1_000
  {
  }

  // ---- Sweeping -----------------------------------------------------------------------------

  /**
   * A sweep's cutoff is the grace period before its listing; it deletes what is older, unknown, and
   * only after a full scan.
   */
  lemma SweepsExactly(sys: System, p: Id, page: seq<Object>, ok: bool, st: Settings)
    ensures p !in sys.processes
            && (forall o :: o in page ==> o.key in sys.objects && sys.objects[o.key] == o.lastModified) ==>
              Next(sys, List(p, page), st) == sys.(processes := sys.processes[p := Listed(sys.clock - st.grace, page)])
    ensures p in sys.processes && sys.processes[p].Sweeping? && sys.processes[p].next < |sys.processes[p].page| ==>
              var c := sys.processes[p];
              var o := c.page[c.next];
              Next(sys, Sweep(p, ok), st).objects ==
              if ok && c.complete && o.lastModified <= c.cutoff && st.digest(o.key) !in c.known
                  then sys.objects - {o.key}
              else sys.objects
  {
  }

  /** Expiring an attempt makes its undeleted, unheld media due at once. */
  lemma HastensExactly(sys: System, attempts: set<Id>, st: Settings, i: Id)
    requires i in sys.media
    ensures var m, done := sys.media[i], Next(sys, Hasten(attempts), st);
            && i in done.media
            && done.media[i] == if m.attemptId in attempts && m.deletedAt == None && NotHeld(m, sys.clock)
                                then m.(expiresAt := sys.clock, nextDeletionAttemptAt := sys.clock) else m
  {
  }
}
