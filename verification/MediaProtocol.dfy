/**
 * Uploads, confirmations and the three ways of deleting media, step by step: a sweep lists, scans,
 * looks up and deletes; a batch selects rows, deletes their objects and then updates the rows; and
 * anything may happen in between.
 */
module MediaProtocol {
  import opened Common
  import opened MediaRows
  import A = AttemptRows

  /** What an upload policy fixes for a key; the uploaded object carries it as metadata. */
  datatype Policy = Policy(attemptId: Id, mediaType: MediaType, until: Time)

  datatype Settings = Settings(
    grace: nat,
    uploadTtl: nat,
    retention: nat,
    limits: Limits,
    prefix: Id -> string,
    digest: string -> string)

  /**
   * Where a confirmation, a sweep or a deletion stands. `since` is the first row key not yet given
   * out at the lookup.
   */
  datatype Process =
    | Asked(attemptId: Id, key: string)
    | Confirming(attemptId: Id, key: string, uploadedAt: Time)
    | Listed(cutoff: Time, page: seq<Object>)
    | Scanning(cutoff: Time, page: seq<Object>, left: set<Id>, known: set<string>, complete: bool)
    | Sweeping(cutoff: Time, page: seq<Object>, next: nat, known: set<string>, complete: bool, since: Id)
    | Deleting(seen: map<Id, Media>, left: set<Id>, gone: set<Id>, failed: set<Id>, retries: bool)

  /** `objects` gives the time each stored object was last written. */
  datatype System = System(
    media: map<Id, Media>,
    objects: map<string, Time>,
    policies: map<string, Policy>,
    attempts: map<Id, A.AttemptStatus>,
    clock: Time,
    processes: map<Id, Process>,
    nextId: Id)

  datatype Event =
    | Tick(delta: nat)
    | Open(attemptId: Id)
    | Move(attemptId: Id, status: A.AttemptStatus)
    | Offer(attemptId: Id, key: string)
    | Put(key: string)
    | Ask(process: Id, attemptId: Id, key: string)
    | Head(process: Id)
    | Insert(process: Id)
    | Hold(row: Id, until: Time)
    | Hasten(attempts: set<Id>)
    | List(process: Id, page: seq<Object>)
    | Scan(process: Id, chosen: set<Id>)
    | Digest(process: Id, row: Id, updated: bool)
    | Look(process: Id)
    | Sweep(process: Id, ok: bool)
    | SelectDue(process: Id, chosen: set<Id>)
    | SelectAttempt(process: Id, attemptId: Id, chosen: set<Id>)
    | Remove(process: Id, row: Id, ok: bool)
    | Mark(process: Id, row: Id, ok: bool)
    | Retry(process: Id, row: Id)
    | Stop(process: Id)

  // ---- Confirming uploads -------------------------------------------------------------------

  /** The object's metadata names the attempt and the kind of media. */
  predicate Bound(sys: System, attemptId: Id, key: string) {
    && key in sys.objects && key in sys.policies
    && sys.policies[key].attemptId == attemptId && sys.policies[key].mediaType == ID_DOCUMENT
  }

  /** The unique key of media rows: one row for an attempt and a kind of media, deleted or not. */
  predicate Confirmed(media: map<Id, Media>, attemptId: Id) {
    exists i :: i in media && media[i].attemptId == attemptId && media[i].mediaType == ID_DOCUMENT
  }

  function NewMedia(attemptId: Id, key: string, now: Time, st: Settings): Media {
    Media(attemptId, ID_DOCUMENT, key, true, Some(st.digest(key)), None, now + st.retention, None, now, 0)
  }

  predicate Inserts(sys: System, event: Event) {
    && event.Insert? && event.process in sys.processes && sys.processes[event.process].Confirming?
    && !Confirmed(sys.media, sys.processes[event.process].attemptId)
  }

  // ---- The sweep ----------------------------------------------------------------------------

  predicate OnPage(objects: map<string, Time>, page: seq<Object>) {
    forall o :: o in page ==> o.key in objects && objects[o.key] == o.lastModified
  }

  /** Digests of the page that some row stores. */
  function Tracking(media: map<Id, Media>, page: seq<Object>, digest: string -> string): set<string> {
    set o | o in page && (exists i :: i in media && media[i].digest == Some(digest(o.key))) :: digest(o.key)
  }

  /** The sweep sends a deletion for its next object: old, unknown to both lookups, after a complete scan. */
  predicate Sweeps(c: Process, digest: string -> string) {
    && c.Sweeping? && c.next < |c.page|
    && c.page[c.next].lastModified <= c.cutoff && c.complete && digest(c.page[c.next].key) !in c.known
  }

  // ---- Deletions of confirmed media ---------------------------------------------------------

  function UnderReview(sys: System): set<Id> {
    set a | a in sys.attempts && sys.attempts[a] == A.REVIEW_REQUIRED
  }

  /** The object is gone and the row's own deletion still to be recorded, or the row is left to a later retry. */
  function AfterRemoval(c: Process, i: Id, done: bool): Process
    requires c.Deleting?
  {
    if done then c.(left := c.left - {i}, gone := c.gone + {i})
    else c.(left := c.left - {i}, failed := if c.retries then c.failed + {i} else c.failed)
  }

  function AfterMark(c: Process, i: Id, done: bool): Process
    requires c.Deleting?
  {
    c.(gone := c.gone - {i}, failed := if c.retries && !done then c.failed + {i} else c.failed)
  }

  predicate Removing(sys: System, p: Id, i: Id) {
    p in sys.processes && sys.processes[p].Deleting? && i in sys.processes[p].left && i in sys.media
  }

  predicate Idle(sys: System, p: Id) { p !in sys.processes }

  function With(sys: System, p: Id, c: Process): System { sys.(processes := sys.processes[p := c]) }

  function Without(sys: System, p: Id): System { sys.(processes := sys.processes - {p}) }

  predicate Moves(sys: System, event: Event) {
    event.Move? && event.attemptId in sys.attempts && !A.IsVerdict(sys.attempts[event.attemptId])
  }

  predicate Confirms(event: Event) { event.Ask? || event.Head? || event.Insert? }

  predicate Searches(event: Event) { event.List? || event.Scan? || event.Digest? || event.Look? || event.Sweep? }

  predicate Clears(event: Event) {
    event.SelectDue? || event.SelectAttempt? || event.Remove? || event.Mark? || event.Retry?
  }

  /** Events that run no confirmation, sweep or deletion. */
  predicate Outside(event: Event) { !Confirms(event) && !Searches(event) && !Clears(event) }

  /** One step; an event that is not enabled changes nothing. */
  function Next(sys: System, event: Event, st: Settings): System {
    if Confirms(event) then Confirm(sys, event, st)
    else if Searches(event) then SweepStep(sys, event, st)
    else if Clears(event) then DeleteStep(sys, event, st)
    else Around(sys, event, st)
  }

  function Around(sys: System, event: Event, st: Settings): System
    requires Outside(event)
  {
    match event
    case Tick(delta) => sys.(clock := sys.clock + delta)
    case Open(a) => if a in sys.attempts then sys else sys.(attempts := sys.attempts[a := A.MEDIA_PENDING])
    case Move(a, status) => if Moves(sys, event) then sys.(attempts := sys.attempts[a := status]) else sys
    case Offer(a, key) =>
      if a in sys.attempts && key !in sys.policies && st.prefix(a) <= key then
        sys.(policies := sys.policies[key := Policy(a, ID_DOCUMENT, sys.clock + st.uploadTtl)])
      else sys
    case Put(key) =>
      if key in sys.policies && sys.clock < sys.policies[key].until then sys.(objects := sys.objects[key := sys.clock])
      else sys
    case Hold(i, until) =>
      if i in sys.media then sys.(media := sys.media[i := sys.media[i].(legalHoldUntil := Some(until))]) else sys
    case Hasten(attempts) => sys.(media := Hastened(sys.media, attempts, sys.clock))
    case Stop(p) => Without(sys, p)
  }

  /** Expiring stale attempts makes their media due, unless it is held. */
  function Hastened(media: map<Id, Media>, attempts: set<Id>, now: Time): map<Id, Media> {
    map i | i in media ::
      if media[i].attemptId in attempts && Live(media[i]) && !OnHold(media[i], now) then
        media[i].(expiresAt := now, nextDeletionAttemptAt := now)
      else media[i]
  }

  /** A confirmation: the attempt's status and the key's prefix, then the object, then the row. */
  function Confirm(sys: System, event: Event, st: Settings): System
    requires Confirms(event)
  {
    var p := event.process;
    match event
    case Ask(_, a, key) =>
      if Idle(sys, p) && a in sys.attempts && sys.attempts[a] == A.MEDIA_PENDING && st.prefix(a) <= key then
        With(sys, p, Asked(a, key))
      else sys
    case Head(_) =>
      if p in sys.processes && sys.processes[p].Asked? then
        var c := sys.processes[p];
        if Bound(sys, c.attemptId, c.key) then With(sys, p, Confirming(c.attemptId, c.key, sys.objects[c.key]))
        else Without(sys, p)
      else sys
    case Insert(_) =>
      if Inserts(sys, event) then
        var c := sys.processes[p];
        Without(sys, p).(media := sys.media[sys.nextId := NewMedia(c.attemptId, c.key, sys.clock, st)],
                         nextId := sys.nextId + 1)
      else if p in sys.processes && sys.processes[p].Confirming? then Without(sys, p)
      else sys
  }

  function SweepStep(sys: System, event: Event, st: Settings): System
    requires Searches(event)
  {
    var p := event.process;
    match event
    case List(_, page) =>
      if Idle(sys, p) && OnPage(sys.objects, page) then With(sys, p, Listed(sys.clock - st.grace, page)) else sys
    case Scan(_, chosen) =>
      if p in sys.processes && sys.processes[p].Listed?
         && chosen <= LegacyRows(sys.media) && |chosen| == Min(st.limits.batch, |LegacyRows(sys.media)|) then
        var c := sys.processes[p];
        With(sys, p, Scanning(c.cutoff, c.page, chosen, {}, |chosen| < st.limits.batch))
      else sys
    case Digest(_, i, updated) =>
      if p in sys.processes && sys.processes[p].Scanning? && i in sys.processes[p].left && i in sys.media then
        var c := sys.processes[p];
        var m := sys.media[i];
        if !m.readable then With(sys, p, c.(left := c.left - {i}, complete := false))
        else
          var noted :=
              With(sys, p,
                   c.(left := c.left - {i}, known := c.known + {st.digest(m.key)}, complete := c.complete && updated));
          if updated && m.digest == None then noted.(media := sys.media[i := m.(digest := Some(st.digest(m.key)))])
          else noted
      else sys
    case Look(_) =>
      if p in sys.processes && sys.processes[p].Scanning? && sys.processes[p].left == {} then
        var c := sys.processes[p];
        With(sys, p,
             Sweeping(c.cutoff, c.page, 0, c.known + Tracking(sys.media, c.page, st.digest), c.complete, sys.nextId))
      else sys
    case Sweep(_, ok) =>
      if p in sys.processes && sys.processes[p].Sweeping? then
        var c := sys.processes[p];
        if c.next >= |c.page| then Without(sys, p)
        else
          With(sys, p, c.(next := c.next + 1))
            .(objects := if Sweeps(c, st.digest) && ok then sys.objects - {c.page[c.next].key} else sys.objects)
      else sys
  }

  function DeleteStep(sys: System, event: Event, st: Settings): System
    requires Clears(event)
  {
    var p := event.process;
    match event
    case SelectDue(_, chosen) =>
      if Idle(sys, p) && chosen <= DueRows(sys.media, UnderReview(sys), sys.clock) && |chosen| <= st.limits.batch then
        With(sys, p, Deleting(Chosen(sys.media, chosen), chosen, {}, {}, true))
      else sys
    case SelectAttempt(_, a, chosen) =>
      if Idle(sys, p) && a in sys.attempts && A.IsVerdict(sys.attempts[a]) && sys.attempts[a] != A.REVIEW_REQUIRED
         && chosen <= FreeRows(sys.media, a, sys.clock) && |chosen| <= 3 then
        With(sys, p, Deleting(Chosen(sys.media, chosen), chosen, {}, {}, false))
      else sys
    case Remove(_, i, ok) =>
      if Removing(sys, p, i) then
        var done := sys.media[i].readable && ok;
        With(sys, p, AfterRemoval(sys.processes[p], i, done))
          .(objects := if done then sys.objects - {sys.media[i].key} else sys.objects)
      else sys
    case Mark(_, i, ok) =>
      if p in sys.processes && sys.processes[p].Deleting? && i in sys.processes[p].gone && i in sys.media then
        With(sys, p, AfterMark(sys.processes[p], i, ok))
          .(media := if ok && Live(sys.media[i]) then sys.media[i := sys.media[i].(deletedAt := Some(sys.clock))]
                     else sys.media)
      else sys
    case Retry(_, i) =>
      if p in sys.processes && sys.processes[p].Deleting? && i in sys.processes[p].failed && i in sys.media
          && i in sys.processes[p].seen then
        var c := sys.processes[p];
        var m := sys.media[i];
        With(sys, p, c.(failed := c.failed - {i}))
          .(media := if Live(m) then
              sys.media[i := m.(deletionAttempts := m.deletionAttempts + 1,
                                nextDeletionAttemptAt := sys.clock + Delay(c.seen[i].deletionAttempts, st.limits))]
            else sys.media)
      else sys
  }

  /** The rows as the selecting query returned them. */
  function Chosen(media: map<Id, Media>, ids: set<Id>): map<Id, Media> { map i | i in ids && i in media :: media[i] }

  function Steps(sys: System, events: seq<Event>, st: Settings): System
    decreases |events|
  {
    if events == [] then sys else Steps(Next(sys, events[0], st), events[1..], st)
  }

  // ---- Invariant ----------------------------------------------------------------------------

  /** A row names an object that was offered to its own attempt. */
  predicate Owned(policies: map<string, Policy>, m: Media) {
    m.key in policies && policies[m.key].attemptId == m.attemptId && policies[m.key].mediaType == m.mediaType
  }

  ghost predicate RowsInv(sys: System, st: Settings) {
    && (forall i :: i in sys.media ==> i < sys.nextId && Owned(sys.policies, sys.media[i]))
    && OneRowPerObject(sys.media)
    && DigestsHold(sys.media, st.digest)
  }

  /** Every digest a sweep knows is some row's; after a complete scan it knows every live row of its time. */
  ghost predicate Knows(media: map<Id, Media>, known: set<string>, before: Id, digest: string -> string) {
    forall d :: d in known ==> exists i :: i in media && i < before && digest(media[i].key) == d
  }

  ghost predicate ProcessInv(sys: System, c: Process, st: Settings) {
    match c
    case Asked(_, _) => true
    case Confirming(a, key, _) => key in sys.policies && sys.policies[key].attemptId == a
        && sys.policies[key].mediaType == ID_DOCUMENT
    case Listed(_, _) => true
    case Scanning(_, _, left, known, complete) =>
      && Knows(sys.media, known, sys.nextId, st.digest)
      && (complete ==> forall i :: i in sys.media && Legacy(sys.media[i]) ==>
           i in left || st.digest(sys.media[i].key) in known)
    case Sweeping(_, page, _, known, complete, since) =>
      && since <= sys.nextId
      && Knows(sys.media, known, since, st.digest)
      && (complete ==> forall i, o | i in sys.media && i < since && Live(sys.media[i]) && o in page ::
            o.key == sys.media[i].key ==> st.digest(o.key) in known)
    case Deleting(seen, left, _, _, _) =>
      forall i :: i in left ==> i in seen && i in sys.media && seen[i].key == sys.media[i].key
  }

  ghost predicate Inv(sys: System, st: Settings) {
    && RowsInv(sys, st)
    && forall p :: p in sys.processes ==> ProcessInv(sys, sys.processes[p], st)
  }

  ghost predicate Injective(digest: string -> string) { forall k, l :: digest(k) == digest(l) ==> k == l }

  /** What no step changes of a media row, and which way the rest moves. */
  predicate SameMedia(a: Media, b: Media, digest: string -> string) {
    && b.attemptId == a.attemptId && b.mediaType == a.mediaType && b.key == a.key && b.readable == a.readable
    && (b.digest == a.digest || (a.digest == None && b.digest == Some(digest(a.key))))
    && (Live(b) ==> Live(a))
  }

  /** Rows stay, keys of policies stay, and a new row is a confirmed one with its digest. */
  ghost predicate Grows(sys: System, sys': System, st: Settings) {
    && sys.nextId <= sys'.nextId
    && sys.clock <= sys'.clock
    && (forall k :: k in sys.policies ==> k in sys'.policies && sys'.policies[k] == sys.policies[k])
    && (forall i :: i in sys.media ==> i in sys'.media && SameMedia(sys.media[i], sys'.media[i], st.digest))
    && (forall i :: i in sys'.media && i !in sys.media ==> i == sys.nextId < sys'.nextId && sys'.media[i].digest.Some?)
  }

  lemma ConfirmGrows(sys: System, event: Event, st: Settings)
    requires RowsInv(sys, st) && Confirms(event)
    ensures Grows(sys, Confirm(sys, event, st), st)
    ensures !Inserts(sys, event) ==> Confirm(sys, event, st).media.Keys == sys.media.Keys
  {
  }

  /** One row rewritten in place. */
  lemma RewriteGrows(sys: System, sys': System, i: Id, st: Settings)
    requires i in sys.media && i in sys'.media && sys'.media == sys.media[i := sys'.media[i]]
    requires SameMedia(sys.media[i], sys'.media[i], st.digest)
    requires sys'.policies == sys.policies && sys'.nextId == sys.nextId && sys'.clock == sys.clock
    ensures Grows(sys, sys', st) && sys'.media.Keys == sys.media.Keys
  {
  }

  predicate SameRows(sys: System, sys': System) {
    sys'.media == sys.media && sys'.policies == sys.policies && sys'.nextId == sys.nextId && sys'.clock == sys.clock
  }

  lemma DigestGrows(sys: System, event: Event, st: Settings)
    requires event.Digest?
    ensures Grows(sys, SweepStep(sys, event, st), st) && SweepStep(sys, event, st).media.Keys == sys.media.Keys
  {
    var sys' := SweepStep(sys, event, st);
    if sys'.media != sys.media { RewriteGrows(sys, sys', event.row, st); }
  }

  lemma LookupsRead(sys: System, event: Event, st: Settings)
    requires event.List? || event.Scan? || event.Look?
    ensures SameRows(sys, SweepStep(sys, event, st)) && SweepStep(sys, event, st).objects == sys.objects
  {
  }

  lemma SweepTouchesObjects(sys: System, event: Event, st: Settings)
    requires event.Sweep?
    ensures SameRows(sys, SweepStep(sys, event, st))
  {
  }

  lemma SweepGrows(sys: System, event: Event, st: Settings)
    requires Searches(event)
    ensures Grows(sys, SweepStep(sys, event, st), st) && SweepStep(sys, event, st).media.Keys == sys.media.Keys
    ensures !event.Digest? ==> SameRows(sys, SweepStep(sys, event, st))
  {
    if event.Digest? {
      DigestGrows(sys, event, st);
    } else if event.Sweep? {
      SweepTouchesObjects(sys, event, st);
    } else {
      LookupsRead(sys, event, st);
    }
  }

  lemma DeleteGrows(sys: System, event: Event, st: Settings)
    requires Clears(event)
    ensures Grows(sys, DeleteStep(sys, event, st), st) && DeleteStep(sys, event, st).media.Keys == sys.media.Keys
  {
    var sys' := DeleteStep(sys, event, st);
    if sys'.media != sys.media { RewriteGrows(sys, sys', event.row, st); }
  }

  lemma OutsideGrows(sys: System, event: Event, st: Settings)
    requires RowsInv(sys, st) && Outside(event)
    ensures Grows(sys, Next(sys, event, st), st) && Next(sys, event, st).media.Keys == sys.media.Keys
  {
    if event.Hold? {
      if event.row in sys.media { RewriteGrows(sys, Next(sys, event, st), event.row, st); }
    } else if event.Hasten? {
      HasteningGrows(sys, event.attempts, st);
    } else {
      assert Around(sys, event, st).media == sys.media;
    }
  }

  lemma HasteningGrows(sys: System, attempts: set<Id>, st: Settings)
    ensures Grows(sys, Next(sys, Hasten(attempts), st), st)
    ensures Next(sys, Hasten(attempts), st).media.Keys == sys.media.Keys
  {
  }

  lemma StepGrows(sys: System, event: Event, st: Settings)
    requires RowsInv(sys, st)
    ensures Grows(sys, Next(sys, event, st), st)
    ensures !Inserts(sys, event) ==> Next(sys, event, st).media.Keys == sys.media.Keys
  {
    if Outside(event) {
      OutsideGrows(sys, event, st);
    } else if Confirms(event) {
      ConfirmGrows(sys, event, st);
    } else if Searches(event) {
      SweepGrows(sys, event, st);
    } else {
      DeleteGrows(sys, event, st);
    }
  }

  lemma GrowthKeepsRows(sys: System, sys': System, st: Settings)
    requires RowsInv(sys, st) && Grows(sys, sys', st) && sys'.media.Keys == sys.media.Keys
    ensures RowsInv(sys', st)
  {
    forall i | i in sys'.media
        ensures SameMedia(sys.media[i], sys'.media[i], st.digest) && Owned(sys'.policies, sys'.media[i]) {
    }
  }

  /** Prefix guard, metadata and unique key together: a confirmed object has no other row. */
  lemma InsertKeepsRows(sys: System, event: Event, st: Settings)
    requires Inv(sys, st) && Inserts(sys, event)
    ensures RowsInv(Next(sys, event, st), st)
    ensures forall i :: i in sys.media ==> sys.media[i].key != sys.processes[event.process].key
  {
    var c := sys.processes[event.process];
    assert ProcessInv(sys, c, st);
    forall i | i in sys.media ensures sys.media[i].key != c.key {
      assert Owned(sys.policies, sys.media[i]);
    }
  }

  lemma StepKeepsRows(sys: System, event: Event, st: Settings)
    requires Inv(sys, st)
    ensures RowsInv(Next(sys, event, st), st)
  {
    StepGrows(sys, event, st);
    if Inserts(sys, event) { InsertKeepsRows(sys, event, st); } else { GrowthKeepsRows(sys, Next(sys, event, st), st); }
  }

  // ---- Processes ----------------------------------------------------------------------------

  /** What a process in flight relies on survives every step of the others. */
  lemma ProcessSurvives(sys: System, sys': System, c: Process, st: Settings)
    requires RowsInv(sys, st) && ProcessInv(sys, c, st) && Grows(sys, sys', st)
    ensures ProcessInv(sys', c, st)
  {
  }

  lemma ScanKeeps(sys: System, p: Id, chosen: set<Id>, st: Settings)
    requires p in sys.processes && sys.processes[p].Listed?
    requires chosen <= LegacyRows(sys.media) && |chosen| == Min(st.limits.batch, |LegacyRows(sys.media)|)
    ensures p in Next(sys, Scan(p, chosen), st).processes
    ensures ProcessInv(Next(sys, Scan(p, chosen), st), Next(sys, Scan(p, chosen), st).processes[p], st)
  {
    SubsetSize(chosen, LegacyRows(sys.media));
  }

  /** A digest the scan has just computed is that of the row it was computed for. */
  lemma StillKnows(media: map<Id, Media>, known: set<string>, i: Id, before: Id, digest: string -> string)
    requires Knows(media, known, before, digest) && i in media && i < before
    ensures Knows(media, known + {digest(media[i].key)}, before, digest)
  {
  }

  /** A legacy row is left, or its digest known, or the scan is not complete. */
  lemma DigestKeeps(sys: System, p: Id, i: Id, updated: bool, st: Settings)
    requires Inv(sys, st) && p in sys.processes && sys.processes[p].Scanning? && i in sys.processes[p].left
             && i in sys.media
    ensures p in Next(sys, Digest(p, i, updated), st).processes
    ensures ProcessInv(Next(sys, Digest(p, i, updated), st), Next(sys, Digest(p, i, updated), st).processes[p], st)
  {
    var c, sys' := sys.processes[p], Next(sys, Digest(p, i, updated), st);
    assert ProcessInv(sys, c, st);
    DigestedOne(sys, p, i, updated, st);
    ProcessSurvives(sys, sys', c, st);
    if sys.media[i].readable { StillKnows(sys'.media, c.known, i, sys'.nextId, st.digest); }
  }

  /** The step for one legacy row, in full. */
  lemma DigestedOne(sys: System, p: Id, i: Id, updated: bool, st: Settings)
    requires p in sys.processes && sys.processes[p].Scanning? && i in sys.processes[p].left && i in sys.media
    ensures var c, sys' := sys.processes[p], Next(sys, Digest(p, i, updated), st);
            && Grows(sys, sys', st) && sys'.media.Keys == sys.media.Keys && sys'.nextId == sys.nextId
            && p in sys'.processes
            && sys'.processes[p] == (if !sys.media[i].readable then c.(left := c.left - {i}, complete := false)
                                     else c.(left := c.left - {i}, known := c.known + {st.digest(sys.media[i].key)},
                                             complete := c.complete && updated))
            && (updated && sys.media[i].readable ==> sys'.media[i].digest.Some?)
            && sys'.media[i].key == sys.media[i].key
  {
    SweepGrows(sys, Digest(p, i, updated), st);
  }

  lemma LookKnows(sys: System, p: Id, st: Settings)
    requires Inv(sys, st) && p in sys.processes && sys.processes[p].Scanning? && sys.processes[p].left == {}
    ensures ProcessInv(Next(sys, Look(p), st), Next(sys, Look(p), st).processes[p], st)
  {
    var c := sys.processes[p];
    assert ProcessInv(sys, c, st);
    var tracked := Tracking(sys.media, c.page, st.digest);
    forall d | d in tracked ensures exists i :: i in sys.media && i < sys.nextId && st.digest(sys.media[i].key) == d {
      var i :| i in sys.media && sys.media[i].digest == Some(d);
    }
    if c.complete {
      forall i, o | i in sys.media && Live(sys.media[i]) && o in c.page && o.key == sys.media[i].key
        ensures st.digest(o.key) in c.known + tracked
      {
        if sys.media[i].digest.Some? { assert sys.media[i].digest == Some(st.digest(o.key)); }
      }
    }
  }

  lemma SweepKeepsProcess(sys: System, event: Event, st: Settings)
    requires Inv(sys, st) && Searches(event)
    requires event.process in Next(sys, event, st).processes && Next(sys, event, st).processes != sys.processes
    ensures ProcessInv(Next(sys, event, st), Next(sys, event, st).processes[event.process], st)
  {
    var p := event.process;
    match event {
      case List(_, _) =>
      case Scan(_, chosen) => ScanKeeps(sys, p, chosen, st);
      case Digest(_, i, updated) => DigestKeeps(sys, p, i, updated, st);
      case Look(_) => LookKnows(sys, p, st);
      case Sweep(_, ok) => NextObjectKeeps(sys, p, ok, st);
    }
  }

  lemma NextObjectKeeps(sys: System, p: Id, ok: bool, st: Settings)
    requires Inv(sys, st) && p in sys.processes && p in Next(sys, Sweep(p, ok), st).processes
    requires Next(sys, Sweep(p, ok), st).processes != sys.processes
    ensures ProcessInv(Next(sys, Sweep(p, ok), st), Next(sys, Sweep(p, ok), st).processes[p], st)
  {
    assert ProcessInv(sys, sys.processes[p], st);
    SweepTouchesObjects(sys, Sweep(p, ok), st);
  }

  lemma ConfirmKeepsProcess(sys: System, event: Event, st: Settings)
    requires Inv(sys, st) && Confirms(event)
    requires event.process in Next(sys, event, st).processes && Next(sys, event, st).processes != sys.processes
    ensures ProcessInv(Next(sys, event, st), Next(sys, event, st).processes[event.process], st)
  {
  }

  lemma SelectionKeepsProcess(sys: System, event: Event, st: Settings)
    requires (event.SelectDue? || event.SelectAttempt?) && Next(sys, event, st) != sys
    ensures event.process in Next(sys, event, st).processes
    ensures ProcessInv(Next(sys, event, st), Next(sys, event, st).processes[event.process], st)
  {
  }

  /** The rows a deletion has selected and not reached become fewer. */
  lemma LeftShrinks(sys: System, event: Event, st: Settings)
    requires Clears(event) && !event.SelectDue? && !event.SelectAttempt? && Next(sys, event, st) != sys
    ensures event.process in sys.processes && event.process in Next(sys, event, st).processes
    ensures var c, c' := sys.processes[event.process], Next(sys, event, st).processes[event.process];
            c.Deleting? && c'.Deleting? && c'.left <= c.left && c'.seen == c.seen
  {
  }

  lemma DeleteKeepsProcess(sys: System, event: Event, st: Settings)
    requires Inv(sys, st) && Clears(event)
    requires event.process in Next(sys, event, st).processes && Next(sys, event, st).processes != sys.processes
    ensures ProcessInv(Next(sys, event, st), Next(sys, event, st).processes[event.process], st)
  {
    if event.SelectDue? || event.SelectAttempt? {
      SelectionKeepsProcess(sys, event, st);
    } else {
      LeftShrinks(sys, event, st);
      DeleteGrows(sys, event, st);
      assert ProcessInv(sys, sys.processes[event.process], st);
    }
  }

  /** A step changes no process but its own. */
  predicate Spares(sys: System, sys': System, p: Id) {
    sys'.processes - {p} == sys.processes - {p}
  }

  lemma ConfirmSpares(sys: System, event: Event, st: Settings)
    requires Confirms(event)
    ensures Spares(sys, Confirm(sys, event, st), event.process)
  {
  }

  lemma SweepSpares(sys: System, event: Event, st: Settings)
    requires Searches(event)
    ensures Spares(sys, SweepStep(sys, event, st), event.process)
  {
  }

  lemma DeleteSpares(sys: System, event: Event, st: Settings)
    requires Clears(event)
    ensures Spares(sys, DeleteStep(sys, event, st), event.process)
  {
  }

  lemma OwnProcessOnly(sys: System, event: Event, st: Settings)
    requires !Outside(event)
    ensures Spares(sys, Next(sys, event, st), event.process)
  {
    if Confirms(event) {
      ConfirmSpares(sys, event, st);
    } else if Searches(event) {
      SweepSpares(sys, event, st);
    } else {
      DeleteSpares(sys, event, st);
    }
  }

  lemma OnlyItsOwn(sys: System, event: Event, st: Settings, p: Id)
    requires p in Next(sys, event, st).processes
    ensures (p in sys.processes && Next(sys, event, st).processes[p] == sys.processes[p])
            || (!Outside(event) && event.process == p)
  {
    if !Outside(event) {
      OwnProcessOnly(sys, event, st);
      if event.process != p {
        assert p in Next(sys, event, st).processes - {event.process};
        assert p in sys.processes - {event.process};
        assert (sys.processes - {event.process})[p] == (Next(sys, event, st).processes - {event.process})[p];
      }
    }
  }

  lemma StepKeepsProcess(sys: System, event: Event, st: Settings, p: Id)
    requires Inv(sys, st) && p in Next(sys, event, st).processes
    ensures ProcessInv(Next(sys, event, st), Next(sys, event, st).processes[p], st)
  {
    StepGrows(sys, event, st);
    OnlyItsOwn(sys, event, st, p);
    if p in sys.processes && Next(sys, event, st).processes[p] == sys.processes[p] {
      ProcessSurvives(sys, Next(sys, event, st), sys.processes[p], st);
    } else if Confirms(event) {
      ConfirmKeepsProcess(sys, event, st);
    } else if Searches(event) {
      SweepKeepsProcess(sys, event, st);
    } else {
      DeleteKeepsProcess(sys, event, st);
    }
  }

  lemma StepKeepsInv(sys: System, event: Event, st: Settings)
    requires Inv(sys, st)
    ensures Inv(Next(sys, event, st), st)
  {
    StepKeepsRows(sys, event, st);
    forall p | p in Next(sys, event, st).processes
        ensures ProcessInv(Next(sys, event, st), Next(sys, event, st).processes[p], st) {
      StepKeepsProcess(sys, event, st, p);
    }
  }

  /** In every run, legacy rows included, no two media rows name one object. */
  lemma {:induction false} RunKeepsInv(sys: System, events: seq<Event>, st: Settings)
    requires Inv(sys, st)
    ensures Inv(Steps(sys, events, st), st) && OneRowPerObject(Steps(sys, events, st).media)
    decreases |events|
  {
    if events != [] {
      StepKeepsInv(sys, events[0], st);
      RunKeepsInv(Next(sys, events[0], st), events[1..], st);
    }
  }
}
