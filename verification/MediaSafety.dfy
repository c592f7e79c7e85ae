/**
 * What the interleaved deletions of media may and may not take away: which sweeps destroy the
 * object of a confirmed row, which deletions reach a held or reviewed one, and the runs that do.
 */
module MediaSafety {
  import opened Common
  import opened MediaRows
  import opened MediaProtocol
  import A = AttemptRows

  // ---- Rows over whole runs -----------------------------------------------------------------

  lemma {:induction false} RowsStay(sys: System, events: seq<Event>, st: Settings, i: Id)
    requires Inv(sys, st)
    ensures Inv(Steps(sys, events, st), st) && sys.clock <= Steps(sys, events, st).clock
    ensures sys.nextId <= Steps(sys, events, st).nextId
    ensures i in sys.media ==>
            i in Steps(sys, events, st).media && SameMedia(sys.media[i], Steps(sys, events, st).media[i], st.digest)
    ensures i in Steps(sys, events, st).media && i < sys.nextId ==> i in sys.media
    decreases |events|
  {
    if events != [] {
      StepGrows(sys, events[0], st);
      StepKeepsInv(sys, events[0], st);
      RowsStay(Next(sys, events[0], st), events[1..], st, i);
    }
  }

  // ---- The sweep ----------------------------------------------------------------------------

  /** Known means named by a row older than the lookup, so a row younger than it was not known. */
  lemma YoungIsUnknown(sys: System, c: Process, i: Id, st: Settings)
    requires Inv(sys, st) && c.Sweeping? && ProcessInv(sys, c, st) && Injective(st.digest)
    requires i in sys.media && c.since <= i
    ensures st.digest(sys.media[i].key) !in c.known
  {
    forall j | j in sys.media && j < c.since ensures st.digest(sys.media[j].key) != st.digest(sys.media[i].key) {
    }
  }

  lemma SweepTakesExactly(sys: System, p: Id, i: Id, st: Settings)
    requires Inv(sys, st) && Injective(st.digest) && p in sys.processes && sys.processes[p].Sweeping?
    requires i in sys.media && Live(sys.media[i]) && sys.media[i].key in sys.objects
    ensures var c := sys.processes[p];
            sys.media[i].key !in Next(sys, Sweep(p, true), st).objects
            <==> && c.since <= i
                 && c.next < |c.page| && c.page[c.next].key == sys.media[i].key
                 && c.page[c.next].lastModified <= c.cutoff && c.complete
  {
    var c := sys.processes[p];
    assert ProcessInv(sys, c, st);
    if c.since <= i {
      YoungIsUnknown(sys, c, i, st);
    } else if c.next < |c.page| && c.page[c.next].key == sys.media[i].key && c.complete {
      assert c.page[c.next] in c.page;
      assert st.digest(sys.media[i].key) in c.known;
    }
  }

  /**
   * In every run: a sweep that has done its lookup destroys the object of a live row exactly when
   * the row was confirmed after that lookup and the object was old when the sweep listed it.
   */
  lemma SweepDestroysExactly(sys: System, p: Id, events: seq<Event>, i: Id, st: Settings)
    requires Inv(sys, st) && Injective(st.digest)
    requires p in sys.processes && sys.processes[p].Scanning? && sys.processes[p].left == {}
    requires var last := Steps(Next(sys, Look(p), st), events, st);
             && p in last.processes && last.processes[p].Sweeping? && last.processes[p].since == sys.nextId
             && i in last.media && Live(last.media[i]) && last.media[i].key in last.objects
    ensures var last := Steps(Next(sys, Look(p), st), events, st);
            var c := last.processes[p];
            last.media[i].key !in Next(last, Sweep(p, true), st).objects
            <==> && i !in sys.media
                 && c.next < |c.page| && c.page[c.next].key == last.media[i].key
                      && c.page[c.next].lastModified <= c.cutoff && c.complete
  {
    StepKeepsInv(sys, Look(p), st);
    RowsStay(Next(sys, Look(p), st), events, st, i);
    SweepTakesExactly(Steps(Next(sys, Look(p), st), events, st), p, i, st);
  }

  // ---- Prompt confirmations -----------------------------------------------------------------

  /** The object a row is about to confirm is still within the grace period. */
  predicate Prompt(sys: System, event: Event, st: Settings) {
    Inserts(sys, event) ==> sys.clock - sys.processes[event.process].uploadedAt < st.grace
  }

  ghost predicate ObjectsInv(sys: System, st: Settings) {
    && (forall k :: k in sys.policies ==> sys.policies[k].until <= sys.clock + st.uploadTtl)
    && (forall k :: k in sys.objects ==>
          k in sys.policies && sys.objects[k] <= sys.clock && sys.policies[k].until <= sys.objects[k] + st.uploadTtl)
    && (forall p :: p in sys.processes && sys.processes[p].Confirming? ==>
          sys.processes[p].uploadedAt <= sys.clock
          && (sys.processes[p].key in sys.objects ==> sys.processes[p].uploadedAt <= sys.objects[sys.processes[p].key]))
  }

  /** An old object of a listing can no longer be written, nor has anybody seen it younger. */
  ghost predicate Abandoned(sys: System, key: string, cutoff: Time, st: Settings) {
    && key in sys.policies && sys.policies[key].until <= cutoff + st.grace
    && (key in sys.objects ==> sys.objects[key] <= cutoff)
    && (forall p :: p in sys.processes && sys.processes[p].Confirming? && sys.processes[p].key == key ==>
          sys.processes[p].uploadedAt <= cutoff)
  }

  ghost predicate AllAbandoned(sys: System, page: seq<Object>, cutoff: Time, st: Settings) {
    cutoff + st.grace <= sys.clock && forall o :: o in page && o.lastModified <= cutoff ==>
        Abandoned(sys, o.key, cutoff, st)
  }

  /** No row confirmed since the lookup names an old object of the page. */
  ghost predicate NoneConfirmed(sys: System, c: Process)
    requires c.Sweeping?
  {
    forall i, o | i in sys.media && c.since <= i && o in c.page
        && o.lastModified <= c.cutoff :: sys.media[i].key != o.key
  }

  ghost predicate PageInv(sys: System, c: Process, st: Settings) {
    match c
    case Listed(cutoff, page) => AllAbandoned(sys, page, cutoff, st)
    case Scanning(cutoff, page, _, _, _) => AllAbandoned(sys, page, cutoff, st)
    case Sweeping(cutoff, page, _, _, _, _) => AllAbandoned(sys, page, cutoff, st) && NoneConfirmed(sys, c)
    case _ => true
  }

  ghost predicate PagesInv(sys: System, st: Settings) {
    && ObjectsInv(sys, st)
    && forall p :: p in sys.processes ==> PageInv(sys, sys.processes[p], st)
  }

  lemma PassesWriteNoObject(sys: System, event: Event, st: Settings)
    requires Searches(event) || Clears(event)
    ensures forall k :: k in Next(sys, event, st).objects ==>
              k in sys.objects && Next(sys, event, st).objects[k] == sys.objects[k]
  {
    if Searches(event) {
      assert forall k :: k in SweepStep(sys, event, st).objects ==>
               k in sys.objects && SweepStep(sys, event, st).objects[k] == sys.objects[k];
    }
  }

  /** Objects are written only under an open policy; everything else leaves or deletes them. */
  lemma ObjectsMove(sys: System, event: Event, st: Settings, k: string)
    requires k in Next(sys, event, st).objects
    ensures (k in sys.objects && Next(sys, event, st).objects[k] == sys.objects[k])
            || (event == Put(k) && k in sys.policies && sys.clock < sys.policies[k].until
                && Next(sys, event, st).objects[k] == sys.clock)
  {
    if Searches(event) || Clears(event) { PassesWriteNoObject(sys, event, st); }
  }

  /** A policy is given to a new key, with the whole time to upload. */
  lemma PoliciesMove(sys: System, event: Event, st: Settings, k: string)
    requires k in Next(sys, event, st).policies
    ensures (k in sys.policies && Next(sys, event, st).policies[k] == sys.policies[k])
            || (event.Offer? && event.key == k && k !in sys.policies
                && Next(sys, event, st).policies[k].until == sys.clock + st.uploadTtl)
  {
    if Confirms(event) {
      assert Confirm(sys, event, st).policies == sys.policies;
    } else if Searches(event) {
      SweepGrows(sys, event, st);
      assert SweepStep(sys, event, st).policies == sys.policies;
    } else if Clears(event) {
      assert DeleteStep(sys, event, st).policies == sys.policies;
    }
  }

  /** What a confirmation has seen it read from the object that was there. */
  lemma ConfirmingMoves(sys: System, event: Event, st: Settings, p: Id)
    requires p in Next(sys, event, st).processes && Next(sys, event, st).processes[p].Confirming?
    ensures var c := Next(sys, event, st).processes[p];
            || (p in sys.processes && sys.processes[p] == c)
            || (event == Head(p) && c.key in sys.objects && c.uploadedAt == sys.objects[c.key])
  {
    OnlyItsOwn(sys, event, st, p);
    if Searches(event) || Clears(event) { PassesConfirmNothing(sys, event, st); }
  }

  lemma PassesConfirmNothing(sys: System, event: Event, st: Settings)
    requires Searches(event) || Clears(event)
    ensures var p, sys' := event.process, Next(sys, event, st);
            p in sys'.processes && sys'.processes[p].Confirming? ==>
              p in sys.processes && sys'.processes[p] == sys.processes[p]
  {
    if Searches(event) {
      assert SweepStep(sys, event, st).processes == sys.processes
             || event.process !in SweepStep(sys, event, st).processes
             || !SweepStep(sys, event, st).processes[event.process].Confirming?;
    }
  }

  lemma ObjectsStep(sys: System, event: Event, st: Settings)
    requires RowsInv(sys, st) && ObjectsInv(sys, st)
    ensures ObjectsInv(Next(sys, event, st), st)
  {
    var sys' := Next(sys, event, st);
    StepGrows(sys, event, st);
    forall k | k in sys'.policies ensures sys'.policies[k].until <= sys'.clock + st.uploadTtl {
      PoliciesMove(sys, event, st, k);
    }
    forall k | k in sys'.objects
      ensures k in sys'.policies && sys'.objects[k] <= sys'.clock
              && sys'.policies[k].until <= sys'.objects[k] + st.uploadTtl
    {
      ObjectsMove(sys, event, st, k);
      PoliciesMove(sys, event, st, k);
    }
    forall p | p in sys'.processes && sys'.processes[p].Confirming?
      ensures var c := sys'.processes[p];
              c.uploadedAt <= sys'.clock
              && (c.key in sys'.objects ==> c.uploadedAt <= sys'.objects[c.key])
    {
      ConfirmingMoves(sys, event, st, p);
      if sys'.processes[p].key in sys'.objects { ObjectsMove(sys, event, st, sys'.processes[p].key); }
    }
  }

  lemma AbandonedStays(sys: System, event: Event, key: string, cutoff: Time, st: Settings)
    requires RowsInv(sys, st) && Abandoned(sys, key, cutoff, st) && cutoff + st.grace <= sys.clock
    ensures Abandoned(Next(sys, event, st), key, cutoff, st)
  {
    var sys' := Next(sys, event, st);
    StepGrows(sys, event, st);
    if key in sys'.objects { ObjectsMove(sys, event, st, key); }
    forall p | p in sys'.processes && sys'.processes[p].Confirming? && sys'.processes[p].key == key
      ensures sys'.processes[p].uploadedAt <= cutoff
    {
      ConfirmingMoves(sys, event, st, p);
    }
  }

  lemma PageStays(sys: System, event: Event, page: seq<Object>, cutoff: Time, st: Settings)
    requires RowsInv(sys, st) && AllAbandoned(sys, page, cutoff, st)
    ensures AllAbandoned(Next(sys, event, st), page, cutoff, st)
  {
    StepGrows(sys, event, st);
    forall o | o in page && o.lastModified <= cutoff ensures Abandoned(Next(sys, event, st), o.key, cutoff, st) {
      AbandonedStays(sys, event, o.key, cutoff, st);
    }
  }

  lemma PageSurvives(sys: System, event: Event, c: Process, st: Settings)
    requires Inv(sys, st) && PageInv(sys, c, st) && ProcessInv(sys, c, st) && Prompt(sys, event, st)
    ensures PageInv(Next(sys, event, st), c, st)
  {
    if c.Listed? || c.Scanning? || c.Sweeping? { PageStays(sys, event, c.page, c.cutoff, st); }
    if c.Sweeping? { NoneConfirmedStays(sys, event, c, st); }
  }

  lemma NoneConfirmedStays(sys: System, event: Event, c: Process, st: Settings)
    requires Inv(sys, st) && c.Sweeping? && PageInv(sys, c, st) && ProcessInv(sys, c, st) && Prompt(sys, event, st)
    ensures NoneConfirmed(Next(sys, event, st), c)
  {
    var sys' := Next(sys, event, st);
    StepGrows(sys, event, st);
    forall i, o | i in sys'.media && c.since <= i && o in c.page && o.lastModified <= c.cutoff
      ensures sys'.media[i].key != o.key
    {
      assert Abandoned(sys, o.key, c.cutoff, st);
      if i !in sys.media { assert Inserts(sys, event); }
    }
  }

  /** A sweep's own steps keep its page, and its lookup comes before any confirmation it could miss. */
  lemma PageAdvances(sys: System, event: Event, st: Settings)
    requires Inv(sys, st) && PagesInv(sys, st) && st.uploadTtl <= st.grace
    requires Searches(event)
    requires event.process in Next(sys, event, st).processes && Next(sys, event, st).processes != sys.processes
    ensures PageInv(Next(sys, event, st), Next(sys, event, st).processes[event.process], st)
  {
    if event.List? {
      ListingIsAbandoned(sys, event, st);
    } else {
      var c := sys.processes[event.process];
      KeepsItsPage(sys, event, st);
      assert PageInv(sys, c, st);
      PageStays(sys, event, c.page, c.cutoff, st);
      if !event.Scan? && !event.Digest? { LookupMissesNone(sys, event, st); }
    }
  }

  predicate HasPage(c: Process) { c.Listed? || c.Scanning? || c.Sweeping? }

  /** A sweep works to its end on the page and the cutoff it began with. */
  lemma KeepsItsPage(sys: System, event: Event, st: Settings)
    requires event.Scan? || event.Digest? || event.Look? || event.Sweep?
    requires event.process in Next(sys, event, st).processes && Next(sys, event, st).processes != sys.processes
    ensures event.process in sys.processes
    ensures var c, c' := sys.processes[event.process], Next(sys, event, st).processes[event.process];
            && HasPage(c) && HasPage(c') && c'.page == c.page && c'.cutoff == c.cutoff
            && (event.Scan? || event.Digest? ==> c'.Scanning?) && (event.Look? || event.Sweep? ==> c'.Sweeping?)
  {
  }

  lemma ListingIsAbandoned(sys: System, event: Event, st: Settings)
    requires RowsInv(sys, st) && ObjectsInv(sys, st) && st.uploadTtl <= st.grace && event.List?
    requires event.process in Next(sys, event, st).processes && Next(sys, event, st).processes != sys.processes
    ensures PageInv(Next(sys, event, st), Next(sys, event, st).processes[event.process], st)
  {
    forall o | o in event.page && o.lastModified <= sys.clock - st.grace
      ensures Abandoned(Next(sys, event, st), o.key, sys.clock - st.grace, st)
    {
      AbandonedWhenListed(sys, event, o, st);
    }
  }

  lemma LookupMissesNone(sys: System, event: Event, st: Settings)
    requires Inv(sys, st) && PagesInv(sys, st) && (event.Look? || event.Sweep?)
    requires event.process in Next(sys, event, st).processes && Next(sys, event, st).processes[event.process].Sweeping?
    ensures NoneConfirmed(Next(sys, event, st), Next(sys, event, st).processes[event.process])
  {
    SweepGrows(sys, event, st);
    assert PageInv(sys, sys.processes[event.process], st);
  }

  lemma AbandonedWhenListed(sys: System, event: Event, o: Object, st: Settings)
    requires RowsInv(sys, st) && ObjectsInv(sys, st) && st.uploadTtl <= st.grace && event.List?
    requires o.key in sys.objects && sys.objects[o.key] == o.lastModified <= sys.clock - st.grace
    ensures Abandoned(Next(sys, event, st), o.key, sys.clock - st.grace, st)
  {
    assert Abandoned(sys, o.key, sys.clock - st.grace, st);
    AbandonedStays(sys, event, o.key, sys.clock - st.grace, st);
  }

  lemma StepKeepsPages(sys: System, event: Event, st: Settings)
    requires Inv(sys, st) && PagesInv(sys, st) && st.uploadTtl <= st.grace && Prompt(sys, event, st)
    ensures PagesInv(Next(sys, event, st), st)
  {
    ObjectsStep(sys, event, st);
    forall p | p in Next(sys, event, st).processes
        ensures PageInv(Next(sys, event, st), Next(sys, event, st).processes[p], st) {
      OnlyItsOwn(sys, event, st, p);
      if p in sys.processes && Next(sys, event, st).processes[p] == sys.processes[p] {
        PageSurvives(sys, event, sys.processes[p], st);
      } else if Searches(event) {
        PageAdvances(sys, event, st);
      }
    }
  }

  // ---- Holds --------------------------------------------------------------------------------

  /** Holds are placed on rows that no deletion in flight has selected. */
  predicate Calm(sys: System, event: Event) {
    event.Hold? ==> forall p :: p in sys.processes && sys.processes[p].Deleting? ==> event.row !in sys.processes[p].left
  }

  /** What a deletion selected and has not reached is not held. */
  ghost predicate NoneHeld(sys: System, c: Process) {
    c.Deleting? ==> forall i :: i in c.left && i in sys.media ==> !OnHold(sys.media[i], sys.clock)
  }

  ghost predicate HoldsInv(sys: System) { forall p :: p in sys.processes ==> NoneHeld(sys, sys.processes[p]) }

  lemma PassesKeepHolds(sys: System, event: Event, st: Settings, i: Id)
    requires (Searches(event) || Clears(event)) && i in Next(sys, event, st).media
    ensures i in sys.media && Next(sys, event, st).media[i].legalHoldUntil == sys.media[i].legalHoldUntil
  {
    if Searches(event) {
      assert SweepStep(sys, event, st).media[i].legalHoldUntil == sys.media[i].legalHoldUntil;
    } else {
      assert DeleteStep(sys, event, st).media[i].legalHoldUntil == sys.media[i].legalHoldUntil;
    }
  }

  /** Only a hold changes a row's hold, and a new row has none. */
  lemma HoldsMove(sys: System, event: Event, st: Settings, i: Id)
    requires RowsInv(sys, st) && i in Next(sys, event, st).media
    ensures Next(sys, event, st).media[i].legalHoldUntil
            == if i !in sys.media then None
               else if event.Hold? && event.row == i then Some(event.until)
               else sys.media[i].legalHoldUntil
  {
    if Confirms(event) {
      assert sys.nextId !in sys.media;
    } else if !Outside(event) {
      PassesKeepHolds(sys, event, st, i);
    }
  }

  lemma NoneHeldStays(sys: System, event: Event, c: Process, st: Settings)
    requires Inv(sys, st) && ProcessInv(sys, c, st) && NoneHeld(sys, c)
    requires c.Deleting? && (event.Hold? ==> event.row !in c.left)
    ensures NoneHeld(Next(sys, event, st), c)
  {
    StepGrows(sys, event, st);
    forall i | i in c.left && i in Next(sys, event, st).media
        ensures !OnHold(Next(sys, event, st).media[i], Next(sys, event, st).clock) {
      HoldsMove(sys, event, st, i);
    }
  }

  lemma DeletionKeepsNoneHeld(sys: System, event: Event, st: Settings)
    requires Inv(sys, st) && HoldsInv(sys)
    requires Clears(event)
    requires event.process in Next(sys, event, st).processes && Next(sys, event, st).processes != sys.processes
    ensures NoneHeld(Next(sys, event, st), Next(sys, event, st).processes[event.process])
  {
    if event.SelectDue? || event.SelectAttempt? {
      SelectedAreFree(sys, event, st);
    } else {
      var c := sys.processes[event.process];
      LeftShrinks(sys, event, st);
      assert ProcessInv(sys, c, st) && NoneHeld(sys, c);
      NoneHeldStays(sys, event, c, st);
    }
  }

  lemma SelectedAreFree(sys: System, event: Event, st: Settings)
    requires (event.SelectDue? || event.SelectAttempt?) && Next(sys, event, st) != sys
    ensures event.process in Next(sys, event, st).processes
    ensures NoneHeld(Next(sys, event, st), Next(sys, event, st).processes[event.process])
  {
  }

  lemma StepKeepsHolds(sys: System, event: Event, st: Settings)
    requires Inv(sys, st) && HoldsInv(sys) && Calm(sys, event)
    ensures HoldsInv(Next(sys, event, st))
  {
    forall p | p in Next(sys, event, st).processes
        ensures NoneHeld(Next(sys, event, st), Next(sys, event, st).processes[p]) {
      OnlyItsOwn(sys, event, st, p);
      if p in sys.processes && Next(sys, event, st).processes[p] == sys.processes[p] {
        if sys.processes[p].Deleting? {
          assert ProcessInv(sys, sys.processes[p], st);
          NoneHeldStays(sys, event, sys.processes[p], st);
        }
      } else if Clears(event) {
        DeletionKeepsNoneHeld(sys, event, st);
      }
    }
  }

  // ---- What survives ------------------------------------------------------------------------

  /** A run whose confirmations are prompt and whose holds come before the selection of their row. */
  ghost predicate Undisturbed(sys: System, events: seq<Event>, st: Settings)
    decreases |events|
  {
    events == []
        || (Prompt(sys, events[0], st) && Calm(sys, events[0])
            && Undisturbed(Next(sys, events[0], st), events[1..], st))
  }

  ghost predicate SafeInv(sys: System, st: Settings) { Inv(sys, st) && PagesInv(sys, st) && HoldsInv(sys) }

  lemma {:induction false} UndisturbedKeeps(sys: System, events: seq<Event>, st: Settings)
    requires SafeInv(sys, st) && st.uploadTtl <= st.grace && Undisturbed(sys, events, st)
    ensures SafeInv(Steps(sys, events, st), st)
    decreases |events|
  {
    if events != [] {
      StepKeepsInv(sys, events[0], st);
      StepKeepsPages(sys, events[0], st);
      StepKeepsHolds(sys, events[0], st);
      UndisturbedKeeps(Next(sys, events[0], st), events[1..], st);
    }
  }

  /** Which steps take an object away, and that no other does. */
  lemma ObjectsGo(sys: System, event: Event, st: Settings, k: string)
    requires k in sys.objects && k !in Next(sys, event, st).objects
    ensures (event.Sweep? || event.Remove?) && event.process in sys.processes
    ensures event.Sweep? ==> var c := sys.processes[event.process]; Sweeps(c, st.digest) && c.page[c.next].key == k
    ensures event.Remove? ==> Removing(sys, event.process, event.row) && sys.media[event.row].key == k
  {
    if Searches(event) {
      assert event.Sweep?;
    }
  }

  /** No sweep of such a run destroys the object of a live row. */
  lemma SweepSparesLiveRows(sys: System, p: Id, ok: bool, i: Id, st: Settings)
    requires SafeInv(sys, st) && i in sys.media && Live(sys.media[i]) && sys.media[i].key in sys.objects
    ensures sys.media[i].key in Next(sys, Sweep(p, ok), st).objects
  {
    if p in sys.processes && sys.processes[p].Sweeping? {
      var c := sys.processes[p];
      assert PageInv(sys, c, st) && ProcessInv(sys, c, st);
      if c.next < |c.page| && c.page[c.next].key == sys.media[i].key {
        assert c.page[c.next] in c.page;
        assert i < c.since && c.complete ==> st.digest(sys.media[i].key) in c.known;
        assert !Sweeps(c, st.digest);
      }
    }
  }

  /**
   * In every run with prompt confirmations, upload policies no longer than the grace period, and
   * holds placed before the selection of their row, whatever step comes next: the sweep takes no
   * object of a live row, and no deletion at all takes an object under an unexpired hold.
   */
  lemma HeldObjectsStay(start: System, events: seq<Event>, event: Event, i: Id, st: Settings)
    requires SafeInv(start, st) && st.uploadTtl <= st.grace && Undisturbed(start, events, st)
    requires var sys := Steps(start, events, st);
             i in sys.media && Live(sys.media[i]) && sys.media[i].key in sys.objects
    ensures var sys := Steps(start, events, st);
            event.Sweep? || OnHold(sys.media[i], sys.clock) ==> sys.media[i].key in Next(sys, event, st).objects
  {
    UndisturbedKeeps(start, events, st);
    var sys := Steps(start, events, st);
    var k := sys.media[i].key;
    if event.Sweep? {
      SweepSparesLiveRows(sys, event.process, event.ok, i, st);
    } else if k !in Next(sys, event, st).objects {
      ObjectsGo(sys, event, st, k);
      assert NoneHeld(sys, sys.processes[event.process]);
    }
  }

  // ---- Late holds and late verdicts, exactly ------------------------------------------------

  /** The date of the last hold that a run places on the row. */
  function LastHold(sys: System, events: seq<Event>, i: Id, st: Settings): Option<Time>
    decreases |events|
  {
    if events == [] then None
    else
      var later := LastHold(Next(sys, events[0], st), events[1..], i, st);
      if later == None && events[0].Hold? && events[0].row == i && i in sys.media then Some(events[0].until) else later
  }

  lemma {:induction false} HoldIsTheLast(sys: System, events: seq<Event>, i: Id, st: Settings)
    requires Inv(sys, st) && i in sys.media
    ensures i in Steps(sys, events, st).media
    ensures Steps(sys, events, st).media[i].legalHoldUntil
            == if LastHold(sys, events, i, st) == None then sys.media[i].legalHoldUntil
                else LastHold(sys, events, i, st)
    decreases |events|
  {
    if events != [] {
      StepGrows(sys, events[0], st);
      StepKeepsInv(sys, events[0], st);
      HoldsMove(sys, events[0], st, i);
      HoldIsTheLast(Next(sys, events[0], st), events[1..], i, st);
    }
  }

  /** The run records the verdict that puts the attempt under review. */
  predicate Reviewed(sys: System, events: seq<Event>, a: Id, st: Settings)
    decreases |events|
  {
    events != []
    && ((Moves(sys, events[0]) && events[0].attemptId == a && events[0].status == A.REVIEW_REQUIRED)
        || Reviewed(Next(sys, events[0], st), events[1..], a, st))
  }

  lemma StatusMoves(sys: System, event: Event, st: Settings, a: Id)
    requires a in sys.attempts
    ensures a in Next(sys, event, st).attempts
    ensures Next(sys, event, st).attempts[a] == if Moves(sys, event) && event.attemptId == a then event.status
            else sys.attempts[a]
  {
    if Confirms(event) {
      assert Confirm(sys, event, st).attempts == sys.attempts;
    } else if Searches(event) {
      SearchesMoveNoStatus(sys, event, st);
    } else if Clears(event) {
      assert DeleteStep(sys, event, st).attempts == sys.attempts;
    }
  }

  lemma SearchesMoveNoStatus(sys: System, event: Event, st: Settings)
    requires Searches(event)
    ensures Next(sys, event, st).attempts == sys.attempts
  {
    assert SweepStep(sys, event, st).attempts == sys.attempts;
  }

  lemma {:induction false} ReviewIsRecorded(sys: System, events: seq<Event>, a: Id, st: Settings)
    requires a in sys.attempts
    ensures a in Steps(sys, events, st).attempts
    ensures Steps(sys, events, st).attempts[a] == A.REVIEW_REQUIRED
            <==> sys.attempts[a] == A.REVIEW_REQUIRED || Reviewed(sys, events, a, st)
    ensures A.IsVerdict(sys.attempts[a]) ==> Steps(sys, events, st).attempts[a] == sys.attempts[a]
    decreases |events|
  {
    if events != [] {
      StatusMoves(sys, events[0], st, a);
      ReviewIsRecorded(Next(sys, events[0], st), events[1..], a, st);
    }
  }

  /** The step by which a deletion, of either kind, selects row `i`. */
  predicate Picks(sys: System, select: Event, i: Id, st: Settings) {
    && ((select.SelectDue? && i in select.chosen) || (select.SelectAttempt? && i in select.chosen))
    && Idle(sys, select.process)
    && Next(sys, select, st) != sys
  }

  /** What is picked is free of hold, and not under review. */
  lemma PickedIsFree(sys: System, select: Event, i: Id, st: Settings)
    requires Picks(sys, select, i, st)
    ensures SameRows(sys, Next(sys, select, st)) && Next(sys, select, st).attempts == sys.attempts
    ensures i in sys.media && !OnHold(sys.media[i], sys.clock)
    ensures var a := sys.media[i].attemptId;
            && (a in sys.attempts ==> sys.attempts[a] != A.REVIEW_REQUIRED)
            && (select.SelectAttempt? ==> a in sys.attempts && A.IsVerdict(sys.attempts[a]))
  {
    if select.SelectDue? {
      var a := sys.media[i].attemptId;
      assert Due(sys.media[i], UnderReview(sys), sys.clock);
      assert a in sys.attempts && sys.attempts[a] == A.REVIEW_REQUIRED ==> a in UnderReview(sys);
    }
  }

  /** A removal that storage accepts takes the object, whatever has become of the row. */
  lemma RemovalTakes(sys: System, p: Id, i: Id, st: Settings)
    requires Removing(sys, p, i) && sys.media[i].readable
    ensures sys.media[i].key !in Next(sys, Remove(p, i, true), st).objects
  {
  }

  /**
   * A deletion takes the object of a row it selected, at whatever later step; the object is then
   * under an unexpired hold exactly when a hold still running was placed after the selection.
   */
  lemma DeletionTakesHeldExactly(sys: System, select: Event, events: seq<Event>, i: Id, st: Settings)
    requires Inv(sys, st) && Picks(sys, select, i, st)
    requires var last := Steps(Next(sys, select, st), events, st);
             Removing(last, select.process, i) && last.media[i].readable
    ensures var last := Steps(Next(sys, select, st), events, st);
            var date := LastHold(Next(sys, select, st), events, i, st);
            && last.media[i].key !in Next(last, Remove(select.process, i, true), st).objects
            && (OnHold(last.media[i], last.clock) <==> date.Some? && last.clock < date.value)
  {
    var begun := Next(sys, select, st);
    PickedIsFree(sys, select, i, st);
    StepKeepsInv(sys, select, st);
    HoldIsTheLast(begun, events, i, st);
    RowsStay(begun, events, st, i);
    RemovalTakes(Steps(begun, events, st), select.process, i, st);
  }

  /**
   * The expiry batch takes media of an attempt under review exactly when the verdict was recorded
   * after its selection; the deletion that follows a verdict never does.
   */
  lemma DeletionTakesReviewedExactly(sys: System, select: Event, events: seq<Event>, i: Id, st: Settings)
    requires Inv(sys, st) && Picks(sys, select, i, st) && i in sys.media && sys.media[i].attemptId in sys.attempts
    requires var last := Steps(Next(sys, select, st), events, st);
             Removing(last, select.process, i) && last.media[i].readable
    ensures var last, a := Steps(Next(sys, select, st), events, st), sys.media[i].attemptId;
            && last.media[i].key !in Next(last, Remove(select.process, i, true), st).objects
            && last.media[i].attemptId == a && a in last.attempts
            && var late := select.SelectDue? && Reviewed(Next(sys, select, st), events, a, st);
               last.attempts[a] == A.REVIEW_REQUIRED <==> late
  {
    var begun, a := Next(sys, select, st), sys.media[i].attemptId;
    PickedIsFree(sys, select, i, st);
    StepKeepsInv(sys, select, st);
    RowsStay(begun, events, st, i);
    ReviewIsRecorded(begun, events, a, st);
    RemovalTakes(Steps(begun, events, st), select.process, i, st);
  }
}
