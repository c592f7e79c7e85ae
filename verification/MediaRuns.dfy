/** Runs from the start in which a deletion of media takes more than the design means it to. */
module MediaRuns {
  import opened Common
  import opened MediaRows
  import opened MediaProtocol
  import opened MediaSafety
  import A = AttemptRows

  const KEY := "identity-verification/1/photo"

  /** Grace of a quarter of an hour, uploads within five minutes, media kept for a day. */
  const DEFAULTS := Settings(900_000, 300_000, 86_400_000, Limits(50, 60, 3_600),
                             (a: Id) => "identity-verification/", (k: string) => k)

  const START := System(map[], map[], map[], map[], 0, map[], 0)

  lemma StartIsSafe()
    ensures SafeInv(START, DEFAULTS) && DEFAULTS.uploadTtl <= DEFAULTS.grace && Injective(DEFAULTS.digest)
  {
  }

  lemma StepsCons(sys: System, event: Event, rest: seq<Event>)
    ensures Steps(sys, [event] + rest, DEFAULTS) == Steps(Next(sys, event, DEFAULTS), rest, DEFAULTS)
  {
    assert ([event] + rest)[1..] == rest;
  }

  lemma {:induction false} StepsConcat(sys: System, first: seq<Event>, rest: seq<Event>)
    ensures Steps(sys, first + rest, DEFAULTS) == Steps(Steps(sys, first, DEFAULTS), rest, DEFAULTS)
    decreases |first|
  {
    if first == [] {
      assert first + rest == rest;
    } else {
      assert (first + rest)[1..] == first[1..] + rest;
      StepsConcat(Next(sys, first[0], DEFAULTS), first[1..], rest);
    }
  }

  /** Appends one step to a run. */
  lemma Append(events: seq<Event>, sys: System, event: Event) returns (longer: seq<Event>, sys': System)
    requires sys == Steps(START, events, DEFAULTS)
    ensures longer == events + [event] && sys' == Next(sys, event, DEFAULTS) == Steps(START, longer, DEFAULTS)
  {
    longer, sys' := events + [event], Next(sys, event, DEFAULTS);
    StepsConcat(START, events, [event]);
    StepsCons(sys, event, []);
    assert [event] + [] == [event];
  }

  const OFFERED := map[KEY := Policy(1, ID_DOCUMENT, 300_000)]
  const PENDING := map[1 := A.MEDIA_PENDING]
  const STORED: map<string, Time> := map[KEY := 0]
  const PAGE := [Object(KEY, 0)]

  function At(clock: Time, media: map<Id, Media>, processes: map<Id, Process>): System {
    System(media, STORED, OFFERED, PENDING, clock, processes, if media == map[] then 0 else 1)
  }

  /** An attempt whose document has been uploaded. */
  lemma Uploaded() returns (events: seq<Event>, sys: System)
    ensures sys == Steps(START, events, DEFAULTS) == At(0, map[], map[])
  {
    events, sys := [], START;
    events, sys := Append(events, sys, Open(1));
    assert DEFAULTS.prefix(1) <= KEY;
    events, sys := Append(events, sys, Offer(1, KEY));
    events, sys := Append(events, sys, Put(KEY));
  }

  lemma Listing()
    ensures Next(At(1_000_000, map[], map[]), List(7, PAGE), DEFAULTS)
            == At(1_000_000, map[], map[7 := Listed(100_000, PAGE)])
  {
  }

  lemma ScanningNothing()
    ensures Next(At(1_000_000, map[], map[7 := Listed(100_000, PAGE)]), Scan(7, {}), DEFAULTS)
            == At(1_000_000, map[], map[7 := Scanning(100_000, PAGE, {}, {}, true)])
  {
    assert LegacyRows(map[]) == {};
  }

  const UNKNOWN := Sweeping(100_000, PAGE, 0, {}, true, 0)

  lemma LookingUp()
    ensures Next(At(1_000_000, map[], map[7 := Scanning(100_000, PAGE, {}, {}, true)]), Look(7), DEFAULTS)
            == At(1_000_000, map[], map[7 := UNKNOWN])
  {
    var known: set<string> := {};
    assert known + Tracking(map[], PAGE, DEFAULTS.digest) == known;
  }

  /** The sweep has listed the object, found no row for it, and not yet deleted it. */
  lemma LookedUp() returns (events: seq<Event>, sys: System)
    ensures sys == Steps(START, events, DEFAULTS) == At(1_000_000, map[], map[7 := UNKNOWN])
  {
    events, sys := Uploaded();
    events, sys := Append(events, sys, Tick(1_000_000));
    Listing();
    events, sys := Append(events, sys, List(7, PAGE));
    ScanningNothing();
    events, sys := Append(events, sys, Scan(7, {}));
    LookingUp();
    events, sys := Append(events, sys, Look(7));
  }

  /** The three steps of a confirmation, beside whatever else runs. */
  lemma Confirming1(clock: Time, others: map<Id, Process>)
    requires 8 !in others
    ensures Next(At(clock, map[], others), Ask(8, 1, KEY), DEFAULTS) == At(clock, map[], others[8 := Asked(1, KEY)])
    ensures Next(At(clock, map[], others[8 := Asked(1, KEY)]), Head(8), DEFAULTS)
            == At(clock, map[], others[8 := Confirming(1, KEY, 0)])
    ensures Next(At(clock, map[], others[8 := Confirming(1, KEY, 0)]), Insert(8), DEFAULTS)
            == At(clock, map[0 := NewMedia(1, KEY, clock, DEFAULTS)], others)
  {
    assert DEFAULTS.prefix(1) <= KEY;
    assert others[8 := Asked(1, KEY)][8 := Confirming(1, KEY, 0)] == others[8 := Confirming(1, KEY, 0)];
    assert others[8 := Confirming(1, KEY, 0)] - {8} == others;
    assert 0 in map[0 := NewMedia(1, KEY, clock, DEFAULTS)];
  }

  lemma Confirm1(events: seq<Event>, clock: Time, others: map<Id, Process>) returns (longer: seq<Event>, sys: System)
    requires Steps(START, events, DEFAULTS) == At(clock, map[], others) && 8 !in others
    ensures sys == Steps(START, longer, DEFAULTS) == At(clock, map[0 := NewMedia(1, KEY, clock, DEFAULTS)], others)
  {
    Confirming1(clock, others);
    longer, sys := Append(events, At(clock, map[], others), Ask(8, 1, KEY));
    longer, sys := Append(longer, sys, Head(8));
    longer, sys := Append(longer, sys, Insert(8));
  }

  lemma Sweeping1(clock: Time, m: Media)
    ensures Next(At(clock, map[0 := m], map[7 := UNKNOWN]), Sweep(7, true), DEFAULTS).objects == map[]
  {
  }

  /** The document is confirmed between the lookup and the deletion: a live row loses its object. */
  lemma SweepDestroysConfirmed() returns (events: seq<Event>)
    ensures var sys := Steps(START, events, DEFAULTS);
            && 0 in sys.media && Live(sys.media[0]) && sys.media[0].key == KEY && KEY in sys.objects
            && KEY !in Next(sys, Sweep(7, true), DEFAULTS).objects
  {
    var looked, sys := LookedUp();
    events, sys := Confirm1(looked, 1_000_000, map[7 := UNKNOWN]);
    Sweeping1(1_000_000, NewMedia(1, KEY, 1_000_000, DEFAULTS));
  }

  const CONFIRMED := map[0 := NewMedia(1, KEY, 0, DEFAULTS)]

  lemma Selecting()
    ensures Next(At(86_400_000, CONFIRMED, map[]), SelectDue(9, {0}), DEFAULTS)
            == At(86_400_000, CONFIRMED, map[9 := Deleting(CONFIRMED, {0}, {}, {}, true)])
  {
    var sys := At(86_400_000, CONFIRMED, map[]);
    assert UnderReview(sys) == {};
    assert 0 in DueRows(sys.media, UnderReview(sys), sys.clock);
    assert Chosen(CONFIRMED, {0}) == CONFIRMED;
  }

  /** A confirmed document is due, and the expiry batch has selected it. */
  lemma Selected() returns (events: seq<Event>, sys: System)
    ensures sys == Steps(START, events, DEFAULTS)
            == At(86_400_000, CONFIRMED, map[9 := Deleting(CONFIRMED, {0}, {}, {}, true)])
  {
    events, sys := Uploaded();
    events, sys := Confirm1(events, 0, map[]);
    events, sys := Append(events, sys, Tick(86_400_000));
    Selecting();
    events, sys := Append(events, sys, SelectDue(9, {0}));
  }

  const PICKED := At(86_400_000, CONFIRMED, map[9 := Deleting(CONFIRMED, {0}, {}, {}, true)])

  lemma Holding() returns (held: System)
    ensures held == Next(PICKED, Hold(0, 90_000_000), DEFAULTS)
    ensures 0 in held.media && OnHold(held.media[0], held.clock) && held.media[0].key == KEY && KEY in held.objects
    ensures Removing(held, 9, 0) && held.media[0].readable
  {
    held := Next(PICKED, Hold(0, 90_000_000), DEFAULTS);
  }

  /** A hold is placed after the batch has selected its row: the held object goes. */
  lemma HoldComesLate() returns (events: seq<Event>, held: System)
    ensures held == Steps(START, events, DEFAULTS)
    ensures 0 in held.media && OnHold(held.media[0], held.clock) && held.media[0].key == KEY && KEY in held.objects
    ensures KEY !in Next(held, Remove(9, 0, true), DEFAULTS).objects
  {
    var selected, sys := Selected();
    held := Holding();
    events, held := Append(selected, sys, Hold(0, 90_000_000));
    RemovalTakes(held, 9, 0, DEFAULTS);
  }

  lemma Reviewing() returns (reviewed: System)
    ensures reviewed == Next(PICKED, Move(1, A.REVIEW_REQUIRED), DEFAULTS)
    ensures 0 in reviewed.media && reviewed.media[0].attemptId == 1 && reviewed.media[0].key == KEY
            && KEY in reviewed.objects
    ensures 1 in reviewed.attempts && reviewed.attempts[1] == A.REVIEW_REQUIRED
    ensures Removing(reviewed, 9, 0) && reviewed.media[0].readable
  {
    reviewed := Next(PICKED, Move(1, A.REVIEW_REQUIRED), DEFAULTS);
  }

  /** A verdict for review is recorded after the batch has selected the attempt's media: the reviewed object goes. */
  lemma ReviewComesLate() returns (events: seq<Event>, reviewed: System)
    ensures reviewed == Steps(START, events, DEFAULTS)
    ensures 0 in reviewed.media && reviewed.media[0].attemptId == 1 && reviewed.media[0].key == KEY
            && KEY in reviewed.objects
    ensures 1 in reviewed.attempts && reviewed.attempts[1] == A.REVIEW_REQUIRED
    ensures KEY !in Next(reviewed, Remove(9, 0, true), DEFAULTS).objects
  {
    var selected, sys := Selected();
    reviewed := Reviewing();
    events, reviewed := Append(selected, sys, Move(1, A.REVIEW_REQUIRED));
    RemovalTakes(reviewed, 9, 0, DEFAULTS);
  }
}
