/**
 * The mail outbox: batches under a leader lease, a lease on each row, retries with backoff, and
 * dead-lettering. Batches may crash or overrun, leases may lapse, and worker names may repeat.
 */
module Outbox {
  import opened Common
  import JobLock

  datatype Row = Row(
    publishedAt: Option<Time>,
    deadLetteredAt: Option<Time>,
    attemptCount: nat,
    nextAttemptAt: Time,
    processingStartedAt: Option<Time>,
    processingBy: Option<string>)

  datatype Config = Config(maxAttempts: nat, lease: nat, retryBase: nat, retryMax: nat, lockTtl: nat)

  function NewRow(now: Time): Row { Row(None, None, 0, now, None, None) }

  predicate LeaseFree(row: Row, now: Time, config: Config) {
    row.processingStartedAt.Some? ==> row.processingStartedAt.value <= now - config.lease
  }

  /** The guard of the row claim; unlike the batch query it does not look at the attempt count. */
  predicate Claimable(row: Row, now: Time, config: Config) {
    row.publishedAt == None && row.deadLetteredAt == None && row.nextAttemptAt <= now && LeaseFree(row, now, config)
  }

  predicate Eligible(row: Row, now: Time, config: Config) {
    Claimable(row, now, config) && row.attemptCount < config.maxAttempts
  }

  function RetryDelay(attemptCount: nat, config: Config): nat {
    var exponential := config.retryBase * Pow2(if attemptCount < 10 then attemptCount else 10);
    (if config.retryMax < exponential then config.retryMax else exponential) * 1_000
  }

  function ClaimedRow(row: Row, worker: string, now: Time): Row {
    row.(processingStartedAt := Some(now), processingBy := Some(worker))
  }

  /** The guard of both final updates. */
  predicate Owned(row: Row, worker: string) { row.publishedAt == None && row.processingBy == Some(worker) }

  function PublishedRow(row: Row, now: Time): Row {
    row.(publishedAt := Some(now), attemptCount := row.attemptCount + 1, processingStartedAt := None,
         processingBy := None)
  }

  /** `seen` is the attempt count the batch query returned, however long ago. */
  function FailedRow(row: Row, seen: nat, now: Time, config: Config): Row {
    row.(attemptCount := row.attemptCount + 1,
         nextAttemptAt := now + RetryDelay(seen, config),
         processingStartedAt := None,
         processingBy := None,
         deadLetteredAt := if config.maxAttempts <= seen + 1 then Some(now) else row.deadLetteredAt)
  }

  // ---- The system ---------------------------------------------------------------------------

  /** A batch remembers the attempt counts it read: of rows waiting for dispatch and of rows being sent. */
  datatype Batch = Batch(worker: string, waiting: map<Id, nat>, sending: map<Id, nat>)

  /** Batches are named by the owner value of their leader lease. */
  datatype System = System(rows: map<Id, Row>, nextId: Id, locks: JobLock.System, batches: map<Id, Batch>)

  const JOB := "mail-outbox-batch"

  datatype Event =
    | Tick(delta: nat)
    | Append
    | Begin(worker: string, chosen: set<Id>)
    | Claim(batch: Id, id: Id)
    | Succeed(batch: Id, id: Id)
    | Fail(batch: Id, id: Id)
    | End(batch: Id)
    | Crash(batch: Id)

  function Clock(sys: System): Time { sys.locks.clock }

  function Settle(sys: System, batch: Id, id: Id, row: Row): System
    requires batch in sys.batches
  {
    var b := sys.batches[batch];
    sys.(rows := if id in sys.rows && Owned(sys.rows[id], b.worker) then sys.rows[id := row] else sys.rows,
         batches := sys.batches[batch := b.(sending := b.sending - {id})])
  }

  function Next(sys: System, event: Event, config: Config): System {
    match event
    case Tick(delta) => sys.(locks := JobLock.Next(sys.locks, JobLock.Tick(delta)))
    case Append => sys.(rows := sys.rows[sys.nextId := NewRow(Clock(sys))], nextId := sys.nextId + 1)
    case Begin(worker, chosen) =>
      var locks := JobLock.Next(sys.locks, JobLock.Start(JOB, config.lockTtl));
      if locks != sys.locks && chosen <= sys.rows.Keys
         && (forall i :: i in chosen ==> Eligible(sys.rows[i], Clock(sys), config)) then
        var waiting := map i | i in chosen :: sys.rows[i].attemptCount;
        sys.(locks := locks, batches := sys.batches[sys.locks.nextOwner := Batch(worker, waiting, map[])])
      else sys
    case Claim(batch, id) =>
      if batch in sys.batches && id in sys.batches[batch].waiting then
        var b := sys.batches[batch];
        var dropped := b.(waiting := b.waiting - {id});
        if id in sys.rows && Claimable(sys.rows[id], Clock(sys), config) then
          sys.(rows := sys.rows[id := ClaimedRow(sys.rows[id], b.worker, Clock(sys))],
               batches := sys.batches[batch := dropped.(sending := b.sending[id := b.waiting[id]])])
        else sys.(batches := sys.batches[batch := dropped])
      else sys
    case Succeed(batch, id) =>
      if batch in sys.batches && id in sys.batches[batch].sending && id in sys.rows then
        Settle(sys, batch, id, PublishedRow(sys.rows[id], Clock(sys)))
      else sys
    case Fail(batch, id) =>
      if batch in sys.batches && id in sys.batches[batch].sending && id in sys.rows then
        Settle(sys, batch, id, FailedRow(sys.rows[id], sys.batches[batch].sending[id], Clock(sys), config))
      else sys
    case End(batch) =>
      if batch in sys.batches && sys.batches[batch].waiting == map[] && sys.batches[batch].sending == map[] then
        sys.(locks := JobLock.Next(sys.locks, JobLock.Finish(batch)), batches := sys.batches - {batch})
      else sys
    case Crash(batch) =>
      sys.(locks := JobLock.Next(sys.locks, JobLock.Crash(batch)), batches := sys.batches - {batch})
  }

  function Steps(sys: System, events: seq<Event>, config: Config): System
    decreases |events|
  {
    if events == [] then sys else Steps(Next(sys, events[0], config), events[1..], config)
  }

  function Start(clock: Time): System { System(map[], 0, JobLock.StartAt(clock), map[]) }

  // ---- Safety in every interleaving ---------------------------------------------------------

  predicate Closed(row: Row) { row.publishedAt.Some? || row.deadLetteredAt.Some? }

  /** A row is never both published and dead-lettered, and a closed row has no owner. */
  ghost predicate RowsInv(sys: System) {
    && (forall i :: i in sys.rows ==>
          && i < sys.nextId
          && !(sys.rows[i].publishedAt.Some? && sys.rows[i].deadLetteredAt.Some?)
          && (Closed(sys.rows[i]) ==> sys.rows[i].processingBy == None))
    && JobLock.Inv(sys.locks)
    && (forall b :: b in sys.batches ==> b in sys.locks.running && sys.locks.running[b].job == JOB)
  }

  lemma StepKeepsRows(sys: System, event: Event, config: Config)
    requires RowsInv(sys)
    ensures RowsInv(Next(sys, event, config))
  {
    var locks := Next(sys, event, config).locks;
    match event {
      case Tick(delta) => JobLock.StepKeepsInv(sys.locks, JobLock.Tick(delta));
      case Begin(_, _) => JobLock.StepKeepsInv(sys.locks, JobLock.Start(JOB, config.lockTtl));
      case End(batch) => JobLock.StepKeepsInv(sys.locks, JobLock.Finish(batch));
      case Crash(batch) => JobLock.StepKeepsInv(sys.locks, JobLock.Crash(batch));
      case _ =>
    }
  }

  lemma ClosedRowsRest(sys: System, event: Event, config: Config, id: Id)
    requires RowsInv(sys) && id in sys.rows && Closed(sys.rows[id])
    ensures id in Next(sys, event, config).rows && Next(sys, event, config).rows[id] == sys.rows[id]
  {
  }

  /** Published and dead-lettered are absorbing in every interleaving: such a row never changes again. */
  lemma {:induction false} ClosedRowsNeverChange(sys: System, events: seq<Event>, config: Config, id: Id)
    requires RowsInv(sys) && id in sys.rows && Closed(sys.rows[id])
    ensures id in Steps(sys, events, config).rows && Steps(sys, events, config).rows[id] == sys.rows[id]
    decreases |events|
  {
    if events != [] {
      StepKeepsRows(sys, events[0], config);
      ClosedRowsRest(sys, events[0], config, id);
      ClosedRowsNeverChange(Next(sys, events[0], config), events[1..], config, id);
    }
  }

  lemma {:induction false} PublishedAndDeadLetteredAreDisjoint(sys: System, events: seq<Event>, config: Config)
    requires RowsInv(sys)
    ensures RowsInv(Steps(sys, events, config))
    decreases |events|
  {
    if events != [] {
      StepKeepsRows(sys, events[0], config);
      PublishedAndDeadLetteredAreDisjoint(Next(sys, events[0], config), events[1..], config);
    }
  }

  // ---- Exact counting while batches keep to their time --------------------------------------

  /** No batch outlives its leader lease. */
  ghost predicate BatchesInTime(sys: System) {
    forall b :: b in sys.batches ==> JobLock.InTime(sys.locks, b)
  }

  ghost predicate AlwaysInTime(sys: System, events: seq<Event>, config: Config)
    decreases |events|
  {
    BatchesInTime(sys) && (events == [] || AlwaysInTime(Next(sys, events[0], config), events[1..], config))
  }

  /** An open row has been tried less often than allowed; a dead-lettered one exactly that often. */
  predicate CountFits(row: Row, config: Config) {
    if row.publishedAt.Some? then row.attemptCount <= config.maxAttempts
    else if row.deadLetteredAt.Some? then row.attemptCount == config.maxAttempts
    else row.attemptCount < config.maxAttempts
  }

  /** What a batch remembers of a row it has yet to settle is still the row's count. */
  ghost predicate CountsCurrent(sys: System, b: Batch) {
    && b.waiting.Keys !! b.sending.Keys
    && (forall i :: i in b.waiting ==> i in sys.rows && sys.rows[i].attemptCount == b.waiting[i])
    && (forall i :: i in b.sending ==> i in sys.rows && sys.rows[i].attemptCount == b.sending[i])
  }

  ghost predicate ExactInv(sys: System, config: Config) {
    && RowsInv(sys)
    && (forall i :: i in sys.rows ==> CountFits(sys.rows[i], config))
    && (forall b :: b in sys.batches ==> CountsCurrent(sys, sys.batches[b]))
  }

  lemma OneBatchInTime(sys: System, a: Id, b: Id)
    requires RowsInv(sys) && BatchesInTime(sys) && a in sys.batches && b in sys.batches
    ensures a == b
  {
    assert JobLock.InTime(sys.locks, a) && JobLock.InTime(sys.locks, b);
  }

  /** A batch begins only when no other is open, so its counts are fresh and nobody else will change them. */
  lemma BeginKeepsExact(sys: System, event: Event, config: Config)
    requires ExactInv(sys, config) && BatchesInTime(sys) && event.Begin?
    ensures ExactInv(Next(sys, event, config), config)
  {
    StepKeepsRows(sys, event, config);
    if open :| open in sys.batches {
      assert JobLock.InTime(sys.locks, open);
    }
  }

  lemma ClaimKeepsExact(sys: System, event: Event, config: Config)
    requires ExactInv(sys, config) && event.Claim?
    ensures ExactInv(Next(sys, event, config), config)
  {
    StepKeepsRows(sys, event, config);
  }

  /** The only open batch settles a row whose count it knows. */
  lemma SettleKeepsExact(sys: System, event: Event, config: Config)
    requires ExactInv(sys, config) && BatchesInTime(sys) && (event.Succeed? || event.Fail?)
    ensures ExactInv(Next(sys, event, config), config)
  {
    StepKeepsRows(sys, event, config);
    if event.batch in sys.batches {
      forall b | b in sys.batches ensures b == event.batch {
        OneBatchInTime(sys, event.batch, b);
      }
      assert CountsCurrent(sys, sys.batches[event.batch]);
    }
  }

  lemma StepKeepsExact(sys: System, event: Event, config: Config)
    requires ExactInv(sys, config) && BatchesInTime(sys) && 0 < config.maxAttempts
    ensures ExactInv(Next(sys, event, config), config)
  {
    match event {
      case Begin(_, _) => BeginKeepsExact(sys, event, config);
      case Claim(_, _) => ClaimKeepsExact(sys, event, config);
      case Succeed(_, _) => SettleKeepsExact(sys, event, config);
      case Fail(_, _) => SettleKeepsExact(sys, event, config);
      case _ => StepKeepsRows(sys, event, config);
    }
  }

  /** Does this step write an outcome on the row? */
  predicate Settles(sys: System, event: Event, id: Id) {
    && (event.Succeed? || event.Fail?) && event.id == id
    && event.batch in sys.batches && id in sys.batches[event.batch].sending
    && id in sys.rows && Owned(sys.rows[id], sys.batches[event.batch].worker)
  }

  /** How many failures a run records on the row. */
  function Failures(sys: System, events: seq<Event>, id: Id, config: Config): nat
    decreases |events|
  {
    if events == [] then 0
    else (if events[0].Fail? && Settles(sys, events[0], id) then 1 else 0)
         + Failures(Next(sys, events[0], config), events[1..], id, config)
  }

  /** Every recorded failure raises the count by one, and so does publication, which is final. */
  lemma {:induction false} FailuresAreCounted(sys: System, events: seq<Event>, id: Id, config: Config)
    requires RowsInv(sys) && id in sys.rows
    ensures id in Steps(sys, events, config).rows
    ensures Steps(sys, events, config).rows[id].publishedAt == None ==>
              Steps(sys, events, config).rows[id].attemptCount
                  == sys.rows[id].attemptCount + Failures(sys, events, id, config)
    decreases |events|
  {
    if events != [] {
      var sys' := Next(sys, events[0], config);
      StepKeepsRows(sys, events[0], config);
      if sys'.rows[id].publishedAt.Some? {
        ClosedRowsNeverChange(sys', events[1..], config, id);
      }
      FailuresAreCounted(sys', events[1..], id, config);
    }
  }

  lemma {:induction false} RunKeepsExact(sys: System, events: seq<Event>, config: Config)
    requires ExactInv(sys, config) && AlwaysInTime(sys, events, config) && 0 < config.maxAttempts
    ensures ExactInv(Steps(sys, events, config), config)
    decreases |events|
  {
    if events != [] {
      StepKeepsExact(sys, events[0], config);
      RunKeepsExact(Next(sys, events[0], config), events[1..], config);
    }
  }

  /**
   * While every batch ends or crashes within its leader lease, an unpublished event is
   * dead-lettered exactly when its recorded failures reach the maximum, never before or after.
   */
  lemma DeadLetteredAtExactlyTheMaximum(sys: System, events: seq<Event>, id: Id, config: Config)
    requires ExactInv(sys, config) && AlwaysInTime(sys, events, config) && 0 < config.maxAttempts
    requires id in sys.rows && sys.rows[id].attemptCount == 0
    requires id in Steps(sys, events, config).rows ==> Steps(sys, events, config).rows[id].publishedAt == None
    ensures id in Steps(sys, events, config).rows
    ensures Failures(sys, events, id, config) <= config.maxAttempts
    ensures Steps(sys, events, config).rows[id].deadLetteredAt.Some?
            <==> Failures(sys, events, id, config) == config.maxAttempts
  {
    FailuresAreCounted(sys, events, id, config);
    RunKeepsExact(sys, events, config);
    assert CountFits(Steps(sys, events, config).rows[id], config);
  }

  // ---- Where the guarantee stops ------------------------------------------------------------

  /** Tried as often as allowed, yet neither published nor dead-lettered. */
  predicate Stranded(row: Row, config: Config) { !Closed(row) && config.maxAttempts <= row.attemptCount }

  /** A recorded failure strands its row exactly when the batch's count was stale across the limit. */
  lemma FailureStrandsExactly(sys: System, batch: Id, id: Id, config: Config)
    requires RowsInv(sys) && Settles(sys, Fail(batch, id), id)
    ensures Stranded(Next(sys, Fail(batch, id), config).rows[id], config)
            <==> sys.batches[batch].sending[id] + 1 < config.maxAttempts <= sys.rows[id].attemptCount + 1
  {
  }

  ghost predicate Unattended(sys: System, id: Id) {
    forall b :: b in sys.batches ==> id !in sys.batches[b].waiting && id !in sys.batches[b].sending
  }

  lemma StrandedStays(sys: System, event: Event, id: Id, config: Config)
    requires RowsInv(sys) && id in sys.rows && Stranded(sys.rows[id], config) && Unattended(sys, id)
    ensures id in Next(sys, event, config).rows && Next(sys, event, config).rows[id] == sys.rows[id]
    ensures Unattended(Next(sys, event, config), id)
  {
  }

  /** A stranded row that no batch holds is never touched again: the mail is lost without a dead letter. */
  lemma {:induction false} StrandedForever(sys: System, events: seq<Event>, id: Id, config: Config)
    requires RowsInv(sys) && id in sys.rows && Stranded(sys.rows[id], config) && Unattended(sys, id)
    ensures id in Steps(sys, events, config).rows && Steps(sys, events, config).rows[id] == sys.rows[id]
    decreases |events|
  {
    if events != [] {
      StepKeepsRows(sys, events[0], config);
      StrandedStays(sys, events[0], id, config);
      StrandedForever(Next(sys, events[0], config), events[1..], id, config);
    }
  }

  lemma StepsCons(sys: System, event: Event, rest: seq<Event>, config: Config)
    ensures Steps(sys, [event] + rest, config) == Steps(Next(sys, event, config), rest, config)
  {
    assert ([event] + rest)[1..] == rest;
  }

  const TWO_TRIES := Config(2, 30_000, 5, 60, 30_000)

  /** A batch outlives its leader lease while a second one reads the same count; the first records a failure. */
  lemma OneFailureRecorded() returns (events: seq<Event>, sys: System)
    ensures sys == Steps(Start(0), events, TWO_TRIES)
    ensures 0 in sys.rows && sys.rows[0] == Row(None, None, 1, 35_000, None, None) && Clock(sys) == 30_000
    ensures sys.batches.Keys == {0, 1} && sys.batches[1] == Batch("mail-2", map[0 := 0], map[])
    ensures sys.batches[0].waiting == map[] && sys.batches[0].sending == map[]
  {
    var s1 := Next(Start(0), Append, TWO_TRIES);
    var s2 := Next(s1, Begin("mail-1", {0}), TWO_TRIES);
    assert s2.batches[0] == Batch("mail-1", map[0 := 0], map[]) by { assert s2.locks.nextOwner == 1; }
    var s3 := Next(s2, Tick(30_000), TWO_TRIES);
    var s4 := Next(s3, Begin("mail-2", {0}), TWO_TRIES);
    assert s4.batches[1] == Batch("mail-2", map[0 := 0], map[]);
    var s5 := Next(s4, Claim(0, 0), TWO_TRIES);
    sys := Next(s5, Fail(0, 0), TWO_TRIES);
    assert sys.rows[0] == Row(None, None, 1, 35_000, None, None) by { assert RetryDelay(0, TWO_TRIES) == 5_000; }
    var r5 := [Fail(0, 0)] + [];
    var r4 := [Claim(0, 0)] + r5;
    var r3 := [Begin("mail-2", {0})] + r4;
    var r2 := [Tick(30_000)] + r3;
    var r1 := [Begin("mail-1", {0})] + r2;
    events := [Append] + r1;
    StepsCons(Start(0), Append, r1, TWO_TRIES);
    StepsCons(s1, Begin("mail-1", {0}), r2, TWO_TRIES);
    StepsCons(s2, Tick(30_000), r3, TWO_TRIES);
    StepsCons(s3, Begin("mail-2", {0}), r4, TWO_TRIES);
    StepsCons(s4, Claim(0, 0), r5, TWO_TRIES);
    StepsCons(s5, Fail(0, 0), [], TWO_TRIES);
  }

  lemma {:induction false} StepsConcat(sys: System, first: seq<Event>, rest: seq<Event>, config: Config)
    ensures Steps(sys, first + rest, config) == Steps(Steps(sys, first, config), rest, config)
    decreases |first|
  {
    if first == [] {
      assert first + rest == rest;
    } else {
      assert (first + rest)[1..] == first[1..] + rest;
      StepsConcat(Next(sys, first[0], config), first[1..], rest, config);
    }
  }

  /** Such a run exists: the second batch then records its failure from the count it read before. */
  lemma OverrunStrands() returns (events: seq<Event>)
    ensures var sys := Steps(Start(0), events, TWO_TRIES);
            0 in sys.rows && Stranded(sys.rows[0], TWO_TRIES) && Unattended(sys, 0)
  {
    var first, s6 := OneFailureRecorded();
    var s7 := Next(s6, Tick(5_000), TWO_TRIES);
    var s8 := Next(s7, Claim(1, 0), TWO_TRIES);
    var s9 := Next(s8, Fail(1, 0), TWO_TRIES);
    assert Stranded(s9.rows[0], TWO_TRIES);
    var r8 := [Fail(1, 0)] + [];
    var r7 := [Claim(1, 0)] + r8;
    var r6 := [Tick(5_000)] + r7;
    StepsCons(s6, Tick(5_000), r7, TWO_TRIES);
    StepsCons(s7, Claim(1, 0), r8, TWO_TRIES);
    StepsCons(s8, Fail(1, 0), [], TWO_TRIES);
    StepsConcat(Start(0), first, r6, TWO_TRIES);
    events := first + r6;
  }
}
