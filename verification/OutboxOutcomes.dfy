/**
 * Dispatch by the fields of the rows: which rows a batch selects and claims, what a delivery or a
 * failure leaves, and how long a failed event then rests.
 */
module OutboxOutcomes {
  import opened Common
  import opened Outbox
  import JobLock

  /** Neither published nor dead-lettered, its date come, and nobody's lease on it running. */
  predicate Free(row: Row, now: Time, config: Config) {
    && row.publishedAt == None && row.deadLetteredAt == None && row.nextAttemptAt <= now
    && (row.processingStartedAt == None || row.processingStartedAt.value <= now - config.lease)
  }

  lemma FreeIsClaimable(row: Row, now: Time, config: Config)
    ensures Claimable(row, now, config) <==> Free(row, now, config)
  {
  }

  /** A batch is opened exactly while no leader lease runs, on rows that are free and have attempts left. */
  lemma BeginsExactly(sys: System, worker: string, chosen: set<Id>, config: Config)
    requires chosen <= sys.rows.Keys
    ensures var done := Next(sys, Begin(worker, chosen), config);
            if (JOB !in sys.locks.table || sys.locks.table[JOB].expiresAt <= sys.locks.clock)
               && (forall i :: i in chosen ==>
                     Free(sys.rows[i], sys.locks.clock, config) && sys.rows[i].attemptCount < config.maxAttempts)
            then
              && done.rows == sys.rows && JOB in done.locks.table
              && done.locks.table[JOB].expiresAt == sys.locks.clock + config.lockTtl
              && sys.locks.nextOwner in done.batches
              && done.batches[sys.locks.nextOwner]
                   == Batch(worker, map i | i in chosen :: sys.rows[i].attemptCount, map[])
            else done == sys
  {
  }

  /** A row that waits in a batch is claimed exactly when it is free at that moment; otherwise it stays as it is. */
  lemma ClaimsExactly(sys: System, batch: Id, id: Id, config: Config)
    requires batch in sys.batches && id in sys.batches[batch].waiting && id in sys.rows
    ensures var done, now := Next(sys, Claim(batch, id), config), sys.locks.clock;
            && batch in done.batches && id !in done.batches[batch].waiting
            && if Free(sys.rows[id], now, config)
               then done.rows == sys.rows[id := sys.rows[id].(
                      processingStartedAt := Some(now), processingBy := Some(sys.batches[batch].worker))]
                    && id in done.batches[batch].sending
                    && done.batches[batch].sending[id] == sys.batches[batch].waiting[id]
               else done.rows == sys.rows && done.batches[batch].sending == sys.batches[batch].sending
  {
  }

  /** The seconds an event rests after a failure: the base doubled for each of up to ten attempts, up to the maximum. */
  function Rest(seen: nat, config: Config): nat {
    Min(config.retryMax, config.retryBase * Pow2(Min(seen, 10)))
  }

  /**
   * What the failed row becomes: one more attempt, rested, free, and dead-lettered when the count
   * read was the last.
   */
  predicate FailureRecorded(before: Row, after: Row, seen: nat, now: Time, config: Config) {
    && after.attemptCount == before.attemptCount + 1
    && after.nextAttemptAt == now + Rest(seen, config) * 1_000
    && after.processingStartedAt == None && after.processingBy == None
    && after.publishedAt == before.publishedAt
    && after.deadLetteredAt == if seen + 1 >= config.maxAttempts then Some(now) else before.deadLetteredAt
  }

  predicate DeliveryRecorded(before: Row, after: Row, now: Time) {
    after == before.(publishedAt := Some(now), attemptCount := before.attemptCount + 1,
                     processingStartedAt := None, processingBy := None)
  }

  /** Both outcomes are recorded exactly when the row is unpublished and still the worker's. */
  lemma OutcomesExactly(sys: System, batch: Id, id: Id, config: Config)
    requires batch in sys.batches && id in sys.batches[batch].sending && id in sys.rows
    ensures var row, b := sys.rows[id], sys.batches[batch];
            var failed, sent := Next(sys, Fail(batch, id), config).rows, Next(sys, Succeed(batch, id), config).rows;
            if row.publishedAt == None && row.processingBy == Some(b.worker)
            then id in failed && failed == sys.rows[id := failed[id]] && id in sent && sent == sys.rows[id := sent[id]]
                 && FailureRecorded(row, failed[id], b.sending[id], sys.locks.clock, config)
                 && DeliveryRecorded(row, sent[id], sys.locks.clock)
            else failed == sys.rows && sent == sys.rows
  {
    RestInMilliseconds(sys.batches[batch].sending[id], config);
  }

  lemma RestInMilliseconds(seen: nat, config: Config)
    ensures RetryDelay(seen, config) == Rest(seen, config) * 1_000
  {
  }

  /** The row rests until `date`, unclaimed, or that date has come. */
  ghost predicate Rests(sys: System, id: Id, date: Time) {
    && id in sys.rows
    && (date <= sys.locks.clock || (sys.rows[id].processingBy == None && date <= sys.rows[id].nextAttemptAt))
  }

  lemma RestsOn(sys: System, event: Event, id: Id, date: Time, config: Config)
    requires Rests(sys, id, date) && id < sys.nextId
    ensures Rests(Next(sys, event, config), id, date) && id < Next(sys, event, config).nextId
  {
  }

  lemma {:induction false} RestsThroughout(sys: System, events: seq<Event>, id: Id, date: Time, config: Config)
    requires Rests(sys, id, date) && id < sys.nextId
    ensures Rests(Steps(sys, events, config), id, date)
    decreases |events|
  {
    if events != [] {
      RestsOn(sys, events[0], id, date, config);
      RestsThroughout(Next(sys, events[0], config), events[1..], id, date, config);
    }
  }

  /**
   * In every run, leases lapsed and batches crashed or not: between a recorded failure of an event
   * and any later claim of it, at least its rest passes.
   */
  lemma BackoffIsObeyed(sys: System, batch: Id, id: Id, later: seq<Event>, again: Id, config: Config)
    requires batch in sys.batches && id in sys.batches[batch].sending && id in sys.rows && id < sys.nextId
    requires Next(sys, Fail(batch, id), config).rows != sys.rows
    requires var last := Steps(Next(sys, Fail(batch, id), config), later, config);
             Next(last, Claim(again, id), config).rows != last.rows
    ensures sys.locks.clock + Rest(sys.batches[batch].sending[id], config) * 1_000
            <= Steps(Next(sys, Fail(batch, id), config), later, config).locks.clock
  {
    var date := sys.locks.clock + Rest(sys.batches[batch].sending[id], config) * 1_000;
    OutcomesExactly(sys, batch, id, config);
    RestsThroughout(Next(sys, Fail(batch, id), config), later, id, date, config);
  }
}
