/** One dispatch pass as the worker performs it: chunks of events, a claim, a send and a final update for each. */
module OutboxWorker {
  import opened Common
  import opened Outbox
  import O = OutboxOutcomes

  /** What the batch query returned of a row, and how its delivery turns out. */
  datatype Job = Job(id: Id, seen: nat, delivered: bool, claimedAt: Time, settledAt: Time)

  ghost predicate Distinct(jobs: seq<Job>) {
    forall i, j | 0 <= i < |jobs| && 0 <= j < |jobs| :: jobs[i].id == jobs[j].id ==> i == j
  }

  predicate Takes(rows: map<Id, Row>, job: Job, config: Config) {
    job.id in rows && Claimable(rows[job.id], job.claimedAt, config)
  }

  /** The row after its job: untouched when the claim fails, else published or failed. */
  function Outcome(row: Row, job: Job, worker: string, config: Config): Row {
    if !Claimable(row, job.claimedAt, config) then row
    else if job.delivered then PublishedRow(ClaimedRow(row, worker, job.claimedAt), job.settledAt)
    else FailedRow(ClaimedRow(row, worker, job.claimedAt), job.seen, job.settledAt, config)
  }

  /** How many of the first jobs are claimed and delivered. */
  function Delivered(rows: map<Id, Row>, jobs: seq<Job>, config: Config): nat {
    if jobs == [] then 0
    else Delivered(rows, jobs[..|jobs| - 1], config)
         + (if Takes(rows, jobs[|jobs| - 1], config) && jobs[|jobs| - 1].delivered then 1 else 0)
  }

  class MailOutboxWorker {
    var rows: map<Id, Row>
    var dispatching: bool
    const worker: string

    constructor (worker: string)
      ensures this.worker == worker && rows == map[] && !dispatching
    {
      this.worker, rows, dispatching := worker, map[], false;
    }

    /** Claim, send, and one final update guarded by ownership; a failed send is recorded, not raised. */
    method DispatchEvent(job: Job, config: Config) returns (published: bool)
      modifies this`rows
      ensures published <==>
                job.id in old(rows) && O.Free(old(rows)[job.id], job.claimedAt, config) && job.delivered
      ensures job.id !in old(rows) || !O.Free(old(rows)[job.id], job.claimedAt, config) ==> rows == old(rows)
      ensures job.id in old(rows) && O.Free(old(rows)[job.id], job.claimedAt, config) ==>
                && job.id in rows && rows == old(rows)[job.id := rows[job.id]]
                && if job.delivered then O.DeliveryRecorded(old(rows)[job.id], rows[job.id], job.settledAt)
                   else O.FailureRecorded(old(rows)[job.id], rows[job.id], job.seen, job.settledAt, config)
      ensures rows == if job.id in old(rows)
              then old(rows)[job.id := Outcome(old(rows)[job.id], job, worker, config)] else old(rows)
    {
      if job.id in rows { DispatchedByFields(rows[job.id], job, worker, config); }
      if job.id !in rows || !Claimable(rows[job.id], job.claimedAt, config) {
        return false;
      }
      rows := rows[job.id := rows[job.id].(processingStartedAt := Some(job.claimedAt), processingBy := Some(worker))];
      var row := rows[job.id];
      if job.delivered {
        if row.publishedAt == None && row.processingBy == Some(worker) {
          rows := rows[job.id := PublishedRow(row, job.settledAt)];
        }
        return true;
      }
      if row.publishedAt == None && row.processingBy == Some(worker) {
        rows := rows[job.id := FailedRow(row, job.seen, job.settledAt, config)];
      }
      return false;
    }

    /** One chunk of the pass; `before` are the rows the pass began with. */
    method DispatchChunk(jobs: seq<Job>, offset: nat, end: nat, ghost before: map<Id, Row>, config: Config)
      returns (published: nat)
      requires offset <= end <= |jobs| && Distinct(jobs) && Passed(before, rows, jobs, offset, worker, config)
      modifies this`rows
      ensures Passed(before, rows, jobs, end, worker, config)
      ensures Delivered(before, jobs[..offset], config) + published == Delivered(before, jobs[..end], config)
    {
      published := 0;
      var next := offset;
      while next < end
        invariant offset <= next <= end
        invariant Passed(before, rows, jobs, next, worker, config)
        invariant Delivered(before, jobs[..offset], config) + published == Delivered(before, jobs[..next], config)
      {
        DeliveredOne(before, jobs, next, config);
        PassedOne(before, rows, jobs, next, worker, config);
        var ok := DispatchEvent(jobs[next], config);
        if ok { published := published + 1; }
        next := next + 1;
      }
    }

    /** The pass over the selected events, in chunks of the configured concurrency. */
    method DispatchAvailableEvents(jobs: seq<Job>, concurrency: nat, config: Config) returns (published: nat)
      requires concurrency >= 1 && Distinct(jobs)
      modifies this`rows
      ensures published == Delivered(old(rows), jobs, config)
      ensures Passed(old(rows), rows, jobs, |jobs|, worker, config)
    {
      published := 0;
      var offset := 0;
      while offset < |jobs|
        invariant 0 <= offset <= |jobs|
        invariant Passed(old(rows), rows, jobs, offset, worker, config)
        invariant published == Delivered(old(rows), jobs[..offset], config)
      {
        var end := Min(offset + concurrency, |jobs|);
        var delivered := DispatchChunk(jobs, offset, end, old(rows), config);
        published := published + delivered;
        offset := end;
      }
      assert jobs[..offset] == jobs;
    }

    /** A second call while one is running returns at once and touches nothing; the flag is always given back. */
    method DispatchBatch(jobs: seq<Job>, concurrency: nat, leader: bool, config: Config) returns (published: nat)
      requires concurrency >= 1 && Distinct(jobs)
      modifies this
      ensures dispatching == old(dispatching)
      ensures old(dispatching) || !leader ==> published == 0 && rows == old(rows)
      ensures !old(dispatching) && leader ==>
                published == Delivered(old(rows), jobs, config) && Passed(old(rows), rows, jobs, |jobs|, worker, config)
    {
      if dispatching { return 0; }
      dispatching := true;
      published := 0;
      if leader {
        published := DispatchAvailableEvents(jobs, concurrency, config);
      }
      dispatching := false;
    }
  }

  /** The first `n` jobs have had their outcome; every other row is as it was. */
  ghost predicate Passed(before: map<Id, Row>, after: map<Id, Row>, jobs: seq<Job>, n: nat, worker: string,
                         config: Config)
    requires n <= |jobs|
  {
    && after.Keys == before.Keys
    && (forall k :: 0 <= k < n && jobs[k].id in before ==>
          after[jobs[k].id] == Outcome(before[jobs[k].id], jobs[k], worker, config))
    && (forall i :: i in before && (forall k :: 0 <= k < n ==> jobs[k].id != i) ==> after[i] == before[i])
  }

  lemma DispatchedByFields(row: Row, job: Job, worker: string, config: Config)
    ensures var after := Outcome(row, job, worker, config);
            if !O.Free(row, job.claimedAt, config) then after == row
            else if job.delivered then O.DeliveryRecorded(row, after, job.settledAt)
            else O.FailureRecorded(row, after, job.seen, job.settledAt, config)
    ensures Claimable(row, job.claimedAt, config) <==> O.Free(row, job.claimedAt, config)
  {
    O.RestInMilliseconds(job.seen, config);
  }

  lemma DeliveredOne(rows: map<Id, Row>, jobs: seq<Job>, n: nat, config: Config)
    requires n < |jobs|
    ensures Delivered(rows, jobs[..n + 1], config)
            == Delivered(rows, jobs[..n], config) + (if Takes(rows, jobs[n], config) && jobs[n].delivered then 1 else 0)
  {
    assert jobs[..n + 1][..n] == jobs[..n];
  }

  /** One more job, met by a row that no earlier job has touched. */
  lemma PassedOne(before: map<Id, Row>, rows: map<Id, Row>, jobs: seq<Job>, n: nat, worker: string, config: Config)
    requires n < |jobs| && Distinct(jobs) && Passed(before, rows, jobs, n, worker, config)
    ensures Takes(rows, jobs[n], config) <==> Takes(before, jobs[n], config)
    ensures var after :=
              if jobs[n].id !in rows then rows
              else rows[jobs[n].id := Outcome(rows[jobs[n].id], jobs[n], worker, config)];
            Passed(before, after, jobs, n + 1, worker, config)
  {
    assert forall k :: 0 <= k < n ==> jobs[k].id != jobs[n].id;
  }

  /** Every claimed event leaves the pass unowned, one attempt richer, and published, dead-lettered or rescheduled. */
  lemma OutcomeSettles(row: Row, job: Job, worker: string, config: Config)
    requires O.Free(row, job.claimedAt, config)
    ensures var after := Outcome(row, job, worker, config);
            && after.attemptCount == row.attemptCount + 1
            && after.processingBy == None && after.processingStartedAt == None
            && (after.publishedAt.Some? <==> job.delivered)
            && (after.deadLetteredAt.Some? <==> !job.delivered && config.maxAttempts <= job.seen + 1)
            && (!job.delivered ==> job.settledAt <= after.nextAttemptAt <= job.settledAt + config.retryMax * 1_000)
  {
  }

  lemma {:induction false} Pow2Grows(a: nat, b: nat)
    requires a <= b
    ensures 1 <= Pow2(a) <= Pow2(b)
  {
    if b > a {
      Pow2Grows(a, b - 1);
    } else if a > 0 {
      Pow2Grows(a - 1, a - 1);
    }
  }

  lemma ProductGrows(base: nat, low: nat, high: nat)
    requires low <= high
    ensures base * low <= base * high
  {
  }

  /** Backoff never shrinks from one recorded failure to the next, and never exceeds its ceiling. */
  lemma BackoffGrows(a: nat, b: nat, config: Config)
    requires a <= b
    ensures RetryDelay(a, config) <= RetryDelay(b, config) <= config.retryMax * 1_000
  {
    var x: nat, y: nat := if a < 10 then a else 10, if b < 10 then b else 10;
    Pow2Grows(x, y);
    ProductGrows(config.retryBase, Pow2(x), Pow2(y));
    CappedDelay(a, x, config);
    CappedDelay(b, y, config);
  }

  lemma CappedDelay(n: nat, x: nat, config: Config)
    requires x == if n < 10 then n else 10
    ensures RetryDelay(n, config) == Min(config.retryMax, config.retryBase * Pow2(x)) * 1_000
  {
  }
}
