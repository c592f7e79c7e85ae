/**
 * Claiming an idempotency key: look for the record, create it, and look again when somebody else
 * created it first. Other claims, completions and the purge of expired records run in between.
 */
module Idempotency {
  import opened Common

  datatype Key = Key(scope: string, key: string)

  /** A record is COMPLETED exactly when it has a response. */
  datatype Record = Record(id: Id, digest: string, expiresAt: Time, response: Option<string>)

  datatype Claim = Claim(key: Key, digest: string, expiresAt: Time)

  datatype Outcome =
    | Claimed(id: Id)
    | Replay(id: Id, response: Option<string>)
    | Conflict
    | Invalid
    | Gone

  type Records = map<Key, Record>

  predicate Between(s: string, least: nat, most: nat) { least <= |s| <= most }

  predicate LowerOrDigit(c: char) { 'a' <= c <= 'z' || '0' <= c <= '9' }

  /** What the service demands of a claim before it looks at any record. */
  predicate Valid(c: Claim, now: Time) {
    && Between(c.key.scope, 1, 80) && (forall x :: x in c.key.scope ==> LowerOrDigit(x) || x in "._:-")
    && Between(c.key.key, 8, 200)
    && Between(c.digest, 32, 128) && (forall x :: x in c.digest ==> LowerOrDigit(x) || 'A' <= x <= 'Z' || x in "_-")
    && now < c.expiresAt
  }

  function Resolved(existing: Record, digest: string): Outcome {
    if existing.digest != digest then Conflict else Replay(existing.id, existing.response)
  }

  function Created(records: Records, c: Claim, id: Id): Records
  {
    records[c.key := Record(id, c.digest, c.expiresAt, None)]
  }

  predicate CanComplete(records: Records, key: Key, id: Id, digest: string) {
    key in records && records[key].id == id && records[key].digest == digest && records[key].response == None
  }

  function Completed(records: Records, key: Key, response: string): Records
    requires key in records
  {
    records[key := records[key].(response := Some(response))]
  }

  /** Deletes by key of the row, whatever was selected before. */
  function Purged(records: Records, ids: set<Id>): Records
  {
    map k | k in records && records[k].id !in ids :: records[k]
  }

  // ---- Interleaved claims -------------------------------------------------------------------

  datatype Call = Missed(claim: Claim) | Raced(claim: Claim)

  /** `purges` hold the rows each purge has selected and not yet deleted. */
  datatype System = System(records: Records, clock: Time, calls: map<Id, Call>, purges: map<Id, set<Id>>, nextId: Id)

  datatype Event =
    | Tick(delta: nat)
    | Find(call: Id, claim: Claim)
    | Create(call: Id)
    | Reread(call: Id)
    | Complete(key: Key, id: Id, digest: string, response: string)
    | Select(purge: Id, ids: set<Id>)
    | Delete(purge: Id)
    | Crash(call: Id)

  predicate Creates(sys: System, event: Event) {
    && event.Create? && event.call in sys.calls && sys.calls[event.call].Missed?
    && sys.calls[event.call].claim.key !in sys.records
  }

  predicate Completes(sys: System, event: Event)
  {
    event.Complete? && CanComplete(sys.records, event.key, event.id, event.digest)
  }

  predicate Expired(sys: System, id: Id) {
    exists k :: k in sys.records && sys.records[k].id == id && sys.records[k].expiresAt <= sys.clock
  }

  /** The answer a step gives to the claim it ends, if it ends one. */
  function OutcomeOf(sys: System, event: Event): Option<Outcome> {
    match event
    case Find(_, claim) =>
      if !Valid(claim, sys.clock) then Some(Invalid)
      else if claim.key in sys.records then Some(Resolved(sys.records[claim.key], claim.digest))
      else None
    case Create(_) => if Creates(sys, event) then Some(Claimed(sys.nextId)) else None
    case Reread(call) =>
      if call in sys.calls && sys.calls[call].Raced? then
        var claim := sys.calls[call].claim;
        if claim.key in sys.records then Some(Resolved(sys.records[claim.key], claim.digest)) else Some(Gone)
      else None
    case _ => None
  }

  /** One step; an event that is not enabled changes nothing. */
  function Next(sys: System, event: Event): System {
    match event
    case Tick(delta) => sys.(clock := sys.clock + delta)
    case Find(call, claim) =>
      if call !in sys.calls && OutcomeOf(sys, event) == None then sys.(calls := sys.calls[call := Missed(claim)])
      else sys
    case Create(call) =>
      if Creates(sys, event) then
        sys.(records := Created(sys.records, sys.calls[call].claim, sys.nextId), nextId := sys.nextId + 1,
             calls := sys.calls - {call})
      else if call in sys.calls then sys.(calls := sys.calls[call := Raced(sys.calls[call].claim)])
      else sys
    case Reread(call) => if call in sys.calls && sys.calls[call].Raced? then sys.(calls := sys.calls - {call}) else sys
    case Complete(key, _, _, response) =>
      if Completes(sys, event) then sys.(records := Completed(sys.records, key, response)) else sys
    case Select(purge, ids) =>
      if purge !in sys.purges && (forall i :: i in ids ==> Expired(sys, i))
          then sys.(purges := sys.purges[purge := ids]) else sys
    case Delete(purge) =>
      if purge in sys.purges
          then sys.(records := Purged(sys.records, sys.purges[purge]), purges := sys.purges - {purge}) else sys
    case Crash(call) => sys.(calls := sys.calls - {call})
  }

  function Steps(sys: System, events: seq<Event>): System
    decreases |events|
  {
    if events == [] then sys else Steps(Next(sys, events[0]), events[1..])
  }

  /** Row keys are never reused, and a selected row is still expired when it is deleted. */
  ghost predicate Inv(sys: System) {
    && RowsInv(sys)
    && (forall p, i | p in sys.purges && i in sys.purges[p] :: i < sys.nextId)
    && (forall p, k | p in sys.purges && k in sys.records :: sys.records[k].id in sys.purges[p] ==>
         sys.records[k].expiresAt <= sys.clock)
  }

  ghost predicate RowsInv(sys: System) {
    && (forall k :: k in sys.records ==> sys.records[k].id < sys.nextId)
    && (forall k, l :: k in sys.records && l in sys.records && sys.records[k].id == sys.records[l].id ==> k == l)
  }

  lemma StepKeepsRows(sys: System, event: Event)
    requires RowsInv(sys)
    ensures RowsInv(Next(sys, event))
    ensures sys.nextId <= Next(sys, event).nextId && sys.clock <= Next(sys, event).clock
  {
  }

  /** A row keeps its key and its expiry; a new one has a key that no purge holds. */
  lemma RecordsMove(sys: System, event: Event, k: Key)
    requires k in Next(sys, event).records
    ensures var r := Next(sys, event).records[k];
            || (k in sys.records && SameRow(sys.records[k], r))
            || (r.id == sys.nextId && Next(sys, event).purges == sys.purges)
  {
  }

  lemma StepKeepsInv(sys: System, event: Event)
    requires Inv(sys)
    ensures Inv(Next(sys, event)) && sys.clock <= Next(sys, event).clock
  {
    var sys' := Next(sys, event);
    StepKeepsRows(sys, event);
    forall p, k | p in sys'.purges && k in sys'.records && sys'.records[k].id in sys'.purges[p]
      ensures sys'.records[k].expiresAt <= sys'.clock
    {
      RecordsMove(sys, event, k);
      PurgesMove(sys, event, p);
      if p !in sys.purges { assert Expired(sys, sys'.records[k].id); }
    }
    forall p, i | p in sys'.purges && i in sys'.purges[p] ensures i < sys'.nextId {
      PurgesMove(sys, event, p);
    }
  }

  /** A purge keeps what it selected, and selects only what has expired. */
  lemma PurgesMove(sys: System, event: Event, p: Id)
    requires p in Next(sys, event).purges
    ensures || (p in sys.purges && Next(sys, event).purges[p] == sys.purges[p])
            || (p !in sys.purges && Next(sys, event).records == sys.records && Next(sys, event).clock == sys.clock
                && forall i :: i in Next(sys, event).purges[p] ==> Expired(sys, i))
  {
  }

  predicate ClaimsKey(sys: System, event: Event, key: Key)
  {
    Creates(sys, event) && sys.calls[event.call].claim.key == key
  }

  /** How many claims of the key a run grants. */
  function Grants(sys: System, events: seq<Event>, key: Key): nat
    decreases |events|
  {
    if events == [] then 0
    else (if ClaimsKey(sys, events[0], key) then 1 else 0) + Grants(Next(sys, events[0]), events[1..], key)
  }

  /** How many times a run purges the key's record. */
  function Purges(sys: System, events: seq<Event>, key: Key): nat
    decreases |events|
  {
    if events == [] then 0
    else (if key in sys.records
             && key !in Next(sys, events[0]).records then 1 else 0)
         + Purges(Next(sys, events[0]), events[1..], key)
  }

  function Present(sys: System, key: Key): nat { if key in sys.records then 1 else 0 }

  /**
   * Claims granted and purges of a key balance: between two purges exactly one claim is granted,
   * however many race for it.
   */
  lemma {:induction false} GrantsBalancePurges(sys: System, events: seq<Event>, key: Key)
    ensures Present(sys, key) + Grants(sys, events, key) == Purges(sys, events, key) + Present(Steps(sys, events), key)
    decreases |events|
  {
    if events != [] {
      GrantsBalancePurges(Next(sys, events[0]), events[1..], key);
    }
  }

  /** An unexpired record keeps its row, and nobody else is granted its key. */
  lemma StepKeepsRecord(sys: System, event: Event, key: Key)
    requires Inv(sys) && key in sys.records && sys.clock < sys.records[key].expiresAt
    ensures key in Next(sys, event).records && SameRow(sys.records[key], Next(sys, event).records[key])
    ensures !ClaimsKey(sys, event, key)
  {
  }

  predicate SameRow(a: Record, b: Record) { a.id == b.id && a.digest == b.digest && a.expiresAt == b.expiresAt }

  /** Until its record expires, a granted claim is the only one for its key, and its row stays. */
  lemma {:induction false} NoSecondGrantBeforeExpiry(sys: System, events: seq<Event>, key: Key)
    requires Inv(sys) && key in sys.records && Steps(sys, events).clock < sys.records[key].expiresAt
    ensures Grants(sys, events, key) == 0
    ensures key in Steps(sys, events).records && SameRow(sys.records[key], Steps(sys, events).records[key])
    decreases |events|
  {
    if events != [] {
      ClockGrows(sys, events);
      StepKeepsRecord(sys, events[0], key);
      StepKeepsInv(sys, events[0]);
      NoSecondGrantBeforeExpiry(Next(sys, events[0]), events[1..], key);
    }
  }

  lemma {:induction false} ClockGrows(sys: System, events: seq<Event>)
    ensures sys.clock <= Steps(sys, events).clock
    decreases |events|
  {
    if events != [] { ClockGrows(Next(sys, events[0]), events[1..]); }
  }

  /** How many completions of the row a run records. */
  function Completions(sys: System, events: seq<Event>, id: Id): nat
    decreases |events|
  {
    if events == [] then 0
    else (if Completes(sys, events[0])
             && events[0].id == id then 1 else 0)
         + Completions(Next(sys, events[0]), events[1..], id)
  }

  /** The row exists without a response. */
  ghost predicate Unanswered(sys: System, id: Id) {
    id >= sys.nextId || exists k :: k in sys.records && sys.records[k].id == id && sys.records[k].response == None
  }

  /** A response is stored exactly for the unanswered row of that key, id and body; nothing else changes. */
  lemma CompletesExactly(sys: System, key: Key, id: Id, digest: string, response: string)
    ensures Next(sys, Complete(key, id, digest, response)) ==
            if key in sys.records && sys.records[key].id == id && sys.records[key].digest == digest
               && sys.records[key].response == None
            then sys.(records := sys.records[key := sys.records[key].(response := Some(response))])
            else sys
  {
  }

  lemma AnsweredStays(sys: System, event: Event, id: Id)
    requires Inv(sys)
    ensures !Unanswered(sys, id) ==> !Unanswered(Next(sys, event), id)
    ensures Completes(sys, event) && event.id == id ==> Unanswered(sys, id) && !Unanswered(Next(sys, event), id)
  {
  }

  /** A row is completed at most once, and never once it has been answered or purged. */
  lemma {:induction false} CompletedAtMostOnce(sys: System, events: seq<Event>, id: Id)
    requires Inv(sys)
    ensures Completions(sys, events, id) <= if Unanswered(sys, id) then 1 else 0
    decreases |events|
  {
    if events != [] {
      StepKeepsInv(sys, events[0]);
      AnsweredStays(sys, events[0], id);
      CompletedAtMostOnce(Next(sys, events[0]), events[1..], id);
    }
  }

  /**
   * After a grant and any run, whoever claims the key before the record expires is told: the same
   * body, of this row and of nothing but the response stored for it; another body, a conflict.
   */
  lemma LaterClaimsReplay(sys: System, call: Id, events: seq<Event>, again: Event)
    requires Inv(sys) && Creates(sys, Create(call)) && again.Find?
    requires var c, last := sys.calls[call].claim, Steps(Next(sys, Create(call)), events);
             again.claim.key == c.key && Valid(again.claim, last.clock) && last.clock < c.expiresAt
    ensures var c, last := sys.calls[call].claim, Steps(Next(sys, Create(call)), events);
            c.key in last.records
            && OutcomeOf(last, again)
                 == Some(if again.claim.digest == c.digest then Replay(sys.nextId, last.records[c.key].response)
                     else Conflict)
  {
    var c, sys' := sys.calls[call].claim, Next(sys, Create(call));
    StepKeepsInv(sys, Create(call));
    NoSecondGrantBeforeExpiry(sys', events, c.key);
  }

  // ---- The service --------------------------------------------------------------------------

  class IdempotencyService {
    var records: Records
    var nextId: Id

    constructor ()
      ensures records == map[] && nextId == 0
    {
      records, nextId := map[], 0;
    }

    /** Other claims, completions and purges between two queries of this one. */
    method Interference(ghost quiet: bool)
      modifies this
      ensures old(nextId) <= nextId
      ensures quiet ==> records == old(records) && nextId == old(nextId)
    {
    }

    /** Find, create, and find again when the creation met a record. `found` is what the deciding query saw. */
    method ClaimKey(c: Claim, now: Time, ghost quiet: bool) returns (outcome: Outcome, ghost found: Records)
      modifies this
      ensures outcome.Invalid? <==>
                !(now < c.expiresAt && 1 <= |c.key.scope| <= 80 && 8 <= |c.key.key| <= 200 && 32 <= |c.digest| <= 128
                  && (forall x :: x in c.key.scope ==> 'a' <= x <= 'z' || '0' <= x <= '9' || x in {'.', '_', ':', '-'})
                  && (forall x :: x in c.digest ==>
                        'A' <= x <= 'Z' || 'a' <= x <= 'z' || '0' <= x <= '9' || x in {'_', '-'}))
      ensures outcome.Invalid? ==> records == old(records) && nextId == old(nextId)
      ensures outcome.Claimed? ==>
              && old(nextId) <= outcome.id && c.key !in found
              && records == found[c.key := Record(outcome.id, c.digest, c.expiresAt, None)]
      ensures outcome.Replay? || outcome.Conflict? ==>
              && c.key in found && records == found
              && outcome == if found[c.key].digest == c.digest then Replay(found[c.key].id, found[c.key].response)
                   else Conflict
      ensures outcome.Gone? ==> c.key !in found && records == found
      ensures !outcome.Invalid? && c.key in old(records) ==> found == old(records) && !outcome.Claimed?
      ensures quiet && !outcome.Invalid? && c.key !in old(records) ==> outcome == Claimed(old(nextId))
    {
      found := records;
      if !Valid(c, now) { return Invalid, found; }
      if c.key in records { return Resolved(records[c.key], c.digest), found; }
      Interference(quiet);
      found := records;
      if c.key !in records {
        outcome := Claimed(nextId);
        records := Created(records, c, nextId);
        nextId := nextId + 1;
        return outcome, found;
      }
      Interference(quiet);
      found := records;
      if c.key !in records { return Gone, found; }
      return Resolved(records[c.key], c.digest), found;
    }

    /** One guarded update; tells whether it stored the response. */
    method CompleteRecord(key: Key, id: Id, digest: string, response: string) returns (stored: bool)
      modifies this`records
      ensures stored <==> CanComplete(old(records), key, id, digest)
      ensures records == if stored then Completed(old(records), key, response) else old(records)
    {
      stored := key in records && records[key].id == id && records[key].digest == digest
          && records[key].response == None;
      if stored { records := records[key := records[key].(response := Some(response))]; }
    }
  }
}
