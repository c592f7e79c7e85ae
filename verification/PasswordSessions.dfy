/**
 * Which sessions outlive a password write: none that existed, and of those opened later the ones
 * whose login had verified the replaced hash are exactly those whose read came before the write.
 */
module PasswordSessions {
  import opened Common
  import opened PasswordRows
  import opened PasswordProtocol
  import I = SessionInvariant
  import S = SessionRows

  function StoredNow(sys: System, userId: Id): set<Hash> {
    if userId in sys.db.credentials then {sys.db.credentials[userId]} else {}
  }

  /** Every hash stored for the user from here to the end of the run. */
  function StoredSince(sys: System, events: seq<Event>, userId: Id): set<Hash>
    decreases |events|
  {
    StoredNow(sys, userId) + if events == [] then {} else StoredSince(Next(sys, events[0]), events[1..], userId)
  }

  lemma StepKeepsUsers(sys: System, event: Event, userId: Id)
    requires SystemInv(sys) && userId in sys.db.credentials
    ensures userId in Next(sys, event).db.credentials
  {
    if event.Commit? && event.call in sys.calls { CommitKeepsOwners(sys.db, sys.calls[event.call], event); }
  }

  /** Verified before the write: overwritten for good. Verified since: one of the hashes stored since. */
  ghost predicate Rests(sys: System, userId: Id, hash: Hash, order: nat, from: nat, since: set<Hash>) {
    if order < from then Overwritten(sys, userId, hash) && hash !in since else hash in since
  }

  /**
   * Each login of the user, in flight or committed for a session not older than `first`, rests on
   * one side of the write.
   */
  ghost predicate AllRest(sys: System, userId: Id, from: nat, first: Id, since: set<Hash>) {
    && userId in sys.db.credentials && sys.db.credentials[userId] in since
    && from <= sys.logins
    && first <= sys.db.auth.nextId
    && (forall p :: p in sys.calls && sys.calls[p].LoggingIn? && sys.calls[p].userId == userId ==>
          Rests(sys, userId, sys.calls[p].seen, sys.calls[p].order, from, since))
    && (forall s :: s in sys.grounds && first <= s && sys.grounds[s].userId == userId ==>
          Rests(sys, userId, sys.grounds[s].hash, sys.grounds[s].order, from, since))
  }

  lemma RestsStays(sys: System, event: Event, userId: Id, hash: Hash, order: nat, from: nat, since: set<Hash>)
    requires SystemInv(sys) && userId in sys.db.credentials && Rests(sys, userId, hash, order, from, since)
    ensures userId in Next(sys, event).db.credentials
    ensures Rests(Next(sys, event), userId, hash, order, from, since + {Next(sys, event).db.credentials[userId]})
  {
    StepKeepsUsers(sys, event, userId);
    if order < from { OverwrittenStays(sys, event, userId, hash); }
  }

  /** Where a step's login calls and grounds come from. */
  lemma LoginsMove(sys: System, event: Event, p: Id)
    requires p in Next(sys, event).calls && Next(sys, event).calls[p].LoggingIn?
    ensures var c := Next(sys, event).calls[p];
            || (p in sys.calls && sys.calls[p] == c)
            || (c.order == sys.logins && c.userId in sys.db.credentials && c.seen == sys.db.credentials[c.userId]
                && Next(sys, event).db == sys.db)
  {
  }

  lemma GroundsMove(sys: System, event: Event, s: Id)
    requires s in Next(sys, event).grounds
    ensures var g := Next(sys, event).grounds[s];
            || (s in sys.grounds && sys.grounds[s] == g)
            || (event.Commit? && event.call in sys.calls && sys.calls[event.call].LoggingIn?
                && g == Ground(sys.calls[event.call].userId, sys.calls[event.call].seen, sys.calls[event.call].order))
  {
  }

  lemma AllRestStays(sys: System, event: Event, userId: Id, from: nat, first: Id, since: set<Hash>)
    requires SystemInv(sys) && AllRest(sys, userId, from, first, since)
    ensures userId in Next(sys, event).db.credentials
    ensures AllRest(Next(sys, event), userId, from, first, since + {Next(sys, event).db.credentials[userId]})
  {
    var sys' := Next(sys, event);
    StepKeepsUsers(sys, event, userId);
    SessionKeysGrow(sys, event);
    var since' := since + {sys'.db.credentials[userId]};
    forall p | p in sys'.calls && sys'.calls[p].LoggingIn? && sys'.calls[p].userId == userId
      ensures Rests(sys', userId, sys'.calls[p].seen, sys'.calls[p].order, from, since')
    {
      LoginsMove(sys, event, p);
      if p in sys.calls && sys.calls[p] == sys'.calls[p] {
        RestsStays(sys, event, userId, sys.calls[p].seen, sys.calls[p].order, from, since);
      }
    }
    forall s | s in sys'.grounds && first <= s && sys'.grounds[s].userId == userId
      ensures Rests(sys', userId, sys'.grounds[s].hash, sys'.grounds[s].order, from, since')
    {
      GroundsMove(sys, event, s);
      RestsStays(sys, event, userId, sys'.grounds[s].hash, sys'.grounds[s].order, from, since);
    }
  }

  lemma SessionKeysGrow(sys: System, event: Event)
    ensures sys.db.auth.nextId <= Next(sys, event).db.auth.nextId && sys.logins <= Next(sys, event).logins
  {
  }

  lemma {:induction false} AllRestThroughout(sys: System, events: seq<Event>, userId: Id, from: nat, first: Id,
                                             since: set<Hash>)
    requires SystemInv(sys) && AllRest(sys, userId, from, first, since)
    ensures AllRest(Steps(sys, events), userId, from, first, since + StoredSince(sys, events, userId))
    decreases |events|
  {
    if events == [] {
      assert since + {sys.db.credentials[userId]} == since;
    } else {
      var sys' := Next(sys, events[0]);
      StepKeepsInv(sys, events[0]);
      AllRestStays(sys, events[0], userId, from, first, since);
      AllRestThroughout(sys', events[1..], userId, from, first, since + {sys'.db.credentials[userId]});
      CurrentIsStored(sys', events[1..], userId);
      var rest := StoredSince(sys', events[1..], userId);
      assert since + StoredSince(sys, events, userId) == since + {sys'.db.credentials[userId]} + rest;
    }
  }

  lemma CurrentIsStored(sys: System, events: seq<Event>, userId: Id)
    requires userId in sys.db.credentials
    ensures sys.db.credentials[userId] in StoredSince(sys, events, userId)
  {
  }

  /** At the write itself every login in flight has verified a hash that no longer counts. */
  lemma WriteOverwrites(sys: System, event: Event, userId: Id)
    requires SystemInv(sys) && Writes(sys, event, userId)
    requires forall s :: s in sys.grounds ==> s < sys.db.auth.nextId
    ensures var begun := Next(sys, event);
            AllRest(begun, userId, sys.logins, begun.db.auth.nextId, {begun.db.credentials[userId]})
  {
    var begun := Next(sys, event);
    forall p | p in begun.calls && begun.calls[p].LoggingIn? && begun.calls[p].userId == userId
      ensures Rests(begun, userId, begun.calls[p].seen, begun.calls[p].order, sys.logins,
                    {begun.db.credentials[userId]})
    {
      var seen := sys.calls[p].seen;
      assert CallInv(sys, sys.calls[p]) && Distinguished(sys.calls[p], sys.calls[event.call]);
      forall q | q in begun.calls && Pending(begun.calls[q]).Some?
          ensures Pending(begun.calls[q]).value.salt != seen.salt {
        assert Distinguished(sys.calls[p], sys.calls[q]);
      }
    }
  }

  ghost predicate GroundsInv(sys: System) {
    forall s :: s in sys.grounds ==>
      s < sys.db.auth.nextId
      && (s in sys.db.auth.sessions ==> sys.db.auth.sessions[s].userId == sys.grounds[s].userId)
  }

  lemma StepKeepsGrounds(sys: System, event: Event)
    requires SystemInv(sys) && GroundsInv(sys)
    ensures GroundsInv(Next(sys, event))
  {
    var sys' := Next(sys, event);
    SessionKeysGrow(sys, event);
    forall s | s in sys'.grounds
      ensures s < sys'.db.auth.nextId
      ensures s in sys'.db.auth.sessions ==> sys'.db.auth.sessions[s].userId == sys'.grounds[s].userId
    {
      GroundsMove(sys, event, s);
      if s in sys.grounds && s in sys'.db.auth.sessions { OwnerStays(sys, event, s); }
    }
  }

  lemma OwnerStays(sys: System, event: Event, s: Id)
    requires SystemInv(sys) && s < sys.db.auth.nextId && s in Next(sys, event).db.auth.sessions
    ensures s in sys.db.auth.sessions && Next(sys, event).db.auth.sessions[s].userId == sys.db.auth.sessions[s].userId
  {
    if event.Sessions? && s in sys.db.auth.sessions { I.IdentityIsFixedByStep(sys.db.auth, event.op, s); }
  }

  lemma {:induction false} RunKeepsInv(sys: System, events: seq<Event>)
    requires SystemInv(sys) && GroundsInv(sys)
    ensures SystemInv(Steps(sys, events)) && GroundsInv(Steps(sys, events))
    decreases |events|
  {
    if events != [] {
      StepKeepsInv(sys, events[0]);
      StepKeepsGrounds(sys, events[0]);
      RunKeepsInv(Next(sys, events[0]), events[1..]);
    }
  }

  lemma {:induction false} OwnerStaysThroughout(sys: System, events: seq<Event>, s: Id)
    requires SystemInv(sys) && s < sys.db.auth.nextId && s in Steps(sys, events).db.auth.sessions
    ensures s in sys.db.auth.sessions && Steps(sys, events).db.auth.sessions[s].userId == sys.db.auth.sessions[s].userId
    decreases |events|
  {
    if events != [] {
      StepKeepsInv(sys, events[0]);
      SessionKeysGrow(sys, events[0]);
      OwnerStaysThroughout(Next(sys, events[0]), events[1..], s);
      OwnerStays(sys, events[0], s);
    }
  }

  lemma OlderSessionsEnd(sys: System, event: Event, later: seq<Event>, userId: Id, s: Id)
    requires SystemInv(sys) && Writes(sys, event, userId) && s < sys.db.auth.nextId
    requires var auth := Steps(Next(sys, event), later).db.auth; s in auth.sessions && auth.sessions[s].userId == userId
    ensures Steps(Next(sys, event), later).db.auth.sessions[s].status != S.ACTIVE
  {
    StepKeepsInv(sys, event);
    OwnerStaysThroughout(Next(sys, event), later, s);
    OwnerStays(sys, event, s);
    WriteEndsEarlierSessions(sys, event, later, userId, s);
  }

  /**
   * A session of the user that is ACTIVE at any time after a password write was created after it;
   * and if a password login created it, it rests on a hash that the write had already replaced
   * exactly when that login read its hash before the write.
   */
  lemma SessionsAfterWriteExactly(sys: System, event: Event, later: seq<Event>, userId: Id, s: Id)
    requires SystemInv(sys) && GroundsInv(sys) && Writes(sys, event, userId)
    requires var auth := Steps(Next(sys, event), later).db.auth;
             s in auth.sessions && auth.sessions[s].userId == userId && auth.sessions[s].status == S.ACTIVE
    ensures sys.db.auth.nextId <= s
    ensures var last, begun := Steps(Next(sys, event), later), Next(sys, event);
            s in last.grounds ==>
              (last.grounds[s].hash !in StoredSince(begun, later, userId) <==> last.grounds[s].order < sys.logins)
  {
    var begun := Next(sys, event);
    StepKeepsInv(sys, event);
    StepKeepsGrounds(sys, event);
    RunKeepsInv(begun, later);
    if s < sys.db.auth.nextId { OlderSessionsEnd(sys, event, later, userId, s); }
    WriteOverwrites(sys, event, userId);
    var since := {begun.db.credentials[userId]};
    AllRestThroughout(begun, later, userId, sys.logins, begun.db.auth.nextId, since);
    CurrentIsStored(begun, later, userId);
    assert since + StoredSince(begun, later, userId) == StoredSince(begun, later, userId);
  }
}
