/**
 * What resets, changes and reset requests do, from their read to their commit, by the fields of
 * the rows they read and find: an expired request starts nothing, and a write leaves nothing open.
 */
module PasswordOutcomes {
  import opened Common
  import opened PasswordRows
  import opened PasswordProtocol
  import S = SessionRows

  /** The rows after a password write: the hash stored, the user's requests closed, sessions over, tokens revoked. */
  ghost predicate Written(before: Db, after: Db, userId: Id, hash: Hash, now: Time) {
    && after.credentials == before.credentials[userId := hash]
    && after.nextReset == before.nextReset
    && RequestsClosed(before.resets, after.resets, userId, now)
    && SessionsOver(before.auth, after.auth, userId, now)
  }

  ghost predicate RequestsClosed(before: map<Id, Reset>, after: map<Id, Reset>, userId: Id, now: Time) {
    && after.Keys == before.Keys
    && forall r :: r in before ==>
         && after[r].userId == before[r].userId && after[r].expiresAt == before[r].expiresAt
         && (before[r].userId == userId ==> after[r].usedAt.Some? || after[r].revokedAt.Some?)
         && (before[r].userId != userId || before[r].usedAt.Some? || before[r].revokedAt.Some? ==>
              after[r] == before[r])
         && after[r].usedAt in {before[r].usedAt, Some(now)} && after[r].revokedAt in {before[r].revokedAt, Some(now)}
  }

  ghost predicate SessionsOver(before: S.Db, after: S.Db, userId: Id, now: Time) {
    && after.sessions.Keys == before.sessions.Keys && after.tokens.Keys == before.tokens.Keys
    && (forall s :: s in before.sessions ==>
          if before.sessions[s].userId == userId && before.sessions[s].status == S.ACTIVE then
            && after.sessions[s].status == S.REVOKED && after.sessions[s].revokedAt == Some(now)
            && after.sessions[s].reason == Some(S.PASSWORD_CHANGED)
          else after.sessions[s] == before.sessions[s])
    && (forall t :: t in before.tokens ==>
          if before.tokens[t].userId == userId && before.tokens[t].revokedAt == None then
            after.tokens[t].revokedAt == Some(now) && after.tokens[t].revoked
          else after.tokens[t] == before.tokens[t])
  }

  lemma ChangeWrites(db: Db, userId: Id, hash: Hash, now: Time)
    ensures Written(db, ChangeDone(db, userId, hash, now), userId, hash, now)
  {
    SessionsEnd(db.auth, userId, now);
  }

  lemma SessionsEnd(auth: S.Db, userId: Id, now: Time)
    ensures SessionsOver(auth, S.PasswordRevoked(auth, userId, now), userId, now)
  {
  }

  /** A reset also marks the request it was made with as used. */
  lemma ResetWrites(db: Db, resetId: Id, userId: Id, hash: Hash, now: Time)
    requires resetId in db.resets && db.resets[resetId].userId == userId
    requires db.resets[resetId].usedAt == None && db.resets[resetId].revokedAt == None
    ensures Written(db, ResetDone(db, resetId, userId, hash, now), userId, hash, now)
    ensures ResetDone(db, resetId, userId, hash, now).resets[resetId].usedAt == Some(now)
  {
    SessionsEnd(db.auth, userId, now);
  }

  // ---- From read to commit ------------------------------------------------------------------

  predicate OfCall(e: Event, call: Id) {
    (e.ReadForgot? || e.ReadReset? || e.ReadChange? || e.ReadLogin? || e.Commit? || e.Crash?) && e.call == call
  }

  predicate Others(events: seq<Event>, call: Id) { forall e :: e in events ==> !OfCall(e, call) }

  /** A request keeps its owner and its expiry; once used or revoked it never opens again. */
  predicate SameRequest(a: Reset, b: Reset) { b.userId == a.userId && b.expiresAt == a.expiresAt }

  lemma RequestsMove(sys: System, event: Event, r: Id)
    requires SystemInv(sys) && r in Next(sys, event).db.resets && r < sys.db.nextReset
    ensures r in sys.db.resets && SameRequest(sys.db.resets[r], Next(sys, event).db.resets[r])
  {
    if event.Commit? && event.call in sys.calls && event.now <= sys.clock { RequestsMoveAtCommit(sys, event, r); }
  }

  lemma RequestsMoveAtCommit(sys: System, event: Event, r: Id)
    requires SystemInv(sys) && event.Commit? && event.call in sys.calls
    requires r in Committed(sys.db, sys.calls[event.call], event).resets && r < sys.db.nextReset
    ensures r in sys.db.resets
    ensures SameRequest(sys.db.resets[r], Committed(sys.db, sys.calls[event.call], event).resets[r])
  {
  }

  lemma OthersLeaveCall(sys: System, event: Event, call: Id)
    requires Others([event], call)
    ensures call in Next(sys, event).calls <==> call in sys.calls
    ensures call in sys.calls ==> Next(sys, event).calls[call] == sys.calls[call]
    ensures sys.clock <= Next(sys, event).clock && sys.db.nextReset <= Next(sys, event).db.nextReset
  {
    assert event in [event];
  }

  lemma {:induction false} Waits(sys: System, events: seq<Event>, call: Id, r: Id)
    requires SystemInv(sys) && Others(events, call)
    ensures SystemInv(Steps(sys, events)) && sys.clock <= Steps(sys, events).clock
    ensures call in Steps(sys, events).calls <==> call in sys.calls
    ensures call in sys.calls ==> Steps(sys, events).calls[call] == sys.calls[call]
    ensures r < sys.db.nextReset && r in Steps(sys, events).db.resets ==>
              r in sys.db.resets && SameRequest(sys.db.resets[r], Steps(sys, events).db.resets[r])
    decreases |events|
  {
    if events != [] {
      var sys' := Next(sys, events[0]);
      StepKeepsInv(sys, events[0]);
      OthersLeaveCall(sys, events[0], call);
      Waits(sys', events[1..], call, r);
      if r < sys.db.nextReset && r in Steps(sys, events).db.resets { RequestsMove(sys, events[0], r); }
    }
  }

  /**
   * A reset succeeds exactly when at its read the request was unused, unrevoked and not expired,
   * its user active and the password acceptable, and at its commit the request is still there,
   * unused and unrevoked; then the password is written. Otherwise its commit changes nothing.
   */
  lemma ResetSucceedsExactly(sys: System, call: Id, resetId: Id, next: string, others: seq<Event>, commit: Event)
    requires SystemInv(sys) && call !in sys.calls && resetId in sys.db.resets && Others(others, call)
    requires commit.Commit? && commit.call == call
    requires var last := Steps(Next(sys, ReadReset(call, resetId, next)), others);
             commit.now <= last.clock && sys.db.resets[resetId].userId in last.db.credentials
    ensures var r, last := sys.db.resets[resetId], Steps(Next(sys, ReadReset(call, resetId, next)), others);
            var done := Next(last, commit).db;
            if r.usedAt == None && r.revokedAt == None && sys.clock < r.expiresAt
               && r.userId in sys.active && 15 <= |next| <= 128
               && resetId in last.db.resets && last.db.resets[resetId].usedAt == None
                    && last.db.resets[resetId].revokedAt == None
            then Written(last.db, done, r.userId, Hash(next, sys.nextSalt, false), sys.clock)
                 && done.resets[resetId].usedAt == Some(sys.clock)
            else done == last.db
  {
    var begun := Next(sys, ReadReset(call, resetId, next));
    StepKeepsInv(sys, ReadReset(call, resetId, next));
    Waits(begun, others, call, resetId);
    var last := Steps(begun, others);
    if call in last.calls && resetId in last.db.resets && last.db.resets[resetId].usedAt == None
       && last.db.resets[resetId].revokedAt == None {
      ResetWrites(last.db, resetId, sys.db.resets[resetId].userId, Hash(next, sys.nextSalt, false), sys.clock);
    }
  }

  lemma {:induction false} ClockAndRequests(sys: System, events: seq<Event>, r: Id)
    requires SystemInv(sys)
    ensures sys.clock <= Steps(sys, events).clock
    ensures r < sys.db.nextReset && r in Steps(sys, events).db.resets ==>
              r in sys.db.resets && SameRequest(sys.db.resets[r], Steps(sys, events).db.resets[r])
    decreases |events|
  {
    if events != [] {
      StepKeepsInv(sys, events[0]);
      TimeAndKeysGrow(sys, events[0]);
      ClockAndRequests(Next(sys, events[0]), events[1..], r);
      if r < sys.db.nextReset && r in Steps(sys, events).db.resets { RequestsMove(sys, events[0], r); }
    }
  }

  lemma TimeAndKeysGrow(sys: System, event: Event)
    ensures sys.clock <= Next(sys, event).clock && sys.db.nextReset <= Next(sys, event).db.nextReset
  {
  }

  /** Once the clock has passed a request's expiry, no presentation of it starts a reset in the rest of the run. */
  lemma ExpiredRequestStartsNothing(sys: System, events: seq<Event>, call: Id, resetId: Id, next: string)
    requires SystemInv(sys) && resetId in sys.db.resets && sys.db.resets[resetId].expiresAt <= sys.clock
    ensures Next(Steps(sys, events), ReadReset(call, resetId, next)) == Steps(sys, events)
  {
    ClockAndRequests(sys, events, resetId);
  }

  /** A step that marks a request as used is the commit of a reset that began before the request's expiry. */
  lemma UsedInTime(sys: System, event: Event, resetId: Id)
    requires SystemInv(sys) && resetId in sys.db.resets && sys.db.resets[resetId].usedAt == None
    requires resetId in Next(sys, event).db.resets && Next(sys, event).db.resets[resetId].usedAt.Some?
    ensures event.Commit? && event.call in sys.calls
    ensures Next(sys, event).db.resets[resetId].usedAt.value < sys.db.resets[resetId].expiresAt
  {
  }

  /** A change succeeds exactly when the hash it verified is still stored; then the password is written. */
  lemma ChangeSucceedsExactly(sys: System, call: Id, userId: Id, current: string, next: string, others: seq<Event>,
                              commit: Event)
    requires SystemInv(sys) && call !in sys.calls && userId in sys.db.credentials && Others(others, call)
    requires commit.Commit? && commit.call == call
    requires commit.now <= Steps(Next(sys, ReadChange(call, userId, current, next)), others).clock
    ensures var last := Steps(Next(sys, ReadChange(call, userId, current, next)), others);
            var done := Next(last, commit).db;
            if userId in sys.active && sys.db.credentials[userId].password == current && next != current
                && 15 <= |next| <= 128
               && userId in last.db.credentials && last.db.credentials[userId] == sys.db.credentials[userId]
            then Written(last.db, done, userId, Hash(next, sys.nextSalt, false), commit.now)
            else done == last.db
  {
    var begun := Next(sys, ReadChange(call, userId, current, next));
    StepKeepsInv(sys, ReadChange(call, userId, current, next));
    Waits(begun, others, call, 0);
    ChangeWrites(Steps(begun, others).db, userId, Hash(next, sys.nextSalt, false), commit.now);
  }

  /** Asking revokes the user's requests that are open and not expired, adds one, and leaves all others as they are. */
  lemma AskingReplaces(db: Db, userId: Id, now: Time, expiresAt: Time)
    requires Keyed(db)
    ensures var after := Requested(db, userId, now, expiresAt);
            && after == db.(resets := after.resets, nextReset := db.nextReset + 1)
            && after.resets.Keys == db.resets.Keys + {db.nextReset}
            && after.resets[db.nextReset] == Reset(userId, expiresAt, None, None)
            && forall r :: r in db.resets ==>
                 after.resets[r] == if db.resets[r].userId == userId && db.resets[r].usedAt == None
                                       && db.resets[r].revokedAt == None && now < db.resets[r].expiresAt
                                    then db.resets[r].(revokedAt := Some(now)) else db.resets[r]
  {
  }

  /** A password login is let in exactly when the password is the stored one; a dated hash is then stored anew. */
  lemma LoginExactly(sys: System, call: Id, userId: Id, password: string, others: seq<Event>, commit: Event)
    requires SystemInv(sys) && call !in sys.calls && userId in sys.db.credentials && Others(others, call)
    requires 15 <= |password| <= 128 && commit.Commit? && commit.call == call
    requires commit.now <= Steps(Next(sys, ReadLogin(call, userId, password)), others).clock
    ensures var last := Steps(Next(sys, ReadLogin(call, userId, password)), others);
            var done, seen := Next(last, commit).db, sys.db.credentials[userId];
            if seen.password == password
            then done.auth == S.Created(last.db.auth, userId, commit.level, commit.expiresAt)
                 && done.resets == last.db.resets
                 && done.credentials == if seen.dated
                      then last.db.credentials[userId := Hash(password, sys.nextSalt, false)]
                                        else last.db.credentials
            else done == last.db
  {
    StepKeepsInv(sys, ReadLogin(call, userId, password));
    Waits(Next(sys, ReadLogin(call, userId, password)), others, call, 0);
  }
}
