/**
 * Resets, changes, reset requests and logins that read a row, spend time hashing, and write
 * later. What a caller read may have changed by then; these are the guarantees that survive.
 */
module PasswordProtocol {
  import opened Common
  import opened PasswordRows
  import S = SessionRows
  import opened SessionInvariant

  datatype Call =
    | Requesting(userId: Id, now: Time)
    | Resetting(resetId: Id, userId: Id, hash: Hash, now: Time)
    | Changing(userId: Id, seen: Hash, hash: Hash)
    | LoggingIn(userId: Id, seen: Hash, rehash: Option<Hash>, order: nat)

  /** Which hash a password login verified for the session it created, and the number of its read. */
  datatype Ground = Ground(userId: Id, hash: Hash, order: nat)

  /** `logins` numbers the logins that have verified a password; `grounds` remembers them for their sessions. */
  datatype System = System(
    db: Db,
    clock: Time,
    calls: map<Id, Call>,
    active: set<Id>,
    nextSalt: Id,
    logins: nat,
    grounds: map<Id, Ground>)

  datatype Event =
    | Tick(delta: nat)
    | Enrol(userId: Id, password: string, dated: bool)
    | SetActive(users: set<Id>)
    | ReadForgot(call: Id, userId: Id)
    | ReadReset(call: Id, resetId: Id, next: string)
    | ReadChange(call: Id, userId: Id, current: string, next: string)
    | ReadLogin(call: Id, userId: Id, password: string)
    | Commit(call: Id, now: Time, level: S.SessionLevel, expiresAt: Time)
    | Crash(call: Id)
    | Recover(userId: Id, expiresAt: Time)
    | Purge(resets: set<Id>)
    | Sessions(op: S.Op)

  /** The bounds that every hashed password passes; the lists of common and personal words are left out. */
  predicate Acceptable(password: string) { 15 <= |password| <= 128 }

  function Committed(db: Db, c: Call, event: Event): Db
    requires event.Commit?
  {
    match c
    case Requesting(userId, now) => Requested(db, userId, now, event.expiresAt)
    case Resetting(resetId, userId, hash, now) => if CanReset(db, resetId, userId, now)
        then ResetDone(db, resetId, userId, hash, now) else db
    case Changing(userId, seen, hash) => if CanChange(db, userId, seen) then ChangeDone(db, userId, hash, event.now)
        else db
    case LoggingIn(userId, _, rehash, _) => LoggedIn(db, userId, event.level, event.expiresAt, rehash)
  }

  /** One step; an event that is not enabled changes nothing. */
  function Next(sys: System, event: Event): System {
    match event
    case Tick(delta) => sys.(clock := sys.clock + delta)
    case Enrol(userId, password, dated) =>
      if userId in sys.db.credentials || !Acceptable(password) then sys
      else sys.(db := sys.db.(credentials := sys.db.credentials[userId := Hash(password, sys.nextSalt, dated)]),
                nextSalt := sys.nextSalt + 1)
    case SetActive(users) => sys.(active := users)
    case ReadForgot(call, userId) =>
      if call !in sys.calls && userId in sys.active
          then sys.(calls := sys.calls[call := Requesting(userId, sys.clock)]) else sys
    case ReadReset(call, resetId, next) =>
      if call !in sys.calls && resetId in sys.db.resets && Spendable(sys.db.resets[resetId], sys.clock)
         && sys.db.resets[resetId].userId in sys.active && Acceptable(next) then
        sys.(calls :=
            sys.calls[call :=
                Resetting(resetId, sys.db.resets[resetId].userId, Hash(next, sys.nextSalt, false), sys.clock)],
             nextSalt := sys.nextSalt + 1)
      else sys
    case ReadChange(call, userId, current, next) =>
      if call !in sys.calls && userId in sys.db.credentials && userId in sys.active
         && sys.db.credentials[userId].password == current && next != current && Acceptable(next) then
        sys.(calls := sys.calls[call := Changing(userId, sys.db.credentials[userId], Hash(next, sys.nextSalt, false))],
             nextSalt := sys.nextSalt + 1)
      else sys
    case ReadLogin(call, userId, password) =>
      if call !in sys.calls && userId in sys.db.credentials && sys.db.credentials[userId].password == password
         && (sys.db.credentials[userId].dated ==> Acceptable(password)) then
        var seen := sys.db.credentials[userId];
        var rehash := if seen.dated then Some(Hash(password, sys.nextSalt, false)) else None;
        sys.(calls := sys.calls[call := LoggingIn(userId, seen, rehash, sys.logins)],
             nextSalt := sys.nextSalt + 1, logins := sys.logins + 1)
      else sys
    case Commit(call, now, _, _) =>
      if call in sys.calls && now <= sys.clock then
        var c := sys.calls[call];
        sys.(db := Committed(sys.db, c, event), calls := sys.calls - {call},
             grounds := if c.LoggingIn? then sys.grounds[sys.db.auth.nextId := Ground(c.userId, c.seen, c.order)]
                 else sys.grounds)
      else sys
    case Crash(call) => sys.(calls := sys.calls - {call})
    case Recover(userId, expiresAt) => sys.(db := Recovered(sys.db, userId, expiresAt))
    case Purge(resets) => sys.(db := sys.db.(resets := sys.db.resets - resets))
    case Sessions(op) => if op.PasswordChange? then sys else sys.(db := sys.db.(auth := S.Apply(sys.db.auth, op)))
  }

  function Steps(sys: System, events: seq<Event>): System
    decreases |events|
  {
    if events == [] then sys else Steps(Next(sys, events[0]), events[1..])
  }

  // ---- Invariant ----------------------------------------------------------------------------

  /** The hash a call has computed and not yet stored. */
  function Pending(c: Call): Option<Hash> {
    match c
    case Requesting(_, _) => None
    case Resetting(_, _, hash, _) => Some(hash)
    case Changing(_, _, hash) => Some(hash)
    case LoggingIn(_, _, rehash, _) => rehash
  }

  ghost predicate CallInv(sys: System, c: Call) {
    match c
    case Requesting(_, now) => now <= sys.clock
    case Resetting(resetId, userId, hash, now) =>
      && now <= sys.clock && !hash.dated && resetId < sys.db.nextReset
      && (resetId in sys.db.resets ==> sys.db.resets[resetId].userId == userId)
    case Changing(userId, seen, hash) => userId in sys.db.credentials && seen.password != hash.password && !hash.dated
    case LoggingIn(userId, seen, rehash, order) =>
      && userId in sys.db.credentials
      && seen.salt < sys.nextSalt
      && order < sys.logins
      && (rehash.Some? <==> seen.dated)
      && (rehash.Some? ==> rehash.value.password == seen.password && !rehash.value.dated)
  }

  ghost predicate StoredBelow(credentials: map<Id, Hash>, nextSalt: Id) {
    forall u :: u in credentials ==> credentials[u].salt < nextSalt
  }

  /** A computed hash is issued and not stored. */
  ghost predicate Unstored(credentials: map<Id, Hash>, c: Call, nextSalt: Id) {
    Pending(c).Some? ==>
      && Pending(c).value.salt < nextSalt
      && forall u :: u in credentials ==> credentials[u].salt != Pending(c).value.salt
  }

  predicate Apart(a: Call, b: Call) {
    Pending(a).Some? && Pending(b).Some? ==> Pending(a).value.salt != Pending(b).value.salt
  }

  /** What a login verified is not a hash still to be stored. */
  predicate Distinguished(a: Call, b: Call) {
    a.LoggingIn? && Pending(b).Some? ==> a.seen.salt != Pending(b).value.salt
  }

  /** No computed hash equals a stored one or another computed one, and none has an unissued salt. */
  ghost predicate Salted(sys: System) {
    && StoredBelow(sys.db.credentials, sys.nextSalt)
    && (forall p :: p in sys.calls ==> Unstored(sys.db.credentials, sys.calls[p], sys.nextSalt))
    && (forall p, q | p in sys.calls && q in sys.calls && p != q :: Apart(sys.calls[p], sys.calls[q]))
    && (forall p, q | p in sys.calls && q in sys.calls :: Distinguished(sys.calls[p], sys.calls[q]))
  }

  ghost predicate Keyed(db: Db) {
    KeysBelowNext(db.auth) && forall r :: r in db.resets ==> r < db.nextReset
  }

  ghost predicate SystemInv(sys: System) {
    && Keyed(sys.db)
    && (forall p :: p in sys.calls ==> CallInv(sys, sys.calls[p]))
    && Salted(sys)
  }

  lemma StepKeepsKeyed(sys: System, event: Event)
    requires SystemInv(sys)
    ensures Keyed(Next(sys, event).db)
  {
    if event.Sessions? { KeysStayBelowNext(sys.db.auth, event.op); }
  }

  lemma StepKeepsCalls(sys: System, event: Event, p: Id)
    requires SystemInv(sys) && p in Next(sys, event).calls
    ensures CallInv(Next(sys, event), Next(sys, event).calls[p])
  {
    if event.Commit? && event.call in sys.calls && event.now <= sys.clock {
      CommitKeepsOwners(sys.db, sys.calls[event.call], event);
    }
  }

  /** A commit forgets no user, and changes no request's owner. */
  lemma CommitKeepsOwners(db: Db, c: Call, event: Event)
    requires Keyed(db) && event.Commit?
    ensures var db' := Committed(db, c, event);
            && db.nextReset <= db'.nextReset
            && db.credentials.Keys <= db'.credentials.Keys
            && forall r :: r in db'.resets && r < db.nextReset ==>
                 r in db.resets && db'.resets[r].userId == db.resets[r].userId
  {
  }

  /** A commit stores nothing but the hash its call computed, and that call leaves. */
  lemma CommitStoresPending(db: Db, c: Call, event: Event, u: Id)
    requires event.Commit? && u in Committed(db, c, event).credentials
    ensures || (u in db.credentials && Committed(db, c, event).credentials[u] == db.credentials[u])
            || (Pending(c).Some? && Committed(db, c, event).credentials[u] == Pending(c).value)
  {
  }

  lemma CommitKeepsSalted(sys: System, event: Event)
    requires SystemInv(sys) && event.Commit? && event.call in sys.calls && event.now <= sys.clock
    ensures Salted(Next(sys, event))
  {
    var c, db' := sys.calls[event.call], Next(sys, event).db;
    forall u | u in db'.credentials
      ensures db'.credentials[u].salt < sys.nextSalt
      ensures forall p :: p in sys.calls && p != event.call && Pending(sys.calls[p]).Some? ==>
                db'.credentials[u].salt != Pending(sys.calls[p]).value.salt
    {
      CommitStoresPending(sys.db, c, event, u);
      forall p | p in sys.calls && p != event.call
          ensures Apart(sys.calls[p], c) && Unstored(sys.db.credentials, sys.calls[p], sys.nextSalt) {
      }
    }
    forall p | p in sys.calls && p != event.call ensures Unstored(db'.credentials, sys.calls[p], sys.nextSalt) {
      assert Unstored(sys.db.credentials, sys.calls[p], sys.nextSalt);
    }
  }

  /** A call that starts computes a hash with a salt never issued before. */
  lemma ReadKeepsSalted(sys: System, call: Id, c: Call, nextSalt: Id)
    requires SystemInv(sys) && call !in sys.calls && sys.nextSalt <= nextSalt
    requires c.LoggingIn? ==> c.userId in sys.db.credentials && c.seen == sys.db.credentials[c.userId]
    requires Pending(c).Some? ==> Pending(c).value.salt == sys.nextSalt < nextSalt
    ensures Salted(sys.(calls := sys.calls[call := c], nextSalt := nextSalt))
  {
    forall p | p in sys.calls
        ensures Unstored(sys.db.credentials, sys.calls[p], nextSalt) && Apart(sys.calls[p], c)
                && Apart(c, sys.calls[p]) {
      assert Unstored(sys.db.credentials, sys.calls[p], sys.nextSalt);
    }
    forall p | p in sys.calls
        ensures Distinguished(sys.calls[p], c) && Distinguished(c, sys.calls[p]) && Distinguished(c, c) {
      assert CallInv(sys, sys.calls[p]) && Unstored(sys.db.credentials, sys.calls[p], sys.nextSalt);
    }
    assert Distinguished(c, c);
  }

  lemma StepKeepsSalted(sys: System, event: Event)
    requires SystemInv(sys)
    ensures Salted(Next(sys, event))
  {
    var sys' := Next(sys, event);
    match event {
      case Commit(call, now, _, _) => if call in sys.calls && now <= sys.clock { CommitKeepsSalted(sys, event); }
      case ReadForgot(call, _) => if sys' != sys { ReadKeepsSalted(sys, call, sys'.calls[call], sys'.nextSalt); }
      case ReadReset(call, _, _) => if sys' != sys { ReadKeepsSalted(sys, call, sys'.calls[call], sys'.nextSalt); }
      case ReadChange(call, _, _, _) => if sys' != sys { ReadKeepsSalted(sys, call, sys'.calls[call], sys'.nextSalt); }
      case ReadLogin(call, _, _) => if sys' != sys { ReadKeepsSalted(sys, call, sys'.calls[call], sys'.nextSalt); }
      case Enrol(userId, _, _) =>
        forall p | p in sys.calls ensures Unstored(sys'.db.credentials, sys.calls[p], sys'.nextSalt) {
          assert Unstored(sys.db.credentials, sys.calls[p], sys.nextSalt);
        }
      case _ =>
    }
  }

  lemma StepKeepsInv(sys: System, event: Event)
    requires SystemInv(sys)
    ensures SystemInv(Next(sys, event))
  {
    StepKeepsKeyed(sys, event);
    StepKeepsSalted(sys, event);
    forall p | p in Next(sys, event).calls ensures CallInv(Next(sys, event), Next(sys, event).calls[p]) {
      StepKeepsCalls(sys, event, p);
    }
  }

  // ---- Password writes ----------------------------------------------------------------------

  predicate Resets(sys: System, event: Event, resetId: Id) {
    && event.Commit? && event.call in sys.calls && event.now <= sys.clock
    && var c := sys.calls[event.call];
       c.Resetting? && c.resetId == resetId && CanReset(sys.db, resetId, c.userId, c.now)
  }

  /** The step commits a reset or a change of the user's password. */
  predicate Writes(sys: System, event: Event, userId: Id) {
    && event.Commit? && event.call in sys.calls && event.now <= sys.clock
    && var c := sys.calls[event.call];
       c.userId == userId
       && ((c.Resetting? && CanReset(sys.db, c.resetId, userId, c.now))
           || (c.Changing? && CanChange(sys.db, userId, c.seen)))
  }

  /** Was issued, and can no longer be spent. */
  ghost predicate Dead(db: Db, resetId: Id) {
    resetId < db.nextReset && (resetId in db.resets ==> !Open(db.resets[resetId]))
  }

  lemma DeadStaysDead(sys: System, event: Event, resetId: Id)
    requires Dead(sys.db, resetId)
    ensures Dead(Next(sys, event).db, resetId)
  {
  }

  /** How many steps of a run reset a password with the given request. */
  function Uses(sys: System, events: seq<Event>, resetId: Id): nat
    decreases |events|
  {
    if events == [] then 0
    else (if Resets(sys, events[0], resetId) then 1 else 0) + Uses(Next(sys, events[0]), events[1..], resetId)
  }

  lemma {:induction false} DeadIsNeverUsed(sys: System, events: seq<Event>, resetId: Id)
    requires Dead(sys.db, resetId)
    ensures Uses(sys, events, resetId) == 0
    decreases |events|
  {
    if events != [] {
      DeadStaysDead(sys, events[0], resetId);
      DeadIsNeverUsed(Next(sys, events[0]), events[1..], resetId);
    }
  }

  /** However many callers hold a reset token, and however long each hashes, it resets a password at most once. */
  lemma {:induction false} ResetWorksAtMostOnce(sys: System, events: seq<Event>, resetId: Id)
    requires SystemInv(sys)
    ensures Uses(sys, events, resetId) <= 1
    decreases |events|
  {
    if events != [] {
      var sys' := Next(sys, events[0]);
      StepKeepsInv(sys, events[0]);
      if Resets(sys, events[0], resetId) {
        assert Dead(sys'.db, resetId);
        DeadIsNeverUsed(sys', events[1..], resetId);
      } else {
        ResetWorksAtMostOnce(sys', events[1..], resetId);
      }
    }
  }

  /** Once a password has been written, no request issued before it, in flight or not, ever works. */
  lemma WriteCancelsEarlierRequests(sys: System, event: Event, later: seq<Event>, userId: Id, resetId: Id)
    requires SystemInv(sys) && Writes(sys, event, userId)
    requires resetId in sys.db.resets && sys.db.resets[resetId].userId == userId
    ensures Uses(Next(sys, event), later, resetId) == 0
  {
    DeadIsNeverUsed(Next(sys, event), later, resetId);
  }

  lemma {:induction false} RetiredThroughout(sys: System, events: seq<Event>, s: Id)
    requires Retired(sys.db.auth, s)
    ensures Retired(Steps(sys, events).db.auth, s)
    decreases |events|
  {
    if events != [] {
      var sys', event := Next(sys, events[0]), events[0];
      if event.Sessions? { RetiredIsAbsorbing(sys.db.auth, event.op, s); }
      RetiredThroughout(sys', events[1..], s);
    }
  }

  /** A password write ends every session the user then had, for the rest of the run. */
  lemma WriteEndsEarlierSessions(sys: System, event: Event, later: seq<Event>, userId: Id, s: Id)
    requires SystemInv(sys) && Writes(sys, event, userId)
    requires s in sys.db.auth.sessions && sys.db.auth.sessions[s].userId == userId
    ensures Retired(Steps(Next(sys, event), later).db.auth, s)
  {
    RetiredThroughout(Next(sys, event), later, s);
  }

  // ---- Changes lose no update ---------------------------------------------------------------

  /** The step stores a hash for the user: a reset, a change, or a login that rehashes. */
  predicate Stores(sys: System, event: Event, userId: Id) {
    || Writes(sys, event, userId)
    || (&& event.Commit? && event.call in sys.calls && event.now <= sys.clock
        && var c := sys.calls[event.call]; c.LoggingIn? && c.userId == userId && c.rehash.Some?)
  }

  function Stored(sys: System, events: seq<Event>, userId: Id): nat
    decreases |events|
  {
    if events == [] then 0
    else (if Stores(sys, events[0], userId) then 1 else 0) + Stored(Next(sys, events[0]), events[1..], userId)
  }

  /** The hash was issued, is not the user's, and no call holds it. */
  ghost predicate Overwritten(sys: System, userId: Id, hash: Hash) {
    && hash.salt < sys.nextSalt
    && userId in sys.db.credentials && sys.db.credentials[userId].salt != hash.salt
    && forall p :: p in sys.calls && Pending(sys.calls[p]).Some? ==> Pending(sys.calls[p]).value.salt != hash.salt
  }

  lemma OverwrittenStays(sys: System, event: Event, userId: Id, hash: Hash)
    requires SystemInv(sys) && Overwritten(sys, userId, hash)
    ensures Overwritten(Next(sys, event), userId, hash)
  {
  }

  lemma {:induction false} OverwrittenThroughout(sys: System, events: seq<Event>, userId: Id, hash: Hash)
    requires SystemInv(sys) && Overwritten(sys, userId, hash)
    ensures Overwritten(Steps(sys, events), userId, hash)
    decreases |events|
  {
    if events != [] {
      StepKeepsInv(sys, events[0]);
      OverwrittenStays(sys, events[0], userId, hash);
      OverwrittenThroughout(Next(sys, events[0]), events[1..], userId, hash);
    }
  }

  lemma StoringOverwrites(sys: System, event: Event, userId: Id)
    requires SystemInv(sys) && userId in sys.db.credentials
    ensures if Stores(sys, event, userId) then Overwritten(Next(sys, event), userId, sys.db.credentials[userId])
            else userId in Next(sys, event).db.credentials
                 && Next(sys, event).db.credentials[userId] == sys.db.credentials[userId]
  {
  }

  /**
   * A change that verified the hash of now commits after a run exactly when nothing was stored for
   * the user in between.
   */
  lemma {:induction false} ChangeCommitsExactly(sys: System, events: seq<Event>, userId: Id)
    requires SystemInv(sys) && userId in sys.db.credentials
    ensures CanChange(Steps(sys, events).db, userId, sys.db.credentials[userId]) <==> Stored(sys, events, userId) == 0
    decreases |events|
  {
    if events != [] {
      var sys' := Next(sys, events[0]);
      StepKeepsInv(sys, events[0]);
      StoringOverwrites(sys, events[0], userId);
      if Stores(sys, events[0], userId) {
        OverwrittenThroughout(sys', events[1..], userId, sys.db.credentials[userId]);
      } else {
        ChangeCommitsExactly(sys', events[1..], userId);
      }
    }
  }

  // ---- Which password is accepted -----------------------------------------------------------

  /**
   * The accepted password moves exactly when a reset or change stores another one, or when a
   * login that read a dated hash stores it again after the password has moved on.
   */
  lemma AcceptedPasswordMovesExactly(sys: System, event: Event, userId: Id)
    requires SystemInv(sys) && userId in sys.db.credentials
    ensures userId in Next(sys, event).db.credentials
    ensures Next(sys, event).db.credentials[userId].password != sys.db.credentials[userId].password
            <==> Stores(sys, event, userId)
                 && var c := sys.calls[event.call];
                    if c.LoggingIn? then c.seen.dated && c.seen.password != sys.db.credentials[userId].password
                    else Pending(c).value.password != sys.db.credentials[userId].password
  {
  }

  function Now(call: Id): Event { Commit(call, 0, S.LIMITED, 100) }

  lemma StepsCons(sys: System, event: Event, rest: seq<Event>)
    ensures Steps(sys, [event] + rest) == Steps(Next(sys, event), rest)
  {
    assert ([event] + rest)[1..] == rest;
  }

  lemma {:induction false} StepsConcat(sys: System, first: seq<Event>, rest: seq<Event>)
    ensures Steps(sys, first + rest) == Steps(Steps(sys, first), rest)
    decreases |first|
  {
    if first == [] {
      assert first + rest == rest;
    } else {
      assert (first + rest)[1..] == first[1..] + rest;
      StepsConcat(Next(sys, first[0]), first[1..], rest);
    }
  }

  const START := System(Db(map[], map[], 0, S.EMPTY), 0, map[], {7}, 0, 0, map[])
  const FIRST := "the first password"
  const SECOND := "another password"
  const OLD := Hash(FIRST, 0, true)
  const LOGIN := LoggingIn(7, OLD, Some(Hash(FIRST, 1, false)), 0)

  lemma BothHash() returns (events: seq<Event>, sys: System)
    ensures sys == Steps(START, events) && sys.clock == 0
    ensures sys.db.credentials == map[7 := OLD] && sys.db.auth == S.EMPTY && sys.grounds == map[]
    ensures sys.calls == map[1 := LOGIN, 2 := Changing(7, OLD, Hash(SECOND, 2, false))]
  {
    var s1 := Next(START, Enrol(7, FIRST, true));
    var s2 := Next(s1, ReadLogin(1, 7, FIRST));
    assert FIRST != SECOND by { assert FIRST[0] != SECOND[0]; }
    sys := Next(s2, ReadChange(2, 7, FIRST, SECOND));
    var r2 := [ReadChange(2, 7, FIRST, SECOND)] + [];
    var r1 := [ReadLogin(1, 7, FIRST)] + r2;
    events := [Enrol(7, FIRST, true)] + r1;
    StepsCons(START, Enrol(7, FIRST, true), r1);
    StepsCons(s1, ReadLogin(1, 7, FIRST), r2);
    StepsCons(s2, ReadChange(2, 7, FIRST, SECOND), []);
  }

  /** The session is ACTIVE and rests on a login that verified `hash`. */
  predicate OpenedOn(sys: System, s: Id, hash: Hash) {
    && s in sys.db.auth.sessions && sys.db.auth.sessions[s].status == S.ACTIVE
    && s in sys.grounds && sys.grounds[s].hash == hash
  }

  lemma ChangeThenLogin(sys: System)
    requires sys.clock == 0 && sys.db.credentials == map[7 := OLD] && sys.db.auth == S.EMPTY
    requires sys.calls == map[1 := LOGIN, 2 := Changing(7, OLD, Hash(SECOND, 2, false))]
    ensures Next(sys, Now(2)).db.credentials == map[7 := Hash(SECOND, 2, false)]
    ensures Next(Next(sys, Now(2)), Now(1)).db.credentials == map[7 := Hash(FIRST, 1, false)]
    ensures OpenedOn(Next(Next(sys, Now(2)), Now(1)), 0, OLD)
  {
    var changed := Next(sys, Now(2));
    assert changed.calls[1] == LOGIN && changed.clock == 0;
    assert changed.db.auth == S.EMPTY;
  }

  lemma StartHolds()
    ensures SystemInv(START)
  {
  }

  /**
   * Such a run: a login reads a dated hash, the password changes, and the login's commit brings the
   * old password back and opens a session that rests on it.
   */
  lemma OldPasswordReturns() returns (changed: seq<Event>, login: Event)
    ensures var db := Steps(START, changed).db; 7 in db.credentials && db.credentials[7].password == SECOND
    ensures var db := Steps(START, changed + [login]).db; 7 in db.credentials && db.credentials[7].password == FIRST
    ensures OpenedOn(Steps(START, changed + [login]), 0, OLD)
  {
    var begun, sys := BothHash();
    ChangeThenLogin(sys);
    login := Now(1);
    changed := begun + [Now(2)];
    StepsConcat(START, begun, [Now(2)]);
    Once(sys, Now(2));
    StepsConcat(START, changed, [login]);
    Once(Next(sys, Now(2)), login);
  }

  lemma Once(sys: System, event: Event)
    ensures Steps(sys, [event]) == Next(sys, event)
  {
    assert [event][1..] == [];
  }

  // ---- One request at a time ----------------------------------------------------------------

  /** No two requests of one user work at the same time. */
  ghost predicate OneSpendable(db: Db, clock: Time) {
    forall r, s | r in db.resets && s in db.resets && db.resets[r].userId == db.resets[s].userId ::
      Spendable(db.resets[r], clock) && Spendable(db.resets[s], clock) ==> r == s
  }

  /** Recovery codes are the one way to a second working request. */
  lemma {:induction false} AtMostOneWorkingRequest(sys: System, events: seq<Event>)
    requires SystemInv(sys) && OneSpendable(sys.db, sys.clock)
    requires forall e :: e in events ==> !e.Recover?
    ensures OneSpendable(Steps(sys, events).db, Steps(sys, events).clock)
    decreases |events|
  {
    if events != [] {
      StepKeepsInv(sys, events[0]);
      StepKeepsOneSpendable(sys, events[0]);
      AtMostOneWorkingRequest(Next(sys, events[0]), events[1..]);
    }
  }

  /** Asking leaves the new request as the only one that works. */
  lemma RequestKeepsOneSpendable(db: Db, userId: Id, now: Time, expiresAt: Time, clock: Time)
    requires Keyed(db) && OneSpendable(db, clock) && now <= clock
    ensures OneSpendable(Requested(db, userId, now, expiresAt), clock)
  {
    var resets' := Requested(db, userId, now, expiresAt).resets;
    forall r | r in resets' && r != db.nextReset && resets'[r].userId == userId ensures !Spendable(resets'[r], clock) {
    }
    forall r | r in resets' && r != db.nextReset && Spendable(resets'[r], clock)
      ensures resets'[r] == db.resets[r]
    {
    }
  }

  /** No request that did not work comes to work, and no owner changes. */
  ghost predicate NoneRevived(before: map<Id, Reset>, after: map<Id, Reset>) {
    forall r :: r in after ==>
        r in before && after[r].userId == before[r].userId && after[r].expiresAt == before[r].expiresAt
                               && (Open(after[r]) ==> Open(before[r]))
  }

  lemma NoneRevivedKeeps(db: Db, db': Db, clock: Time, clock': Time)
    requires OneSpendable(db, clock) && NoneRevived(db.resets, db'.resets) && clock <= clock'
    ensures OneSpendable(db', clock')
  {
    forall r | r in db'.resets && Spendable(db'.resets[r], clock') ensures Spendable(db.resets[r], clock) {
    }
  }

  lemma StepKeepsOneSpendable(sys: System, event: Event)
    requires SystemInv(sys) && OneSpendable(sys.db, sys.clock) && !event.Recover?
    ensures OneSpendable(Next(sys, event).db, Next(sys, event).clock)
  {
    if event.Commit? && event.call in sys.calls && event.now <= sys.clock && sys.calls[event.call].Requesting? {
      var c := sys.calls[event.call];
      RequestKeepsOneSpendable(sys.db, c.userId, c.now, event.expiresAt, sys.clock);
    } else {
      assert NoneRevived(sys.db.resets, Next(sys, event).db.resets);
      NoneRevivedKeeps(sys.db, Next(sys, event).db, sys.clock, Next(sys, event).clock);
    }
  }
}
