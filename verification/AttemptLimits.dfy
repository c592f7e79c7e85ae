/**
 * Where the verification protocol's guarantees stop: two things a reader might expect of every
 * run, a run in which each fails, and exactly when it fails.
 */
module AttemptLimits {
  import opened Common
  import opened AttemptRows
  import opened AttemptProtocol

  /** A verified user loses the flag exactly when a non-passing verdict on another enrolment attempt is recorded. */
  lemma VerifiedFlagLostExactly(sys: System, event: Event, policy: Policy, userId: Id)
    requires SubmittersInv(sys) && userId in sys.db.users && sys.db.users[userId].identity == IdentityVerified
    ensures userId in Next(sys, event, policy).db.users
    ensures Next(sys, event, policy).db.users[userId].identity != IdentityVerified
            <==> Records(sys, event)
                 && sys.submitters[event.submitter].seen.userId == userId
                 && sys.submitters[event.submitter].seen.purpose == ACCOUNT_ENROLLMENT
                 && sys.submitters[event.submitter].evaluation.decision != PASS
  {
  }

  lemma StepsCons(sys: System, event: Event, rest: seq<Event>, policy: Policy)
    ensures Steps(sys, [event] + rest, policy) == Steps(Next(sys, event, policy), rest, policy)
  {
    assert ([event] + rest)[1..] == rest;
  }

  lemma {:induction false} StepsConcat(sys: System, first: seq<Event>, rest: seq<Event>, policy: Policy)
    ensures Steps(sys, first + rest, policy) == Steps(Steps(sys, first, policy), rest, policy)
    decreases |first|
  {
    if first == [] {
      assert first + rest == rest;
    } else {
      assert (first + rest)[1..] == first[1..] + rest;
      StepsConcat(Next(sys, first[0], policy), first[1..], rest, policy);
    }
  }

  const DAY: nat := 86_400_000
  const EXAMPLE := Policy("policy-2026", DAY, 3, 60_000)
  const APPLICANT := User(true, true, true, true, IdentityUnstarted)

  /** One user, one attempt the engine could not answer, and the retry date reached. */
  lemma AnsweredByNobody() returns (events: seq<Event>, sys: System)
    ensures sys == Steps(Start(0), events, EXAMPLE)
    ensures sys.clock == 60_000 && sys.submitters == map[]
    ensures sys.db == Db(map[0 := APPLICANT.(identity := IdentityPending)],
                         map[1 := NewAttempt(0, ACCOUNT_ENROLLMENT, 1, 0, "policy-2026")
                                    .(livenessSession := Some(7), status := PROVIDER_UNAVAILABLE,
                                      retryAfter := Some(60_000))], 2)
  {
    var s1 := Next(Start(0), AddUser(APPLICANT), EXAMPLE);
    assert AttemptsOf(s1.db, 0, ACCOUNT_ENROLLMENT) == {};
    assert StartedSince(s1.db, 0, 0 - DAY) == {};
    var s2 := Next(s1, Enrol(0, None, 0), EXAMPLE);
    assert s2.db.attempts == map[1 := NewAttempt(0, ACCOUNT_ENROLLMENT, 1, 0, "policy-2026")];
    var s3 := Next(s2, Liveness(1, 7), EXAMPLE);
    var s4 := Next(s3, Read(10, 1, true), EXAMPLE);
    var s5 := Next(s4, Claim(10), EXAMPLE);
    var s6 := Next(s5, Answer(10, EngineFailed), EXAMPLE);
    var s7 := Next(s6, Write(10), EXAMPLE);
    sys := Next(s7, Tick(60_000), EXAMPLE);
    var r7 := [Tick(60_000)] + [];
    var r6 := [Write(10)] + r7;
    var r5 := [Answer(10, EngineFailed)] + r6;
    var r4 := [Claim(10)] + r5;
    var r3 := [Read(10, 1, true)] + r4;
    var r2 := [Liveness(1, 7)] + r3;
    var r1 := [Enrol(0, None, 0)] + r2;
    events := [AddUser(APPLICANT)] + r1;
    StepsCons(Start(0), AddUser(APPLICANT), r1, EXAMPLE);
    StepsCons(s1, Enrol(0, None, 0), r2, EXAMPLE);
    StepsCons(s2, Liveness(1, 7), r3, EXAMPLE);
    StepsCons(s3, Read(10, 1, true), r4, EXAMPLE);
    StepsCons(s4, Claim(10), r5, EXAMPLE);
    StepsCons(s5, Answer(10, EngineFailed), r6, EXAMPLE);
    StepsCons(s6, Write(10), r7, EXAMPLE);
    StepsCons(s7, Tick(60_000), [], EXAMPLE);
  }

  /** The unanswered attempt does not count as active, so the user may start a second one. */
  lemma SecondAttemptStarts() returns (events: seq<Event>, sys: System)
    ensures sys == Steps(Start(0), events, EXAMPLE)
    ensures sys.clock == 60_000 && sys.submitters == map[] && sys.db.users.Keys == {0} && sys.db.attempts.Keys == {1, 2}
    ensures sys.db.attempts[1] == NewAttempt(0, ACCOUNT_ENROLLMENT, 1, 0, "policy-2026")
                                    .(livenessSession := Some(7), status := PROVIDER_UNAVAILABLE,
                                      retryAfter := Some(60_000))
    ensures sys.db.attempts[2]
            == NewAttempt(0, ACCOUNT_ENROLLMENT, 2, 60_000, "policy-2026").(livenessSession := Some(8))
  {
    var first, s0 := AnsweredByNobody();
    assert AttemptsOf(s0.db, 0, ACCOUNT_ENROLLMENT) == {1};
    assert StartedSince(s0.db, 0, 60_000 - DAY) == {1};
    var s1 := Next(s0, Enrol(0, Some(1), 60_000), EXAMPLE);
    assert s1.db.attempts[2] == NewAttempt(0, ACCOUNT_ENROLLMENT, 2, 60_000, "policy-2026");
    sys := Next(s1, Liveness(2, 8), EXAMPLE);
    var r1 := [Liveness(2, 8)] + [];
    var r0 := [Enrol(0, Some(1), 60_000)] + r1;
    StepsCons(s0, Enrol(0, Some(1), 60_000), r1, EXAMPLE);
    StepsCons(s1, Liveness(2, 8), [], EXAMPLE);
    StepsConcat(Start(0), first, r0, EXAMPLE);
    events := first + r0;
  }

  predicate SeenFirst(s: Submitter) {
    s.Evaluating? && s.id == 1 && s.seen.userId == 0 && s.seen.purpose == ACCOUNT_ENROLLMENT
        && s.seen.policyVersion == "policy-2026"
  }

  /** Both attempts are submitted and in flight. */
  lemma BothClaimed() returns (events: seq<Event>, sys: System)
    ensures sys == Steps(Start(0), events, EXAMPLE)
    ensures sys.clock == 60_000 && sys.db.users.Keys == {0} && sys.db.attempts.Keys == {1, 2}
    ensures sys.db.attempts[1].status == PROCESSING && sys.db.attempts[1].userId == 0
    ensures sys.db.attempts[2]
            == NewAttempt(0, ACCOUNT_ENROLLMENT, 2, 60_000, "policy-2026").(livenessSession := Some(8),
                status := PROCESSING)
    ensures 11 in sys.submitters && SeenFirst(sys.submitters[11])
    ensures 12 in sys.submitters && sys.submitters[12]
              == Evaluating(2, NewAttempt(0, ACCOUNT_ENROLLMENT, 2, 60_000, "policy-2026").(livenessSession := Some(8)))
  {
    var first, s2 := SecondAttemptStarts();
    var s3 := Next(s2, Read(11, 1, true), EXAMPLE);
    var s4 := Next(s3, Claim(11), EXAMPLE);
    var s5 := Next(s4, Read(12, 2, true), EXAMPLE);
    sys := Next(s5, Claim(12), EXAMPLE);
    var m5 := [Claim(12)] + [];
    var m4 := [Read(12, 2, true)] + m5;
    var m3 := [Claim(11)] + m4;
    var m2 := [Read(11, 1, true)] + m3;
    StepsCons(s2, Read(11, 1, true), m3, EXAMPLE);
    StepsCons(s3, Claim(11), m4, EXAMPLE);
    StepsCons(s4, Read(12, 2, true), m5, EXAMPLE);
    StepsCons(s5, Claim(12), [], EXAMPLE);
    StepsConcat(Start(0), first, m2, EXAMPLE);
    events := first + m2;
  }

  /** The second passes while the first is still with the engine. */
  lemma SecondPassesFirst() returns (events: seq<Event>, sys: System)
    ensures sys == Steps(Start(0), events, EXAMPLE)
    ensures sys.clock == 60_000 && 0 in sys.db.users && sys.db.users[0].identity == IdentityVerified
    ensures sys.db.attempts.Keys == {1, 2} && sys.db.attempts[1].status == PROCESSING && sys.db.attempts[1].userId == 0
    ensures sys.db.attempts[2].status == PASSED && sys.db.attempts[2].userId == 0
            && sys.db.attempts[2].purpose == ACCOUNT_ENROLLMENT
    ensures 11 in sys.submitters && SeenFirst(sys.submitters[11])
  {
    var first, s6 := BothClaimed();
    var pass := Evaluation(PASS, "policy-2026", true, 60_000);
    var s7 := Next(s6, Answer(12, Evaluated(pass)), EXAMPLE);
    sys := Next(s7, Write(12), EXAMPLE);
    var m7 := [Write(12)] + [];
    var m6 := [Answer(12, Evaluated(pass))] + m7;
    StepsCons(s6, Answer(12, Evaluated(pass)), m7, EXAMPLE);
    StepsCons(s7, Write(12), [], EXAMPLE);
    StepsConcat(Start(0), first, m6, EXAMPLE);
    events := first + m6;
  }

  /**
   * Such a run exists: the first attempt then fails and takes the verified flag back, though a
   * passed attempt remains.
   */
  lemma VerifiedFlagCanBeLost() returns (verified: seq<Event>, more: seq<Event>)
    ensures var before, after := Steps(Start(0), verified, EXAMPLE).db, Steps(Start(0), verified + more, EXAMPLE).db;
            && 0 in before.users && before.users[0].identity == IdentityVerified
            && 0 in after.users && after.users[0].identity == IdentityRetry && HasPassed(after, 0, ACCOUNT_ENROLLMENT)
  {
    var s8;
    verified, s8 := SecondPassesFirst();
    var fail := Evaluation(FAIL, "policy-2026", true, 60_000);
    var s9 := Next(s8, Answer(11, Evaluated(fail)), EXAMPLE);
    var s10 := Next(s9, Write(11), EXAMPLE);
    assert s10.db.attempts[2] == s8.db.attempts[2];
    var r9 := [Write(11)] + [];
    more := [Answer(11, Evaluated(fail))] + r9;
    StepsCons(s8, Answer(11, Evaluated(fail)), r9, EXAMPLE);
    StepsCons(s9, Write(11), [], EXAMPLE);
    StepsConcat(Start(0), verified, more, EXAMPLE);
  }

  predicate GivesUp(sys: System, event: Event, id: Id) {
    && event.Write? && event.submitter in sys.submitters
    && sys.submitters[event.submitter].GivingUp? && sys.submitters[event.submitter].id == id
  }

  /** The retry date of the last unavailability that a run records on the attempt. */
  function LastDate(sys: System, events: seq<Event>, id: Id, policy: Policy): Option<Time>
    decreases |events|
  {
    if events == [] then None
    else
      var later := LastDate(Next(sys, events[0], policy), events[1..], id, policy);
      if later == None && GivesUp(sys, events[0], id) then Some(sys.submitters[events[0].submitter].nextTry) else later
  }

  predicate Claimable(status: AttemptStatus) { status in {MEDIA_PENDING, PROVIDER_UNAVAILABLE} }

  /** An attempt comes to be claimable, or changes its date while it is, only by an unavailability. */
  lemma DateMoves(sys: System, event: Event, id: Id, policy: Policy)
    requires SubmittersInv(sys) && id in sys.db.attempts
    ensures id in Next(sys, event, policy).db.attempts
    ensures var before, after := sys.db.attempts[id], Next(sys, event, policy).db.attempts[id];
            if GivesUp(sys, event, id) then after.retryAfter == Some(sys.submitters[event.submitter].nextTry)
            else Claimable(after.status) ==> Claimable(before.status) && after.retryAfter == before.retryAfter
  {
  }

  lemma {:induction false} DateIsTheLast(sys: System, events: seq<Event>, id: Id, policy: Policy)
    requires SystemInv(sys, policy) && id in sys.db.attempts
    ensures id in Steps(sys, events, policy).db.attempts
    ensures var before, after := sys.db.attempts[id], Steps(sys, events, policy).db.attempts[id];
            Claimable(after.status) ==>
              after.retryAfter == if LastDate(sys, events, id, policy) == None then before.retryAfter
                                  else LastDate(sys, events, id, policy)
    ensures LastDate(sys, events, id, policy) == None
            && Claimable(Steps(sys, events, policy).db.attempts[id].status) ==>
              Claimable(sys.db.attempts[id].status)
    decreases |events|
  {
    if events != [] {
      StepKeepsInv(sys, events[0], policy);
      DateMoves(sys, events[0], id, policy);
      DateIsTheLast(Next(sys, events[0], policy), events[1..], id, policy);
    }
  }

  lemma {:induction false} ClockGrows(sys: System, events: seq<Event>, policy: Policy)
    ensures sys.clock <= Steps(sys, events, policy).clock
    decreases |events|
  {
    if events != [] { ClockGrows(Next(sys, events[0], policy), events[1..], policy); }
  }

  /**
   * The claim compares only the status. A submitter that read the row as it is at `sys` can claim
   * before the row's retry date, after any run, exactly when the last unavailability recorded since
   * that read set a date still to come.
   */
  lemma ClaimsEarlyExactly(sys: System, p: Id, events: seq<Event>, policy: Policy)
    requires SystemInv(sys, policy) && p in sys.submitters && sys.submitters[p].Ready?
    requires sys.submitters[p].id in sys.db.attempts && sys.submitters[p].seen == sys.db.attempts[sys.submitters[p].id]
    requires var last, s := Steps(sys, events, policy), sys.submitters[p];
             p in last.submitters && last.submitters[p] == s && CanClaim(last.db, s.id, s.seen)
    ensures var last, s := Steps(sys, events, policy), sys.submitters[p];
            var row, date := last.db.attempts[s.id], LastDate(sys, events, s.id, policy);
            row.retryAfter.Some? && last.clock < row.retryAfter.value <==> date.Some? && last.clock < date.value
  {
    var s := sys.submitters[p];
    assert SubmitterInv(sys.db, sys.clock, s);
    ClockGrows(sys, events, policy);
    DateIsTheLast(sys, events, s.id, policy);
  }

  lemma BothReadTheSameDate() returns (events: seq<Event>, sys: System)
    ensures sys == Steps(Start(0), events, EXAMPLE)
    ensures sys.clock == 60_000 && sys.db.attempts.Keys == {1} && 20 in sys.submitters && 21 in sys.submitters
    ensures sys.db.attempts[1].status == PROVIDER_UNAVAILABLE && sys.db.attempts[1].userId == 0
    ensures sys.submitters[20] == Ready(1, sys.db.attempts[1]) && sys.submitters[21] == Ready(1, sys.db.attempts[1])
  {
    var first, s0 := AnsweredByNobody();
    var s1 := Next(s0, Read(20, 1, true), EXAMPLE);
    sys := Next(s1, Read(21, 1, true), EXAMPLE);
    var r1 := [Read(21, 1, true)] + [];
    var r0 := [Read(20, 1, true)] + r1;
    StepsCons(s0, Read(20, 1, true), r1, EXAMPLE);
    StepsCons(s1, Read(21, 1, true), [], EXAMPLE);
    StepsConcat(Start(0), first, r0, EXAMPLE);
    events := first + r0;
  }

  /** Such a run exists: the slower of two submitters claims after the faster has set a later retry date. */
  lemma EarlyClaimHappens() returns (events: seq<Event>, sys: System)
    ensures sys == Steps(Start(0), events, EXAMPLE)
    ensures 1 in sys.db.attempts && sys.db.attempts[1].retryAfter.Some?
            && sys.clock < sys.db.attempts[1].retryAfter.value
    ensures 21 in sys.submitters && sys.submitters[21].Ready? && CanClaim(sys.db, 1, sys.submitters[21].seen)
  {
    var first, s2 := BothReadTheSameDate();
    var s3 := Next(s2, Claim(20), EXAMPLE);
    var s4 := Next(s3, Answer(20, EngineFailed), EXAMPLE);
    sys := Next(s4, Write(20), EXAMPLE);
    var r4 := [Write(20)] + [];
    var r3 := [Answer(20, EngineFailed)] + r4;
    var r2 := [Claim(20)] + r3;
    StepsCons(s2, Claim(20), r3, EXAMPLE);
    StepsCons(s3, Answer(20, EngineFailed), r4, EXAMPLE);
    StepsCons(s4, Write(20), [], EXAMPLE);
    StepsConcat(Start(0), first, r2, EXAMPLE);
    events := first + r2;
  }
}
