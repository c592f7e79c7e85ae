/**
 * The promise-queue semaphore that bounds engine calls and password hashes. Releasing wakes the
 * first waiter, but the waiter counts itself only when it resumes, so others can run in between.
 */
module Semaphore {
  import opened Common

  /** `holders` are the calls between acquire and release; `woken` have been resolved but not resumed. */
  datatype State = State(active: int, waiters: seq<Id>, woken: seq<Id>, holders: set<Id>)

  datatype Event =
    | Acquire(call: Id)
    | Resume(call: Id)
    | Release(call: Id)

  predicate Idle(s: State, call: Id) { call !in s.holders && call !in s.waiters && call !in s.woken }

  function Without(calls: seq<Id>, call: Id): seq<Id> {
    if calls == [] then [] else if calls[0] == call then calls[1..] else [calls[0]] + Without(calls[1..], call)
  }

  /** One step; an event that is not enabled changes nothing. */
  function Next(s: State, event: Event, max: nat): State {
    match event
    case Acquire(call) =>
      if !Idle(s, call) then s
      else if s.active >= max then s.(waiters := s.waiters + [call])
      else s.(active := s.active + 1, holders := s.holders + {call})
    case Resume(call) =>
      if call in s.woken then
        s.(active := s.active + 1, woken := Without(s.woken, call), holders := s.holders + {call})
      else s
    case Release(call) =>
      if call !in s.holders then s
      else
        var freed := s.(active := s.active - 1, holders := s.holders - {call});
        if s.waiters == [] then freed
        else freed.(waiters := s.waiters[1..], woken := s.woken + [s.waiters[0]])
  }

  function Steps(s: State, events: seq<Event>, max: nat): State
    decreases |events|
  {
    if events == [] then s else Steps(Next(s, events[0], max), events[1..], max)
  }

  const EMPTY := State(0, [], [], {})

  ghost predicate NoRepeat(calls: seq<Id>) { forall i, j :: 0 <= i < j < |calls| ==> calls[i] != calls[j] }

  ghost predicate Inv(s: State, max: nat) {
    && s.active == |s.holders|
    && (s.waiters != [] ==> s.active + |s.woken| >= max)
    && NoRepeat(s.waiters) && NoRepeat(s.woken)
    && (forall c :: c in s.woken ==> c !in s.holders && c !in s.waiters)
    && (forall c :: c in s.waiters ==> c !in s.holders)
  }

  lemma {:induction false} WithoutShrinks(calls: seq<Id>, call: Id)
    requires call in calls && NoRepeat(calls)
    ensures |Without(calls, call)| == |calls| - 1
    ensures NoRepeat(Without(calls, call))
    ensures forall c :: c in Without(calls, call) <==> c in calls && c != call
  {
    if calls[0] != call {
      assert calls == [calls[0]] + calls[1..];
      WithoutShrinks(calls[1..], call);
      assert calls[0] !in calls[1..];
      assert calls[0] !in Without(calls[1..], call);
    } else {
      assert forall c :: c in calls[1..] <==> c in calls && c != call;
    }
  }

  lemma StepKeepsInv(s: State, event: Event, max: nat)
    requires Inv(s, max)
    ensures Inv(Next(s, event, max), max)
  {
    if event.Resume? && event.call in s.woken {
      WithoutShrinks(s.woken, event.call);
    }
    if event.Release? && s.waiters != [] {
      assert s.waiters[0] in s.waiters;
      assert forall c :: c in s.waiters[1..] ==> c in s.waiters;
    }
  }

  /**
   * In every interleaving: the counter is the number of holders, and while anybody waits the
   * capacity is taken by holders or by callers already woken, so no wake-up is lost.
   */
  lemma {:induction false} NoLostWakeUp(s: State, events: seq<Event>, max: nat)
    requires Inv(s, max)
    ensures Inv(Steps(s, events, max), max)
    decreases |events|
  {
    if events != [] {
      StepKeepsInv(s, events[0], max);
      NoLostWakeUp(Next(s, events[0], max), events[1..], max);
    }
  }

  // ---- Order of wake-ups --------------------------------------------------------------------

  function QueuedBy(s: State, event: Event, max: nat): seq<Id> {
    if event.Acquire? && Idle(s, event.call) && s.active >= max then [event.call] else []
  }

  function WokenBy(s: State, event: Event): seq<Id> {
    if event.Release? && event.call in s.holders && s.waiters != [] then [s.waiters[0]] else []
  }

  lemma StepMovesQueue(s: State, event: Event, max: nat)
    ensures s.waiters + QueuedBy(s, event, max) == WokenBy(s, event) + Next(s, event, max).waiters
  {
  }

  /** The calls that a run puts in the queue, in order. */
  function Queued(s: State, events: seq<Event>, max: nat): seq<Id>
    decreases |events|
  {
    if events == [] then []
    else QueuedBy(s, events[0], max) + Queued(Next(s, events[0], max), events[1..], max)
  }

  /** The calls that a run wakes, in order. */
  function Wakes(s: State, events: seq<Event>, max: nat): seq<Id>
    decreases |events|
  {
    if events == [] then []
    else WokenBy(s, events[0]) + Wakes(Next(s, events[0], max), events[1..], max)
  }

  /** Wake-ups are first-in first-out: what was queued, in order, is what was woken followed by who still waits. */
  lemma {:induction false} WakesInOrder(s: State, events: seq<Event>, max: nat)
    ensures s.waiters + Queued(s, events, max) == Wakes(s, events, max) + Steps(s, events, max).waiters
    decreases |events|
  {
    if events != [] {
      var s' := Next(s, events[0], max);
      WakesInOrder(s', events[1..], max);
      StepMovesQueue(s, events[0], max);
      Associates(s.waiters, QueuedBy(s, events[0], max), Queued(s', events[1..], max));
      Associates(WokenBy(s, events[0]), s'.waiters, Queued(s', events[1..], max));
      Associates(WokenBy(s, events[0]), Wakes(s', events[1..], max), Steps(s', events[1..], max).waiters);
    }
  }

  lemma Associates(a: seq<Id>, b: seq<Id>, c: seq<Id>)
    ensures a + (b + c) == (a + b) + c
  {
  }

  // ---- The bound, and where it stops --------------------------------------------------------

  /** Capacity spoken for: held, or promised to a woken caller. */
  function Committed(s: State): int { s.active + |s.woken| }

  /** A step takes the commitments past the maximum exactly when a newcomer overtakes a woken caller. */
  lemma OvercommitsExactly(s: State, event: Event, max: nat)
    requires Inv(s, max) && Committed(s) <= max
    ensures Committed(Next(s, event, max)) > max
            <==> event.Acquire? && Idle(s, event.call) && s.active < max && Committed(s) == max
  {
    if event.Resume? && event.call in s.woken {
      WithoutShrinks(s.woken, event.call);
    }
  }

  /** Nobody acquires while a woken caller has yet to resume. */
  ghost predicate Prompt(s: State, events: seq<Event>, max: nat)
    decreases |events|
  {
    events == [] || ((events[0].Acquire? ==> s.woken == []) && Prompt(Next(s, events[0], max), events[1..], max))
  }

  /** If every woken caller resumes before the next acquire, the limit is never exceeded. */
  lemma {:induction false} PromptRunsRespectLimit(s: State, events: seq<Event>, max: nat)
    requires Inv(s, max) && Committed(s) <= max && Prompt(s, events, max)
    ensures Steps(s, events, max).active <= max
    decreases |events|
  {
    if events != [] {
      StepKeepsInv(s, events[0], max);
      OvercommitsExactly(s, events[0], max);
      PromptRunsRespectLimit(Next(s, events[0], max), events[1..], max);
    }
  }

  /** Without that, two calls can hold a semaphore of one. */
  lemma OvertakingExceedsLimit()
    ensures Steps(EMPTY, [Acquire(0), Acquire(1), Release(0), Acquire(2), Resume(1)], 1).active == 2
  {
    var events := [Acquire(0), Acquire(1), Release(0), Acquire(2), Resume(1)];
    var s1 := Next(EMPTY, events[0], 1);
    var s2 := Next(s1, events[1], 1);
    var s3 := Next(s2, events[2], 1);
    var s4 := Next(s3, events[3], 1);
    assert s4.woken == [1] && s4.active == 1;
    assert Next(s4, events[4], 1).active == 2;
    assert events[1..][1..][1..][1..] == [Resume(1)];
    assert Steps(s4, [Resume(1)], 1) == Steps(Next(s4, Resume(1), 1), [], 1) by { assert [Resume(1)][1..] == []; }
    assert Steps(s3, events[3..], 1) == Steps(s4, events[4..], 1) by { assert events[3..][1..] == events[4..]; }
    assert Steps(s2, events[2..], 1) == Steps(s3, events[3..], 1) by { assert events[2..][1..] == events[3..]; }
    assert Steps(s1, events[1..], 1) == Steps(s2, events[2..], 1) by { assert events[1..][1..] == events[2..]; }
  }

  // ---- The two private methods --------------------------------------------------------------

  class Gate {
    var active: int
    var waiters: seq<Id>
    ghost var woken: seq<Id>
    ghost var holders: set<Id>
    const max: nat

    ghost function Model(): State
      reads this
    {
      State(active, waiters, woken, holders)
    }

    constructor (max: nat)
      ensures this.max == max && Model() == EMPTY
    {
      this.max, active, waiters := max, 0, [];
      woken, holders := [], {};
    }

    /** The synchronous part of acquire: take a place, or queue and suspend. */
    method Enter(call: Id) returns (entered: bool)
      requires Idle(Model(), call)
      modifies this
      ensures Model() == Next(old(Model()), Acquire(call), max)
      ensures entered <==> call in holders
    {
      if active >= max {
        waiters := waiters + [call];
        return false;
      }
      active := active + 1;
      holders := holders + {call};
      return true;
    }

    /** What runs when a queued caller's promise has been resolved. */
    method Continue(call: Id)
      requires call in woken
      modifies this
      ensures Model() == Next(old(Model()), Resume(call), max)
    {
      active := active + 1;
      woken := Without(woken, call);
      holders := holders + {call};
    }

    method Leave(call: Id)
      requires call in holders
      modifies this
      ensures Model() == Next(old(Model()), Release(call), max)
    {
      active := active - 1;
      holders := holders - {call};
      if waiters != [] {
        woken := woken + [waiters[0]];
        waiters := waiters[1..];
      }
    }
  }
}
