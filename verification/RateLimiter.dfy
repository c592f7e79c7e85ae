/**
 * The fixed-window limiter. A call runs one increment script for each of its dimensions, all at
 * once, so the scripts of different calls interleave; rejected calls have counted too.
 */
module RateLimiter {
  import opened Common

  const WINDOW: nat := 60_000

  datatype Counter = Counter(count: nat, expiresAt: Time)

  type Counters = map<string, Counter>

  /** The script: increment, and start the expiry only when the count becomes one. */
  function Bumped(counters: Counters, key: string, now: Time): Counter {
    if key in counters && now < counters[key].expiresAt then
      Counter(counters[key].count + 1, counters[key].expiresAt)
    else Counter(1, now + WINDOW)
  }

  /** One script of one call. */
  datatype Script = Script(call: Id, key: string, at: Time)

  function After(counters: Counters, script: Script): Counters {
    counters[script.key := Bumped(counters, script.key, script.at)]
  }

  predicate Passes(counters: Counters, script: Script, limit: nat) {
    Bumped(counters, script.key, script.at).count <= limit
  }

  /** A script opens a new window of a minute or counts within the one that runs, which it does not prolong. */
  lemma CountsExactly(counters: Counters, script: Script, limit: nat)
    ensures var k, now := script.key, script.at;
            var after := After(counters, script);
            if k in counters && now < counters[k].expiresAt
            then after == counters[k := Counter(counters[k].count + 1, counters[k].expiresAt)]
                 && (Passes(counters, script, limit) <==> counters[k].count < limit)
            else after == counters[k := Counter(1, now + 60_000)] && (Passes(counters, script, limit) <==> 1 <= limit)
  {
  }

  // ---- Runs ---------------------------------------------------------------------------------

  ghost predicate Ordered(scripts: seq<Script>, from: Time)
    decreases |scripts|
  {
    scripts == [] || (from <= scripts[0].at && Ordered(scripts[1..], scripts[0].at))
  }

  /** Every script of the call that the run holds returned a count within the limit: the call is not rejected. */
  predicate NeverRejected(counters: Counters, scripts: seq<Script>, call: Id, limit: nat)
    decreases |scripts|
  {
    scripts == [] || ((scripts[0].call == call ==> Passes(counters, scripts[0], limit))
                      && NeverRejected(After(counters, scripts[0]), scripts[1..], call, limit))
  }

  predicate Counts(script: Script, key: string, start: Time, end: Time)
  {
    script.key == key && start <= script.at < end
  }

  /** The calls that count the key at a time in [start, end) and are not rejected for any dimension. */
  function Admitted(counters: Counters, scripts: seq<Script>, key: string, start: Time, end: Time,
                    limit: nat): set<Id> {
    set s | s in scripts && Counts(s, key, start, end) && NeverRejected(counters, scripts, s.call, limit) :: s.call
  }

  /** How many scripts on the key at a time in [start, end) return a count within the limit. */
  function Passed(counters: Counters, scripts: seq<Script>, key: string, start: Time, end: Time, limit: nat): nat
    decreases |scripts|
  {
    if scripts == [] then 0
    else (if Counts(scripts[0], key, start, end) && Passes(counters, scripts[0], limit) then 1 else 0)
         + Passed(After(counters, scripts[0]), scripts[1..], key, start, end, limit)
  }

  function PassedBy(counters: Counters, scripts: seq<Script>, key: string, start: Time, end: Time, limit: nat): set<Id>
    decreases |scripts|
  {
    if scripts == [] then {}
    else (if Counts(scripts[0], key, start, end) && Passes(counters, scripts[0], limit) then {scripts[0].call} else {})
         + PassedBy(After(counters, scripts[0]), scripts[1..], key, start, end, limit)
  }

  lemma {:induction false} FewCallsPass(counters: Counters, scripts: seq<Script>, key: string, start: Time,
                                        end: Time, limit: nat)
    ensures |PassedBy(counters, scripts, key, start, end, limit)| <= Passed(counters, scripts, key, start, end, limit)
    decreases |scripts|
  {
    if scripts != [] { FewCallsPass(After(counters, scripts[0]), scripts[1..], key, start, end, limit); }
  }

  lemma {:induction false} AdmittedPasses(counters: Counters, scripts: seq<Script>, s: Script, start: Time,
                                          end: Time, limit: nat)
    requires s in scripts && start <= s.at < end && NeverRejected(counters, scripts, s.call, limit)
    ensures s.call in PassedBy(counters, scripts, s.key, start, end, limit)
    decreases |scripts|
  {
    if s != scripts[0] { AdmittedPasses(After(counters, scripts[0]), scripts[1..], s, start, end, limit); }
  }

  /** Admitted calls are no more than the scripts that pass. */
  lemma AdmittedWithinPassed(counters: Counters, scripts: seq<Script>, key: string, start: Time, end: Time, limit: nat)
    ensures |Admitted(counters, scripts, key, start, end, limit)| <= Passed(counters, scripts, key, start, end, limit)
  {
    forall c | c in Admitted(counters, scripts, key, start, end, limit)
        ensures c in PassedBy(counters, scripts, key, start, end, limit) {
      var s :| s in scripts && Counts(s, key, start, end) && NeverRejected(counters, scripts, s.call, limit)
          && s.call == c;
      AdmittedPasses(counters, scripts, s, start, end, limit);
    }
    SubsetSize(Admitted(counters, scripts, key, start, end, limit),
               PassedBy(counters, scripts, key, start, end, limit));
    FewCallsPass(counters, scripts, key, start, end, limit);
  }

  // ---- The bound ----------------------------------------------------------------------------

  function Remaining(count: nat, limit: nat): nat { if count < limit then limit - count else 0 }

  /**
   * An upper bound on what can still pass before `end`: the rest of the current window, and one
   * more if it ends first.
   */
  function Budget(counters: Counters, key: string, now: Time, end: Time, limit: nat): nat {
    if key !in counters || counters[key].expiresAt <= now then limit
    else if end <= counters[key].expiresAt then Remaining(counters[key].count, limit)
    else Remaining(counters[key].count, limit) + limit
  }

  lemma OrderedFrom(scripts: seq<Script>, later: Time, earlier: Time)
    requires Ordered(scripts, later) && earlier <= later
    ensures Ordered(scripts, earlier)
  {
  }

  lemma {:induction false} NothingAfterEnd(counters: Counters, scripts: seq<Script>, key: string, start: Time,
                                           end: Time, limit: nat)
    requires Ordered(scripts, end)
    ensures Passed(counters, scripts, key, start, end, limit) == 0
    decreases |scripts|
  {
    if scripts != [] {
      OrderedFrom(scripts[1..], scripts[0].at, end);
      NothingAfterEnd(After(counters, scripts[0]), scripts[1..], key, start, end, limit);
    }
  }

  lemma StepBudget(counters: Counters, script: Script, key: string, now: Time, start: Time, end: Time, limit: nat)
    requires start <= now <= script.at < end <= start + WINDOW
    ensures Budget(After(counters, script), key, script.at, end, limit)
            + (if script.key == key && Passes(counters, script, limit) then 1 else 0)
            <= Budget(counters, key, now, end, limit)
  {
  }

  lemma {:induction false} WithinBudget(counters: Counters, scripts: seq<Script>, key: string, now: Time,
                                        start: Time, end: Time, limit: nat)
    requires Ordered(scripts, now) && start <= now && end <= start + WINDOW
    ensures Passed(counters, scripts, key, start, end, limit) <= Budget(counters, key, now, end, limit)
    decreases |scripts|
  {
    if scripts != [] {
      if scripts[0].at < end {
        StepBudget(counters, scripts[0], key, now, start, end, limit);
        WithinBudget(After(counters, scripts[0]), scripts[1..], key, scripts[0].at, start, end, limit);
      } else {
        OrderedFrom(scripts, scripts[0].at, end);
        NothingAfterEnd(counters, scripts, key, start, end, limit);
      }
    }
  }

  lemma {:induction false} PassedAtMostTwice(counters: Counters, scripts: seq<Script>, key: string, from: Time,
                                             start: Time, limit: nat)
    requires Ordered(scripts, from)
    ensures Passed(counters, scripts, key, start, start + WINDOW, limit) <= 2 * limit
    decreases |scripts|
  {
    if scripts != [] {
      if scripts[0].at < start {
        PassedAtMostTwice(After(counters, scripts[0]), scripts[1..], key, scripts[0].at, start, limit);
      } else {
        OrderedFrom(scripts, scripts[0].at, start);
        WithinBudget(counters, scripts, key, start, start, start + WINDOW, limit);
      }
    }
  }

  /**
   * However the scripts of calls interleave, any interval of one window length admits at most twice
   * the limit of calls for a key.
   */
  lemma AtMostTwiceTheLimit(counters: Counters, scripts: seq<Script>, key: string, from: Time, start: Time, limit: nat)
    requires Ordered(scripts, from)
    ensures |Admitted(counters, scripts, key, start, start + WINDOW, limit)| <= 2 * limit
  {
    PassedAtMostTwice(counters, scripts, key, from, start, limit);
    AdmittedWithinPassed(counters, scripts, key, start, start + WINDOW, limit);
  }

  /** Within one window of a key, from its first script to its expiry, at most the limit of calls is admitted. */
  lemma AtMostTheLimitPerWindow(counters: Counters, scripts: seq<Script>, key: string, from: Time, limit: nat)
    requires Ordered(scripts, from)
    requires key !in counters || counters[key].expiresAt <= from
    ensures |Admitted(counters, scripts, key, from, from + WINDOW, limit)| <= limit
  {
    WithinBudget(counters, scripts, key, from, from, from + WINDOW, limit);
    AdmittedWithinPassed(counters, scripts, key, from, from + WINDOW, limit);
  }

  /** How many scripts on the key the run holds at a time in [start, end), within the limit or not. */
  function Sent(scripts: seq<Script>, key: string, start: Time, end: Time): nat
    decreases |scripts|
  {
    if scripts == [] then 0
    else (if Counts(scripts[0], key, start, end) then 1 else 0) + Sent(scripts[1..], key, start, end)
  }

  /**
   * The window of a key that starts at `from` lets exactly the first scripts through, up to the
   * limit: rejected ones count too.
   */
  lemma {:induction false} RejectedCountToo(counters: Counters, scripts: seq<Script>, key: string, from: Time,
                                            end: Time, limit: nat)
    requires Ordered(scripts, from) && key in counters && end <= counters[key].expiresAt
    ensures Passed(counters, scripts, key, from, end, limit)
            == Min(Sent(scripts, key, from, end), Remaining(counters[key].count, limit))
    decreases |scripts|
  {
    if scripts != [] {
      if scripts[0].at < end {
        LaterStart(After(counters, scripts[0]), scripts[1..], key, from, scripts[0].at, end, limit);
        RejectedCountToo(After(counters, scripts[0]), scripts[1..], key, scripts[0].at, end, limit);
      } else {
        OrderedFrom(scripts, scripts[0].at, end);
        NothingAfterEnd(counters, scripts, key, from, end, limit);
        NothingSentAfterEnd(scripts, key, from, end);
      }
    }
  }

  /** Where the interval starts makes no difference once every script comes later. */
  lemma {:induction false} LaterStart(counters: Counters, scripts: seq<Script>, key: string, start: Time,
                                      later: Time, end: Time, limit: nat)
    requires Ordered(scripts, later) && start <= later
    ensures Passed(counters, scripts, key, start, end, limit) == Passed(counters, scripts, key, later, end, limit)
    ensures Sent(scripts, key, start, end) == Sent(scripts, key, later, end)
    decreases |scripts|
  {
    if scripts != [] {
      OrderedFrom(scripts[1..], scripts[0].at, later);
      LaterStart(After(counters, scripts[0]), scripts[1..], key, start, later, end, limit);
    }
  }

  lemma {:induction false} NothingSentAfterEnd(scripts: seq<Script>, key: string, start: Time, end: Time)
    requires Ordered(scripts, end)
    ensures Sent(scripts, key, start, end) == 0
    decreases |scripts|
  {
    if scripts != [] {
      OrderedFrom(scripts[1..], scripts[0].at, end);
      NothingSentAfterEnd(scripts[1..], key, start, end);
    }
  }

  // ---- The service --------------------------------------------------------------------------

  function Replayed(counters: Counters, scripts: seq<Script>): Counters
    decreases |scripts|
  {
    if scripts == [] then counters else Replayed(After(counters, scripts[0]), scripts[1..])
  }

  /** The keys that a call's scripts have counted, as often as they have. */
  function Own(scripts: seq<Script>, call: Id): multiset<string>
    decreases |scripts|
  {
    if scripts == [] then multiset{}
    else (if scripts[0].call == call then multiset{scripts[0].key} else multiset{}) + Own(scripts[1..], call)
  }

  lemma {:induction false} OneMore(counters: Counters, scripts: seq<Script>, s: Script, call: Id, limit: nat)
    ensures Replayed(counters, scripts + [s]) == After(Replayed(counters, scripts), s)
    ensures Own(scripts + [s], call) == Own(scripts, call) + (if s.call == call then multiset{s.key} else multiset{})
    ensures NeverRejected(counters, scripts + [s], call, limit)
            <==> NeverRejected(counters, scripts, call, limit)
                 && (s.call == call ==> Passes(Replayed(counters, scripts), s, limit))
    decreases |scripts|
  {
    if scripts == [] {
      assert (scripts + [s])[1..] == [];
    } else {
      assert (scripts + [s])[1..] == scripts[1..] + [s];
      OneMore(After(counters, scripts[0]), scripts[1..], s, call, limit);
    }
  }

  /** Scripts of other calls neither count for a call nor reject it. */
  lemma {:induction false} OthersAreNeutral(counters: Counters, scripts: seq<Script>, more: seq<Script>, call: Id,
                                            limit: nat)
    requires forall s :: s in more ==> s.call != call
    ensures Own(scripts + more, call) == Own(scripts, call)
    ensures NeverRejected(counters, scripts + more, call, limit) <==> NeverRejected(counters, scripts, call, limit)
    decreases |more|
  {
    if more == [] {
      assert scripts + more == scripts;
    } else {
      assert scripts + more == (scripts + [more[0]]) + more[1..];
      OneMore(counters, scripts, more[0], call, limit);
      OthersAreNeutral(counters, scripts + [more[0]], more[1..], call, limit);
    }
  }

  class AuthRateLimiter {
    var counters: Counters
    /** Every script run so far. */
    ghost var log: seq<Script>

    ghost predicate Valid()
      reads this
    {
      counters == Replayed(map[], log)
    }

    constructor ()
      ensures Valid() && log == []
    {
      counters, log := map[], [];
    }

    /** Scripts of other calls than the given one. */
    method Interference(call: Id)
      requires Valid()
      modifies this
      ensures Valid() && old(log) <= log && forall s :: s in log[|old(log)|..] ==> s.call != call
    {
    }

    method Increment(script: Script) returns (current: nat)
      requires Valid()
      modifies this
      ensures Valid() && log == old(log) + [script]
      ensures current == Bumped(old(counters), script.key, script.at).count
      ensures if script.key in old(counters) && script.at < old(counters)[script.key].expiresAt
              then counters == old(counters)[script.key := Counter(current, old(counters)[script.key].expiresAt)]
                   && current == old(counters)[script.key].count + 1
              else counters == old(counters)[script.key := Counter(current, script.at + 60_000)] && current == 1
    {
      OneMore(map[], log, script, script.call, 0);
      if script.key in counters && script.at < counters[script.key].expiresAt {
        current := counters[script.key].count + 1;
        counters := counters[script.key := Counter(current, counters[script.key].expiresAt)];
      } else {
        current := 1;
        counters := counters[script.key := Counter(current, script.at + WINDOW)];
      }
      log := log + [script];
    }

    /** One script of a call, after whatever others have run. */
    method CountOne(script: Script, limit: nat) returns (within: bool)
      requires Valid()
      modifies this
      ensures Valid() && old(log) <= log
      ensures Own(log, script.call) == Own(old(log), script.call) + multiset{script.key}
      ensures NeverRejected(map[], log, script.call, limit)
              <==> NeverRejected(map[], old(log), script.call, limit) && within
    {
      Interference(script.call);
      ghost var others := log[|old(log)|..];
      assert log == old(log) + others;
      OthersAreNeutral(map[], old(log), others, script.call, limit);
      OneMore(map[], log, script, script.call, limit);
      var count := Increment(script);
      within := count <= limit;
    }

    /**
     * One script for each dimension, in any order, with scripts of other calls in between. All of
     * them run before any count is compared, so a rejected call has counted for every dimension.
     */
    method AssertAllowed(call: Id, times: map<string, Time>, limit: nat) returns (allowed: bool)
      requires Valid() && Own(log, call) == multiset{} && NeverRejected(map[], log, call, limit)
      modifies this
      ensures Valid() && old(log) <= log
      ensures Own(log, call) == multiset(times.Keys)
      ensures allowed <==> NeverRejected(map[], log, call, limit)
    {
      allowed := true;
      var left := times.Keys;
      while left != {}
        invariant left <= times.Keys && Valid() && old(log) <= log
        invariant Own(log, call) == multiset(times.Keys - left)
        invariant allowed <==> NeverRejected(map[], log, call, limit)
        decreases left
      {
        var key :| key in left;
        var within := CountOne(Script(call, key, times[key]), limit);
        allowed := allowed && within;
        assert times.Keys - (left - {key}) == (times.Keys - left) + {key};
        left := left - {key};
      }
      assert times.Keys - left == times.Keys;
    }
  }
}
