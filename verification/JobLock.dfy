/** `runExclusive`: one lease per job name, released by its owner only, lapsing after a fixed time. */
module JobLock {
  import opened Common
  import opened Leases

  datatype Run = Run(job: string, deadline: Time)

  /** `running` holds every execution of a job's work, including those that have outlived their lease. */
  datatype System = System(table: Table<string>, clock: Time, running: map<Id, Run>, nextOwner: Id)

  datatype Event =
    | Tick(delta: nat)
    | Start(job: string, ttl: nat)
    | Finish(owner: Id)
    | Crash(owner: Id)

  function Next(sys: System, event: Event): System {
    match event
    case Tick(delta) => sys.(clock := sys.clock + delta)
    case Start(job, ttl) =>
      if Held(sys.table, job, sys.clock) then sys
      else sys.(table := Acquired(sys.table, job, sys.nextOwner, ttl, sys.clock),
                running := sys.running[sys.nextOwner := Run(job, sys.clock + ttl)],
                nextOwner := sys.nextOwner + 1)
    case Finish(owner) =>
      if owner in sys.running then
        sys.(table := Released(sys.table, sys.running[owner].job, owner, sys.clock), running := sys.running - {owner})
      else sys
    case Crash(owner) => sys.(running := sys.running - {owner})
  }

  function Steps(sys: System, events: seq<Event>): System
    decreases |events|
  {
    if events == [] then sys else Steps(Next(sys, events[0]), events[1..])
  }

  function StartAt(clock: Time): System { System(map[], clock, map[], 0) }

  /**
   * A run starts exactly while no lease of its job runs, and then has the lease for its time; a
   * late end frees nothing.
   */
  lemma RunsExactly(sys: System, job: string, ttl: nat, owner: Id)
    requires owner in sys.running
    ensures var done := Next(sys, Start(job, ttl));
            if job in sys.table && sys.clock < sys.table[job].expiresAt then done == sys
            else
              && done.table == sys.table[job := Lease(sys.nextOwner, sys.clock + ttl)]
              && done.running == sys.running[sys.nextOwner := Run(job, sys.clock + ttl)]
              && done.nextOwner == sys.nextOwner + 1 && done.clock == sys.clock
    ensures var done, own := Next(sys, Finish(owner)), sys.running[owner].job;
            && done.running == sys.running - {owner}
            && done.table == if own in sys.table && sys.clock < sys.table[own].expiresAt
                 && sys.table[own].owner == owner
                             then sys.table - {own} else sys.table
  {
  }

  /** A run that is still within its time holds its job's lease. */
  ghost predicate Inv(sys: System) {
    forall o :: o in sys.running ==>
      && o < sys.nextOwner
      && (sys.clock < sys.running[o].deadline ==>
            sys.running[o].job in sys.table && sys.table[sys.running[o].job] == Lease(o, sys.running[o].deadline))
  }

  lemma StepKeepsInv(sys: System, event: Event)
    requires Inv(sys)
    ensures Inv(Next(sys, event))
  {
  }

  lemma {:induction false} RunKeepsInv(sys: System, events: seq<Event>)
    requires Inv(sys)
    ensures Inv(Steps(sys, events))
    decreases |events|
  {
    if events != [] {
      StepKeepsInv(sys, events[0]);
      RunKeepsInv(Next(sys, events[0]), events[1..]);
    }
  }

  predicate InTime(sys: System, owner: Id) { owner in sys.running && sys.clock < sys.running[owner].deadline }

  /** In every run, two executions of one job that are both within their time are the same execution. */
  lemma AtMostOneInTime(clock: Time, events: seq<Event>, a: Id, b: Id)
    requires InTime(Steps(StartAt(clock), events), a) && InTime(Steps(StartAt(clock), events), b)
    requires Steps(StartAt(clock), events).running[a].job == Steps(StartAt(clock), events).running[b].job
    ensures a == b
  {
    RunKeepsInv(StartAt(clock), events);
  }

  /** Even a run that overstays takes away nobody's lease but its own when it ends. */
  lemma FinishSparesOthers(sys: System, owner: Id, other: Id)
    requires Inv(sys) && InTime(sys, other) && other != owner
    ensures InTime(Next(sys, Finish(owner)), other)
    ensures Held(Next(sys, Finish(owner)).table, sys.running[other].job, sys.clock)
    ensures Next(sys, Finish(owner)).table[sys.running[other].job].owner == other
  {
    if owner in sys.running {
      ReleaseSparesOthers(sys.table, sys.running[owner].job, owner, sys.clock, sys.running[other].job);
    }
  }

  /** Two runs of one job overlap only after the first has outlived its lease. */
  lemma OverlapMeansOverrun(sys: System, job: string, ttl: nat, owner: Id)
    requires Inv(sys) && owner in sys.running && sys.running[owner].job == job
    requires Next(sys, Start(job, ttl)) != sys
    ensures sys.running[owner].deadline <= sys.clock
  {
  }

  /** The two Redis commands as the service issues them. */
  class LockService {
    var table: Table<string>

    constructor ()
      ensures table == map[]
    {
      table := map[];
    }

    method SetIfAbsent(key: string, owner: Id, ttl: Time, now: Time) returns (acquired: bool)
      modifies this
      ensures acquired <==> !Held(old(table), key, now)
      ensures table == Acquired(old(table), key, owner, ttl, now)
    {
      if key in table && now < table[key].expiresAt { return false; }
      table := table[key := Lease(owner, now + ttl)];
      return true;
    }

    method DeleteIfOwner(key: string, owner: Id, now: Time) returns (deleted: bool)
      modifies this
      ensures deleted <==> Held(old(table), key, now) && old(table)[key].owner == owner
      ensures table == Released(old(table), key, owner, now)
    {
      if key !in table || table[key].expiresAt <= now || table[key].owner != owner { return false; }
      table := table - {key};
      return true;
    }
  }
}
