/**
 * Sharing one registry lookup among concurrent callers: the adapter keeps a map from a citizen's
 * digest to the fetch in flight, joins it, and deletes the entry when that fetch ends.
 */
module Coalescing {
  import opened Common

  /** Settled is the moment between a fetch's outcome and the deletion of its entry. */
  datatype Stage = Running | Settled | Done

  datatype Fetch = Fetch(key: string, stage: Stage, answer: Option<Id>)

  /** `joined` says which fetch each caller awaits. */
  datatype State = State(inFlight: map<string, Id>, fetches: map<Id, Fetch>, joined: map<Id, Id>, nextId: Id)

  const EMPTY := State(map[], map[], map[], 0)

  datatype Event =
    | Lookup(caller: Id, key: string)
    | Settle(fetch: Id, answer: Id)
    | Delete(fetch: Id)

  /** One step; an event that is not enabled changes nothing. A lookup here is one that missed the cache. */
  function Next(s: State, event: Event): State {
    match event
    case Lookup(caller, key) =>
      if caller in s.joined then s
      else if key in s.inFlight then s.(joined := s.joined[caller := s.inFlight[key]])
      else State(s.inFlight[key := s.nextId], s.fetches[s.nextId := Fetch(key, Running, None)],
                 s.joined[caller := s.nextId], s.nextId + 1)
    case Settle(f, answer) =>
      if f in s.fetches && s.fetches[f].stage == Running then
        s.(fetches := s.fetches[f := s.fetches[f].(stage := Settled, answer := Some(answer))])
      else s
    case Delete(f) =>
      if f in s.fetches && s.fetches[f].stage == Settled then
        s.(inFlight := s.inFlight - {s.fetches[f].key}, fetches := s.fetches[f := s.fetches[f].(stage := Done)])
      else s
  }

  function Steps(s: State, events: seq<Event>): State
    decreases |events|
  {
    if events == [] then s else Steps(Next(s, events[0]), events[1..])
  }

  /** The map holds exactly the fetches that have not ended, each under its own key. */
  ghost predicate Inv(s: State) {
    && (forall f :: f in s.fetches ==>
          && f < s.nextId
          && (s.fetches[f].answer.None? <==> s.fetches[f].stage == Running)
          && (s.fetches[f].stage != Done <==> s.fetches[f].key in s.inFlight && s.inFlight[s.fetches[f].key] == f))
    && (forall k :: k in s.inFlight ==> s.inFlight[k] in s.fetches && s.fetches[s.inFlight[k]].key == k)
    && (forall c :: c in s.joined ==> s.joined[c] in s.fetches)
  }

  lemma StepKeepsInv(s: State, event: Event)
    requires Inv(s)
    ensures Inv(Next(s, event))
  {
  }

  lemma {:induction false} RunKeepsInv(s: State, events: seq<Event>)
    requires Inv(s)
    ensures Inv(Steps(s, events))
    decreases |events|
  {
    if events != [] {
      StepKeepsInv(s, events[0]);
      RunKeepsInv(Next(s, events[0]), events[1..]);
    }
  }

  /** In every interleaving at most one fetch of a citizen is in flight. */
  lemma OneFetchPerCitizen(events: seq<Event>, f: Id, g: Id)
    requires var fetches := Steps(EMPTY, events).fetches;
             f in fetches && g in fetches && fetches[f].key == fetches[g].key && fetches[f].stage != Done
                 && fetches[g].stage != Done
    ensures f == g
  {
    RunKeepsInv(EMPTY, events);
  }

  /** The deletion that follows a fetch removes that fetch's own entry and no other. */
  lemma DeletesOwnEntry(s: State, f: Id)
    requires Inv(s) && f in s.fetches && s.fetches[f].stage == Settled
    ensures s.fetches[f].key in s.inFlight && s.inFlight[s.fetches[f].key] == f
    ensures Next(s, Delete(f)).inFlight == map k | k in s.inFlight && s.inFlight[k] != f :: s.inFlight[k]
  {
    forall k | k in s.inFlight && s.inFlight[k] == f ensures k == s.fetches[f].key {
    }
  }

  /** How many fetches of the key a run starts. */
  function Starts(s: State, events: seq<Event>, key: string): nat
    decreases |events|
  {
    if events == [] then 0
    else (if events[0].Lookup? && events[0].key == key && events[0].caller !in s.joined
             && key !in s.inFlight then 1 else 0)
         + Starts(Next(s, events[0]), events[1..], key)
  }

  /** How many fetches of the key a run ends. */
  function Ends(s: State, events: seq<Event>, key: string): nat
    decreases |events|
  {
    if events == [] then 0
    else (if key in s.inFlight
             && key !in Next(s, events[0]).inFlight then 1 else 0)
         + Ends(Next(s, events[0]), events[1..], key)
  }

  function Pending(s: State, key: string): nat { if key in s.inFlight then 1 else 0 }

  /**
   * Starts and ends alternate: however many callers ask, a citizen is fetched again only after the
   * last fetch ended.
   */
  lemma {:induction false} StartsBalanceEnds(s: State, events: seq<Event>, key: string)
    ensures Pending(s, key) + Starts(s, events, key) == Ends(s, events, key) + Pending(Steps(s, events), key)
    decreases |events|
  {
    if events != [] {
      StartsBalanceEnds(Next(s, events[0]), events[1..], key);
    }
  }

  /** A caller keeps the fetch it joined, which is of its own citizen and whose answer, once there, never changes. */
  lemma {:induction false} CallerGetsItsFetch(s: State, events: seq<Event>, caller: Id, key: string)
    requires Inv(s) && caller !in s.joined
    ensures var s', last := Next(s, Lookup(caller, key)), Steps(Next(s, Lookup(caller, key)), events);
            && caller in s'.joined && caller in last.joined && last.joined[caller] == s'.joined[caller]
            && last.joined[caller] in last.fetches && last.fetches[last.joined[caller]].key == key
            && s'.fetches[s'.joined[caller]].stage != Done
  {
    var s' := Next(s, Lookup(caller, key));
    StepKeepsInv(s, Lookup(caller, key));
    JoinIsStable(s', events, caller);
  }

  lemma {:induction false} JoinIsStable(s: State, events: seq<Event>, caller: Id)
    requires Inv(s) && caller in s.joined
    ensures var last := Steps(s, events);
            && caller in last.joined && last.joined[caller] == s.joined[caller]
            && last.joined[caller] in last.fetches
            && last.fetches[s.joined[caller]].key == s.fetches[s.joined[caller]].key
            && (s.fetches[s.joined[caller]].answer.Some? ==>
                  last.fetches[s.joined[caller]].answer == s.fetches[s.joined[caller]].answer)
    decreases |events|
  {
    if events != [] {
      StepKeepsInv(s, events[0]);
      JoinIsStable(Next(s, events[0]), events[1..], caller);
    }
  }

  // ---- The adapter's part -------------------------------------------------------------------

  class NidaCitizenAdapter {
    var inFlight: map<string, Id>
    var nextId: Id
    ghost var fetches: map<Id, Fetch>
    ghost var joined: map<Id, Id>

    ghost function Model(): State
      reads this
    {
      State(inFlight, fetches, joined, nextId)
    }

    constructor ()
      ensures Model() == EMPTY
    {
      inFlight, nextId := map[], 0;
      fetches, joined := map[], map[];
    }

    /** A cached answer needs no fetch; otherwise the fetch in flight is joined, or one is started and entered. */
    method FindByNationalId(caller: Id, key: string, cached: Option<Id>) returns (request: Option<Id>)
      requires caller !in joined
      modifies this
      ensures request.None? <==> cached.Some?
      ensures cached.Some? ==> Model() == old(Model())
      ensures cached.None? ==>
              Model() == Next(old(Model()), Lookup(caller, key)) && caller in joined && request == Some(joined[caller])
    {
      if cached.Some? { return None; }
      if key in inFlight {
        joined := joined[caller := inFlight[key]];
        return Some(inFlight[key]);
      }
      request := Some(nextId);
      fetches := fetches[nextId := Fetch(key, Running, None)];
      joined := joined[caller := nextId];
      inFlight := inFlight[key := nextId];
      nextId := nextId + 1;
    }

    /** What runs when the fetch that was started for `key` has settled. */
    method Finally(fetch: Id, key: string)
      requires fetch in fetches && fetches[fetch].stage == Settled && fetches[fetch].key == key
      modifies this`inFlight, this`fetches
      ensures Model() == Next(old(Model()), Delete(fetch))
    {
      inFlight := inFlight - {key};
      fetches := fetches[fetch := fetches[fetch].(stage := Done)];
    }
  }
}
