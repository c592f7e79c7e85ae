/**
 * The circuit breaker around the citizen registry, with outcomes that may arrive long after the
 * circuit has changed, and the retrying fetch that reports one outcome for each admission.
 */
module CircuitBreaker {
  import opened Common

  datatype State = CLOSED | OPEN | HALF_OPEN

  datatype Breaker = Breaker(state: State, failures: nat, openedAt: Time, probing: bool)

  datatype Settings = Settings(threshold: nat, resetAfter: nat)

  const FRESH := Breaker(CLOSED, 0, 0, false)

  predicate Admits(b: Breaker, now: Time, settings: Settings) {
    match b.state
    case CLOSED => true
    case OPEN => now - b.openedAt >= settings.resetAfter && !b.probing
    case HALF_OPEN => !b.probing
  }

  function Asked(b: Breaker, now: Time, settings: Settings): Breaker {
    match b.state
    case CLOSED => b
    case OPEN => if now - b.openedAt < settings.resetAfter then b else b.(state := HALF_OPEN, probing := true)
    case HALF_OPEN => b.(probing := true)
  }

  function Succeeded(): Breaker { FRESH }

  function Failed(b: Breaker, now: Time, settings: Settings): Breaker {
    var counted := b.(probing := false, failures := b.failures + 1);
    if b.state == HALF_OPEN || settings.threshold <= counted.failures then counted.(state := OPEN, openedAt := now)
    else counted
  }

  /** Closed exactly while consecutive failures are below the threshold; probing exactly while half-open. */
  predicate Inv(b: Breaker, settings: Settings) {
    (b.state == CLOSED <==> b.failures < settings.threshold) && (b.probing <==> b.state == HALF_OPEN)
  }

  // ---- Runs with stale outcomes -------------------------------------------------------------

  /** Outcomes carry no link to the request they belong to, so they may come at any moment. */
  datatype Event =
    | Ask(at: Time)
    | Success(at: Time)
    | Failure(at: Time)

  function Next(b: Breaker, event: Event, settings: Settings): Breaker {
    match event
    case Ask(now) => Asked(b, now, settings)
    case Success(_) => Succeeded()
    case Failure(now) => Failed(b, now, settings)
  }

  function Steps(b: Breaker, events: seq<Event>, settings: Settings): Breaker {
    if events == [] then b else Next(Steps(b, events[..|events| - 1], settings), events[|events| - 1], settings)
  }

  predicate Ordered(events: seq<Event>) { forall i, j :: 0 <= i < j < |events| ==> events[i].at <= events[j].at }

  lemma StepKeepsInv(b: Breaker, event: Event, settings: Settings)
    requires Inv(b, settings) && 0 < settings.threshold
    ensures Inv(Next(b, event, settings), settings)
  {
  }

  lemma {:induction false} RunKeepsInv(b: Breaker, events: seq<Event>, settings: Settings)
    requires Inv(b, settings) && 0 < settings.threshold
    ensures Inv(Steps(b, events, settings), settings)
  {
    if events != [] {
      RunKeepsInv(b, events[..|events| - 1], settings);
    }
  }

  /** The request at place `i` of a run is let through while the circuit is not closed. */
  predicate ProbesAt(b: Breaker, events: seq<Event>, i: nat, settings: Settings)
    requires i < |events|
  {
    var before := Steps(b, events[..i], settings);
    events[i].Ask? && before.state != CLOSED && Admits(before, events[i].at, settings)
  }

  /** After a probe at `since` and without a success, the circuit is either still probing or was reopened later. */
  lemma {:induction false} AfterProbe(b: Breaker, events: seq<Event>, i: nat, k: nat, settings: Settings)
    requires Inv(b, settings) && 0 < settings.threshold && Ordered(events) && i < k <= |events|
    requires ProbesAt(b, events, i, settings)
    requires forall j :: i < j < k ==> !events[j].Success?
    ensures var now := Steps(b, events[..k], settings);
            now.state == HALF_OPEN || (now.state == OPEN && events[i].at <= now.openedAt)
    decreases k
  {
    RunKeepsInv(b, events[..i], settings);
    assert events[..k][..k - 1] == events[..k - 1];
    if k > i + 1 {
      AfterProbe(b, events, i, k - 1, settings);
      RunKeepsInv(b, events[..k - 1], settings);
    }
  }

  /** Two probes with no success between them are at least the reset timeout apart, whatever stale outcomes arrive. */
  lemma ProbesAreSpaced(b: Breaker, events: seq<Event>, i: nat, k: nat, settings: Settings)
    requires Inv(b, settings) && 0 < settings.threshold && Ordered(events) && i < k < |events|
    requires ProbesAt(b, events, i, settings) && ProbesAt(b, events, k, settings)
    requires forall j :: i < j < k ==> !events[j].Success?
    ensures events[i].at + settings.resetAfter <= events[k].at
  {
    AfterProbe(b, events, i, k, settings);
    RunKeepsInv(b, events[..k], settings);
  }

  // ---- The class and the fetch around it ----------------------------------------------------

  datatype Reply =
    | Found
    | InvalidBody
    | Status(code: nat)
    | Network(error: string)
    | Unknown

  datatype FetchResult = Citizen | CitizenNotFound | ResponseError | Unavailable

  /** Errors worth another post: throttling, server errors and four network codes. */
  predicate Retryable(reply: Reply) {
    match reply
    case Status(code) => code == 429 || code >= 500
    case Network(error) => error in {"ECONNABORTED", "ECONNRESET", "ETIMEDOUT", "EAI_AGAIN"}
    case _ => false
  }

  function Classified(reply: Reply): FetchResult {
    match reply
    case Found => Citizen
    case InvalidBody => ResponseError
    case Status(code) => if code == 400 || code == 404 then CitizenNotFound else Unavailable
    case Network(_) => Unavailable
    case Unknown => Unavailable
  }

  /** Not finding a citizen is a healthy answer. */
  predicate Healthy(result: FetchResult) { result == Citizen || result == CitizenNotFound }

  class CitizenCircuit {
    var failures: nat
    var openedAt: Time
    var probing: bool
    var state: State
    const settings: Settings

    ghost function Model(): Breaker
      reads this
    {
      Breaker(state, failures, openedAt, probing)
    }

    constructor (settings: Settings)
      requires 0 < settings.threshold
      ensures this.settings == settings && Model() == FRESH && Inv(Model(), settings)
    {
      this.settings, failures, openedAt, probing, state := settings, 0, 0, false, CLOSED;
    }

    method AssertRequestAllowed(now: Time) returns (allowed: bool)
      requires Inv(Model(), settings)
      modifies this
      ensures allowed <==> old(state) == CLOSED || (old(state) == OPEN && old(openedAt) + settings.resetAfter <= now)
      ensures if allowed && old(state) == OPEN then state == HALF_OPEN && probing
              else state == old(state) && probing == old(probing)
      ensures failures == old(failures) && openedAt == old(openedAt)
      ensures Model() == Asked(old(Model()), now, settings)
      ensures Inv(Model(), settings)
    {
      if state == CLOSED { return true; }
      if state == OPEN {
        if now - openedAt < settings.resetAfter { return false; }
        state := HALF_OPEN;
      }
      if probing { return false; }
      probing := true;
      return true;
    }

    method RecordSuccess()
      requires 0 < settings.threshold
      modifies this
      ensures state == CLOSED && failures == 0 && !probing
      ensures Model() == Succeeded() && Inv(Model(), settings)
    {
      state, failures, openedAt, probing := CLOSED, 0, 0, false;
    }

    method RecordFailure(now: Time)
      requires Inv(Model(), settings) && 0 < settings.threshold
      modifies this
      ensures failures == old(failures) + 1 && !probing
      ensures if old(state) == HALF_OPEN || settings.threshold <= old(failures) + 1
              then state == OPEN && openedAt == now
              else state == old(state) && openedAt == old(openedAt)
      ensures Model() == Failed(old(Model()), now, settings)
      ensures Inv(Model(), settings)
    {
      probing := false;
      failures := failures + 1;
      if state == HALF_OPEN || failures >= settings.threshold {
        state := OPEN;
        openedAt := now;
      }
    }

    /** Other fetches asking and reporting while this one waits for the registry. */
    method Interference()
      requires Inv(Model(), settings)
      modifies this
      ensures Inv(Model(), settings)
    {
    }

    /**
     * An admitted fetch reports exactly one outcome, on the circuit as it stands when the answer
     * arrives: finding the citizen, or learning that there is none, closes it; anything else counts
     * as a failure.
     */
    method FetchAndCache(replies: seq<Reply>, maxRetries: nat, startedAt: Time, finishedAt: Time)
      returns (result: FetchResult, posts: nat, ghost found: Breaker)
      requires Inv(Model(), settings) && 0 < settings.threshold && maxRetries < |replies|
      modifies this
      ensures Inv(Model(), settings)
      ensures posts == 0 <==>
                !(old(state) == CLOSED || (old(state) == OPEN && old(openedAt) + settings.resetAfter <= startedAt))
      ensures posts == 0 ==> result == Unavailable && Model() == old(Model())
      ensures posts > 0 ==>
                && posts <= maxRetries + 1
                && (forall i :: 0 <= i < posts - 1 ==> Passing(replies[i]))
                && (posts <= maxRetries ==> !Passing(replies[posts - 1]))
                && Answers(result, replies[posts - 1])
                && if replies[posts - 1] in {Found, Status(400), Status(404)}
                     then Model() == Breaker(CLOSED, 0, 0, false)
                   else
                     && failures == found.failures + 1 && !probing
                     && if found.state == HALF_OPEN || settings.threshold <= found.failures + 1
                        then state == OPEN && openedAt == finishedAt
                        else state == found.state && openedAt == found.openedAt
    {
      found := Model();
      var allowed := AssertRequestAllowed(startedAt);
      if !allowed { return Unavailable, 0, found; }
      result, posts := RequestWithRetries(replies, maxRetries);
      Interference();
      found := Model();
      if Healthy(result) { RecordSuccess(); } else { RecordFailure(finishedAt); }
    }
  }

  /** Trouble that may pass: throttling, a failing server, or one of four network errors. */
  predicate Passing(reply: Reply) {
    || reply == Status(429) || (reply.Status? && 500 <= reply.code)
    || reply in {Network("ECONNABORTED"), Network("ECONNRESET"), Network("ETIMEDOUT"), Network("EAI_AGAIN")}
  }

  /** What the caller is told. */
  predicate Answers(result: FetchResult, reply: Reply) {
    && (result == Citizen <==> reply == Found)
    && (result == CitizenNotFound <==> reply in {Status(400), Status(404)})
    && (result == ResponseError <==> reply == InvalidBody)
  }

  /** Posts until an answer is final; retries only retryable errors, and at most `maxRetries` times. */
  method RequestWithRetries(replies: seq<Reply>, maxRetries: nat) returns (result: FetchResult, posts: nat)
    requires maxRetries < |replies|
    ensures 1 <= posts <= maxRetries + 1
    ensures Answers(result, replies[posts - 1])
    ensures Healthy(result) <==> replies[posts - 1] in {Found, Status(400), Status(404)}
    ensures forall i :: 0 <= i < posts - 1 ==> Passing(replies[i])
    ensures posts <= maxRetries ==> !Passing(replies[posts - 1])
  {
    var attempt := 0;
    while attempt <= maxRetries
      invariant 0 <= attempt <= maxRetries + 1
      invariant forall i :: 0 <= i < attempt ==> Passing(replies[i])
      invariant attempt <= maxRetries
    {
      var reply := replies[attempt];
      if !Retryable(reply) || attempt == maxRetries {
        return Classified(reply), attempt + 1;
      }
      attempt := attempt + 1;
    }
  }
}
