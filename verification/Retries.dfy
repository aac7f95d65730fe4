/**
  That a resynchronisation gets on: what it does next after every input, in
  terms of the observed trace and the options alone, and that it never waits for
  nothing.
*/
module Retries {
  import opened Resync

  /** The session may send another request, after waiting for `delay`. */
  ghost predicate MayRequest<Event>(trace: seq<Signal<Event>>, now: int, delay: int, o: Options) {
    Requests(trace) < o.maxAttempts && now - StartOf(trace) + delay <= o.maxElapsed
  }

  ghost predicate EndsWith<Event(!new)>(trace: seq<Signal<Event>>, signal: Signal<Event>) {
    trace != [] && trace[|trace| - 1] == signal
  }

  /** A request newer than all before it is under way, and nothing is buffered yet. */
  ghost predicate Requesting<Event>(c: Control<Event>, d: Control<Event>) {
    d.active && d.pending.Request? && d.pending.generation > c.generation && d.buffer == [] && !d.retry
  }

  ghost predicate Over<Event(!new)>(d: Control<Event>, reason: Reason) {
    && !d.active && d.pending.NoRequest? && !d.retry && !d.deadline && d.buffer == []
    && EndsWith(d.trace, Signal.Failed(reason))
  }

  /** The delays start at the base and double up to the maximum. */
  lemma DelayDoubles(attempt: nat, o: Options)
    requires o.retryBase >= 0
    ensures Delay(1, o) == if o.retryBase < o.retryMax then o.retryBase else o.retryMax
    ensures attempt >= 1 && Delay(attempt, o) < o.retryMax ==>
      Delay(attempt + 1, o) == if 2 * Delay(attempt, o) < o.retryMax then 2 * Delay(attempt, o) else o.retryMax
    ensures attempt >= 1 && Delay(attempt, o) == o.retryMax ==> o.retryMax >= 0 ==> Delay(attempt + 1, o) == o.retryMax
  {
    assert Power(0) == 1;
    if attempt >= 1 {
      assert Power(attempt) == 2 * Power(attempt - 1);
      var backoff := o.retryBase * Power(attempt - 1);
      assert o.retryBase * Power(attempt) == 2 * backoff;
      assert backoff >= 0;
    }
  }

  /** Starting sends a request at once, if any may be sent; a session that is running starts its request over. */
  lemma StartRequests<Event(!new)>(c: Control<Event>, now: int, o: Options)
    requires Valid(c, o)
    ensures
      var d := Handled(c, Start(now), o);
      var may := if c.active then MayRequest(c.trace, now, 0, o) else 0 < o.maxAttempts && 0 <= o.maxElapsed;
      && (may ==>
            && Requesting(c, d) && d.deadline
            && Requests(d.trace) == (if c.active then Requests(c.trace) else 0) + 1)
      && (!may ==> Over(d, RequestFailed))
  {
    hide AllProper;
    var d := Handled(c, Start(now), o);
    var started := c.trace + [Started(now)];
    assert started[..|started| - 1] == c.trace;
    var base := if c.active then c.trace else started;
    assert d.trace[..|d.trace| - 1] == base;
  }

  /** An event that arrives is buffered while there is room; the one too many starts the request over. */
  lemma ArrivalBuffers<Event(!new)>(c: Control<Event>, event: Event, now: int, o: Options)
    requires Valid(c, o)
    ensures
      var d := Handled(c, Arrive(event, now), o);
      && (!c.active ==> d == c)
      && (c.active && |c.buffer| < o.bufferLimit ==>
            d == c.(buffer := c.buffer + [event], trace := c.trace + [Received(event)]))
      && (c.active && |c.buffer| >= o.bufferLimit ==>
            && (MayRequest(c.trace, now, 0, o) ==> Requesting(c, d))
            && (!MayRequest(c.trace, now, 0, o) ==> Over(d, RequestFailed)))
  {
    hide AllProper;
  }

  /**
    The answer to the pending request. A reconciled snapshot after which every
    event buffered since is accepted ends the session in success, having offered
    exactly those events; a terminal one fails it. Anything else is tried again
    later if attempts and time remain for it, and fails the session if not.
  */
  lemma ResponseLeads<Event(!new)>(c: Control<Event>, response: Response, now: int, o: Options)
    requires Valid(c, o) && c.pending.Request?
    ensures
      var d := Handled(c, Respond(c.generation, response, now), o);
      var events := ReceivedSince(c.trace);
      var terminal := response.Snapshot? && response.verdict.Terminal?;
      var applied := response.Snapshot? && response.verdict.Reconciled? && response.accepted >= |events|;
      var reason := if response.Snapshot? then ReconciliationFailed else RequestFailed;
      && (applied ==>
            && !d.active && !d.deadline && !d.retry && d.pending.NoRequest?
            && d.trace == c.trace + [Judged(c.generation, Reconciled)] + Offers(events) + [Succeeded])
      && (terminal ==> Over(d, ReconciliationFailed))
      && (response.Aborted? ==> d == c.(pending := NoRequest))
      && (!applied && !terminal && !response.Aborted? ==>
            if MayRequest(c.trace, now, Delay(Requests(c.trace), o), o)
            then d.active && d.retry && d.pending.NoRequest? && d.deadline && InSession(d.trace)
            else Over(d, reason))
  {
    hide AllProper, ReceivedSince, OfferedSince, LastRequest, Requests, StartOf, Delay;
    PendingIsActive(c, o);
    HandledKeeps(c, Respond(c.generation, response, now), o);
  }

  lemma PendingIsActive<Event(!new)>(c: Control<Event>, o: Options)
    requires Valid(c, o) && c.pending.Request?
    ensures c.active && IsCurrent(c, c.generation) && !c.retry && c.deadline && c.buffer == ReceivedSince(c.trace)
    ensures c.attempt == Requests(c.trace) && c.startedAt == StartOf(c.trace)
  {
  }

  /** A retry that comes due sends the next request, if it still may. */
  lemma RetryRequests<Event(!new)>(c: Control<Event>, now: int, o: Options)
    requires Valid(c, o) && c.retry
    ensures
      var d := Handled(c, RetryFires(now), o);
      && (MayRequest(c.trace, now, 0, o) ==> Requesting(c, d))
      && (!MayRequest(c.trace, now, 0, o) ==> Over(d, RequestFailed))
  {
    hide AllProper;
  }

  /** The deadline ends a session that is still under way. */
  lemma DeadlineEnds<Event(!new)>(c: Control<Event>, o: Options)
    requires Valid(c, o) && c.active
    ensures c.deadline && Over(Handled(c, DeadlineFires, o), RequestFailed)
  {
    hide AllProper;
  }

  ghost predicate NoneAborted<Event(!new)>(inputs: seq<Input<Event>>) {
    forall i :: 0 <= i < |inputs| ==> !(inputs[i].Respond? && inputs[i].response.Aborted?)
  }

  /**
    After any inputs, a session that is under way waits for its request or for
    its next retry, and for its deadline, unless its request was aborted.
  */
  lemma {:induction false} NeverStuck<Event(!new)>(inputs: seq<Input<Event>>, o: Options)
    requires NoneAborted(inputs)
    ensures
      var c := HandledAll(inputs, o);
      c.active ==> (c.pending.Request? || c.retry) && c.deadline
    decreases |inputs|
  {
    hide Valid, TakeSnapshot;
    if inputs != [] {
      var init, last := inputs[..|inputs| - 1], inputs[|inputs| - 1];
      NeverStuck(init, o);
      RunKeeps(init, o);
      var c := HandledAll(init, o);
      GoesOn(c, last, o);
    }
  }

  lemma GoesOn<Event(!new)>(c: Control<Event>, input: Input<Event>, o: Options)
    requires Valid(c, o) && !(input.Respond? && input.response.Aborted?)
    requires c.active ==> (c.pending.Request? || c.retry) && c.deadline
    ensures
      var d := Handled(c, input, o);
      d.active ==> (d.pending.Request? || d.retry) && d.deadline
  {
    hide Valid, AllProper, TakeSnapshot;
    match input
    case Respond(generation, response, now) =>
      if IsCurrent(c, generation) {
        ResponseLeads(c, response, now, o);
      }
    case _ =>
  }
}
