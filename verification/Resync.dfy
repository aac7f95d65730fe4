/**
  The browser's resynchronisation: a bounded number of snapshot requests, with
  the events that arrive meanwhile buffered and offered after the snapshot.
  Callbacks do not call back into the controller; their results, the clock and
  the order of timers and responses are inputs.
*/
module Resync {

  datatype Options = Options(bufferLimit: nat, maxAttempts: nat, maxElapsed: int, retryBase: int, retryMax: int)

  datatype Reason = ReconciliationFailed | RequestFailed

  datatype Verdict = Reconciled | NotReconciled | Terminal

  /** How a request ends; `accepted` buffered events are applied before one is refused. */
  datatype Response = Snapshot(verdict: Verdict, accepted: nat) | Aborted | Failure

  datatype Input<Event> =
    | Start(now: int)
    | Arrive(event: Event, now: int)
    | Stop
    | Respond(generation: nat, response: Response, now: int)
    | RetryFires(now: int)
    | DeadlineFires

  /** What an observer sees of the controller, oldest first. */
  datatype Signal<Event> =
    | Started(at: int)
    | Requested(generation: nat, at: int)
    | Received(event: Event)
    | Judged(generation: nat, verdict: Verdict)
    | Offered(event: Event)
    | Succeeded
    | Failed(reason: Reason)
    | Stopped

  datatype Pending = NoRequest | Request(generation: nat)

  datatype Control<Event> = Control(
    active: bool, attempt: nat, startedAt: int, generation: nat, buffer: seq<Event>,
    pending: Pending, retry: bool, deadline: bool, trace: seq<Signal<Event>>)

  function Power(n: nat): nat {
    if n == 0 then 1 else 2 * Power(n - 1)
  }

  function Delay(attempt: nat, o: Options): int {
    var backoff := o.retryBase * Power(if attempt == 0 then 0 else attempt - 1);
    if backoff < o.retryMax then backoff else o.retryMax
  }

  function HasBudget(attempt: nat, startedAt: int, now: int, delay: int, o: Options): bool {
    attempt < o.maxAttempts && now - startedAt + delay <= o.maxElapsed
  }

  // ----- What an input does -----

  function FailWith<Event>(c: Control<Event>, reason: Reason): Control<Event> {
    c.(pending := NoRequest, retry := false, deadline := false, active := false, buffer := [],
      trace := c.trace + [Failed(reason)])
  }

  function BeginAttempt<Event>(c: Control<Event>, now: int, o: Options): Control<Event> {
    if !c.active then c
    else if !HasBudget(c.attempt, c.startedAt, now, 0, o) then FailWith(c, RequestFailed)
    else
      c.(pending := Request(c.generation + 1), retry := false, attempt := c.attempt + 1, generation := c.generation + 1,
         buffer := [], trace := c.trace + [Requested(c.generation + 1, now)])
  }

  function RetryLater<Event>(c: Control<Event>, reason: Reason, now: int, o: Options): Control<Event> {
    if !c.active then c
    else if !HasBudget(c.attempt, c.startedAt, now, Delay(c.attempt, o), o) then FailWith(c, reason)
    else c.(retry := true)
  }

  ghost function Offers<Event>(events: seq<Event>): (r: seq<Signal<Event>>)
    ensures |r| == |events|
  {
    seq(|events|, i requires 0 <= i < |events| => Offered(events[i]))
  }

  /** A current snapshot: judged, then the buffered events are offered in order until one is refused. */
  ghost function TakeSnapshot<Event>(
      c: Control<Event>, generation: nat, verdict: Verdict, accepted: nat, now: int, o: Options): Control<Event> {
    var judged := c.(pending := NoRequest, trace := c.trace + [Judged(generation, verdict)]);
    match verdict
    case Terminal => FailWith(judged, ReconciliationFailed)
    case NotReconciled => RetryLater(judged, ReconciliationFailed, now, o)
    case Reconciled =>
      var offered := if accepted < |c.buffer| then c.buffer[..accepted + 1] else c.buffer;
      var applied := judged.(buffer := [], trace := judged.trace + Offers(offered));
      if accepted < |c.buffer| then RetryLater(applied, ReconciliationFailed, now, o)
      else applied.(active := false, deadline := false, trace := applied.trace + [Succeeded])
  }

  predicate IsCurrent<Event>(c: Control<Event>, generation: nat) {
    c.active && c.generation == generation && c.pending == Request(generation)
  }

  ghost function Handled<Event>(c: Control<Event>, input: Input<Event>, o: Options): Control<Event> {
    match input
    case Start(now) =>
      var started := if c.active then c
        else c.(active := true, attempt := 0, startedAt := now, deadline := true, trace := c.trace + [Started(now)]);
      BeginAttempt(started, now, o)
    case Arrive(event, now) =>
      var received := c.(trace := c.trace + [Received(event)]);
      if !c.active then c
      else if |c.buffer| < o.bufferLimit then received.(buffer := c.buffer + [event])
      else BeginAttempt(received, now, o)
    case Stop =>
      c.(generation := c.generation + 1, pending := NoRequest, retry := false, deadline := false, active := false,
        buffer := [], trace := c.trace + [Stopped])
    case Respond(generation, response, now) =>
      if !IsCurrent(c, generation) then c
      else
        (match response
         case Snapshot(verdict, accepted) => TakeSnapshot(c, generation, verdict, accepted, now, o)
         case Aborted => c.(pending := NoRequest)
         case Failure => RetryLater(c.(pending := NoRequest), RequestFailed, now, o))
    case RetryFires(now) => if c.retry then BeginAttempt(c.(retry := false), now, o) else c
    case DeadlineFires =>
      if !c.deadline then c
      else if c.active then FailWith(c.(deadline := false), RequestFailed)
      else c.(deadline := false)
  }

  // ----- Reading a trace -----

  ghost function ReceivedSince<Event>(trace: seq<Signal<Event>>): seq<Event> {
    if trace == [] then []
    else
      var init, last := trace[..|trace| - 1], trace[|trace| - 1];
      match last
      case Requested(_, _) => []
      case Received(event) => ReceivedSince(init) + [event]
      case _ => ReceivedSince(init)
  }

  ghost function OfferedSince<Event>(trace: seq<Signal<Event>>): seq<Event> {
    if trace == [] then []
    else
      var init, last := trace[..|trace| - 1], trace[|trace| - 1];
      match last
      case Requested(_, _) => []
      case Offered(event) => OfferedSince(init) + [event]
      case _ => OfferedSince(init)
  }

  /** The last request's snapshot has been reconciled. */
  ghost predicate ReconciledSince<Event>(trace: seq<Signal<Event>>) {
    if trace == [] then false
    else
      var init, last := trace[..|trace| - 1], trace[|trace| - 1];
      match last
      case Requested(_, _) => false
      case Judged(_, verdict) => verdict.Reconciled?
      case _ => ReconciledSince(init)
  }

  /** The newest request, 0 if there was none. */
  ghost function LastRequest<Event>(trace: seq<Signal<Event>>): nat {
    if trace == [] then 0
    else
      var init, last := trace[..|trace| - 1], trace[|trace| - 1];
      if last.Requested? then last.generation else LastRequest(init)
  }

  ghost predicate InSession<Event>(trace: seq<Signal<Event>>) {
    if trace == [] then false
    else
      match trace[|trace| - 1]
      case Started(_) => true
      case Succeeded => false
      case Failed(_) => false
      case Stopped => false
      case _ => InSession(trace[..|trace| - 1])
  }

  /** Requests since the session started. */
  ghost function Requests<Event>(trace: seq<Signal<Event>>): nat {
    if trace == [] then 0
    else
      match trace[|trace| - 1]
      case Started(_) => 0
      case Requested(_, _) => Requests(trace[..|trace| - 1]) + 1
      case _ => Requests(trace[..|trace| - 1])
  }

  ghost function StartOf<Event>(trace: seq<Signal<Event>>): int {
    if trace == [] then 0
    else if trace[|trace| - 1].Started? then trace[|trace| - 1].at
    else StartOf(trace[..|trace| - 1])
  }

  /** What each signal promises about those before it. */
  ghost predicate Proper<Event(!new)>(init: seq<Signal<Event>>, last: Signal<Event>, o: Options) {
    match last
    case Started(_) => !InSession(init)
    case Requested(generation, at) =>
      InSession(init) && generation > LastRequest(init) && Requests(init) < o.maxAttempts
        && at - StartOf(init) <= o.maxElapsed
    case Received(_) => InSession(init)
    case Judged(generation, _) =>
      InSession(init) && generation == LastRequest(init) && !ReconciledSince(init) && OfferedSince(init) == []
    case Offered(event) =>
      InSession(init) && ReconciledSince(init) && OfferedSince(init) + [event] <= ReceivedSince(init)
    case Succeeded => InSession(init) && ReconciledSince(init) && OfferedSince(init) == ReceivedSince(init)
    case Failed(_) => InSession(init)
    case Stopped => true
  }

  ghost predicate AllProper<Event(!new)>(trace: seq<Signal<Event>>, o: Options) {
    forall i :: 0 <= i < |trace| ==> Proper(trace[..i], trace[i], o)
  }

  // ----- Invariant -----

  ghost predicate Valid<Event(!new)>(c: Control<Event>, o: Options) {
    && AllProper(c.trace, o)
    && c.active == InSession(c.trace)
    && c.generation >= LastRequest(c.trace)
    && |c.buffer| <= o.bufferLimit
    && (c.active ==> c.attempt == Requests(c.trace) <= o.maxAttempts && c.startedAt == StartOf(c.trace) && c.deadline)
    && (!c.active ==> c.pending.NoRequest? && !c.retry && c.buffer == [])
    && (c.pending.Request? ==>
          && c.pending.generation == c.generation == LastRequest(c.trace) && !c.retry
          && !ReconciledSince(c.trace) && OfferedSince(c.trace) == [] && c.buffer == ReceivedSince(c.trace))
  }

  lemma Grow<Event(!new)>(trace: seq<Signal<Event>>, signal: Signal<Event>, o: Options)
    requires AllProper(trace, o) && Proper(trace, signal, o)
    ensures AllProper(trace + [signal], o) && (trace + [signal])[..|trace|] == trace
  {
    var all := trace + [signal];
    assert all[..|trace|] == trace;
    forall i | 0 <= i < |all|
      ensures Proper(all[..i], all[i], o)
    {
      if i < |trace| {
        assert all[..i] == trace[..i];
      }
    }
  }

  lemma FailKeeps<Event(!new)>(c: Control<Event>, reason: Reason, o: Options)
    requires AllProper(c.trace, o) && InSession(c.trace) && c.generation >= LastRequest(c.trace)
    ensures Valid(FailWith(c, reason), o)
  {
    Grow(c.trace, Failed(reason), o);
  }

  /** An attempt may begin from any active state: it forgets what was buffered. */
  lemma BeginKeeps<Event(!new)>(c: Control<Event>, now: int, o: Options)
    requires AllProper(c.trace, o) && c.active && InSession(c.trace) && c.generation >= LastRequest(c.trace)
    requires c.deadline
    requires c.attempt == Requests(c.trace) <= o.maxAttempts && c.startedAt == StartOf(c.trace)
    ensures Valid(BeginAttempt(c, now, o), o)
  {
    hide AllProper;
    if HasBudget(c.attempt, c.startedAt, now, 0, o) {
      Grow(c.trace, Requested(c.generation + 1, now), o);
    } else {
      FailKeeps(c, RequestFailed, o);
    }
  }

  lemma RetryKeeps<Event(!new)>(c: Control<Event>, reason: Reason, now: int, o: Options)
    requires Valid(c, o) && c.pending.NoRequest?
    ensures Valid(RetryLater(c, reason, now, o), o)
  {
    if c.active {
      FailKeeps(c, reason, o);
    }
  }

  /** `later` continues `trace` within the same request, after its snapshot was reconciled. */
  ghost predicate Continues<Event(
      !new)>(trace: seq<Signal<Event>>, later: seq<Signal<Event>>, offered: seq<Event>, o: Options) {
    && AllProper(later, o) && InSession(later) && ReconciledSince(later) && OfferedSince(later) == offered
    && ReceivedSince(later) == ReceivedSince(trace) && LastRequest(later) == LastRequest(trace)
    && Requests(later) == Requests(trace) && StartOf(later) == StartOf(trace)
  }

  lemma OfferOne<Event(
      !new)>(trace: seq<Signal<Event>>, later: seq<Signal<Event>>, offered: seq<Event>, event: Event, o: Options)
    requires Continues(trace, later, offered, o) && offered + [event] <= ReceivedSince(trace)
    ensures Continues(trace, later + [Offered(event)], offered + [event], o)
  {
    hide AllProper;
    Grow(later, Offered(event), o);
  }

  /** Offering a prefix of what was received since the request. */
  lemma {:induction false} OffersGrow<Event(!new)>(trace: seq<Signal<Event>>, events: seq<Event>, o: Options)
    requires Continues(trace, trace, [], o) && events <= ReceivedSince(trace)
    ensures Continues(trace, trace + Offers(events), events, o)
    decreases |events|
  {
    hide Continues, ReceivedSince;
    if events == [] {
      assert trace + Offers(events) == trace;
    } else {
      var init, last := events[..|events| - 1], events[|events| - 1];
      OffersGrow(trace, init, o);
      var before := trace + Offers(init);
      assert trace + Offers(events) == before + [Offered(last)];
      assert init + [last] == events;
      OfferOne(trace, before, init, last, o);
    }
  }

  /** The state after the snapshot of the pending request is judged. */
  ghost function JudgedWith<Event>(c: Control<Event>, generation: nat, verdict: Verdict): Control<Event> {
    c.(pending := NoRequest, trace := c.trace + [Judged(generation, verdict)])
  }

  /** A judgement only says whether the snapshot is reconciled. */
  lemma JudgedReads<Event(!new)>(trace: seq<Signal<Event>>, generation: nat, verdict: Verdict)
    ensures
      var later := trace + [Judged(generation, verdict)];
      && InSession(later) == InSession(trace) && ReconciledSince(later) == verdict.Reconciled?
      && OfferedSince(later) == OfferedSince(trace) && ReceivedSince(later) == ReceivedSince(trace)
      && LastRequest(later) == LastRequest(trace) && Requests(later) == Requests(trace)
        && StartOf(later) == StartOf(trace)
  {
    var later := trace + [Judged(generation, verdict)];
    assert later[..|later| - 1] == trace && later[|later| - 1] == Judged(generation, verdict);
  }

  lemma JudgedKeeps<Event(!new)>(c: Control<Event>, generation: nat, verdict: Verdict, o: Options)
    requires Valid(c, o) && IsCurrent(c, generation)
    ensures
      var judged := JudgedWith(c, generation, verdict);
      && Valid(judged, o) && c.buffer == ReceivedSince(judged.trace)
      && (verdict.Reconciled? ==> Continues(judged.trace, judged.trace, [], o))
  {
    hide AllProper, InSession, ReconciledSince, OfferedSince, ReceivedSince, LastRequest, Requests, StartOf;
    JudgedReads(c.trace, generation, verdict);
    Grow(c.trace, Judged(generation, verdict), o);
  }

  lemma AppliedKeeps<Event(!new)>(c: Control<Event>, offered: seq<Event>, o: Options)
    requires Valid(c, o) && c.active && c.pending.NoRequest? && Continues(c.trace, c.trace, [], o)
    requires offered <= ReceivedSince(c.trace)
    ensures
      var applied := c.(buffer := [], trace := c.trace + Offers(offered));
      && Valid(applied, o)
      && (offered == ReceivedSince(c.trace) ==>
            Valid(applied.(active := false, retry := false, deadline := false, trace := applied.trace + [Succeeded]),
              o))
  {
    hide AllProper;
    OffersGrow(c.trace, offered, o);
    if offered == ReceivedSince(c.trace) {
      Grow(c.trace + Offers(offered), Succeeded, o);
    }
  }

  lemma SnapshotKeeps<Event(
      !new)>(c: Control<Event>, generation: nat, verdict: Verdict, accepted: nat, now: int, o: Options)
    requires Valid(c, o) && IsCurrent(c, generation)
    ensures Valid(TakeSnapshot(c, generation, verdict, accepted, now, o), o)
  {
    hide Continues, AllProper, OfferedSince, ReceivedSince, LastRequest, Requests, StartOf;
    JudgedKeeps(c, generation, verdict, o);
    var judged := JudgedWith(c, generation, verdict);
    match verdict
    case Terminal => FailKeeps(judged, ReconciliationFailed, o);
    case NotReconciled => RetryKeeps(judged, ReconciliationFailed, now, o);
    case Reconciled =>
      var offered := if accepted < |c.buffer| then c.buffer[..accepted + 1] else c.buffer;
      AppliedKeeps(judged, offered, o);
      if accepted < |c.buffer| {
        RetryKeeps(judged.(buffer := [], trace := judged.trace + Offers(offered)), ReconciliationFailed, now, o);
      }
  }

  lemma StartKeeps<Event(!new)>(c: Control<Event>, now: int, o: Options)
    requires Valid(c, o)
    ensures Valid(Handled(c, Start(now), o), o)
  {
    hide AllProper;
    if c.active {
      BeginKeeps(c, now, o);
    } else {
      Grow(c.trace, Started(now), o);
      BeginKeeps(c.(active := true, attempt := 0, startedAt := now, deadline := true,
        trace := c.trace + [Started(now)]), now, o);
    }
  }

  lemma ArriveKeeps<Event(!new)>(c: Control<Event>, event: Event, now: int, o: Options)
    requires Valid(c, o)
    ensures Valid(Handled(c, Arrive(event, now), o), o)
  {
    hide AllProper, BeginAttempt;
    if c.active {
      Grow(c.trace, Received(event), o);
      if |c.buffer| >= o.bufferLimit {
        BeginKeeps(c.(trace := c.trace + [Received(event)]), now, o);
      }
    }
  }

  lemma StopKeeps<Event(!new)>(c: Control<Event>, o: Options)
    requires Valid(c, o)
    ensures Valid(Handled(c, Stop, o), o)
  {
    hide AllProper;
    Grow(c.trace, Stopped, o);
  }

  lemma HandledKeeps<Event(!new)>(c: Control<Event>, input: Input<Event>, o: Options)
    requires Valid(c, o)
    ensures Valid(Handled(c, input, o), o)
  {
    hide AllProper, BeginAttempt, RetryLater, TakeSnapshot, Delay;
    match input
    case Start(now) => StartKeeps(c, now, o);
    case Arrive(event, now) => ArriveKeeps(c, event, now, o);
    case Stop => StopKeeps(c, o);
    case Respond(generation, response, now) =>
      if IsCurrent(c, generation) {
        match response
        case Snapshot(verdict, accepted) => SnapshotKeeps(c, generation, verdict, accepted, now, o);
        case Aborted =>
        case Failure => RetryKeeps(c.(pending := NoRequest), RequestFailed, now, o);
      }
    case RetryFires(now) =>
      if c.retry {
        BeginKeeps(c.(retry := false), now, o);
      }
    case DeadlineFires =>
      if c.active {
        FailKeeps(c.(deadline := false), RequestFailed, o);
      }
  }

  // ----- Every sequence of inputs -----

  ghost function Idle<Event>(): Control<Event> {
    Control(false, 0, 0, 0, [], NoRequest, false, false, [])
  }

  ghost function HandledAll<Event>(inputs: seq<Input<Event>>, o: Options): Control<Event> {
    if inputs == [] then Idle() else Handled(HandledAll(inputs[..|inputs| - 1], o), inputs[|inputs| - 1], o)
  }

  lemma {:induction false} RunKeeps<Event(!new)>(inputs: seq<Input<Event>>, o: Options)
    ensures Valid(HandledAll(inputs, o), o)
    decreases |inputs|
  {
    if inputs != [] {
      RunKeeps(inputs[..|inputs| - 1], o);
      HandledKeeps(HandledAll(inputs[..|inputs| - 1], o), inputs[|inputs| - 1], o);
    }
  }

  /**
    After any inputs, whenever a session succeeded, exactly the events received
    since its last request began had been offered, once each and in order, after
    that request's snapshot was reconciled; every earlier offer was such a prefix.
  */
  lemma HandOver<Event(!new)>(inputs: seq<Input<Event>>, o: Options, i: nat)
    requires i < |HandledAll(inputs, o).trace|
    ensures
      var trace := HandledAll(inputs, o).trace;
      && (trace[i].Succeeded? ==> ReconciledSince(trace[..i]) && OfferedSince(trace[..i]) == ReceivedSince(trace[..i]))
      && (trace[i].Offered? ==>
                ReconciledSince(trace[..i]) && OfferedSince(trace[..i]) + [trace[i].event] <= ReceivedSince(trace[..i]))
  {
    RunKeeps(inputs, o);
    var trace := HandledAll(inputs, o).trace;
    assert Proper(trace[..i], trace[i], o);
  }

  /**
    Requests of a session, the time they begin and the buffer stay within their
    bounds, and no request is judged twice.
  */
  lemma Bounds<Event(!new)>(inputs: seq<Input<Event>>, o: Options, i: nat)
    ensures |HandledAll(inputs, o).buffer| <= o.bufferLimit
    ensures
      var trace := HandledAll(inputs, o).trace;
      && (i < |trace| && trace[i].Requested? ==>
            Requests(trace[..i]) < o.maxAttempts && trace[i].at - StartOf(trace[..i]) <= o.maxElapsed
              && trace[i].generation > LastRequest(trace[..i]))
      && (i < |trace| && trace[i].Judged? ==> trace[i].generation == LastRequest(trace[..i]))
  {
    RunKeeps(inputs, o);
    var trace := HandledAll(inputs, o).trace;
    if i < |trace| {
      assert Proper(trace[..i], trace[i], o);
    }
  }

  /** A session ends at most once: between two ends there is a start. */
  lemma EndsOnce<Event(!new)>(inputs: seq<Input<Event>>, o: Options, i: nat, j: nat)
    requires i < j < |HandledAll(inputs, o).trace|
    requires Ends(HandledAll(inputs, o).trace[i]) && Ends(HandledAll(inputs, o).trace[j])
    ensures exists k :: i < k < j && HandledAll(inputs, o).trace[k].Started?
  {
    RunKeeps(inputs, o);
    var trace := HandledAll(inputs, o).trace;
    assert Proper(trace[..j], trace[j], o);
    if forall k :: i < k < j ==> !trace[k].Started? {
      NoSession(trace, i, j);
    }
  }

  predicate Ends<Event>(signal: Signal<Event>) {
    signal.Succeeded? || signal.Failed?
  }

  lemma {:induction false} NoSession<Event(!new)>(trace: seq<Signal<Event>>, i: nat, j: nat)
    requires i < j <= |trace| && Ends(trace[i]) && forall k :: i < k < j ==> !trace[k].Started?
    ensures !InSession(trace[..j])
    decreases j
  {
    assert trace[..j][..j - 1] == trace[..j - 1];
    if i + 1 < j {
      NoSession(trace, i, j - 1);
    }
  }

  /** A response to any request but the pending one changes nothing. */
  lemma StaleIgnored<Event(!new)>(inputs: seq<Input<Event>>, o: Options, generation: nat, response: Response, now: int)
    requires generation != LastRequest(HandledAll(inputs, o).trace) || !InSession(HandledAll(inputs, o).trace)
    ensures Handled(HandledAll(inputs, o), Respond(generation, response, now), o) == HandledAll(inputs, o)
  {
    RunKeeps(inputs, o);
  }

  // ----- The controller -----

  class Controller<Event(!new)> {
    const options: Options
    var active: bool
    var attempt: nat
    var startedAt: int
    var generation: nat
    var buffer: seq<Event>
    var pending: Pending
    var retryTimer: bool
    var deadlineTimer: bool
    ghost var trace: seq<Signal<Event>>

    ghost function Current(): Control<Event>
      reads this
    {
      Control(active, attempt, startedAt, generation, buffer, pending, retryTimer, deadlineTimer, trace)
    }

    constructor (options: Options)
      ensures this.options == options && Current() == Idle() && Valid(Current(), options)
    {
      this.options := options;
      active, attempt, startedAt, generation, buffer := false, 0, 0, 0, [];
      pending, retryTimer, deadlineTimer := NoRequest, false, false;
      trace := [];
    }

    method Start(now: int)
      requires Valid(Current(), options)
      modifies this
      ensures Current() == Handled(old(Current()), Input.Start(now), options) && Valid(Current(), options)
    {
      hide Valid;
      HandledKeeps(Current(), Input.Start(now), options);
      if !active {
        active, attempt, startedAt, deadlineTimer := true, 0, now, true;
        trace := trace + [Started(now)];
      }
      Begin(now);
    }

    /** Whether the event was taken. */
    method BufferEvent(event: Event, now: int) returns (taken: bool)
      requires Valid(Current(), options)
      modifies this
      ensures taken == old(active)
      ensures Current() == Handled(old(Current()), Arrive(event, now), options) && Valid(Current(), options)
    {
      hide Valid;
      HandledKeeps(Current(), Arrive(event, now), options);
      if !active {
        return false;
      }
      trace := trace + [Received(event)];
      if |buffer| < options.bufferLimit {
        buffer := buffer + [event];
        return true;
      }
      Begin(now);
      return true;
    }

    method Stop()
      requires Valid(Current(), options)
      modifies this
      ensures Current() == Handled(old(Current()), Input.Stop, options) && Valid(Current(), options)
    {
      hide Valid;
      HandledKeeps(Current(), Input.Stop, options);
      generation := generation + 1;
      CancelAttempt();
      deadlineTimer := false;
      active := false;
      buffer := [];
      trace := trace + [Stopped];
    }

    method CancelAttempt()
      modifies this
      ensures Current() == old(Current()).(pending := NoRequest, retry := false)
    {
      pending := NoRequest;
      retryTimer := false;
    }

    method Fail(reason: Reason)
      modifies this
      ensures Current() == FailWith(old(Current()), reason)
    {
      CancelAttempt();
      deadlineTimer := false;
      active := false;
      buffer := [];
      trace := trace + [Failed(reason)];
    }

    method Begin(now: int)
      modifies this
      ensures Current() == BeginAttempt(old(Current()), now, options)
    {
      if !active {
        return;
      }
      CancelAttempt();
      if !HasBudget(attempt, startedAt, now, 0, options) {
        Fail(RequestFailed);
        return;
      }
      attempt := attempt + 1;
      generation := generation + 1;
      pending := Request(generation);
      buffer := [];
      trace := trace + [Requested(generation, now)];
    }

    method Retry(reason: Reason, now: int)
      modifies this
      ensures Current() == RetryLater(old(Current()), reason, now, options)
    {
      if !active {
        return;
      }
      var delay := Delay(attempt, options);
      if !HasBudget(attempt, startedAt, now, delay, options) {
        Fail(reason);
        return;
      }
      retryTimer := true;
    }

    /** The request of `of` was answered. */
    method OnResponse(of: nat, response: Response, now: int)
      requires Valid(Current(), options)
      modifies this
      ensures Current() == Handled(old(Current()), Respond(of, response, now), options) && Valid(Current(), options)
    {
      hide Valid;
      HandledKeeps(Current(), Respond(of, response, now), options);
      if !(active && generation == of && pending == Request(of)) {
        return;
      }
      match response {
        case Snapshot(verdict, accepted) =>
          OnSnapshot(of, verdict, accepted, now);
        case Aborted =>
          pending := NoRequest;
        case Failure =>
          pending := NoRequest;
          Retry(RequestFailed, now);
      }
    }

    method OnSnapshot(of: nat, verdict: Verdict, accepted: nat, now: int)
      requires active
      modifies this
      ensures Current() == TakeSnapshot(old(Current()), of, verdict, accepted, now, options)
    {
      pending := NoRequest;
      trace := trace + [Judged(of, verdict)];
      if verdict.Terminal? {
        Fail(ReconciliationFailed);
        return;
      }
      if verdict.NotReconciled? {
        Retry(ReconciliationFailed, now);
        return;
      }
      var buffered := buffer;
      buffer := [];
      var applied := OfferBuffered(buffered, accepted);
      if !applied {
        Retry(ReconciliationFailed, now);
        return;
      }
      active := false;
      deadlineTimer := false;
      trace := trace + [Succeeded];
    }

    /** Offers the events in order, up to and including the first one refused. */
    method OfferBuffered(buffered: seq<Event>, accepted: nat) returns (all: bool)
      modifies this`trace
      ensures all == (accepted >= |buffered|)
      ensures trace == old(trace) + Offers(if all then buffered else buffered[..accepted + 1])
    {
      for i := 0 to |buffered|
        invariant i <= accepted
        invariant trace == old(trace) + Offers(buffered[..i])
      {
        assert Offers(buffered[..i + 1]) == Offers(buffered[..i]) + [Offered(buffered[i])];
        trace := trace + [Offered(buffered[i])];
        if i == accepted {
          return false;
        }
      }
      assert buffered[..|buffered|] == buffered;
      return true;
    }

    method OnRetryTimer(now: int)
      requires Valid(Current(), options)
      modifies this
      ensures Current() == Handled(old(Current()), RetryFires(now), options) && Valid(Current(), options)
    {
      hide Valid;
      HandledKeeps(Current(), RetryFires(now), options);
      if !retryTimer {
        return;
      }
      retryTimer := false;
      Begin(now);
    }

    method OnDeadline()
      requires Valid(Current(), options)
      modifies this
      ensures Current() == Handled(old(Current()), DeadlineFires, options) && Valid(Current(), options)
    {
      hide Valid;
      HandledKeeps(Current(), DeadlineFires, options);
      if !deadlineTimer {
        return;
      }
      deadlineTimer := false;
      if active {
        Fail(RequestFailed);
      }
    }
  }
}
