/**
  Publishing a room's changes to its peers. Joins and submits run under the
  room's publication lock, one small step at a time; notices, stops, removals
  and the socket writers interleave with them freely.
*/
module Delivery {
  import opened Sequences
  import opened Authority
  import opened Rooms
  import opened Runs
  import opened Clients
  import opened Bridges

  type PeerId = int

  const QUEUE_SIZE := 32

  datatype Event = DocumentEvent(edit: EditEvent) | MetadataEvent(structure: StructureEvent)

  /** `Retry` repeats a recorded answer to its submitter; a `Notice` carries no change of the room. */
  datatype Frame = Published(event: Event) | Retry(event: Event) | ResyncRequired | Notice

  // ----- Peers -----

  /** `queued` is every frame ever put in the channel, `waiting` how many of them are still there. */
  datatype Peer = Peer(queued: seq<Frame>, waiting: nat, stopped: bool, done: bool) {
    /** Stopping closes `done`, unless the peer was already stopped. */
    function Stop(): Peer {
      this.(stopped := true, done := done || !stopped)
    }

    function Queue(frame: Frame): Peer {
      this.(queued := queued + [frame], waiting := waiting + 1)
    }

    /**
      What `enqueue` does: an oversized frame or a full channel stops the peer,
      any other frame is queued. Of a peer that is done the channel takes a
      frame or not, as the select chooses.
    */
    ghost predicate Enqueues(frame: Frame, oversized: bool, after: Peer) {
      if oversized then after == Stop()
      else if done then after == this || (waiting < QUEUE_SIZE && after == Queue(frame))
      else after == if waiting < QUEUE_SIZE then Queue(frame) else Stop()
    }
  }

  const NEW_PEER: Peer := Peer([], 0, false, false)

  class LivePeer {
    var out: seq<Frame>
    var stopped: bool
    var done: bool
    ghost var queued: seq<Frame>

    ghost function Current(): Peer
      reads this
    {
      Peer(queued, |out|, stopped, done)
    }

    ghost predicate Sound()
      reads this
    {
      |out| <= QUEUE_SIZE && |out| <= |queued| && out == queued[|queued| - |out|..] && (done ==> stopped)
    }

    constructor ()
      ensures Sound() && Current() == NEW_PEER
    {
      out, stopped, done := [], false, false;
      queued := [];
    }

    method Stop()
      requires Sound()
      modifies this
      ensures Sound() && Current() == old(Current()).Stop()
    {
      if !stopped {
        stopped, done := true, true;
      }
    }

    /** Closing with a last frame: the control channel takes it, and `done` stays open. */
    method CloseAfter()
      requires Sound()
      modifies this
      ensures Sound() && Current() == old(Current()).(stopped := true)
    {
      stopped := true;
    }

    /** `returnWhenDone` is the choice of a select whose two cases are ready. */
    method Enqueue(frame: Frame, oversized: bool, returnWhenDone: bool)
      requires Sound()
      modifies this
      ensures Sound() && old(Current()).Enqueues(frame, oversized, Current())
      ensures !old(done) && !oversized && old(|out|) < QUEUE_SIZE ==>
        && queued == old(queued) + [frame] && out == old(out) + [frame] && stopped == old(stopped) && !done
      ensures !old(stopped) ==> (stopped <==> oversized || old(|out|) == QUEUE_SIZE)
    {
      if oversized {
        Stop();
        return;
      }
      if done && (returnWhenDone || |out| == QUEUE_SIZE) {
        return;
      }
      if |out| < QUEUE_SIZE {
        out := out + [frame];
        queued := queued + [frame];
      } else {
        Stop();
      }
    }

    /** The socket writer takes the oldest frame. */
    method Write() returns (frame: Frame)
      requires Sound() && out != []
      modifies this`out
      ensures Sound() && Current() == old(Current()).(waiting := old(|out|) - 1)
      ensures frame == old(queued)[|old(queued)| - |old(out)|]
    {
      frame := out[0];
      out := out[1..];
    }

    /** After the last frame of a closing peer is written. */
    method WriteFinalFrame()
      requires Sound() && stopped
      modifies this`done
      ensures Sound() && Current() == old(Current()).(done := true)
    {
      done := true;
    }
  }

  // ----- The room and its peers -----

  /**
    A peer, whether it is registered, and, for the specification, when and with
    which bridge it joined and how much was offered to it since.
  */
  datatype Member = Member(peer: Peer, registered: bool, known: Known, offer: Bridge, joined: nat, reached: nat)

  /**
    `log` is every accepted change in order and `states` the room before, between
    and after them; `oversized` are the frames beyond the message limit.
  */
  datatype Core = Core(states: seq<State>, log: seq<Event>, members: map<PeerId, Member>, oversized: Frame -> bool)

  /** What the thread that holds the lock is doing. */
  datatype Job =
    | Fresh
    | Listing(event: Event)
    | Publishing(event: Event, pending: set<PeerId>)
    | Adding(known: Known, offer: Bridge)
    | Sending(id: PeerId, frames: seq<Frame>)
    | Finished

  /** An answer as it goes over the wire, the first time or again. */
  ghost function AnswerEvent(answer: Answer): Event {
    match answer
    case EditAnswer(id, _, revision, changes) => DocumentEvent(EditEvent(id, revision, changes))
    case StructureAnswer(_, revision, change) => MetadataEvent(StructureEvent(revision, change))
  }

  ghost function EventOf(action: Action): Event
    requires Changes(action)
  {
    AnswerEvent(action.reply.answer)
  }

  /** The room accepts a change that is published as `event`. */
  ghost predicate Accepts(s: State, event: Event, t: State, policy: Policy) {
    Valid(s, policy.limits) && exists action: Action :: AcceptsBy(s, action, event, t, policy)
  }

  ghost predicate AcceptsBy(s: State, action: Action, event: Event, t: State, policy: Policy)
    requires Valid(s, policy.limits)
  {
    Changes(action) && Step(s, action, t, policy) && event == EventOf(action)
  }

  // ----- What an accepted change does -----

  lemma AcceptedEdit(s: State, action: Action, t: State, policy: Policy)
    requires Valid(s, policy.limits) && Changes(action) && Step(s, action, t, policy) && action.SubmitEdit?
    ensures EventOf(action).DocumentEvent?
    ensures EditEffect(s, t, EventOf(action).edit.id, EventOf(action).edit.revision, EventOf(action).edit.changes)
  {
    hide Valid, Step;
    EditStepEffect(s, action, t, policy);
  }

  lemma AcceptedStructure(s: State, action: Action, t: State, policy: Policy)
    requires Valid(s, policy.limits) && Changes(action) && Step(s, action, t, policy) && action.SubmitStructure?
    ensures EventOf(action).MetadataEvent?
    ensures Elements(s.order) <= s.documents.Keys
    ensures StructureEffect(s, t, EventOf(action).structure.revision, EventOf(action).structure.change, policy.limits)
  {
    hide Valid, Step;
    StructureStepEffect(s, action, t, policy);
  }

  // ----- Frames -----

  ghost function StructureFrames(events: seq<StructureEvent>): (r: seq<Frame>)
    ensures |r| == |events|
  {
    seq(|events|, i requires 0 <= i < |events| => Published(MetadataEvent(events[i])))
  }

  ghost function EditFrames(events: seq<EditEvent>): (r: seq<Frame>)
    ensures |r| == |events|
  {
    seq(|events|, i requires 0 <= i < |events| => Published(DocumentEvent(events[i])))
  }

  /** What a join sends: the tab changes before the edits, or the demand to resync. */
  ghost function BridgeFrames(offer: Bridge): seq<Frame> {
    match offer
    case Resync => [ResyncRequired]
    case Deltas(structures, edits) => StructureFrames(structures) + EditFrames(edits)
  }

  /** The accepted changes among frames. */
  ghost function ChangesIn(frames: seq<Frame>): seq<Event> {
    if frames == [] then []
    else
      var last := frames[|frames| - 1];
      ChangesIn(frames[..|frames| - 1]) + (if last.Published? then [last.event] else [])
  }

  // ----- Steps of the lock's holder -----

  ghost function WithPeer(c: Core, id: PeerId, peer: Peer): Core
    requires id in c.members
  {
    c.(members := c.members[id := c.members[id].(peer := peer)])
  }

  ghost predicate AcceptStep(c: Core, before: Job, d: Core, after: Job, event: Event, t: State, policy: Policy) {
    && before.Fresh? && after == Listing(event)
    && c.states != [] && Accepts(c.states[|c.states| - 1], event, t, policy)
    && d == c.(states := c.states + [t], log := c.log + [event])
  }

  /** A refused operation or a retry publishes nothing. */
  ghost predicate AnswerStep(c: Core, before: Job, d: Core, after: Job) {
    before.Fresh? && after.Finished? && d == c
  }

  ghost predicate ListStep(c: Core, before: Job, d: Core, after: Job) {
    && before.Listing? && d == c
    && after == Publishing(before.event, set id | id in c.members && c.members[id].registered)
  }

  ghost predicate DeliverStep(c: Core, before: Job, d: Core, after: Job, id: PeerId, peer: Peer) {
    && before.Publishing? && id in before.pending && id in c.members
    && c.members[id].peer.Enqueues(Published(before.event), c.oversized(Published(before.event)), peer)
    && d == c.(members := c.members[id := c.members[id].(peer := peer, reached := c.members[id].reached + 1)])
    && after == before.(pending := before.pending - {id})
  }

  ghost predicate PublishedStep(c: Core, before: Job, d: Core, after: Job) {
    before.Publishing? && before.pending == {} && after.Finished? && d == c
  }

  ghost predicate BridgeStep(c: Core, before: Job, d: Core, after: Job, known: Known) {
    && before.Fresh? && d == c && c.states != []
    && after == Adding(known, Bridged(c.states[|c.states| - 1], known))
  }

  ghost predicate AddStep(c: Core, before: Job, d: Core, after: Job, id: PeerId) {
    && before.Adding? && id !in c.members
    && d == c.(members := c.members[id := Member(NEW_PEER, true, before.known, before.offer, |c.log|, |c.log|)])
    && after == Sending(id, BridgeFrames(before.offer))
  }

  ghost predicate SendStep(c: Core, before: Job, d: Core, after: Job, peer: Peer) {
    && before.Sending? && before.frames != [] && before.id in c.members
    && c.members[before.id].peer.Enqueues(before.frames[0], c.oversized(before.frames[0]), peer)
    && d == WithPeer(c, before.id, peer)
    && after == before.(frames := before.frames[1..])
  }

  ghost predicate JoinedStep(c: Core, before: Job, d: Core, after: Job) {
    before.Sending? && before.frames == [] && after.Finished? && d == c
  }

  ghost predicate WorkStep(c: Core, before: Job, d: Core, after: Job, policy: Policy) {
    || (exists event, t :: AcceptStep(c, before, d, after, event, t, policy))
    || AnswerStep(c, before, d, after)
    || ListStep(c, before, d, after)
    || (exists id, peer :: DeliverStep(c, before, d, after, id, peer))
    || PublishedStep(c, before, d, after)
    || (exists known :: BridgeStep(c, before, d, after, known))
    || (exists id :: AddStep(c, before, d, after, id))
    || (exists peer :: SendStep(c, before, d, after, peer))
    || JoinedStep(c, before, d, after)
  }

  // ----- Steps of everyone else -----

  /** A notice or a repeated answer is given to a peer. */
  ghost predicate Notifies(c: Core, p: Peer, peer: Peer) {
    exists frame: Frame :: !frame.Published? && p.Enqueues(frame, c.oversized(frame), peer)
  }

  /** Its connection fails or is closed, by the peer, the room's expiry or a newer connection. */
  ghost predicate Closes(p: Peer, peer: Peer) {
    peer == p.Stop() || peer == p.(stopped := true) || (p.stopped && peer == p.(done := true))
  }

  ghost predicate PeerStep(c: Core, d: Core, id: PeerId, peer: Peer) {
    && id in c.members
    && var p := c.members[id].peer;
       && (Notifies(c, p, peer) || Closes(p, peer) || (p.waiting > 0 && peer == p.(waiting := p.waiting - 1)))
       && d == WithPeer(c, id, peer)
  }

  ghost predicate RemoveStep(c: Core, d: Core, id: PeerId) {
    id in c.members && d == c.(members := c.members[id := c.members[id].(registered := false)])
  }

  ghost predicate FreeStep(c: Core, d: Core) {
    || (exists id, peer :: PeerStep(c, d, id, peer))
    || (exists id :: RemoveStep(c, d, id))
  }

  // ----- Invariant -----

  /** How many of the bridge's frames a peer has been offered. */
  ghost function BridgeSent(m: Member, work: Job, id: PeerId): nat {
    var all := |BridgeFrames(m.offer)|;
    if work.Sending? && work.id == id && |work.frames| <= all then all - |work.frames| else all
  }

  ghost predicate Owed(work: Job, id: PeerId) {
    work.Listing? || (work.Publishing? && id in work.pending)
  }

  ghost predicate MemberFits(c: Core, work: Job, id: PeerId)
    requires id in c.members
  {
    var m := c.members[id];
    && m.joined <= m.reached <= |c.log| < |c.states|
    && m.offer == Bridged(c.states[m.joined], m.known)
    && (m.peer.done ==> m.peer.stopped)
    && (!m.peer.stopped ==>
          ChangesIn(m.peer.queued) ==
          ChangesIn(BridgeFrames(m.offer)[..BridgeSent(m, work, id)]) + c.log[m.joined..m.reached])
    && (m.registered ==> m.reached == |c.log| - (if Owed(work, id) then 1 else 0))
    && (work.Publishing? && id in work.pending ==> m.reached == |c.log| - 1)
    && (work.Sending? && work.id == id ==> m.joined == m.reached == |c.log|)
  }

  ghost predicate WorkFits(c: Core, work: Job) {
    match work
    case Listing(event) => c.log != [] && event == c.log[|c.log| - 1]
    case Publishing(event, pending) => c.log != [] && event == c.log[|c.log| - 1] && pending <= c.members.Keys
    case Adding(known, offer) => c.states != [] && offer == Bridged(c.states[|c.states| - 1], known)
    case Sending(id, frames) =>
      && id in c.members
      && var all := BridgeFrames(c.members[id].offer);
         |frames| <= |all| && frames == all[|all| - |frames|..]
    case _ => true
  }

  /** The log leads from state to state. */
  ghost predicate Logged(c: Core, policy: Policy) {
    && |c.states| == |c.log| + 1 && Valid(c.states[0], policy.limits)
    && forall i :: 0 <= i < |c.log| ==> Accepts(c.states[i], c.log[i], c.states[i + 1], policy)
  }

  ghost predicate CoreFits(c: Core, work: Job, policy: Policy) {
    && Logged(c, policy)
    && WorkFits(c, work)
    && forall id :: id in c.members ==> MemberFits(c, work, id)
  }

  // ----- Every step keeps it -----

  lemma ChangesInGrow(frames: seq<Frame>, frame: Frame)
    ensures ChangesIn(frames + [frame]) == ChangesIn(frames) + (if frame.Published? then [frame.event] else [])
  {
    assert (frames + [frame])[..|frames|] == frames;
  }

  /** An unstopped peer has queued every frame it was given. */
  lemma EnqueuedUnlessStopped(p: Peer, frame: Frame, oversized: bool, after: Peer)
    requires p.Enqueues(frame, oversized, after) && (p.done ==> p.stopped)
    ensures after.done ==> after.stopped
    ensures !after.stopped ==> !p.stopped && after.queued == p.queued + [frame]
    ensures !after.stopped ==>
      ChangesIn(after.queued) == ChangesIn(p.queued) + (if frame.Published? then [frame.event] else [])
  {
    ChangesInGrow(p.queued, frame);
  }

  lemma AcceptKeeps(c: Core, before: Job, d: Core, after: Job, event: Event, t: State, policy: Policy)
    requires CoreFits(c, before, policy) && AcceptStep(c, before, d, after, event, t, policy)
    ensures CoreFits(d, after, policy)
  {
    hide Accepts, Valid, Bridged, BridgeFrames, ChangesIn;
    forall id | id in d.members
      ensures MemberFits(d, after, id)
    {
      assert MemberFits(c, before, id);
      var m := c.members[id];
      assert d.log[m.joined..m.reached] == c.log[m.joined..m.reached];
    }
  }

  lemma ListKeeps(c: Core, before: Job, d: Core, after: Job, policy: Policy)
    requires CoreFits(c, before, policy) && ListStep(c, before, d, after)
    ensures CoreFits(d, after, policy)
  {
    hide Accepts, Valid, Bridged, BridgeFrames, ChangesIn;
    forall id | id in d.members
      ensures MemberFits(d, after, id)
    {
      assert MemberFits(c, before, id);
    }
  }

  lemma DeliverKeeps(c: Core, before: Job, d: Core, after: Job, id: PeerId, peer: Peer, policy: Policy)
    requires CoreFits(c, before, policy) && DeliverStep(c, before, d, after, id, peer)
    ensures CoreFits(d, after, policy)
  {
    hide Accepts, Valid, Bridged, BridgeFrames, ChangesIn;
    var m := c.members[id];
    assert MemberFits(c, before, id);
    EnqueuedUnlessStopped(m.peer, Published(before.event), c.oversized(Published(before.event)), peer);
    assert c.log[m.joined..m.reached + 1] == c.log[m.joined..m.reached] + [before.event];
    forall other | other in d.members
      ensures MemberFits(d, after, other)
    {
      assert MemberFits(c, before, other);
    }
  }

  lemma AddKeeps(c: Core, before: Job, d: Core, after: Job, id: PeerId, policy: Policy)
    requires CoreFits(c, before, policy) && AddStep(c, before, d, after, id)
    ensures CoreFits(d, after, policy)
  {
    hide Accepts, Valid, Bridged, BridgeFrames;
    forall other | other in d.members
      ensures MemberFits(d, after, other)
    {
      if other != id {
        assert MemberFits(c, before, other);
      }
    }
  }

  lemma SendKeeps(c: Core, before: Job, d: Core, after: Job, peer: Peer, policy: Policy)
    requires CoreFits(c, before, policy) && SendStep(c, before, d, after, peer)
    ensures CoreFits(d, after, policy)
  {
    hide Accepts, Valid, Bridged, BridgeFrames, ChangesIn;
    var id := before.id;
    assert MemberFits(c, before, id);
    var m := c.members[id];
    var all := BridgeFrames(m.offer);
    var n := |all| - |before.frames|;
    EnqueuedUnlessStopped(m.peer, before.frames[0], c.oversized(before.frames[0]), peer);
    ChangesInGrow(all[..n], all[n]);
    assert all[..n + 1] == all[..n] + [all[n]];
    assert c.log[m.joined..m.reached] == [];
    forall other | other in d.members
      ensures MemberFits(d, after, other)
    {
      assert MemberFits(c, before, other);
    }
  }

  lemma FinishKeeps(c: Core, before: Job, after: Job, policy: Policy)
    requires CoreFits(c, before, policy)
    requires
      || (before.Fresh? && after.Finished?)
      || (before.Fresh? && after.Adding? && c.states != [] &&
          after.offer == Bridged(c.states[|c.states| - 1], after.known))
      || (before.Publishing? && before.pending == {} && after.Finished?)
      || (before.Sending? && before.frames == [] && after.Finished?)
      || (before.Finished? && after.Fresh?)
    ensures CoreFits(c, after, policy)
  {
    hide Accepts, Valid, Bridged, BridgeFrames, ChangesIn;
    forall id | id in c.members
      ensures MemberFits(c, after, id)
    {
      assert MemberFits(c, before, id);
    }
  }

  lemma WorkKeeps(c: Core, before: Job, d: Core, after: Job, policy: Policy)
    requires CoreFits(c, before, policy) && WorkStep(c, before, d, after, policy)
    ensures CoreFits(d, after, policy)
  {
    hide CoreFits, AcceptStep, ListStep, DeliverStep, AddStep, SendStep;
    if event, t :| AcceptStep(c, before, d, after, event, t, policy) {
      AcceptKeeps(c, before, d, after, event, t, policy);
    } else if ListStep(c, before, d, after) {
      ListKeeps(c, before, d, after, policy);
    } else if id, peer :| DeliverStep(c, before, d, after, id, peer) {
      DeliverKeeps(c, before, d, after, id, peer, policy);
    } else if id :| AddStep(c, before, d, after, id) {
      AddKeeps(c, before, d, after, id, policy);
    } else if peer :| SendStep(c, before, d, after, peer) {
      SendKeeps(c, before, d, after, peer, policy);
    } else {
      FinishKeeps(c, before, after, policy);
    }
  }

  lemma PeerKeeps(c: Core, work: Job, d: Core, id: PeerId, peer: Peer, policy: Policy)
    requires CoreFits(c, work, policy) && PeerStep(c, d, id, peer)
    ensures CoreFits(d, work, policy)
  {
    hide Accepts, Valid, Bridged, BridgeFrames, ChangesIn;
    assert MemberFits(c, work, id);
    UnpublishedKeeps(c, c.members[id].peer, peer);
    hide PeerStep;
    assert d == WithPeer(c, id, peer);
    forall other | other in d.members
      ensures MemberFits(d, work, other)
    {
      assert MemberFits(c, work, other);
    }
  }

  /** Without a published change, an unstopped peer's changes stay as they are. */
  lemma UnpublishedKeeps(c: Core, p: Peer, after: Peer)
    requires p.done ==> p.stopped
    requires Notifies(c, p, after) || Closes(p, after) || (p.waiting > 0 && after == p.(waiting := p.waiting - 1))
    ensures (after.done ==> after.stopped)
    ensures (!after.stopped ==> !p.stopped && ChangesIn(after.queued) == ChangesIn(p.queued))
  {
    if frame: Frame :| !frame.Published? && p.Enqueues(frame, c.oversized(frame), after) {
      EnqueuedUnlessStopped(p, frame, c.oversized(frame), after);
    }
  }

  lemma RemoveKeeps(c: Core, work: Job, d: Core, id: PeerId, policy: Policy)
    requires CoreFits(c, work, policy) && RemoveStep(c, d, id)
    ensures CoreFits(d, work, policy)
  {
    hide Accepts, Valid, Bridged, BridgeFrames, ChangesIn;
    forall other | other in d.members
      ensures MemberFits(d, work, other)
    {
      assert MemberFits(c, work, other);
    }
  }

  lemma FreeKeeps(c: Core, work: Job, d: Core, policy: Policy)
    requires CoreFits(c, work, policy) && FreeStep(c, d)
    ensures CoreFits(d, work, policy)
  {
    hide CoreFits, PeerStep, RemoveStep;
    if id, peer :| PeerStep(c, d, id, peer) {
      PeerKeeps(c, work, d, id, peer, policy);
    } else {
      var id :| RemoveStep(c, d, id);
      RemoveKeeps(c, work, d, id, policy);
    }
  }
}
