/**
  All interleavings of threads that join and submit under the publication lock
  of one room: what the lock's mutual exclusion means for the peers' queues.
*/
module Interleavings {
  import opened Authority
  import opened Rooms
  import opened Bridges
  import opened Publication
  import opened Delivery

  datatype System = System(locks: Locks, jobs: map<Thread, Job>, core: Core) {
    function JobOf(thread: Thread): Job {
      if thread in jobs then jobs[thread] else Fresh
    }

    // ----- Steps -----

    /** A thread moves through `lock` or its unlock function; it unlocks when its work is finished. */
    ghost predicate LockStep(after: System, thread: Thread, slug: Slug, ref: Ref) {
      && locks.StepOf(thread, slug, ref, after.locks) && after.core == core
      && if locks.Gives(thread, after.locks)
         then (JobOf(thread).Finished? || JobOf(thread).Fresh?) && after.jobs == jobs[thread := Fresh]
         else after.jobs == jobs
    }

    /** The holder of the room's lock does one step of its work. */
    ghost predicate HolderStep(after: System, thread: Thread, job: Job, slug: Slug, policy: Policy) {
      && locks.Holds(thread, slug) && after.locks == locks
      && WorkStep(core, JobOf(thread), after.core, job, policy)
      && after.jobs == jobs[thread := job]
    }

    ghost predicate OtherStep(after: System) {
      after == this.(core := after.core) && FreeStep(core, after.core)
    }

    ghost predicate Next(after: System, slug: Slug, policy: Policy) {
      || (exists thread, name, ref :: LockStep(after, thread, name, ref))
      || (exists thread, job :: HolderStep(after, thread, job, slug, policy))
      || OtherStep(after)
    }

    // ----- Invariant -----

    /** Only the holder of the room's lock has work under way. */
    ghost predicate Guarded(slug: Slug) {
      forall t :: t in jobs && !jobs[t].Fresh? ==> locks.Holds(t, slug)
    }

    /** The work under way. */
    ghost function Work(): Job {
      WorkIn(jobs)
    }

    ghost predicate Fits(slug: Slug, policy: Policy) {
      locks.Valid() && Guarded(slug) && CoreFits(core, Work(), policy)
    }
  }

  ghost function WorkIn(jobs: map<Thread, Job>): Job {
    if t :| t in jobs && !jobs[t].Fresh? then jobs[t] else Fresh
  }

  /** The work under way is the work of whoever holds the lock. */
  lemma WorkOfHolder(s: System, slug: Slug, thread: Thread)
    requires s.locks.Valid() && s.Guarded(slug) && s.locks.Holds(thread, slug)
    ensures s.Work() == s.JobOf(thread)
  {
    forall t | t in s.jobs && !s.jobs[t].Fresh?
      ensures t == thread
    {
      OneHolder(s.locks, slug, t, thread);
    }
  }

  /** The work does not depend on more than the jobs that are not fresh. */
  lemma WorkOf(s: System, slug: Slug, t: Thread)
    requires s.locks.Valid() && s.Guarded(slug) && t in s.jobs && !s.jobs[t].Fresh?
    ensures s.Work() == s.jobs[t]
  {
    WorkOfHolder(s, slug, t);
  }

  lemma NoWork(s: System)
    requires forall t :: t in s.jobs ==> s.jobs[t].Fresh?
    ensures s.Work().Fresh?
  {
  }

  lemma LockStepGuards(s: System, after: System, thread: Thread, name: Slug, ref: Ref, slug: Slug)
    requires s.locks.Valid() && s.Guarded(slug) && s.LockStep(after, thread, name, ref)
    ensures after.locks.Valid() && after.Guarded(slug)
  {
    assert s.locks.Next(after.locks);
    NextKeepsValid(s.locks, after.locks);
    forall t | t in after.jobs && !after.jobs[t].Fresh?
      ensures after.locks.Holds(t, slug)
    {
      assert s.locks.Holds(t, slug);
    }
  }

  /** Locking and unlocking leave the work as it is, or retire a finished one. */
  lemma LockStepWork(s: System, after: System, thread: Thread, name: Slug, ref: Ref, slug: Slug)
    requires s.locks.Valid() && s.Guarded(slug) && s.LockStep(after, thread, name, ref)
    ensures after.Work() == s.Work() || (s.Work().Finished? && after.Work().Fresh?)
  {
    LockStepGuards(s, after, thread, name, ref, slug);
    hide *;
    if t :| t in after.jobs && !after.jobs[t].Fresh? {
      StillWorking(s, after, thread, name, ref, t);
      WorkOf(after, slug, t);
      WorkOf(s, slug, t);
    } else {
      NoWork(after);
      if t :| t in s.jobs && !s.jobs[t].Fresh? {
        WorkOf(s, slug, t);
        WorkRetired(s, after, thread, name, ref, t);
      } else {
        NoWork(s);
      }
    }
  }

  lemma StillWorking(s: System, after: System, thread: Thread, name: Slug, ref: Ref, t: Thread)
    requires s.LockStep(after, thread, name, ref) && t in after.jobs && !after.jobs[t].Fresh?
    ensures t in s.jobs && s.jobs[t] == after.jobs[t]
  {
  }

  lemma WorkRetired(s: System, after: System, thread: Thread, name: Slug, ref: Ref, t: Thread)
    requires s.LockStep(after, thread, name, ref) && t in s.jobs && !s.jobs[t].Fresh?
    requires forall u :: u in after.jobs ==> after.jobs[u].Fresh?
    ensures s.jobs[t].Finished?
  {
    assert t in after.jobs && after.jobs[t].Fresh?;
  }

  lemma HolderStepFits(s: System, after: System, thread: Thread, job: Job, slug: Slug, policy: Policy)
    requires s.Fits(slug, policy) && s.HolderStep(after, thread, job, slug, policy)
    ensures after.Fits(slug, policy)
  {
    hide CoreFits, WorkStep;
    WorkOfHolder(s, slug, thread);
    WorkKeeps(s.core, s.JobOf(thread), after.core, job, policy);
    assert after.Guarded(slug);
    WorkOfHolder(after, slug, thread);
  }

  lemma NextFits(s: System, after: System, slug: Slug, policy: Policy)
    requires s.Fits(slug, policy) && s.Next(after, slug, policy)
    ensures after.Fits(slug, policy)
  {
    hide CoreFits, FreeStep, WorkStep;
    if thread, name, ref :| s.LockStep(after, thread, name, ref) {
      LockStepGuards(s, after, thread, name, ref, slug);
      LockStepWork(s, after, thread, name, ref, slug);
      if after.Work() != s.Work() {
        FinishKeeps(s.core, s.Work(), Fresh, policy);
      }
    } else if thread, job :| s.HolderStep(after, thread, job, slug, policy) {
      HolderStepFits(s, after, thread, job, slug, policy);
    } else {
      FreeKeeps(s.core, s.Work(), after.core, policy);
    }
  }

  /** A run from a loaded room without peers. */
  ghost predicate IsRunOf(systems: seq<System>, slug: Slug, policy: Policy) {
    && systems != [] && systems[0].locks == IDLE && systems[0].jobs == map[]
    && |systems[0].core.states| == 1 && Valid(systems[0].core.states[0], policy.limits)
    && systems[0].core.log == [] && systems[0].core.members == map[]
    && forall i :: 0 < i < |systems| ==> systems[i - 1].Next(systems[i], slug, policy)
  }

  lemma {:induction false} RunFits(systems: seq<System>, slug: Slug, policy: Policy, k: nat)
    requires IsRunOf(systems, slug, policy) && k < |systems|
    ensures systems[k].Fits(slug, policy)
    decreases k
  {
    hide Valid;
    if k > 0 {
      RunFits(systems, slug, policy, k - 1);
      NextFits(systems[k - 1], systems[k], slug, policy);
    }
  }

  /**
    In every interleaving, the changes queued to a peer that is not stopped are
    its bridge followed by the room's accepted changes since it joined, each
    once and in order; while no publication is under way, a registered peer has
    been given all of them.
  */
  lemma QueueIsBridgeThenLog(systems: seq<System>, slug: Slug, policy: Policy, k: nat, id: PeerId)
    requires IsRunOf(systems, slug, policy) && k < |systems| && id in systems[k].core.members
    requires !systems[k].core.members[id].peer.stopped
    ensures
      var c, work := systems[k].core, systems[k].Work();
      var m := c.members[id];
      && m.joined <= m.reached <= |c.log|
      && (work.Sending? && work.id == id ==>
            && m.reached == m.joined
            && exists n :: 0 <= n <= |BridgeFrames(m.offer)| &&
                           ChangesIn(m.peer.queued) == ChangesIn(BridgeFrames(m.offer)[..n]))
      && (!(work.Sending? && work.id == id) ==>
            ChangesIn(m.peer.queued) == ChangesIn(BridgeFrames(m.offer)) + c.log[m.joined..m.reached])
      && (m.registered && !work.Listing? && !work.Publishing? ==> m.reached == |c.log|)
  {
    hide Valid, Logged, BridgeFrames, ChangesIn, Bridged, MemberFits, WorkFits, IsRunOf;
    RunFits(systems, slug, policy, k);
    var c, work := systems[k].core, systems[k].Work();
    assert MemberFits(c, work, id);
    MemberQueue(c, work, id);
  }

  lemma MemberQueue(c: Core, work: Job, id: PeerId)
    requires id in c.members && MemberFits(c, work, id) && !c.members[id].peer.stopped
    ensures
      var m := c.members[id];
      && m.joined <= m.reached <= |c.log|
      && (work.Sending? && work.id == id ==>
            && m.reached == m.joined
            && exists n :: 0 <= n <= |BridgeFrames(m.offer)| &&
                           ChangesIn(m.peer.queued) == ChangesIn(BridgeFrames(m.offer)[..n]))
      && (!(work.Sending? && work.id == id) ==>
            ChangesIn(m.peer.queued) == ChangesIn(BridgeFrames(m.offer)) + c.log[m.joined..m.reached])
      && (m.registered && !work.Listing? && !work.Publishing? ==> m.reached == |c.log|)
  {
    hide BridgeFrames, ChangesIn, Bridged;
    var m := c.members[id];
    var frames := BridgeFrames(m.offer);
    assert frames[..|frames|] == frames;
    if work.Sending? && work.id == id {
      assert c.log[m.joined..m.reached] == [];
      assert ChangesIn(m.peer.queued) == ChangesIn(frames[..BridgeSent(m, work, id)]);
    }
  }

  // ----- When a peer is stopped -----

  /** The work under way has a frame to give. */
  ghost predicate Gives(work: Job) {
    work.Publishing? || (work.Sending? && work.frames != [])
  }

  ghost function Given(work: Job): Frame
    requires Gives(work)
  {
    if work.Publishing? then Published(work.event) else work.frames[0]
  }

  /** What giving a frame makes of a peer that is not stopped: it is queued unless frame or channel forbid it. */
  ghost predicate Takes(c: Core, p: Peer, frame: Frame, after: Peer) {
    after == if c.oversized(frame) || p.waiting == QUEUE_SIZE then p.Stop() else p.Queue(frame)
  }

  /** The channel holds no more than it has room for. */
  ghost predicate Roomy(p: Peer) {
    p.waiting <= QUEUE_SIZE && (p.done ==> p.stopped)
  }

  lemma EnqueueTakes(c: Core, p: Peer, frame: Frame, after: Peer)
    requires Roomy(p) && !p.stopped && p.Enqueues(frame, c.oversized(frame), after)
    ensures Takes(c, p, frame, after)
  {
  }

  /** A step of the lock's holder leaves an unstopped peer alone or gives it a frame. */
  lemma WorkGives(c: Core, before: Job, d: Core, after: Job, policy: Policy, id: PeerId)
    requires WorkStep(c, before, d, after, policy) && id in c.members
    requires Roomy(c.members[id].peer) && !c.members[id].peer.stopped
    ensures d.oversized == c.oversized && id in d.members
    ensures
      var p, q := c.members[id].peer, d.members[id].peer;
      q == p || (Gives(before) && Takes(c, p, Given(before), q))
  {
    hide Accepts, Bridged, BridgeFrames, Takes, Roomy;
    var p := c.members[id].peer;
    if other, peer :| DeliverStep(c, before, d, after, other, peer) {
      if other == id {
        EnqueueTakes(c, p, Given(before), peer);
      }
    } else if peer :| SendStep(c, before, d, after, peer) {
      if before.id == id {
        EnqueueTakes(c, p, Given(before), peer);
      }
    } else if event, t :| AcceptStep(c, before, d, after, event, t, policy) {
    } else if other :| AddStep(c, before, d, after, other) {
    }
  }

  /** Everyone else leaves it alone, writes a frame of it, gives it a notice or closes it. */
  lemma OthersGive(c: Core, d: Core, id: PeerId)
    requires FreeStep(c, d) && id in c.members
    requires Roomy(c.members[id].peer) && !c.members[id].peer.stopped
    ensures d.oversized == c.oversized && id in d.members
    ensures
      var p, q := c.members[id].peer, d.members[id].peer;
      || q == p || Closes(p, q) || (p.waiting > 0 && q == p.(waiting := p.waiting - 1))
      || exists frame: Frame :: Takes(c, p, frame, q)
  {
    hide Takes, Roomy;
    var p := c.members[id].peer;
    if other, peer :| PeerStep(c, d, other, peer) {
      if other == id && Notifies(c, p, peer) {
        var frame: Frame :| !frame.Published? && p.Enqueues(frame, c.oversized(frame), peer);
        EnqueueTakes(c, p, frame, peer);
      }
    } else {
      var other :| RemoveStep(c, d, other);
    }
  }

  /**
    In every interleaving, a peer is stopped by being given a frame only if that
    frame is beyond the message limit or its channel is full; otherwise nobody
    but those who close connections stops it.
  */
  lemma StoppedOnlyWhen(s: System, after: System, slug: Slug, policy: Policy, id: PeerId)
    requires s.Fits(slug, policy) && s.Next(after, slug, policy) && id in s.core.members
    requires Roomy(s.core.members[id].peer) && !s.core.members[id].peer.stopped
    ensures after.core.oversized == s.core.oversized && id in after.core.members
    ensures
      var p, q := s.core.members[id].peer, after.core.members[id].peer;
      && Roomy(q)
      && (q.stopped ==>
            || p.waiting == QUEUE_SIZE
            || (Gives(s.Work()) && s.core.oversized(Given(s.Work())))
            || (s.OtherStep(after) && Closes(p, q)))
  {
    hide WorkStep, FreeStep, CoreFits;
    if thread, name, ref :| s.LockStep(after, thread, name, ref) {
    } else if thread, job :| s.HolderStep(after, thread, job, slug, policy) {
      WorkOfHolder(s, slug, thread);
      WorkGives(s.core, s.JobOf(thread), after.core, job, policy, id);
    } else {
      OthersGive(s.core, after.core, id);
    }
  }

  /** Nobody closes the peer's connection between two systems of a run. */
  ghost predicate LeftOpen(systems: seq<System>, id: PeerId, j: nat, k: nat)
    requires j <= k < |systems|
  {
    forall i :: j <= i < k && id in systems[i].core.members && id in systems[i + 1].core.members ==>
      !(systems[i].OtherStep(systems[i + 1]) &&
        Closes(systems[i].core.members[id].peer, systems[i + 1].core.members[id].peer))
  }

  /** Its writer keeps up: the channel is never full. */
  ghost predicate KeptUp(systems: seq<System>, id: PeerId, j: nat, k: nat)
    requires j <= k < |systems|
  {
    forall i :: j <= i < k && id in systems[i].core.members ==> systems[i].core.members[id].peer.waiting < QUEUE_SIZE
  }

  /** No frame that is published or sent to a joining peer meanwhile is beyond the message limit. */
  ghost predicate WithinLimit(systems: seq<System>, j: nat, k: nat)
    requires j <= k < |systems|
  {
    forall i :: j <= i < k && Gives(systems[i].Work()) ==> !systems[i].core.oversized(Given(systems[i].Work()))
  }

  lemma {:induction false} StaysUnstopped(
      systems: seq<System>, slug: Slug, policy: Policy, id: PeerId, j: nat, k: nat)
    requires IsRunOf(systems, slug, policy) && j <= k < |systems| && id in systems[j].core.members
    requires Roomy(systems[j].core.members[id].peer) && !systems[j].core.members[id].peer.stopped
    requires LeftOpen(systems, id, j, k) && KeptUp(systems, id, j, k) && WithinLimit(systems, j, k)
    ensures id in systems[k].core.members
    ensures Roomy(systems[k].core.members[id].peer) && !systems[k].core.members[id].peer.stopped
    decreases k
  {
    hide Valid, Closes, CoreFits, Roomy, System.Next, System.Fits, System.OtherStep, System.Work;
    if j < k {
      StaysUnstopped(systems, slug, policy, id, j, k - 1);
      RunFits(systems, slug, policy, k - 1);
      assert systems[k - 1].Next(systems[k], slug, policy);
      StoppedOnlyWhen(systems[k - 1], systems[k], slug, policy, id);
      assert id in systems[k - 1 + 1].core.members;
    }
  }

  lemma NewPeerRoomy()
    ensures Roomy(NEW_PEER) && !NEW_PEER.stopped
  {
  }

  /**
    In every interleaving: a peer that joined, whose writer keeps up with frames
    within the message limit and whose connection nobody closes, is not stopped,
    and while no publication or join is under way everything it is owed has been
    put in its queue: its bridge and every accepted change since it joined.
  */
  lemma EverythingDelivered(systems: seq<System>, slug: Slug, policy: Policy, id: PeerId, j: nat, k: nat)
    requires IsRunOf(systems, slug, policy) && j <= k < |systems|
    requires id in systems[j].core.members && systems[j].core.members[id].peer == NEW_PEER
    requires LeftOpen(systems, id, j, k) && KeptUp(systems, id, j, k) && WithinLimit(systems, j, k)
    ensures id in systems[k].core.members
    ensures
      var c, work := systems[k].core, systems[k].Work();
      var m := c.members[id];
      && !m.peer.stopped && m.joined <= |c.log|
      && (m.registered && !work.Listing? && !work.Publishing? && !work.Sending? ==>
            ChangesIn(m.peer.queued) == ChangesIn(BridgeFrames(m.offer)) + c.log[m.joined..])
  {
    hide Valid, BridgeFrames, ChangesIn, IsRunOf, LeftOpen, KeptUp, WithinLimit;
    NewPeerRoomy();
    StaysUnstopped(systems, slug, policy, id, j, k);
    QueueIsBridgeThenLog(systems, slug, policy, k, id);
    var c := systems[k].core;
    var m := c.members[id];
    if m.reached == |c.log| {
      assert c.log[m.joined..m.reached] == c.log[m.joined..];
    }
  }
}
