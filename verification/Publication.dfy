/**
  The reference-counted lock that orders a room's durable changes with their
  publication. Threads interleave at the granularity of the registry's own
  mutex: entering the registry, taking the room's mutex, giving it back, and
  leaving the registry are one step each.
*/
module Publication {

  type Slug = string
  type Thread = int
  type Ref = int

  datatype Holder = Nobody | HeldBy(thread: Thread)

  /** A room's entry: how many threads use it, and who holds its mutex. */
  datatype Lock = Lock(refs: int, holder: Holder)

  /** Where a thread stands in `lock` and its unlock function. */
  datatype Phase = Outside | Awaiting(slug: Slug, ref: Ref) | Holding(slug: Slug, ref: Ref) | Leaving(slug: Slug,
    ref: Ref)

  /** `rooms` and `locks` are the registry and its entries; `phases` are the threads' program counters. */
  datatype Locks = Locks(rooms: map<Slug, Ref>, locks: map<Ref, Lock>, phases: map<Thread, Phase>) {
    function PhaseOf(thread: Thread): Phase {
      if thread in phases then phases[thread] else Outside
    }

    /** The threads between entering the registry for an entry and leaving it. */
    ghost function Users(ref: Ref): set<Thread> {
      set t | t in phases && !phases[t].Outside? && phases[t].ref == ref
    }

    predicate Holds(thread: Thread, slug: Slug) {
      PhaseOf(thread).Holding? && PhaseOf(thread).slug == slug
    }

    // ----- Steps -----

    ghost predicate Enters(thread: Thread, slug: Slug, ref: Ref, after: Locks) {
      && PhaseOf(thread).Outside?
      && (if slug in rooms then ref == rooms[slug] else ref !in locks)
      && (slug in rooms ==> ref in locks)
      && after == Locks(
           rooms[slug := ref],
           locks[ref := if slug in rooms then locks[ref].(refs := locks[ref].refs + 1) else Lock(1, Nobody)],
           phases[thread := Awaiting(slug, ref)])
    }

    ghost predicate Takes(thread: Thread, after: Locks) {
      var phase := PhaseOf(thread);
      && phase.Awaiting? && phase.ref in locks && locks[phase.ref].holder.Nobody?
      && after == this.(
           locks := locks[phase.ref := locks[phase.ref].(holder := HeldBy(thread))],
           phases := phases[thread := Holding(phase.slug, phase.ref)])
    }

    ghost predicate Gives(thread: Thread, after: Locks) {
      var phase := PhaseOf(thread);
      && phase.Holding? && phase.ref in locks
      && after == this.(
           locks := locks[phase.ref := locks[phase.ref].(holder := Nobody)],
           phases := phases[thread := Leaving(phase.slug, phase.ref)])
    }

    ghost predicate Leaves(thread: Thread, after: Locks) {
      var phase := PhaseOf(thread);
      && phase.Leaving? && phase.ref in locks
      && var refs := locks[phase.ref].refs - 1;
         after == Locks(
           if refs == 0 then rooms - {phase.slug} else rooms,
           locks[phase.ref := locks[phase.ref].(refs := refs)],
           phases[thread := Outside])
    }

    ghost predicate Next(after: Locks) {
      exists thread, slug, ref :: StepOf(thread, slug, ref, after)
    }

    ghost predicate StepOf(thread: Thread, slug: Slug, ref: Ref, after: Locks) {
      Enters(thread, slug, ref, after) || Takes(thread, after) || Gives(thread, after) || Leaves(thread, after)
    }

    // ----- Invariant -----

    /**
      The registry maps a thread's slug to the entry the thread uses, and the
      mutex's holder is the thread that holds it.
    */
    ghost predicate ThreadFits(t: Thread)
      requires t in phases
    {
      phases[t].Outside? ||
      (&& phases[t].slug in rooms && rooms[phases[t].slug] == phases[t].ref
       && phases[t].ref in locks
       && (phases[t].Holding? <==> locks[phases[t].ref].holder == HeldBy(t)))
    }

    /** An entry is in use, counts its users, and belongs to one slug. */
    ghost predicate LockFits(slug: Slug)
      requires slug in rooms
    {
      && rooms[slug] in locks
      && locks[rooms[slug]].refs == |Users(rooms[slug])| > 0
      && (locks[rooms[slug]].holder.HeldBy? ==> locks[rooms[slug]].holder.thread in Users(rooms[slug]))
    }

    ghost predicate Valid() {
      && (forall t :: t in phases ==> ThreadFits(t))
      && (forall slug :: slug in rooms ==> LockFits(slug))
      && (forall slug, other :: slug in rooms && other in rooms && rooms[slug] == rooms[other] ==> slug == other)
    }
  }

  const IDLE: Locks := Locks(map[], map[], map[])

  // ----- Every step keeps the invariant -----

  lemma EntersKeepsValid(s: Locks, thread: Thread, slug: Slug, ref: Ref, after: Locks)
    requires s.Valid() && s.Enters(thread, slug, ref, after)
    ensures after.Valid()
  {
    forall other | other in after.rooms
      ensures after.LockFits(other)
    {
      if other == slug {
        EnteredEntry(s, thread, slug, ref, after);
      } else {
        OtherEntry(s, thread, slug, ref, after, other);
      }
    }
    forall t | t in after.phases
      ensures after.ThreadFits(t)
    {
      if t != thread {
        assert s.ThreadFits(t);
      } else {
        EnteredEntry(s, thread, slug, ref, after);
      }
    }
    forall one, other | one in after.rooms && other in after.rooms && after.rooms[one] == after.rooms[other]
      ensures one == other
    {
      assert one in s.rooms ==> s.LockFits(one);
      assert other in s.rooms ==> s.LockFits(other);
    }
  }

  lemma EnteredEntry(s: Locks, thread: Thread, slug: Slug, ref: Ref, after: Locks)
    requires s.Valid() && s.Enters(thread, slug, ref, after)
    ensures after.LockFits(slug) && after.locks[ref].holder != HeldBy(thread)
  {
    assert after.Users(ref) == s.Users(ref) + {thread};
    assert thread !in s.Users(ref);
    if slug in s.rooms {
      assert s.LockFits(slug);
    } else {
      assert forall t :: t in s.phases ==> s.ThreadFits(t);
      NoUsers(s, ref);
    }
  }

  lemma NoUsers(s: Locks, ref: Ref)
    requires forall t :: t in s.phases && !s.phases[t].Outside? ==> s.phases[t].ref != ref
    ensures |s.Users(ref)| == 0
  {
    assert forall t :: t !in s.Users(ref);
    assert s.Users(ref) == {};
  }

  lemma SomeUser(users: set<Thread>, t: Thread)
    requires t in users
    ensures |users| > 0
  {
  }

  lemma OtherEntry(s: Locks, thread: Thread, slug: Slug, ref: Ref, after: Locks, other: Slug)
    requires s.Valid() && s.Enters(thread, slug, ref, after) && other in s.rooms && other != slug
    ensures after.LockFits(other)
  {
    assert s.LockFits(other);
    var r := s.rooms[other];
    assert r != ref;
    assert after.Users(r) == s.Users(r);
  }

  lemma TakesKeepsValid(s: Locks, thread: Thread, after: Locks)
    requires s.Valid() && s.Takes(thread, after)
    ensures after.Valid()
  {
    UsersKept(s, thread, after);
    forall t | t in after.phases
      ensures after.ThreadFits(t)
    {
      assert s.ThreadFits(t) && s.ThreadFits(thread);
    }
    forall slug | slug in after.rooms
      ensures after.LockFits(slug)
    {
      assert s.LockFits(slug);
    }
  }

  lemma GivesKeepsValid(s: Locks, thread: Thread, after: Locks)
    requires s.Valid() && s.Gives(thread, after)
    ensures after.Valid()
  {
    UsersKept(s, thread, after);
    forall t | t in after.phases
      ensures after.ThreadFits(t)
    {
      assert s.ThreadFits(t) && s.ThreadFits(thread);
    }
    forall slug | slug in after.rooms
      ensures after.LockFits(slug)
    {
      assert s.LockFits(slug);
    }
  }

  /** A thread that stays with its entry changes nobody's set of users. */
  lemma UsersKept(s: Locks, thread: Thread, after: Locks)
    requires !s.PhaseOf(thread).Outside? && thread in after.phases && !after.phases[thread].Outside?
    requires after.phases == s.phases[thread := after.phases[thread]]
    requires after.phases[thread].ref == s.PhaseOf(thread).ref
    ensures forall r :: after.Users(r) == s.Users(r)
  {
    forall r
      ensures after.Users(r) == s.Users(r)
    {
      assert forall t :: t in after.Users(r) <==> t in s.Users(r);
    }
  }

  lemma LeavesKeepsValid(s: Locks, thread: Thread, after: Locks)
    requires s.Valid() && s.Leaves(thread, after)
    ensures after.Valid()
  {
    var phase := s.PhaseOf(thread);
    assert s.ThreadFits(thread) && s.LockFits(phase.slug);
    assert after.Users(phase.ref) == s.Users(phase.ref) - {thread};
    assert thread in s.Users(phase.ref);
    forall t | t in after.phases
      ensures after.ThreadFits(t)
    {
      if t != thread {
        assert s.ThreadFits(t);
        if !s.phases[t].Outside? && s.phases[t].slug == phase.slug {
          assert t in after.Users(phase.ref);
          SomeUser(after.Users(phase.ref), t);
        }
      }
    }
    forall slug | slug in after.rooms
      ensures after.LockFits(slug)
    {
      assert s.LockFits(slug);
      if slug != phase.slug {
        assert after.Users(s.rooms[slug]) == s.Users(s.rooms[slug]);
      }
    }
  }

  lemma NextKeepsValid(s: Locks, after: Locks)
    requires s.Valid() && s.Next(after)
    ensures after.Valid()
  {
    var thread, slug, ref :| s.StepOf(thread, slug, ref, after);
    if s.Enters(thread, slug, ref, after) {
      EntersKeepsValid(s, thread, slug, ref, after);
    } else if s.Takes(thread, after) {
      TakesKeepsValid(s, thread, after);
    } else if s.Gives(thread, after) {
      GivesKeepsValid(s, thread, after);
    } else {
      LeavesKeepsValid(s, thread, after);
    }
  }

  /** An interleaving of threads from a fresh registry. */
  ghost predicate IsInterleaving(states: seq<Locks>) {
    && states != [] && states[0] == IDLE
    && forall i :: 0 < i < |states| ==> states[i - 1].Next(states[i])
  }

  lemma {:induction false} InterleavingIsValid(states: seq<Locks>, k: nat)
    requires IsInterleaving(states) && k < |states|
    ensures states[k].Valid()
    decreases k
  {
    if k > 0 {
      InterleavingIsValid(states, k - 1);
      NextKeepsValid(states[k - 1], states[k]);
    }
  }

  // ----- What the invariant gives -----

  /** In every interleaving, at most one thread holds the lock of a slug. */
  lemma MutualExclusion(states: seq<Locks>, k: nat, slug: Slug, t: Thread, u: Thread)
    requires IsInterleaving(states) && k < |states|
    requires states[k].Holds(t, slug) && states[k].Holds(u, slug)
    ensures t == u
  {
    InterleavingIsValid(states, k);
    OneHolder(states[k], slug, t, u);
  }

  lemma OneHolder(s: Locks, slug: Slug, t: Thread, u: Thread)
    requires s.Valid() && s.Holds(t, slug) && s.Holds(u, slug)
    ensures t == u
  {
    assert s.ThreadFits(t) && s.ThreadFits(u);
  }

  /** An entry is removed only when nobody holds or awaits it, and as soon as nobody does: idle slugs take no space. */
  lemma EntryIffUsed(states: seq<Locks>, k: nat, slug: Slug)
    requires IsInterleaving(states) && k < |states|
    ensures slug in states[k].rooms
      <==> exists t :: t in states[k].phases && !states[k].phases[t].Outside? && states[k].phases[t].slug == slug
  {
    InterleavingIsValid(states, k);
    var s := states[k];
    if slug in s.rooms {
      assert s.LockFits(slug);
      if forall t :: t in s.phases && !s.phases[t].Outside? ==> s.phases[t].slug != slug {
        assert forall t :: t in s.phases ==> s.ThreadFits(t);
        NoUsers(s, s.rooms[slug]);
      }
    } else {
      forall t | t in s.phases && !s.phases[t].Outside?
        ensures s.phases[t].slug != slug
      {
        assert s.ThreadFits(t);
      }
    }
  }

  // ----- The registry's own code -----

  class Registry {
    var rooms: map<Slug, Ref>
    var locks: map<Ref, Lock>
    var created: Ref
    ghost var phases: map<Thread, Phase>

    ghost function Current(): Locks
      reads this
    {
      Locks(rooms, locks, phases)
    }

    ghost predicate Sound()
      reads this
    {
      Current().Valid() && forall ref :: ref in locks ==> ref < created
    }

    constructor ()
      ensures Sound() && Current() == IDLE
    {
      rooms, locks, created := map[], map[], 0;
      phases := map[];
    }

    /** The first critical section of `lock`. */
    method Enter(thread: Thread, slug: Slug) returns (ref: Ref)
      requires Sound() && Current().PhaseOf(thread).Outside?
      modifies this
      ensures Sound() && old(Current()).Enters(thread, slug, ref, Current())
    {
      ghost var before := Current();
      if slug in rooms {
        assert before.LockFits(slug);
        ref := rooms[slug];
      } else {
        ref := created;
        created := created + 1;
        locks := locks[ref := Lock(0, Nobody)];
        rooms := rooms[slug := ref];
      }
      locks := locks[ref := locks[ref].(refs := locks[ref].refs + 1)];
      phases := phases[thread := Awaiting(slug, ref)];
      assert rooms == before.rooms[slug := ref];
      EntersKeepsValid(before, thread, slug, ref, Current());
    }

    /** Taking the room's mutex, once it is free. */
    method Take(thread: Thread, slug: Slug, ref: Ref)
      requires Sound() && Current().PhaseOf(thread) == Awaiting(slug, ref)
      requires ref in locks && locks[ref].holder.Nobody?
      modifies this
      ensures Sound() && old(Current()).Takes(thread, Current())
    {
      ghost var before := Current();
      locks := locks[ref := locks[ref].(holder := HeldBy(thread))];
      phases := phases[thread := Holding(slug, ref)];
      TakesKeepsValid(before, thread, Current());
    }

    /** The unlock function, up to the registry's mutex. */
    method Give(thread: Thread, slug: Slug, ref: Ref)
      requires Sound() && Current().PhaseOf(thread) == Holding(slug, ref)
      modifies this
      ensures Sound() && old(Current()).Gives(thread, Current())
    {
      ghost var before := Current();
      assert before.ThreadFits(thread);
      locks := locks[ref := locks[ref].(holder := Nobody)];
      phases := phases[thread := Leaving(slug, ref)];
      GivesKeepsValid(before, thread, Current());
    }

    /** Its critical section. */
    method Leave(thread: Thread, slug: Slug, ref: Ref)
      requires Sound() && Current().PhaseOf(thread) == Leaving(slug, ref)
      modifies this
      ensures Sound() && old(Current()).Leaves(thread, Current())
    {
      ghost var before := Current();
      assert before.ThreadFits(thread);
      var refs := locks[ref].refs - 1;
      locks := locks[ref := locks[ref].(refs := refs)];
      if refs == 0 {
        rooms := rooms - {slug};
      }
      phases := phases[thread := Outside];
      LeavesKeepsValid(before, thread, Current());
    }
  }
}
