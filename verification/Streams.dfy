/**
  In-order delivery: the changes queued to a peer, taken document by document,
  have consecutive revisions from the revision the peer joined with.
*/
module Streams {
  import opened Histories
  import opened Sequences
  import opened Authority
  import opened AuthorityInvariant
  import opened Rooms
  import opened Runs
  import opened Clients
  import opened Bridges
  import opened Publication
  import opened Delivery
  import opened Interleavings

  /** The changes of the tab list, or of one document. */
  datatype Stream = Tabs | Doc(id: Id)

  function StreamOf(event: Event): Stream {
    match event
    case DocumentEvent(edit) => Doc(edit.id)
    case MetadataEvent(_) => Tabs
  }

  function RevisionOf(event: Event): int {
    match event
    case DocumentEvent(edit) => edit.revision
    case MetadataEvent(structure) => structure.revision
  }

  ghost function Count(events: seq<Event>, stream: Stream): nat {
    if events == [] then 0
    else Count(events[..|events| - 1], stream) + (if StreamOf(events[|events| - 1]) == stream then 1 else 0)
  }

  /** The events of a stream have the revisions after `base`, without a gap or a repetition. */
  ghost predicate InOrder(events: seq<Event>, stream: Stream, base: int) {
    if events == [] then true
    else
      var init, last := events[..|events| - 1], events[|events| - 1];
      InOrder(init, stream, base) && (StreamOf(last) == stream ==> RevisionOf(last) == base + Count(init, stream) + 1)
  }

  // ----- Lists of events -----

  lemma {:induction false} CountConcat(first: seq<Event>, second: seq<Event>, stream: Stream)
    ensures Count(first + second, stream) == Count(first, stream) + Count(second, stream)
    decreases |second|
  {
    if second == [] {
      assert first + second == first;
    } else {
      var n := |first + second| - 1;
      assert (first + second)[..n] == first + second[..|second| - 1];
      CountConcat(first, second[..|second| - 1], stream);
    }
  }

  lemma {:induction false} InOrderConcat(first: seq<Event>, second: seq<Event>, stream: Stream, base: int)
    requires InOrder(first, stream, base) && InOrder(second, stream, base + Count(first, stream))
    ensures InOrder(first + second, stream, base)
    decreases |second|
  {
    if second == [] {
      assert first + second == first;
    } else {
      var init := second[..|second| - 1];
      InOrderConcat(first, init, stream, base);
      CountConcat(first, init, stream);
      assert (first + second)[..|first + second| - 1] == first + init;
    }
  }

  lemma {:induction false} InOrderPrefix(events: seq<Event>, n: nat, stream: Stream, base: int)
    requires n <= |events| && InOrder(events, stream, base)
    ensures InOrder(events[..n], stream, base)
    decreases |events|
  {
    if n < |events| {
      assert events[..|events| - 1][..n] == events[..n];
      InOrderPrefix(events[..|events| - 1], n, stream, base);
    } else {
      assert events[..n] == events;
    }
  }

  lemma InOrderGrow(events: seq<Event>, event: Event, stream: Stream, base: int)
    requires InOrder(events, stream, base)
    requires StreamOf(event) == stream ==> RevisionOf(event) == base + Count(events, stream) + 1
    ensures InOrder(events + [event], stream, base)
    ensures Count(events + [event], stream) == Count(events, stream) + (if StreamOf(event) == stream then 1 else 0)
  {
    assert (events + [event])[..|events|] == events;
  }

  /** Any two consecutive events of a stream have consecutive revisions. */
  lemma {:induction false} NoGap(events: seq<Event>, stream: Stream, base: int, i: nat)
    requires InOrder(events, stream, base) && i < |events| && StreamOf(events[i]) == stream
    ensures RevisionOf(events[i]) == base + Count(events[..i], stream) + 1
    decreases |events|
  {
    var n := |events| - 1;
    if i < n {
      assert events[..n][..i] == events[..i];
      NoGap(events[..n], stream, base, i);
    }
  }

  /** A list without events of a stream is in order for it. */
  lemma {:induction false} OtherStream(events: seq<Event>, stream: Stream, base: int)
    requires forall i :: 0 <= i < |events| ==> StreamOf(events[i]) != stream
    ensures InOrder(events, stream, base) && Count(events, stream) == 0
    decreases |events|
  {
    if events != [] {
      OtherStream(events[..|events| - 1], stream, base);
    }
  }

  // ----- The log -----

  /** The stream's revision in a state. */
  ghost function Level(s: State, stream: Stream): int {
    match stream
    case Tabs => s.metadataRevision
    case Doc(id) => if id in s.documents then s.documents[id].revision else 0
  }

  /** The stream can still get events: a deleted document never does. */
  ghost predicate Alive(s: State, stream: Stream) {
    stream.Tabs? || stream.id in s.documents || stream.id !in s.trails
  }

  /** An accepted change is the next revision of its stream, and no other stream moves. */
  lemma AcceptsAdvances(s: State, event: Event, t: State, stream: Stream, policy: Policy)
    requires Accepts(s, event, t, policy)
    ensures Valid(t, policy.limits)
    ensures StreamOf(event) == stream ==>
      Alive(s, stream) && RevisionOf(event) == Level(s, stream) + 1 == Level(t, stream)
    ensures StreamOf(event) != stream && Alive(t, stream) ==> Alive(s, stream) && Level(t, stream) == Level(s, stream)
  {
    var action: Action :| AcceptsBy(s, action, event, t, policy);
    StepKeepsValid(s, action, t, policy);
    ActionAdvances(s, action, t, stream, policy);
  }

  lemma ActionAdvances(s: State, action: Action, t: State, stream: Stream, policy: Policy)
    requires Valid(s, policy.limits) && Changes(action) && Step(s, action, t, policy)
    ensures
      var event := EventOf(action);
      && (StreamOf(event) == stream ==>
                Alive(s, stream) && RevisionOf(event) == Level(s, stream) + 1 == Level(t, stream))
      && (StreamOf(event) != stream && Alive(t, stream) ==> Alive(s, stream) && Level(t, stream) == Level(s, stream))
  {
    hide Valid, Step;
    ListedHaveTrails(s, policy.limits);
    if action.SubmitEdit? {
      AcceptedEdit(s, action, t, policy);
    } else {
      AcceptedStructure(s, action, t, policy);
      RestructureAdvances(s, t, EventOf(action).structure.change, stream, policy.limits);
    }
  }

  lemma ListedHaveTrails(s: State, limits: Limits)
    requires Valid(s, limits)
    ensures Elements(s.order) <= s.documents.Keys <= s.trails.Keys
  {
    DocumentsHaveTrails(s, limits);
  }

  lemma RestructureAdvances(s: State, t: State, change: MetadataChange, stream: Stream, limits: Limits)
    requires Elements(s.order) <= s.documents.Keys <= s.trails.Keys && ChangeFits(s, change, limits)
    requires t.documents == RestructuredDocuments(s.documents, change)
    requires t.trails.Keys == s.trails.Keys + (if change.Created? then {change.id} else {})
    ensures stream.Doc? && Alive(t, stream) ==> Alive(s, stream) && Level(t, stream) == Level(s, stream)
  {
  }

  /** From any point of the log on, each stream's events continue its revision at that point. */
  lemma {:induction false} LogInOrder(c: Core, start: nat, end: nat, stream: Stream, policy: Policy)
    requires Logged(c, policy) && start <= end <= |c.log|
    ensures InOrder(c.log[start..end], stream, Level(c.states[start], stream))
    ensures Alive(c.states[end], stream) ==>
      Level(c.states[end], stream) == Level(c.states[start], stream) + Count(c.log[start..end], stream)
    decreases end
  {
    hide Accepts, Level, Alive, Valid;
    if start < end {
      LogInOrder(c, start, end - 1, stream, policy);
      assert c.log[start..end] == c.log[start..end - 1] + [c.log[end - 1]];
      assert Accepts(c.states[end - 1], c.log[end - 1], c.states[end - 1 + 1], policy);
      AcceptsAdvances(c.states[end - 1], c.log[end - 1], c.states[end], stream, policy);
      InOrderGrow(c.log[start..end - 1], c.log[end - 1], stream, Level(c.states[start], stream));
    }
  }

  // ----- The bridge -----

  ghost function StructureEvents(events: seq<StructureEvent>): (r: seq<Event>)
    ensures |r| == |events|
  {
    seq(|events|, i requires 0 <= i < |events| => MetadataEvent(events[i]))
  }

  ghost function EditEvents(events: seq<EditEvent>): (r: seq<Event>)
    ensures |r| == |events|
  {
    seq(|events|, i requires 0 <= i < |events| => DocumentEvent(events[i]))
  }

  ghost function OfferEvents(offer: Bridge): seq<Event> {
    match offer
    case Resync => []
    case Deltas(structures, edits) => StructureEvents(structures) + EditEvents(edits)
  }

  lemma {:induction false} AllPublished(frames: seq<Frame>, events: seq<Event>)
    requires |frames| == |events| && forall i :: 0 <= i < |frames| ==> frames[i] == Published(events[i])
    ensures ChangesIn(frames) == events
    decreases |frames|
  {
    if frames != [] {
      AllPublished(frames[..|frames| - 1], events[..|events| - 1]);
    }
  }

  lemma BridgeChanges(offer: Bridge)
    ensures ChangesIn(BridgeFrames(offer)) == OfferEvents(offer)
  {
    match offer
    case Resync =>
      assert [ResyncRequired][..0] == [];
    case Deltas(_, _) =>
      AllPublished(BridgeFrames(offer), OfferEvents(offer));
  }

  lemma {:induction false} ChangesInPrefix(frames: seq<Frame>, n: nat)
    requires n <= |frames|
    ensures ChangesIn(frames[..n]) <= ChangesIn(frames)
    decreases |frames|
  {
    if n < |frames| {
      assert frames[..|frames| - 1][..n] == frames[..n];
      ChangesInPrefix(frames[..|frames| - 1], n);
    } else {
      assert frames[..n] == frames;
    }
  }

  lemma {:induction false} StructuresInOrder(s: State, revision: int, k: nat, limits: Limits)
    requires MetadataFits(s, limits) && s.metadataCompacted <= revision <= s.metadataRevision
    requires k <= |s.metadataHistory|
    ensures
      var events := StructureEvents(StructuresAfter(s.metadataHistory[..k], revision));
      && InOrder(events, Tabs, revision)
      && Count(events, Tabs) == if s.metadataCompacted + k <= revision then 0 else s.metadataCompacted + k - revision
    decreases k
  {
    hide MetadataSize, Restructured, InOrder, Count, Elements;
    if k == 0 {
      OtherStream([], Tabs, revision);
    } else {
      var history := s.metadataHistory;
      assert history[..k][..k - 1] == history[..k - 1];
      StructuresInOrder(s, revision, k - 1, limits);
      assert MetadataEntryLeads(s, k - 1);
      var earlier, last := StructuresAfter(history[..k - 1], revision), history[k - 1];
      if last.revision <= revision {
        assert StructuresAfter(history[..k], revision) == earlier;
      } else {
        var event := StructureEvent(last.revision, last.change);
        assert StructureEvents(earlier + [event]) == StructureEvents(earlier) + [MetadataEvent(event)];
        InOrderGrow(StructureEvents(earlier), MetadataEvent(event), Tabs, revision);
      }
    }
  }

  /** The retained edits of one document, as sent to a peer at `version`. */
  lemma {:induction false} EditsInOrder(id: Id, d: Document, version: int, k: nat)
    requires Coherent(d) && d.compacted <= version <= d.revision && k <= |d.history|
    ensures
      var events := EditEvents(EditsAfter(id, d.history[..k], version));
      && InOrder(events, Doc(id), version)
      && Count(events, Doc(id)) == if d.compacted + k <= version then 0 else d.compacted + k - version
    decreases k
  {
    hide InOrder, Count, Bytes;
    if k == 0 {
      OtherStream([], Doc(id), version);
    } else {
      var history := d.history;
      assert history[..k][..k - 1] == history[..k - 1];
      EditsInOrder(id, d, version, k - 1);
      assert EntryFits(history, k - 1, d.compacted, |d.content|);
      var earlier, last := EditsAfter(id, history[..k - 1], version), history[k - 1];
      if last.revision <= version {
        assert EditsAfter(id, history[..k], version) == earlier;
      } else {
        var event := EditEvent(id, last.revision, last.changes);
        assert EditEvents(earlier + [event]) == EditEvents(earlier) + [DocumentEvent(event)];
        InOrderGrow(EditEvents(earlier), DocumentEvent(event), Doc(id), version);
      }
    }
  }

  lemma {:induction false} EditsOfDocument(id: Id, history: seq<Entry>, version: int)
    ensures forall i :: 0 <= i < |EditsAfter(id, history, version)| ==> EditsAfter(id, history, version)[i].id == id
    decreases |history|
  {
    if history != [] {
      EditsOfDocument(id, history[..|history| - 1], version);
    }
  }

  ghost predicate Sendable(order: seq<Id>, documents: map<Id, Document>, known: map<Id, int>) {
    NoDuplicates(order) && forall id :: id in order ==> ReachesBack(documents, known, id) && Coherent(documents[id])
  }

  /** The edits of document `id`, among any others. */
  lemma DocumentEdits(id: Id, d: Document, version: int, stream: Stream, base: int)
    requires Coherent(d) && d.compacted <= version <= d.revision
    requires stream == Doc(id) ==> base == version
    ensures
      var events := EditEvents(EditsAfter(id, d.history, version));
      && InOrder(events, stream, base)
      && Count(events, stream) == if stream == Doc(id) then d.revision - version else 0
  {
    hide InOrder, Count, EditsAfter, Coherent;
    assert d.history[..|d.history|] == d.history;
    assert d.revision == d.compacted + |d.history| by { RetainedRange(d); }
    EditsInOrder(id, d, version, |d.history|);
    if stream != Doc(id) {
      EditsOfDocument(id, d.history, version);
      OtherStream(EditEvents(EditsAfter(id, d.history, version)), stream, base);
    }
  }

  lemma RetainedRange(d: Document)
    requires Coherent(d)
    ensures d.revision == d.compacted + |d.history|
  {
  }

  ghost function SentCount(order: seq<Id>, documents: map<Id, Document>, known: map<Id, int>, stream: Stream): int {
    if stream.Doc? && stream.id in order && ReachesBack(documents, known, stream.id)
    then documents[stream.id].revision - known[stream.id] else 0
  }

  lemma {:induction false} AllEditsInOrder(
      order: seq<Id>, documents: map<Id, Document>, known: map<Id, int>, stream: Stream, base: int)
    requires Sendable(order, documents, known)
    requires stream.Doc? && stream.id in order ==> base == known[stream.id]
    ensures
      var events := EditEvents(AllEditsAfter(order, documents, known));
      InOrder(events, stream, base) && Count(events, stream) == SentCount(order, documents, known, stream)
    decreases |order|
  {
    hide InOrder, Count, EditsAfter, Coherent;
    if order != [] {
      var n := |order| - 1;
      var init, id := order[..n], order[n];
      assert order == init + [id] && id !in init;
      AllEditsInOrder(init, documents, known, stream, base);
      assert ReachesBack(documents, known, id);
      var first, second := AllEditsAfter(init, documents, known), EditsAfter(id, documents[id].history, known[id]);
      DocumentEdits(id, documents[id], known[id], stream, base + Count(EditEvents(first), stream));
      assert EditEvents(first + second) == EditEvents(first) + EditEvents(second);
      CountConcat(EditEvents(first), EditEvents(second), stream);
      InOrderConcat(EditEvents(first), EditEvents(second), stream, base);
    } else {
      OtherStream(EditEvents(AllEditsAfter(order, documents, known)), stream, base);
    }
  }

  /** The revision a peer starts from: what it declared, or the current one if it was told to resync. */
  ghost function JoinPoint(s: State, known: Known, stream: Stream): int {
    var revisions := KnownAfter(s.metadataHistory, known);
    if Bridged(s, known).Resync? then Level(s, stream)
    else
      match stream
      case Tabs => known.metadata
      case Doc(id) => if id in s.documents && id in revisions then revisions[id] else 0
  }

  /** The bridge takes every stream from the join point to its current revision. */
  lemma BridgeInOrder(s: State, known: Known, stream: Stream, limits: Limits)
    requires Valid(s, limits)
    ensures InOrder(OfferEvents(Bridged(s, known)), stream, JoinPoint(s, known, stream))
    ensures JoinPoint(s, known, stream) + Count(OfferEvents(Bridged(s, known)), stream) == Level(s, stream)
  {
    hide Valid, InOrder, Count, StructuresAfter, AllEditsAfter, KnownAfter, Sendable;
    var offer := Bridged(s, known);
    if offer.Deltas? {
      var revisions := KnownAfter(s.metadataHistory, known);
      var base := JoinPoint(s, known, stream);
      SendableNow(s, revisions, limits);
      var first, second := StructureEvents(offer.structures), EditEvents(offer.edits);
      BridgedStructures(s, known.metadata, stream, base, limits);
      AllEditsInOrder(s.order, s.documents, revisions, stream, base + Count(first, stream));
      InOrderConcat(first, second, stream, base);
      CountConcat(first, second, stream);
    } else {
      OtherStream([], stream, JoinPoint(s, known, stream));
    }
  }

  lemma BridgedStructures(s: State, revision: int, stream: Stream, base: int, limits: Limits)
    requires Valid(s, limits) && s.metadataCompacted <= revision <= s.metadataRevision
    requires stream.Tabs? ==> base == revision
    ensures
      var events := StructureEvents(StructuresAfter(s.metadataHistory, revision));
      InOrder(events, stream, base)
        && Count(events, stream) == if stream.Tabs? then s.metadataRevision - revision else 0
  {
    hide InOrder, Count, StructuresAfter, MetadataEntryLeads, DocumentsFit, ViewsFit, Structured, LedgerFits;
    var history := s.metadataHistory;
    assert history[..|history|] == history;
    if stream.Tabs? {
      StructuresInOrder(s, revision, |history|, limits);
    } else {
      OtherStream(StructureEvents(StructuresAfter(history, revision)), stream, base);
    }
  }

  lemma SendableNow(s: State, revisions: map<Id, int>, limits: Limits)
    requires Valid(s, limits) && forall id :: id in s.order ==> ReachesBack(s.documents, revisions, id)
    ensures Sendable(s.order, s.documents, revisions)
    ensures forall id :: id in s.order <==> id in s.documents
  {
    hide MetadataFits, ViewsFit, LedgerFits, TotalBytes;
    assert forall id :: id in s.order <==> id in Elements(s.order);
    forall id | id in s.order
      ensures Coherent(s.documents[id])
    {
      assert DocumentFits(s.documents, s.trails, limits, id);
    }
  }

  // ----- Delivery -----

  /** Every state of the log satisfies the room's invariant. */
  lemma LoggedValid(c: Core, k: nat, policy: Policy)
    requires Logged(c, policy) && k < |c.states|
    ensures Valid(c.states[k], policy.limits)
  {
    hide Valid, Level, Alive, AcceptsBy;
    if k > 0 {
      assert Accepts(c.states[k - 1], c.log[k - 1], c.states[k - 1 + 1], policy);
      AcceptsAdvances(c.states[k - 1], c.log[k - 1], c.states[k], Tabs, policy);
    }
  }

  /**
    In every interleaving of joins and submits, until a peer is stopped, the
    changes queued to it for the tab list or for any one document have
    consecutive revisions from its join point on.
  */
  lemma DeliveredInOrder(systems: seq<System>, slug: Slug, policy: Policy, k: nat, id: PeerId, stream: Stream)
    requires IsRunOf(systems, slug, policy) && k < |systems| && id in systems[k].core.members
    requires !systems[k].core.members[id].peer.stopped
    ensures
      var c := systems[k].core;
      var m := c.members[id];
      m.joined < |c.states| && InOrder(ChangesIn(m.peer.queued), stream, JoinPoint(c.states[m.joined], m.known, stream))
  {
    hide Valid, Bridged, BridgeFrames, ChangesIn, InOrder, Count, Accepts, Level, JoinPoint, OfferEvents;
    RunFits(systems, slug, policy, k);
    QueueIsBridgeThenLog(systems, slug, policy, k, id);
    var c, work := systems[k].core, systems[k].Work();
    assert MemberFits(c, work, id);
    var m := c.members[id];
    var s := c.states[m.joined];
    LoggedValid(c, m.joined, policy);
    BridgeInOrder(s, m.known, stream, policy.limits);
    BridgeChanges(m.offer);
    var bridged, base := ChangesIn(BridgeFrames(m.offer)), JoinPoint(s, m.known, stream);
    if work.Sending? && work.id == id {
      var n :| 0 <= n <= |BridgeFrames(m.offer)| && ChangesIn(m.peer.queued) == ChangesIn(BridgeFrames(m.offer)[..n]);
      ChangesInPrefix(BridgeFrames(m.offer), n);
      assert bridged[..|ChangesIn(m.peer.queued)|] == ChangesIn(m.peer.queued);
      InOrderPrefix(bridged, |ChangesIn(m.peer.queued)|, stream, base);
    } else {
      LogInOrder(c, m.joined, m.reached, stream, policy);
      InOrderConcat(bridged, c.log[m.joined..m.reached], stream, base);
    }
  }
}
