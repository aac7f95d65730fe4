/**
  End to end: a client that folds the changes queued to its peer, in the order
  they are queued, mirrors the room.
*/
module Mirrors {
  import opened Utf16
  import opened ChangeSets
  import opened Histories
  import opened Sequences
  import opened Authority
  import opened AuthorityInvariant
  import opened Rooms
  import opened Runs
  import opened Clients
  import opened Bridges
  import opened Scars
  import opened Reconnection
  import opened Publication
  import opened Delivery
  import opened Interleavings
  import Streams

  ghost function FoldEvent(copy: Copy, event: Event): Result<Copy> {
    match event
    case DocumentEvent(edit) => FoldEdit(copy, edit)
    case MetadataEvent(structure) => FoldStructure(copy, structure)
  }

  ghost function FoldEvents(copy: Copy, events: seq<Event>): Result<Copy> {
    if events == [] then Ok(copy)
    else
      var init := FoldEvents(copy, events[..|events| - 1]);
      if init.Err? then Err else FoldEvent(init.value, events[|events| - 1])
  }

  lemma {:induction false} FoldEventsConcat(copy: Copy, first: seq<Event>, second: seq<Event>)
    requires FoldEvents(copy, first).Ok?
    ensures FoldEvents(copy, first + second) == FoldEvents(FoldEvents(copy, first).value, second)
    decreases |second|
  {
    if second == [] {
      assert first + second == first;
    } else {
      var init := second[..|second| - 1];
      FoldEventsConcat(copy, first, init);
      assert (first + second)[..|first + second| - 1] == first + init;
    }
  }

  // ----- Scars along the way -----

  /** The scars after a published change: an edit carries and makes them, a created document has none. */
  ghost function EventScars(scars: map<Id, seq<bool>>, s: State, event: Event): map<Id, seq<bool>> {
    match event
    case DocumentEvent(edit) =>
      if edit.id in scars && edit.id in s.documents
        && OldLen(edit.changes) == |scars[edit.id]| == |s.documents[edit.id].content|
      then scars[edit.id := NextScars(edit.changes, scars[edit.id], s.documents[edit.id].content)]
      else scars
    case MetadataEvent(structure) =>
      if structure.change.Created? then scars[structure.change.id := seq(|structure.change.content|, _ => false)]
        else scars
  }

  lemma MirrorIds(copy: Copy, s: State, scars: map<Id, seq<bool>>, limits: Limits)
    requires Valid(s, limits) && Mirrored(copy, s, scars)
    ensures CopyIds(copy.documents) == s.order && NoDuplicates(CopyIds(copy.documents))
  {
    assert Ids(TabsOf(s.documents, s.order)) == s.order;
  }

  // ----- One accepted edit -----

  lemma EditMirrored(copy: Copy, s: State, t: State, event: EditEvent, scars: map<Id, seq<bool>>, limits: Limits)
    requires Valid(s, limits) && Mirrored(copy, s, scars) && EditEffect(s, t, event.id, event.revision, event.changes)
    ensures FoldEdit(copy, event).Ok? && Elements(t.order) <= t.documents.Keys
    ensures Mirrored(FoldEdit(copy, event).value, t, EventScars(scars, s, DocumentEvent(event)))
  {
    hide DocumentsFit, MetadataFits, ViewsFit, LedgerFits, TotalBytes, Applied, OldLen, NoDuplicates, Marks, NextScars,
         Labelled;
    MirrorIds(copy, s, scars, limits);
    assert event.id in Elements(s.order);
    var ids := CopyIds(copy.documents);
    IndexOfFinds(copy.documents, event.id);
    var i := IndexOf(copy.documents, event.id);
    assert MatchesAt(copy, s, i, scars);
    MarkedLength(scars[event.id], copy.documents[i].content, s.documents[event.id].content);
    var r := copy.(documents := copy.documents[i := EditedDocument(copy.documents[i], event)]);
    NextMarks(event.changes, scars[event.id], copy.documents[i].content, s.documents[event.id].content);
    SameTabs(copy.documents, r.documents);
    assert TabsOf(t.documents, t.order) == TabsOf(s.documents, s.order);
    OnlyOne(ids, i);
    var next := EventScars(scars, s, DocumentEvent(event));
    forall k | 0 <= k < |r.documents|
      ensures MatchesAt(r, t, k, next)
    {
      assert MatchesAt(copy, s, k, scars);
      assert ids[k] == copy.documents[k].id;
    }
  }

  lemma MarkedLength(scars: seq<bool>, received: Text, stored: Text)
    requires Marks(scars, received, stored)
    ensures |scars| == |received| == |stored|
  {
  }

  lemma OnlyOne(ids: seq<Id>, i: nat)
    requires i < |ids| && NoDuplicates(ids)
    ensures forall k :: 0 <= k < |ids| && k != i ==> ids[k] != ids[i]
  {
  }

  lemma SameTabs(documents: seq<ClientDocument>, after: seq<ClientDocument>)
    requires |documents| == |after|
    requires forall i :: 0 <= i < |documents| ==>
      documents[i].id == after[i].id && documents[i].name == after[i].name && documents[i].language == after[i].language
    ensures CopyTabs(documents) == CopyTabs(after)
  {
  }

  // ----- One accepted change of the tab list -----

  lemma RestructuredMatches(
      copy: Copy, s: State, held: ClientDocument, structure: StructureEvent, documents: map<Id, Document>,
        scars: map<Id, seq<bool>>)
    requires Elements(s.order) <= s.documents.Keys && Mirrored(copy, s, scars)
    requires ComesFrom(held, copy.documents, structure.change)
    requires documents == RestructuredDocuments(s.documents, structure.change)
    requires held.id in documents && (structure.change.Created? ==> structure.change.id !in s.documents)
    ensures
      var next := EventScars(scars, s, MetadataEvent(structure));
      held.id in next && held.revision == documents[held.id].revision
        && Marks(next[held.id], held.content, documents[held.id].content)
  {
    var change := structure.change;
    if !(change.Created? && held.id == change.id && held.content == change.content && held.revision == 0) {
      var j :| 0 <= j < |copy.documents| && copy.documents[j].id == held.id
        && copy.documents[j].content == held.content && copy.documents[j].revision == held.revision;
      assert MatchesAt(copy, s, j, scars);
    }
  }

  lemma StructureMirrored(
      copy: Copy, s: State, t: State, event: StructureEvent, scars: map<Id, seq<bool>>, limits: Limits)
    requires Valid(s, limits) && Valid(t, limits) && Mirrored(copy, s, scars)
    requires StructureEffect(s, t, event.revision, event.change, limits)
    ensures FoldStructure(copy, event).Ok?
    ensures Mirrored(FoldStructure(copy, event).value, t, EventScars(scars, s, MetadataEvent(event)))
  {
    hide MetadataFits, ViewsFit, LedgerFits, TotalBytes, FoldedDocuments, Restructured, RestructuredDocuments,
         RestructuredOrder, CopyTabs, TabsOf, Marks, EventScars, Labelled, ChangeFits;
    var change := event.change;
    MirrorIds(copy, s, scars, limits);
    DocumentsHaveTrails(s, limits);
    ViewRestructured(s, change, limits);
    TabIds(t);
    FoldsAny(copy.documents, change, s, t, limits);
    var after := FoldedDocuments(copy.documents, change).value;
    var r := FoldStructure(copy, event).value;
    assert r == Copy(event.revision, after);
    CreatedAbsent(s, change, limits);
    var next := EventScars(scars, s, MetadataEvent(event));
    forall k | 0 <= k < |after|
      ensures MatchesAt(r, t, k, next)
    {
      ListedDocument(after, t, k);
      assert ComesFrom(after[k], copy.documents, change);
      RestructuredMatches(copy, s, after[k], event, t.documents, scars);
    }
  }

  lemma CreatedAbsent(s: State, change: MetadataChange, limits: Limits)
    requires Elements(s.order) <= s.documents.Keys && ChangeFits(s, change, limits) && s.documents.Keys <= s.trails.Keys
    ensures change.Created? ==> change.id !in s.documents
  {
  }

  lemma TabIds(t: State)
    requires Elements(t.order) <= t.documents.Keys
    ensures Ids(TabsOf(t.documents, t.order)) == t.order
  {
  }

  lemma ListedDocument(documents: seq<ClientDocument>, t: State, k: nat)
    requires Elements(t.order) <= t.documents.Keys && CopyTabs(documents) == TabsOf(t.documents, t.order)
    requires k < |documents|
    ensures documents[k].id in t.documents
  {
    assert CopyTabs(documents)[k] == TabsOf(t.documents, t.order)[k];
    assert t.order[k] in Elements(t.order);
  }

  /** The client folds any change the room accepts. */
  lemma FoldsAny(documents: seq<ClientDocument>, change: MetadataChange, s: State, t: State, limits: Limits)
    requires Structured(s.documents, s.order, limits) && Structured(t.documents, t.order, limits)
    requires CopyTabs(documents) == TabsOf(s.documents, s.order) && CopyIds(documents) == s.order
    requires TabsOf(t.documents, t.order) == Restructured(CopyTabs(documents), change)
    requires Ids(TabsOf(t.documents, t.order)) == t.order && ChangeFits(s, change, limits)
    ensures FoldedDocuments(documents, change).Ok?
    ensures CopyTabs(FoldedDocuments(documents, change).value) == TabsOf(t.documents, t.order)
    ensures AllComeFrom(FoldedDocuments(documents, change).value, documents, change)
  {
    hide FoldedDocuments, Restructured, AllComeFrom, TotalBytes, TabsOf, CopyTabs;
    match change
    case Created(_, _, _, _) => FoldsCreated(documents, change);
    case Updated(_, _, _) => FoldsUpdated(documents, change);
    case Deleted(_) => FoldsDeleted(documents, change);
    case Reordered(order) =>
      ElementsSize(s.order);
      Covers(order, s.documents.Keys);
      FoldsReordered(documents, change);
  }

  // ----- One published change -----

  /**
    A client that mirrors the room folds the next published change, without a
    refusal, into a mirror of the changed room.
  */
  lemma EventMirrored(copy: Copy, s: State, event: Event, t: State, scars: map<Id, seq<bool>>, policy: Policy)
    requires Accepts(s, event, t, policy) && Mirrored(copy, s, scars)
    ensures Valid(t, policy.limits) && FoldEvent(copy, event).Ok?
    ensures Mirrored(FoldEvent(copy, event).value, t, EventScars(scars, s, event))
  {
    hide Valid, Mirrored, Step, FoldEdit, FoldStructure, EventScars;
    var action: Action :| AcceptsBy(s, action, event, t, policy);
    StepKeepsValid(s, action, t, policy);
    match action
    case SubmitEdit(_, _, _, _) =>
      AcceptedEdit(s, action, t, policy);
      EditMirrored(copy, s, t, EventOf(action).edit, scars, policy.limits);
    case SubmitStructure(_, _, _, _, _) =>
      AcceptedStructure(s, action, t, policy);
      StructureMirrored(copy, s, t, EventOf(action).structure, scars, policy.limits);
  }

  // ----- One repeated answer -----

  lemma ShownUpdate(documents: seq<ClientDocument>, id: Id, name: string, language: string)
    requires Shows(CopyTabs(documents), Updated(id, name, language))
    ensures WithNames(documents, id, name, language) == documents
  {
    forall i | 0 <= i < |documents|
      ensures WithNames(documents, id, name, language)[i] == documents[i]
    {
      assert CopyTabs(documents)[i] == Tab(documents[i].id, documents[i].name, documents[i].language);
    }
  }

  lemma ShownDeletion(documents: seq<ClientDocument>, id: Id)
    requires Shows(CopyTabs(documents), Deleted(id))
    ensures Filtered(documents, id) == documents
  {
    var ids := CopyIds(documents);
    assert forall i :: 0 <= i < |documents| ==> documents[i].id == ids[i];
    FilteredAbsent(documents, id);
  }

  lemma ShownReorder(documents: seq<ClientDocument>, order: seq<Id>)
    requires NoDuplicates(CopyIds(documents)) && Shows(CopyTabs(documents), Reordered(order))
    ensures Places(order, documents) && SortedBy(documents, LastPlaces(order)) == documents
  {
    hide NoDuplicates, IndexOf, Places, LastPlaces, SortedBy;
    ReorderAccepted(documents, order);
    SortedPicks(documents, order);
    forall i | 0 <= i < |documents|
      ensures SortedBy(documents, order)[i] == documents[i]
    {
      assert order[i] == CopyIds(documents)[i] == documents[i].id;
      OnlyOne(CopyIds(documents), i);
      OtherIds(documents, i);
      FirstIndex(documents, i);
    }
  }

  lemma OtherIds(documents: seq<ClientDocument>, i: nat)
    requires i < |documents|
    requires forall k :: 0 <= k < |documents| && k != i ==> CopyIds(documents)[k] != CopyIds(documents)[i]
    ensures forall k :: 0 <= k < |documents| && k != i ==> documents[k].id != documents[i].id
  {
    forall k | 0 <= k < |documents| && k != i
      ensures documents[k].id != documents[i].id
    {
      assert CopyIds(documents)[k] == documents[k].id && CopyIds(documents)[i] == documents[i].id;
    }
  }

  lemma FirstIndex(documents: seq<ClientDocument>, i: nat)
    requires i < |documents| && forall k :: 0 <= k < |documents| && k != i ==> documents[k].id != documents[i].id
    ensures IndexOf(documents, documents[i].id) == i
  {
    hide IndexOf;
    var k := IndexOf(documents, documents[i].id);
    assert k <= i;
  }

  /** Folding a tab change into a list that already shows it changes nothing. */
  lemma ShownFolds(documents: seq<ClientDocument>, change: MetadataChange)
    requires NoDuplicates(CopyIds(documents)) && Shows(CopyTabs(documents), change)
    ensures FoldedDocuments(documents, change) == Ok(documents)
  {
    hide NoDuplicates, IndexOf, Places, LastPlaces, SortedBy, CopyTabs, WithNames, Filtered;
    match change
    case Created(id, _, _, _) => IndexOfFinds(documents, id);
    case Updated(id, name, language) => ShownUpdate(documents, id, name, language);
    case Deleted(id) => ShownDeletion(documents, id);
    case Reordered(order) => ShownReorder(documents, order);
  }

  /**
    A repeated answer changes nothing: a client that mirrors the room folds any
    answer the room remembers into the very copy it has. An edit it has seen is
    skipped; the newest tab change is folded again, to no effect.
  */
  lemma RetryFolds(copy: Copy, s: State, scars: map<Id, seq<bool>>, record: Record, limits: Limits)
    requires Valid(s, limits) && Mirrored(copy, s, scars) && record in s.ledger
    ensures FoldEvent(copy, AnswerEvent(record.answer)) == Ok(copy)
  {
    hide DocumentsFit, MetadataFits, ViewsFit, LedgerFits, TotalBytes, NoDuplicates, Marks, Labelled, Shows,
         FoldedDocuments;
    MirrorIds(copy, s, scars, limits);
    var i := IndexIn(s.ledger, record);
    assert RecordBehind(s, s.ledger[i]);
    match record.answer
    case EditAnswer(id, _, revision, _) =>
      var k := IndexOf(copy.documents, id);
      if k < |copy.documents| {
        assert MatchesAt(copy, s, k, scars);
      }
    case StructureAnswer(_, revision, change) =>
      if revision == s.metadataRevision {
        ShownFolds(copy.documents, change);
      }
  }

  // ----- The whole queue -----

  /** The scars after a stretch of the log. */
  ghost function LogScars(c: Core, scars: map<Id, seq<bool>>, start: nat, end: nat): map<Id, seq<bool>>
    requires start <= end <= |c.log| < |c.states|
    decreases end
  {
    if start == end then scars else EventScars(LogScars(c, scars, start, end - 1), c.states[end - 1], c.log[end - 1])
  }

  lemma {:induction false} LogMirrored(
      c: Core, copy: Copy, start: nat, end: nat, scars: map<Id, seq<bool>>, policy: Policy)
    requires Logged(c, policy) && start <= end <= |c.log|
    requires Valid(c.states[start], policy.limits) && Mirrored(copy, c.states[start], scars)
    ensures Valid(c.states[end], policy.limits) && FoldEvents(copy, c.log[start..end]).Ok?
    ensures Mirrored(FoldEvents(copy, c.log[start..end]).value, c.states[end], LogScars(c, scars, start, end))
    decreases end
  {
    hide Valid, Mirrored, Accepts, FoldEvent, EventScars;
    if start < end {
      var last := end - 1;
      LogMirrored(c, copy, start, last, scars, policy);
      assert c.log[start..end][..last - start] == c.log[start..last];
      assert Accepts(c.states[last], c.log[last], c.states[last + 1], policy);
      var before := FoldEvents(copy, c.log[start..last]).value;
      EventMirrored(before, c.states[last], c.log[last], c.states[end], LogScars(c, scars, start, last), policy);
    } else {
      assert c.log[start..end] == [];
    }
  }

  lemma {:induction false} FoldsStructures(copy: Copy, events: seq<StructureEvent>)
    ensures FoldEvents(copy, Streams.StructureEvents(events)) == FoldStructures(copy, events)
    decreases |events|
  {
    if events != [] {
      var init := events[..|events| - 1];
      FoldsStructures(copy, init);
      assert Streams.StructureEvents(events)[..|events| - 1] == Streams.StructureEvents(init);
    }
  }

  lemma {:induction false} FoldsEdits(copy: Copy, events: seq<EditEvent>)
    ensures FoldEvents(copy, Streams.EditEvents(events)) == FoldEdits(copy, events)
    decreases |events|
  {
    if events != [] {
      var init := events[..|events| - 1];
      FoldsEdits(copy, init);
      assert Streams.EditEvents(events)[..|events| - 1] == Streams.EditEvents(init);
    }
  }

  lemma OfferMirrored(s: State, copy: Copy, known: Known, limits: Limits)
    requires Valid(s, limits) && Holds(s, copy)
    requires known.metadata == copy.metadataRevision && Declared(known.documents, copy.documents)
    requires Bridged(s, known).Deltas?
    ensures
      var r := FoldEvents(copy, Streams.OfferEvents(Bridged(s, known)));
      r.Ok? && Mirrored(r.value, s, BridgeScars(s, KnownAfter(s.metadataHistory, known)))
  {
    hide Valid, Holds, Declared, Bridged, FoldStructures, FoldEdits, Mirrored, BridgeScars;
    BridgeSound(s, copy, known, limits);
    var offer := Bridged(s, known);
    FoldsStructures(copy, offer.structures);
    var middle := FoldStructures(copy, offer.structures).value;
    FoldsEdits(middle, offer.edits);
    FoldEventsConcat(copy, Streams.StructureEvents(offer.structures), Streams.EditEvents(offer.edits));
  }

  /** The scars a bridged peer's client has in its texts after what it was given. */
  ghost function QueueScars(c: Core, m: Member): map<Id, seq<bool>>
    requires m.joined <= m.reached <= |c.log| < |c.states|
  {
    var s := c.states[m.joined];
    LogScars(c, BridgeScars(s, KnownAfter(s.metadataHistory, m.known)), m.joined, m.reached)
  }

  /**
    In every interleaving, until its peer is stopped, a client that held the
    room's state at the revisions it joined with and was bridged folds the
    changes queued to it, without a refusal, into the room's tabs, order and
    revisions as of the last change it was given. Each document's text is the
    room's but for its scars, so that the copy is the room's state exactly when
    every document's scars have been deleted again.
  */
  lemma QueueMirrorsRoom(systems: seq<System>, slug: Slug, policy: Policy, k: nat, id: PeerId, copy: Copy)
    requires IsRunOf(systems, slug, policy) && k < |systems| && id in systems[k].core.members
    requires
      var m := systems[k].core.members[id];
      && !m.peer.stopped && m.offer.Deltas? && !(systems[k].Work().Sending? && systems[k].Work().id == id)
      && m.joined < |systems[k].core.states| && Holds(systems[k].core.states[m.joined], copy)
      && m.known.metadata == copy.metadataRevision && Declared(m.known.documents, copy.documents)
    ensures
      var c := systems[k].core;
      var m := c.members[id];
      var r := FoldEvents(copy, ChangesIn(m.peer.queued));
      && m.joined <= m.reached <= |c.log| < |c.states| && Valid(c.states[m.reached], policy.limits)
      && r.Ok? && Mirrored(r.value, c.states[m.reached], QueueScars(c, m))
      && (r.value == CopyOf(c.states[m.reached])
          <==> forall id :: id in c.states[m.reached].order ==> id in QueueScars(c, m) && Healed(QueueScars(c, m)[id]))
      && (m.registered && !systems[k].Work().Listing? && !systems[k].Work().Publishing? ==> m.reached == |c.log|)
  {
    hide Valid, Bridged, BridgeFrames, ChangesIn, Accepts, Streams.OfferEvents, Holds, Declared, BridgeScars, LogScars,
         Mirrored, FoldEvents, Healed, CopyOf;
    RunFits(systems, slug, policy, k);
    QueueIsBridgeThenLog(systems, slug, policy, k, id);
    var c, work := systems[k].core, systems[k].Work();
    assert MemberFits(c, work, id);
    var m := c.members[id];
    var s := c.states[m.joined];
    Streams.LoggedValid(c, m.joined, policy);
    Streams.BridgeChanges(m.offer);
    OfferMirrored(s, copy, m.known, policy.limits);
    var events := ChangesIn(BridgeFrames(m.offer));
    var bridged := FoldEvents(copy, events).value;
    LogMirrored(c, bridged, m.joined, m.reached, BridgeScars(s, KnownAfter(s.metadataHistory, m.known)), policy);
    FoldEventsConcat(copy, events, c.log[m.joined..m.reached]);
    ListedKnown(c.states[m.reached], policy.limits);
    ExactMirror(FoldEvents(copy, ChangesIn(m.peer.queued)).value, c.states[m.reached], QueueScars(c, m));
  }

  lemma ListedKnown(s: State, limits: Limits)
    requires Valid(s, limits)
    ensures Elements(s.order) <= s.documents.Keys
  {
  }
}
