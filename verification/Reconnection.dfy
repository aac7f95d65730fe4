/**
  Bridge soundness: a client that held the server's state at the revisions it
  declared and folds the bridged changes reaches the server's current state.
*/
module Reconnection {
  import opened Utf16
  import opened ChangeSets
  import opened Histories
  import opened Replay
  import opened Sequences
  import opened Authority
  import opened AuthorityInvariant
  import opened Clients
  import opened Bridges
  import opened Scars

  ghost function CopyTabs(documents: seq<ClientDocument>): (r: View)
    ensures |r| == |documents|
  {
    seq(|documents|, i requires 0 <= i < |documents| => Tab(documents[i].id, documents[i].name, documents[i].language))
  }

  ghost function CopyIds(documents: seq<ClientDocument>): (r: seq<Id>)
    ensures |r| == |documents|
  {
    Ids(CopyTabs(documents))
  }

  /** The text is the server's at that revision, if the server's room was loaded by then. */
  ghost predicate HoldsText(trails: map<Id, Trail>, d: ClientDocument) {
    d.id in trails && trails[d.id].Covers(d.revision) ==> d.content == trails[d.id].At(d.revision)
  }

  ghost predicate HoldsTexts(trails: map<Id, Trail>, documents: seq<ClientDocument>) {
    forall i :: 0 <= i < |documents| ==> HoldsText(trails, documents[i])
  }

  /** The copy is the server's state at the copy's own revisions, wherever the room remembers having been there. */
  ghost predicate Holds(s: State, copy: Copy) {
    && (0 <= copy.metadataRevision - s.viewStart < |s.views| ==>
              CopyTabs(copy.documents) == s.views[copy.metadataRevision - s.viewStart])
    && HoldsTexts(s.trails, copy.documents)
  }

  ghost predicate Declared(revisions: map<Id, int>, documents: seq<ClientDocument>) {
    forall i :: 0 <= i < |documents| ==>
      documents[i].id in revisions && revisions[documents[i].id] == documents[i].revision
  }

  /** The server's current state as a client holds it. */
  ghost function CopyOf(s: State): Copy
    requires Elements(s.order) <= s.documents.Keys
  {
    assert forall id :: id in s.order ==> id in Elements(s.order);
    Copy(s.metadataRevision,
      seq(|s.order|, i requires 0 <= i < |s.order| => ServerDocument(s.order[i], s.documents[s.order[i]])))
  }

  ghost function ServerDocument(id: Id, d: Document): ClientDocument {
    ClientDocument(id, d.name, d.language, d.content, d.revision)
  }

  // ----- Folding one change of the tab list -----

  /** Where a folded document comes from: freshly created, or held before with the same text and revision. */
  ghost predicate ComesFrom(after: ClientDocument, before: seq<ClientDocument>, change: MetadataChange) {
    || (change.Created? && after.id == change.id && after.content == change.content && after.revision == 0)
    || exists k ::
         && 0 <= k < |before| && before[k].id == after.id
         && before[k].content == after.content && before[k].revision == after.revision
  }

  ghost predicate AllComeFrom(after: seq<ClientDocument>, before: seq<ClientDocument>, change: MetadataChange) {
    forall i :: 0 <= i < |after| ==> ComesFrom(after[i], before, change)
  }

  lemma Stays(after: ClientDocument, before: seq<ClientDocument>, k: nat, change: MetadataChange)
    requires k < |before| && before[k].id == after.id && before[k].content == after.content
    requires before[k].revision == after.revision
    ensures ComesFrom(after, before, change)
  {
  }

  lemma IndexOfFinds(documents: seq<ClientDocument>, id: Id)
    ensures IndexOf(documents, id) < |documents| <==> id in CopyIds(documents)
  {
    var i, ids := IndexOf(documents, id), CopyIds(documents);
    assert i < |documents| ==> ids[i] == id;
    if id in ids {
      var k := IndexIn(ids, id);
      assert documents[k].id == id;
    }
  }

  lemma {:induction false} FilteredAbsent(documents: seq<ClientDocument>, id: Id)
    requires forall i :: 0 <= i < |documents| ==> documents[i].id != id
    ensures Filtered(documents, id) == documents
    decreases |documents|
  {
    if documents != [] {
      FilteredAbsent(documents[1..], id);
    }
  }

  lemma {:induction false} FilteredMembers(documents: seq<ClientDocument>, id: Id)
    ensures forall x :: x in Filtered(documents, id) ==> x in documents
    decreases |documents|
  {
    if documents != [] {
      FilteredMembers(documents[1..], id);
    }
  }

  lemma {:induction false} FilteredTabs(documents: seq<ClientDocument>, id: Id)
    requires NoDuplicates(CopyIds(documents))
    ensures CopyTabs(Filtered(documents, id)) == WithoutTab(CopyTabs(documents), id)
    decreases |documents|
  {
    if documents != [] {
      var rest, ids := documents[1..], CopyIds(documents);
      assert CopyTabs(rest) == CopyTabs(documents)[1..] && CopyIds(rest) == ids[1..];
      if documents[0].id == id {
        assert forall i :: 0 <= i < |rest| ==> rest[i].id == ids[i + 1] != ids[0];
        FilteredAbsent(rest, id);
      } else {
        FilteredTabs(rest, id);
      }
    }
  }

  lemma FoldsCreated(documents: seq<ClientDocument>, change: MetadataChange)
    requires change.Created? && NoDuplicates(Ids(Restructured(CopyTabs(documents), change)))
    ensures FoldedDocuments(documents, change).Ok?
    ensures CopyTabs(FoldedDocuments(documents, change).value) == Restructured(CopyTabs(documents), change)
    ensures AllComeFrom(FoldedDocuments(documents, change).value, documents, change)
  {
    var n, ids := |documents|, Ids(Restructured(CopyTabs(documents), change));
    assert ids[n] == change.id;
    assert forall k :: 0 <= k < n ==> ids[k] == documents[k].id;
    forall i | 0 <= i < n
      ensures ComesFrom(documents[i], documents, change)
    {
      Stays(documents[i], documents, i, change);
    }
  }

  lemma FoldsUpdated(documents: seq<ClientDocument>, change: MetadataChange)
    requires change.Updated?
    ensures FoldedDocuments(documents, change).Ok?
    ensures CopyTabs(FoldedDocuments(documents, change).value) == Restructured(CopyTabs(documents), change)
    ensures AllComeFrom(FoldedDocuments(documents, change).value, documents, change)
  {
    var after := FoldedDocuments(documents, change).value;
    forall i | 0 <= i < |after|
      ensures ComesFrom(after[i], documents, change)
    {
      Stays(after[i], documents, i, change);
    }
  }

  lemma FoldsDeleted(documents: seq<ClientDocument>, change: MetadataChange)
    requires change.Deleted? && NoDuplicates(CopyIds(documents))
    ensures FoldedDocuments(documents, change).Ok?
    ensures CopyTabs(FoldedDocuments(documents, change).value) == Restructured(CopyTabs(documents), change)
    ensures AllComeFrom(FoldedDocuments(documents, change).value, documents, change)
  {
    FilteredTabs(documents, change.id);
    FilteredMembers(documents, change.id);
    var after := FoldedDocuments(documents, change).value;
    forall i | 0 <= i < |after|
      ensures ComesFrom(after[i], documents, change)
    {
      assert after[i] in documents;
      Stays(after[i], documents, IndexIn(documents, after[i]), change);
    }
  }

  lemma {:induction false} TabNamedId(view: View, id: Id)
    ensures TabNamed(view, id).id == id
    decreases |view|
  {
    if view != [] {
      TabNamedId(view[1..], id);
    }
  }

  lemma {:induction false} LastPlacesDistinct(order: seq<Id>)
    requires NoDuplicates(order)
    ensures LastPlaces(order) == order
    decreases |order|
  {
    if order != [] {
      assert order[0] !in order[1..];
      LastPlacesDistinct(order[1..]);
    }
  }

  /** A reorder of the very tabs a copy has is never refused. */
  lemma ReorderAccepted(documents: seq<ClientDocument>, order: seq<Id>)
    requires NoDuplicates(CopyIds(documents)) && NoDuplicates(order) && Elements(order) == Elements(CopyIds(documents))
    ensures LastPlaces(order) == order && Places(order, documents)
    ensures forall i :: 0 <= i < |order| ==> IndexOf(documents, order[i]) < |documents|
  {
    hide *;
    var ids := CopyIds(documents);
    ElementsSize(order);
    ElementsSize(ids);
    SameElements(order, ids);
    LastPlacesDistinct(order);
    AllListed(documents, order);
  }

  lemma AllListed(documents: seq<ClientDocument>, order: seq<Id>)
    requires |order| == |documents| && LastPlaces(order) == order && forall x :: x in order <==> x in CopyIds(documents)
    ensures Places(order, documents)
    ensures forall i :: 0 <= i < |order| ==> IndexOf(documents, order[i]) < |documents|
  {
    var ids := CopyIds(documents);
    forall i | 0 <= i < |documents|
      ensures documents[i].id in order
    {
      assert ids[i] in ids;
    }
    forall i | 0 <= i < |order|
      ensures IndexOf(documents, order[i]) < |documents|
    {
      IndexOfFinds(documents, order[i]);
    }
  }

  lemma SameElements<T(!new)>(s: seq<T>, t: seq<T>)
    requires Elements(s) == Elements(t)
    ensures forall x :: x in s <==> x in t
  {
    assert forall x :: x in s <==> x in Elements(s);
    assert forall x :: x in t <==> x in Elements(t);
  }

  lemma {:induction false} OnlyAbsent(documents: seq<ClientDocument>, id: Id)
    requires forall i :: 0 <= i < |documents| ==> documents[i].id != id
    ensures Only(documents, id) == []
    decreases |documents|
  {
    if documents != [] {
      OnlyAbsent(documents[1..], id);
    }
  }

  lemma {:induction false} OnlyOneOf(documents: seq<ClientDocument>, id: Id)
    requires NoDuplicates(CopyIds(documents)) && IndexOf(documents, id) < |documents|
    ensures Only(documents, id) == [documents[IndexOf(documents, id)]]
    decreases |documents|
  {
    var rest, ids := documents[1..], CopyIds(documents);
    assert CopyIds(rest) == ids[1..];
    if documents[0].id == id {
      assert forall i :: 0 <= i < |rest| ==> rest[i].id == ids[i + 1] != ids[0];
      OnlyAbsent(rest, id);
    } else {
      OnlyOneOf(rest, id);
    }
  }

  /** With one document per id, sorting picks the document of each id. */
  lemma {:induction false} SortedPicks(documents: seq<ClientDocument>, places: seq<Id>)
    requires NoDuplicates(CopyIds(documents))
    requires forall i :: 0 <= i < |places| ==> IndexOf(documents, places[i]) < |documents|
    ensures |SortedBy(documents, places)| == |places|
    ensures forall i :: 0 <= i < |places| ==> SortedBy(documents, places)[i] == documents[IndexOf(documents, places[i])]
    decreases |places|
  {
    hide NoDuplicates, IndexOf, Only, CopyIds;
    if places != [] {
      OnlyOneOf(documents, places[0]);
      SortedPicks(documents, places[1..]);
    }
  }

  lemma FoldsReordered(documents: seq<ClientDocument>, change: MetadataChange)
    requires change.Reordered? && NoDuplicates(CopyIds(documents))
    requires NoDuplicates(Ids(Restructured(CopyTabs(documents), change)))
    requires Elements(change.order) == Elements(CopyIds(documents))
    ensures FoldedDocuments(documents, change).Ok?
    ensures CopyTabs(FoldedDocuments(documents, change).value) == Restructured(CopyTabs(documents), change)
    ensures AllComeFrom(FoldedDocuments(documents, change).value, documents, change)
  {
    var order, view := change.order, CopyTabs(documents);
    assert Ids(Arranged(view, order)) == order by {
      forall i | 0 <= i < |order|
        ensures Ids(Arranged(view, order))[i] == order[i]
      {
        TabNamedId(view, order[i]);
      }
    }
    ReorderAccepted(documents, order);
    SortedTabs(documents, order, change);
  }

  /** Sorting arranges the tabs and keeps the texts. */
  lemma SortedTabs(documents: seq<ClientDocument>, order: seq<Id>, change: MetadataChange)
    requires NoDuplicates(CopyIds(documents))
    requires forall i :: 0 <= i < |order| ==> IndexOf(documents, order[i]) < |documents|
    ensures CopyTabs(SortedBy(documents, order)) == Arranged(CopyTabs(documents), order)
    ensures AllComeFrom(SortedBy(documents, order), documents, change)
  {
    hide NoDuplicates, ComesFrom, IndexOf, TabNamed, SortedBy;
    SortedPicks(documents, order);
    var after := SortedBy(documents, order);
    forall i | 0 <= i < |order|
      ensures CopyTabs(after)[i] == TabNamed(CopyTabs(documents), order[i]) && ComesFrom(after[i], documents, change)
    {
      var k := IndexOf(documents, order[i]);
      PickedId(documents, order[i]);
      TabNamedFinds(CopyTabs(documents), k);
      Stays(after[i], documents, k, change);
    }
  }

  lemma PickedId(documents: seq<ClientDocument>, id: Id)
    requires IndexOf(documents, id) < |documents|
    ensures documents[IndexOf(documents, id)].id == id
  {
  }

  /** A copy of the tab list before a change folds it into a copy of the list after it. */
  lemma StructureFolds(s: State, i: nat, copy: Copy)
    requires i < |s.metadataHistory| && MetadataEntryLeads(s, i)
    requires forall k :: 0 <= k < |s.views| ==> ViewFits(s.views[k], s.trails)
    requires copy.metadataRevision == s.metadataHistory[i].revision - 1
    requires CopyTabs(copy.documents) == s.views[copy.metadataRevision - s.viewStart]
    ensures
      var entry := s.metadataHistory[i];
      var r := FoldStructure(copy, StructureEvent(entry.revision, entry.change));
      && r.Ok? && r.value.metadataRevision == entry.revision
      && CopyTabs(r.value.documents) == s.views[entry.revision - s.viewStart]
      && AllComeFrom(r.value.documents, copy.documents, entry.change)
  {
    hide FoldedDocuments, Restructured, AllComeFrom;
    var entry := s.metadataHistory[i];
    var at := entry.revision - s.viewStart;
    assert ViewFits(s.views[at], s.trails) && ViewFits(s.views[at - 1], s.trails);
    match entry.change
    case Created(_, _, _, _) => FoldsCreated(copy.documents, entry.change);
    case Updated(_, _, _) => FoldsUpdated(copy.documents, entry.change);
    case Deleted(_) => FoldsDeleted(copy.documents, entry.change);
    case Reordered(_) => FoldsReordered(copy.documents, entry.change);
  }

  /** Folding keeps the texts the server's, and the revisions as the server counts them. */
  lemma FoldedTexts(s: State, i: nat, before: seq<ClientDocument>, after: seq<ClientDocument>, revisions: map<Id, int>)
    requires i < |s.metadataHistory| && MetadataEntryLeads(s, i)
    requires AllComeFrom(after, before, s.metadataHistory[i].change)
    requires NoDuplicates(CopyIds(after))
    requires s.metadataHistory[i].change.Created? ==> s.metadataHistory[i].change.id !in CopyIds(before)
    requires HoldsTexts(s.trails, before) && Declared(revisions, before)
    ensures HoldsTexts(s.trails, after)
    ensures
      var change := s.metadataHistory[i].change;
      Declared(if change.Created? then revisions[change.id := 0] else revisions, after)
  {
    hide Restructured;
    var change := s.metadataHistory[i].change;
    forall j | 0 <= j < |after|
      ensures HoldsText(s.trails, after[j])
      ensures
        var next := if change.Created? then revisions[change.id := 0] else revisions;
        after[j].id in next && next[after[j].id] == after[j].revision
    {
      assert ComesFrom(after[j], before, change);
      if !(change.Created? && after[j].id == change.id
           && after[j].content == change.content && after[j].revision == 0) {
        var k :| 0 <= k < |before| && before[k].id == after[j].id && before[k].content == after[j].content
          && before[k].revision == after[j].revision;
        assert HoldsText(s.trails, before[k]);
        assert CopyIds(before)[k] == before[k].id;
      }
    }
  }

  // ----- Folding all of them -----

  /** A client's copy stands at metadata revision `revision` of the server. */
  ghost predicate StandsAt(s: State, copy: Copy, revision: int, revisions: map<Id, int>) {
    && copy.metadataRevision == revision
    && 0 <= revision - s.viewStart < |s.views|
    && CopyTabs(copy.documents) == s.views[revision - s.viewStart]
    && HoldsTexts(s.trails, copy.documents)
    && Declared(revisions, copy.documents)
  }

  lemma NextStructure(s: State, i: nat, copy: Copy, revisions: map<Id, int>, limits: Limits)
    requires MetadataFits(s, limits) && i < |s.metadataHistory|
    requires forall k :: 0 <= k < |s.views| ==> ViewFits(s.views[k], s.trails)
    requires StandsAt(s, copy, s.metadataHistory[i].revision - 1, revisions)
    ensures
      var entry := s.metadataHistory[i];
      var r := FoldStructure(copy, StructureEvent(entry.revision, entry.change));
      r.Ok? && StandsAt(s, r.value, entry.revision,
        if entry.change.Created? then revisions[entry.change.id := 0] else revisions)
  {
    hide FoldedDocuments, Restructured, AllComeFrom, HoldsTexts, Declared, MetadataSize, FoldStructure;
    var entry := s.metadataHistory[i];
    assert MetadataEntryLeads(s, i);
    StructureFolds(s, i, copy);
    var r := FoldStructure(copy, StructureEvent(entry.revision, entry.change));
    var at := entry.revision - s.viewStart;
    assert ViewFits(s.views[at], s.trails);
    if entry.change.Created? {
      CreatedIsNew(s.views[at - 1], entry.change);
    }
    FoldedTexts(s, i, copy.documents, r.value.documents, revisions);
  }

  lemma CreatedIsNew(view: View, change: MetadataChange)
    requires change.Created? && NoDuplicates(Ids(Restructured(view, change)))
    ensures change.id !in Ids(view)
  {
    var ids := Ids(Restructured(view, change));
    assert ids[|view|] == change.id;
    assert forall k :: 0 <= k < |view| ==> ids[k] == Ids(view)[k];
  }

  lemma {:induction false} StructuresFold(s: State, copy: Copy, known: Known, k: nat, limits: Limits)
    requires MetadataFits(s, limits) && k <= |s.metadataHistory|
    requires forall v :: 0 <= v < |s.views| ==> ViewFits(s.views[v], s.trails)
    requires s.metadataCompacted <= known.metadata <= s.metadataRevision
    requires StandsAt(s, copy, known.metadata, known.documents)
    ensures
      var reached := if s.metadataCompacted + k <= known.metadata then known.metadata else s.metadataCompacted + k;
      var r := FoldStructures(copy, StructuresAfter(s.metadataHistory[..k], known.metadata));
      r.Ok? && StandsAt(s, r.value, reached, KnownAfter(s.metadataHistory[..k], known))
    decreases k
  {
    hide StandsAt, ViewFits, MetadataSize, FoldStructure;
    if k > 0 {
      var history := s.metadataHistory;
      StructuresFold(s, copy, known, k - 1, limits);
      assert history[..k][..k - 1] == history[..k - 1];
      assert MetadataEntryLeads(s, k - 1);
      var earlier := StructuresAfter(history[..k - 1], known.metadata);
      assert earlier + [] == earlier;
      if s.metadataCompacted + k > known.metadata {
        var before := FoldStructures(copy, earlier);
        NextStructure(s, k - 1, before.value, KnownAfter(history[..k - 1], known), limits);
        var event := StructureEvent(history[k - 1].revision, history[k - 1].change);
        FoldStructuresLast(copy, earlier, event);
      }
    }
  }

  lemma FoldStructuresLast(copy: Copy, events: seq<StructureEvent>, event: StructureEvent)
    requires FoldStructures(copy, events).Ok?
    ensures FoldStructures(copy, events + [event]) == FoldStructure(FoldStructures(copy, events).value, event)
  {
    assert (events + [event])[..|events|] == events;
  }

  // ----- Folding the edits of one document -----

  ghost predicate Retained(d: Document, trail: Trail, version: int) {
    Coherent(d) && TrailFits(trail, d) && d.compacted <= version <= d.revision
  }

  ghost function Sent(d: Document, version: int): seq<ChangeSet>
    requires Coherent(d) && d.compacted <= version <= d.revision
  {
    ChangesOf(After(d, version))
  }

  /** Every edit sent leads from one of the server's texts to the next. */
  lemma SentLeads(d: Document, trail: Trail, version: int, i: nat)
    requires Retained(d, trail, version) && i < d.revision - version
    ensures trail.Covers(version + i) && trail.Covers(version + i + 1)
    ensures StoredStep(Sent(d, version)[i], trail.At(version + i), trail.At(version + i + 1))
  {
    hide StoredStep, OldLen, NewLen;
    var k := version - d.compacted + i;
    assert EntryFits(d.history, k, d.compacted, |d.content|) && d.history[k].revision == version + i + 1;
    assert EntryLeads(trail, d.history[k]);
    assert Sent(d, version)[i] == d.history[k].changes;
  }

  /** The server's texts from a revision on, led through by the edits it sends. */
  ghost function TextsFrom(d: Document, trail: Trail, version: int): (r: seq<Text>)
    requires Retained(d, trail, version)
    ensures Edited(r, Sent(d, version)) && r[0] == trail.At(version) && r[|r| - 1] == d.content
  {
    var texts := trail.texts[version - trail.start..];
    var changes := Sent(d, version);
    assert forall i :: 0 <= i < |changes| ==> StoredStep(changes[i], texts[i], texts[i + 1]) by {
      hide StoredStep;
      forall i | 0 <= i < |changes|
        ensures StoredStep(changes[i], texts[i], texts[i + 1])
      {
        SentLeads(d, trail, version, i);
      }
    }
    texts
  }

  /** What the client makes of the document with the first `n` edits it is sent. */
  ghost function TextReceived(d: Document, trail: Trail, version: int, n: nat): (r: Text)
    requires Retained(d, trail, version) && n <= d.revision - version
    ensures |r| == |trail.At(version + n)|
  {
    var texts := EditedPrefix(TextsFrom(d, trail, version), Sent(d, version), n);
    Received(Sent(d, version)[..n], texts)
  }

  lemma NextReceived(d: Document, trail: Trail, version: int, n: nat)
    requires Retained(d, trail, version) && n < d.revision - version
    ensures
      var entry := d.history[version - d.compacted + n];
      && entry.revision == version + n + 1
      && OldLen(entry.changes) == |TextReceived(d, trail, version, n)|
      && TextReceived(d, trail, version, n + 1) == Applied(entry.changes, TextReceived(d, trail, version, n))
  {
    var texts, changes := TextsFrom(d, trail, version), Sent(d, version);
    var longer := changes[..n + 1];
    assert longer[..n] == changes[..n];
    assert EditedPrefix(texts, changes, n) == EditedPrefix(EditedPrefix(texts, changes, n + 1), longer, n);
    assert EntryFits(d.history, version - d.compacted + n, d.compacted, |d.content|);
    assert StoredStep(changes[n], texts[n], texts[n + 1]);
  }

  ghost function WithText(copy: Copy, i: nat, content: Text, revision: int): Copy
    requires i < |copy.documents|
  {
    copy.(documents := copy.documents[i := copy.documents[i].(content := content, revision := revision)])
  }

  lemma FoldEditsLast(copy: Copy, events: seq<EditEvent>, event: EditEvent)
    requires FoldEdits(copy, events).Ok?
    ensures FoldEdits(copy, events + [event]) == FoldEdit(FoldEdits(copy, events).value, event)
  {
    assert (events + [event])[..|events|] == events;
  }

  lemma NextEdit(copy: Copy, i: nat, content: Text, revision: int, event: EditEvent)
    requires i < |copy.documents| && event.id == copy.documents[i].id && NoDuplicates(CopyIds(copy.documents))
    requires event.revision == revision + 1 && OldLen(event.changes) == |content|
    ensures FoldEdit(WithText(copy, i, content, revision), event)
         == Ok(WithText(copy, i, Applied(event.changes, content), event.revision))
  {
    var held := WithText(copy, i, content, revision);
    var k, ids := IndexOf(held.documents, event.id), CopyIds(copy.documents);
    assert held.documents[i].id == ids[i] == event.id;
    assert forall m :: 0 <= m < i ==> held.documents[m].id == ids[m] != ids[i];
    assert k == i;
    assert held.documents[i := held.documents[i].(content := Applied(event.changes, content),
      revision := event.revision)]
        == WithText(copy, i, Applied(event.changes, content), event.revision).documents;
  }

  lemma {:induction false} EditsFoldOne(copy: Copy, i: nat, d: Document, trail: Trail, j: nat)
    requires i < |copy.documents| && NoDuplicates(CopyIds(copy.documents))
    requires Retained(d, trail, copy.documents[i].revision) && j <= |d.history|
    requires copy.documents[i].content == trail.At(copy.documents[i].revision)
    ensures
      var version := copy.documents[i].revision;
      var n := if d.compacted + j <= version then 0 else d.compacted + j - version;
      FoldEdits(copy, EditsAfter(copy.documents[i].id, d.history[..j], version))
      == Ok(WithText(copy, i, TextReceived(d, trail, version, n), version + n))
    decreases j
  {
    hide Retained, TextReceived, FoldEdit, NoDuplicates, Applied, OldLen, CopyIds, WithText, FoldEdits, EditsAfter;
    var held := copy.documents[i];
    var version := held.revision;
    if j == 0 {
      NothingReceived(d, trail, version);
      NothingFolded(copy, i, d.history);
    } else {
      EditsFoldOne(copy, i, d, trail, j - 1);
      EditsAfterLast(held.id, d.history, j, version);
      var earlier := EditsAfter(held.id, d.history[..j - 1], version);
      EntryRevision(d, trail, version, j - 1);
      if d.compacted + j > version {
        var n, entry := d.compacted + j - 1 - version, d.history[j - 1];
        NextReceived(d, trail, version, n);
        var event := EditEvent(held.id, entry.revision, entry.changes);
        FoldEditsLast(copy, earlier, event);
        NextEdit(copy, i, TextReceived(d, trail, version, n), version + n, event);
      }
    }
  }

  lemma NothingFolded(copy: Copy, i: nat, history: seq<Entry>)
    requires i < |copy.documents|
    ensures
      var held := copy.documents[i];
      FoldEdits(copy, EditsAfter(held.id, history[..0], held.revision)) ==
        Ok(WithText(copy, i, held.content, held.revision))
  {
    var held := copy.documents[i];
    assert WithText(copy, i, held.content, held.revision) == copy;
  }

  lemma EditsAfterLast(id: Id, history: seq<Entry>, j: nat, version: int)
    requires 0 < j <= |history|
    ensures
      var earlier, last := EditsAfter(id, history[..j - 1], version), history[j - 1];
      EditsAfter(id, history[..j], version)
      == if last.revision <= version then earlier else earlier + [EditEvent(id, last.revision, last.changes)]
  {
    assert history[..j][..j - 1] == history[..j - 1];
  }

  lemma NothingReceived(d: Document, trail: Trail, version: int)
    requires Retained(d, trail, version)
    ensures TextReceived(d, trail, version, 0) == trail.At(version) && d.compacted <= version
  {
  }

  lemma EntryRevision(d: Document, trail: Trail, version: int, k: nat)
    requires Retained(d, trail, version) && k < |d.history|
    ensures d.history[k].revision == d.compacted + k + 1 && d.revision == d.compacted + |d.history|
  {
    assert EntryFits(d.history, k, d.compacted, |d.content|);
  }

  // ----- Folding all edits -----

  lemma {:induction false} FoldEditsConcat(copy: Copy, first: seq<EditEvent>, second: seq<EditEvent>)
    requires FoldEdits(copy, first).Ok?
    ensures FoldEdits(copy, first + second) == FoldEdits(FoldEdits(copy, first).value, second)
    decreases |second|
  {
    if second == [] {
      assert first + second == first;
    } else {
      var init := second[..|second| - 1];
      FoldEditsConcat(copy, first, init);
      assert (first + second)[..|first + second| - 1] == first + init;
    }
  }

  /** The copy lists the room's documents, each at a revision the room still retains. */
  ghost predicate ListsRoom(s: State, copy: Copy) {
    && |copy.documents| == |s.order| && NoDuplicates(CopyIds(copy.documents))
    && forall i :: 0 <= i < |s.order| ==> ListedAt(s, copy.documents[i], i)
  }

  ghost predicate ListedAt(s: State, held: ClientDocument, i: nat)
    requires i < |s.order|
  {
    var id := s.order[i];
    && held.id == id && id in s.documents && id in s.trails
    && Retained(s.documents[id], s.trails[id], held.revision)
    && held.content == s.trails[id].At(held.revision)
    && held.name == s.documents[id].name && held.language == s.documents[id].language
  }

  /** A listed document with every edit it is sent. */
  ghost function CaughtUp(s: State, held: ClientDocument, i: nat): ClientDocument
    requires i < |s.order| && ListedAt(s, held, i)
  {
    var d, trail := s.documents[held.id], s.trails[held.id];
    held.(content := TextReceived(d, trail, held.revision, d.revision - held.revision), revision := d.revision)
  }

  /** The first `k` documents caught up. */
  ghost function CaughtUpTo(s: State, copy: Copy, k: nat): (r: Copy)
    requires ListsRoom(s, copy) && k <= |s.order|
    ensures |r.documents| == |copy.documents| && r.metadataRevision == copy.metadataRevision
  {
    copy.(documents := seq(|s.order|, i requires 0 <= i < |s.order| =>
      if i < k then CaughtUp(s, copy.documents[i], i) else copy.documents[i]))
  }

  ghost predicate DeclaredAll(s: State, copy: Copy, revisions: map<Id, int>) {
    && (forall id :: id in s.order ==> ReachesBack(s.documents, revisions, id))
    && Declared(revisions, copy.documents)
  }

  /** Catching up one more document. */
  lemma CatchUpNext(s: State, copy: Copy, k: nat)
    requires ListsRoom(s, copy) && k < |s.order|
    ensures
      var id := s.order[k];
      && id in s.documents
      && FoldEdits(CaughtUpTo(s, copy, k), EditsAfter(id, s.documents[id].history, copy.documents[k].revision))
         == Ok(CaughtUpTo(s, copy, k + 1))
  {
    hide Retained, TextReceived, NoDuplicates, FoldEdits, EditsAfter, Received;
    var held, current := copy.documents[k], CaughtUpTo(s, copy, k);
    assert ListedAt(s, held, k);
    var d, trail := s.documents[held.id], s.trails[held.id];
    assert CopyIds(current.documents) == CopyIds(copy.documents) by {
      forall i | 0 <= i < |s.order|
        ensures current.documents[i].id == copy.documents[i].id
      {
        assert ListedAt(s, copy.documents[i], i);
      }
    }
    EditsFoldOne(current, k, d, trail, |d.history|);
    assert d.history[..|d.history|] == d.history;
    RetainedRevisions(d, trail, held.revision);
    assert CaughtUpTo(s, copy, k + 1) == WithText(current, k, CaughtUp(s, held, k).content, d.revision);
  }

  lemma RetainedRevisions(d: Document, trail: Trail, version: int)
    requires Retained(d, trail, version)
    ensures d.compacted + |d.history| == d.revision >= version
  {
  }

  lemma {:induction false} EditsFold(s: State, copy: Copy, revisions: map<Id, int>, k: nat)
    requires ListsRoom(s, copy) && DeclaredAll(s, copy, revisions) && k <= |s.order|
    ensures forall id :: id in s.order[..k] ==> ReachesBack(s.documents, revisions, id)
    ensures FoldEdits(copy, AllEditsAfter(s.order[..k], s.documents, revisions)) == Ok(CaughtUpTo(s, copy, k))
    decreases k
  {
    hide EditsAfter, ListedAt, FoldEdit, CaughtUp;
    assert forall id :: id in s.order[..k] ==> id in s.order;
    if k == 0 {
      assert CaughtUpTo(s, copy, 0) == copy;
    } else {
      EditsFold(s, copy, revisions, k - 1);
      assert s.order[..k][..k - 1] == s.order[..k - 1];
      var id := s.order[k - 1];
      assert ListedAt(s, copy.documents[k - 1], k - 1);
      assert copy.documents[k - 1].id == id by { ListedId(s, copy, k - 1); }
      CatchUpNext(s, copy, k - 1);
      var earlier := AllEditsAfter(s.order[..k - 1], s.documents, revisions);
      FoldEditsConcat(copy, earlier, EditsAfter(id, s.documents[id].history, revisions[id]));
    }
  }

  lemma ListedId(s: State, copy: Copy, i: nat)
    requires ListsRoom(s, copy) && i < |s.order|
    ensures copy.documents[i].id == s.order[i]
  {
    assert ListedAt(s, copy.documents[i], i);
  }

  // ----- The bridge -----

  /** A document whose retained edits reach back to the revision it is known at. */
  ghost predicate KnownAt(s: State, revisions: map<Id, int>, id: Id) {
    id in revisions && id in s.documents && id in s.trails && Retained(s.documents[id], s.trails[id], revisions[id])
  }

  /** The scars that the edits sent for each document leave in its current text. */
  ghost function BridgeScars(s: State, revisions: map<Id, int>): map<Id, seq<bool>> {
    map id | id in s.documents && KnownAt(s, revisions, id) ::
      ScarsOf(Sent(s.documents[id], revisions[id]), TextsFrom(s.documents[id], s.trails[id], revisions[id]))
  }

  /** The held document is at the room's revision, and its text is the room's but for its scars. */
  ghost predicate MatchesAt(copy: Copy, s: State, i: nat, scars: map<Id, seq<bool>>)
    requires i < |copy.documents|
  {
    var held := copy.documents[i];
    && held.id in s.documents && held.id in scars
    && held.revision == s.documents[held.id].revision
    && Marks(scars[held.id], held.content, s.documents[held.id].content)
  }

  /** The copy has the room's tabs, in order, each at its current revision and with its text but for its scars. */
  ghost predicate Mirrored(copy: Copy, s: State, scars: map<Id, seq<bool>>)
    requires Elements(s.order) <= s.documents.Keys
  {
    && copy.metadataRevision == s.metadataRevision
    && CopyTabs(copy.documents) == TabsOf(s.documents, s.order)
    && forall i :: 0 <= i < |copy.documents| ==> MatchesAt(copy, s, i, scars)
  }

  /** A mirrored document has the room's text exactly when its scars are healed. */
  lemma MirroredDocument(copy: Copy, s: State, scars: map<Id, seq<bool>>, i: nat)
    requires Elements(s.order) <= s.documents.Keys && Mirrored(copy, s, scars) && i < |s.order|
    ensures |copy.documents| == |s.order| && s.order[i] in s.documents && s.order[i] in scars
    ensures copy.documents[i].content == s.documents[s.order[i]].content <==> Healed(scars[s.order[i]])
    ensures copy.documents[i] == ServerDocument(s.order[i], s.documents[s.order[i]]) <==> Healed(scars[s.order[i]])
  {
    hide Healed, Marks;
    assert |copy.documents| == |CopyTabs(copy.documents)| == |s.order|;
    assert CopyTabs(copy.documents)[i] == TabsOf(s.documents, s.order)[i];
    assert MatchesAt(copy, s, i, scars);
    MarksExactly(scars[s.order[i]], copy.documents[i].content, s.documents[s.order[i]].content);
  }

  /** A mirror is the room's state as a client holds it exactly when every document's scars are healed. */
  lemma ExactMirror(copy: Copy, s: State, scars: map<Id, seq<bool>>)
    requires Elements(s.order) <= s.documents.Keys && Mirrored(copy, s, scars)
    ensures copy == CopyOf(s) <==> forall id :: id in s.order ==> id in scars && Healed(scars[id])
  {
    hide Healed, MatchesAt;
    var server := CopyOf(s);
    assert |copy.documents| == |CopyTabs(copy.documents)| == |s.order|;
    forall i | 0 <= i < |s.order|
      ensures s.order[i] in scars && (copy.documents[i] == server.documents[i] <==> Healed(scars[s.order[i]]))
    {
      MirroredDocument(copy, s, scars, i);
    }
    if copy == server {
      forall id | id in s.order
        ensures id in scars && Healed(scars[id])
      {
        var i := IndexIn(s.order, id);
        assert copy.documents[i] == server.documents[i];
      }
    }
    if forall id :: id in s.order ==> id in scars && Healed(scars[id]) {
      assert copy.documents == server.documents;
    }
  }

  lemma CaughtUpMarks(s: State, held: ClientDocument, i: nat)
    requires i < |s.order| && ListedAt(s, held, i)
    ensures
      var d, trail := s.documents[held.id], s.trails[held.id];
      Marks(ScarsOf(Sent(d, held.revision), TextsFrom(d, trail, held.revision)), CaughtUp(s, held, i).content,
        d.content)
  {
    var d, trail := s.documents[held.id], s.trails[held.id];
    var changes, texts := Sent(d, held.revision), TextsFrom(d, trail, held.revision);
    assert changes[..d.revision - held.revision] == changes;
    assert EditedPrefix(texts, changes, |changes|) == texts;
    ScarsMark(changes, texts);
  }

  lemma BridgeLists(s: State, copy: Copy, revisions: map<Id, int>, limits: Limits)
    requires Valid(s, limits) && StandsAt(s, copy, s.metadataRevision, revisions)
    requires forall id :: id in s.order ==> ReachesBack(s.documents, revisions, id)
    ensures ListsRoom(s, copy) && DeclaredAll(s, copy, revisions)
  {
    hide LedgerFits, MetadataEntryLeads, MetadataSize, TotalBytes;
    var view := TabsOf(s.documents, s.order);
    assert CopyTabs(copy.documents) == view;
    assert CopyIds(copy.documents) == s.order by { assert Ids(view) == s.order; }
    forall i | 0 <= i < |s.order|
      ensures ListedAt(s, copy.documents[i], i)
    {
      var id, held := s.order[i], copy.documents[i];
      assert CopyTabs(copy.documents)[i] == view[i];
      assert id in Elements(s.order) && ReachesBack(s.documents, revisions, id);
      assert DocumentFits(s.documents, s.trails, limits, id) && HoldsText(s.trails, held);
    }
  }

  /** What a client at known revisions folds the bridge into. */
  ghost function Folded(copy: Copy, structures: seq<StructureEvent>, edits: seq<EditEvent>): Result<Copy> {
    var middle := FoldStructures(copy, structures);
    if middle.Err? then Err else FoldEdits(middle.value, edits)
  }

  /**
    Unless told to resync, a client that held the server's state folds the
    bridge without a refusal, into the server's current order, names, languages
    and revisions; its texts are the server's but for scars, so that the copy is
    the server's state exactly when no scar is left.
  */
  lemma BridgeSound(s: State, copy: Copy, known: Known, limits: Limits)
    requires Valid(s, limits) && Holds(s, copy)
    requires known.metadata == copy.metadataRevision && Declared(known.documents, copy.documents)
    requires Bridged(s, known).Deltas?
    ensures
      var b, scars := Bridged(s, known), BridgeScars(s, KnownAfter(s.metadataHistory, known));
      var r := Folded(copy, b.structures, b.edits);
      && r.Ok? && Mirrored(r.value, s, scars)
      && (r.value == CopyOf(s) <==> forall id :: id in s.order ==> id in scars && Healed(scars[id]))
  {
    hide LedgerFits, DocumentsFit, MetadataEntryLeads, MetadataSize, TotalBytes, HoldsTexts, StructuresAfter,
         AllEditsAfter, KnownAfter, FoldStructures, FoldEdits, ListsRoom, CaughtUpTo, DeletedAfter, BridgeScars,
         Mirrored, Healed;
    var history := s.metadataHistory;
    var revisions := KnownAfter(history, known);
    assert history[..|history|] == history && s.order[..|s.order|] == s.order;
    StructuresFold(s, copy, known, |history|, limits);
    var middle := FoldStructures(copy, StructuresAfter(history, known.metadata)).value;
    BridgeLists(s, middle, revisions, limits);
    EditsFold(s, middle, revisions, |s.order|);
    var r := CaughtUpTo(s, middle, |s.order|);
    assert Folded(copy, Bridged(s, known).structures, Bridged(s, known).edits) == Ok(r);
    AllCaughtUp(s, middle, revisions);
    ExactMirror(r, s, BridgeScars(s, revisions));
  }

  lemma AllCaughtUp(s: State, copy: Copy, revisions: map<Id, int>)
    requires ListsRoom(s, copy) && DeclaredAll(s, copy, revisions) && Elements(s.order) <= s.documents.Keys
    requires copy.metadataRevision == s.metadataRevision
    ensures Mirrored(CaughtUpTo(s, copy, |s.order|), s, BridgeScars(s, revisions))
  {
    hide Retained, CaughtUp, NoDuplicates, Marks, ScarsOf;
    var r := CaughtUpTo(s, copy, |s.order|);
    CaughtUpTabs(s, copy);
    forall i | 0 <= i < |r.documents|
      ensures MatchesAt(r, s, i, BridgeScars(s, revisions))
    {
      assert ListedAt(s, copy.documents[i], i);
      assert r.documents[i] == CaughtUp(s, copy.documents[i], i);
      CaughtUpMarks(s, copy.documents[i], i);
      assert KnownAt(s, revisions, s.order[i]);
      CaughtUpRevision(s, copy.documents[i], i);
    }
  }

  lemma CaughtUpRevision(s: State, held: ClientDocument, i: nat)
    requires i < |s.order| && ListedAt(s, held, i)
    ensures CaughtUp(s, held, i).id == held.id && CaughtUp(s, held, i).revision == s.documents[held.id].revision
  {
  }

  lemma CaughtUpTabs(s: State, copy: Copy)
    requires ListsRoom(s, copy) && Elements(s.order) <= s.documents.Keys
    ensures CopyTabs(CaughtUpTo(s, copy, |s.order|).documents) == TabsOf(s.documents, s.order)
  {
    hide TextReceived, NoDuplicates, Retained;
    assert forall i :: 0 <= i < |s.order| ==> ListedAt(s, copy.documents[i], i);
  }

  // ----- When the client is told to resync -----

  lemma {:induction false} WithoutTabKeeps(view: View, id: Id, kept: Id)
    requires kept in Ids(view) && kept != id
    ensures kept in Ids(WithoutTab(view, id))
    decreases |view|
  {
    var k := IndexIn(Ids(view), kept);
    assert view[k].id == kept;
    var rest := view[1..];
    if k > 0 {
      assert Ids(rest)[k - 1] == kept;
      if view[0].id != id {
        WithoutTabKeeps(rest, id, kept);
        var j := IndexIn(Ids(WithoutTab(rest, id)), kept);
        assert Ids(WithoutTab(view, id))[j + 1] == kept;
      }
    } else {
      assert Ids(WithoutTab(view, id))[0] == kept;
    }
  }

  /** Only a deletion removes a tab from the list. */
  lemma RestructuredKeeps(view: View, change: MetadataChange, kept: Id)
    requires change.Reordered? ==> Elements(change.order) == Elements(Ids(view))
    requires change.Deleted? ==> kept != change.id
    requires kept in Ids(view) || (change.Created? && kept == change.id)
    ensures kept in Ids(Restructured(view, change))
  {
    var after := Restructured(view, change);
    if kept in Ids(view) {
      var k := IndexIn(Ids(view), kept);
      match change
      case Created(_, _, _, _) => assert Ids(after)[k] == kept;
      case Updated(_, _, _) => assert Ids(after)[k] == kept;
      case Deleted(id) => WithoutTabKeeps(view, id, kept);
      case Reordered(order) =>
        assert kept in Elements(order);
        var j := IndexIn(order, kept);
        TabNamedId(view, order[j]);
        assert Ids(after)[j] == kept;
    } else {
      assert Ids(after)[|view|] == kept;
    }
  }

  /** A document the client knows is still listed unless it was deleted since. */
  lemma {:induction false} KnownOrDeleted(s: State, known: Known, k: nat, limits: Limits)
    requires MetadataFits(s, limits) && k <= |s.metadataHistory|
    requires s.metadataCompacted <= known.metadata <= s.metadataRevision
    requires forall id :: id in known.documents ==> id in Ids(s.views[known.metadata - s.viewStart])
    ensures
      var reached := if s.metadataCompacted + k <= known.metadata then known.metadata else s.metadataCompacted + k;
      forall id :: id in KnownAfter(s.metadataHistory[..k], known) ==>
        id in Ids(s.views[reached - s.viewStart]) || id in DeletedAfter(s.metadataHistory[..k], known.metadata)
    decreases k
  {
    hide MetadataSize, Restructured, Ids;
    if k > 0 {
      var history := s.metadataHistory;
      KnownOrDeleted(s, known, k - 1, limits);
      assert history[..k][..k - 1] == history[..k - 1];
      assert MetadataEntryLeads(s, k - 1);
      if s.metadataCompacted + k > known.metadata {
        var change, at := history[k - 1].change, history[k - 1].revision - s.viewStart;
        forall id | id in KnownAfter(history[..k], known) && id !in DeletedAfter(history[..k], known.metadata)
          ensures id in Ids(s.views[at])
        {
          var earlier := KnownAfter(history[..k - 1], known);
          assert id in earlier || (change.Created? && id == change.id);
          assert id !in DeletedAfter(history[..k - 1], known.metadata);
          assert id in earlier ==> id in Ids(s.views[at - 1]);
          RestructuredKeeps(s.views[at - 1], change, id);
        }
      }
    }
  }

  /**
    An honest client, declaring just the documents it holds, is told to resync
    exactly when changes it needs are no longer retained: those of the tab list,
    or those of a current document since the revision it declared or since 0 if created later.
  */
  lemma ResyncOnlyWhenCompacted(s: State, copy: Copy, known: Known, limits: Limits)
    requires Valid(s, limits) && Holds(s, copy)
    requires known.metadata == copy.metadataRevision && Declared(known.documents, copy.documents)
    requires forall id :: id in known.documents ==> id in CopyIds(copy.documents)
    ensures s.metadataCompacted <= known.metadata <= s.metadataRevision ==>
      forall id :: id in s.order ==> id in s.documents && id in KnownAfter(s.metadataHistory, known)
    ensures Bridged(s, known).Deltas? <==>
      && s.metadataCompacted <= known.metadata <= s.metadataRevision
      && forall id :: id in s.order ==>
                s.documents[id].compacted <= KnownAfter(s.metadataHistory, known)[id] <= s.documents[id].revision
  {
    hide LedgerFits, DocumentsFit, MetadataEntryLeads, MetadataSize, TotalBytes, HoldsTexts, StructuresAfter,
         AllEditsAfter, KnownAfter, FoldStructures, DeletedAfter;
    if s.metadataCompacted <= known.metadata <= s.metadataRevision {
      var history := s.metadataHistory;
      assert history[..|history|] == history;
      StructuresFold(s, copy, known, |history|, limits);
      KnownOrDeleted(s, known, |history|, limits);
      var middle := FoldStructures(copy, StructuresAfter(history, known.metadata)).value;
      ListedIsCopied(s, middle.documents);
    }
  }

  /** The tabs of an exact copy of the tab list are the room's documents. */
  lemma ListedIsCopied(s: State, documents: seq<ClientDocument>)
    requires Elements(s.order) <= s.documents.Keys && CopyTabs(documents) == TabsOf(s.documents, s.order)
    ensures forall id :: id in s.order ==> id in s.documents && id in CopyIds(documents)
  {
    forall id | id in s.order
      ensures id in s.documents && id in CopyIds(documents)
    {
      assert id in Elements(s.order);
      var i := IndexIn(s.order, id);
      assert CopyIds(documents)[i] == CopyTabs(documents)[i].id == TabsOf(s.documents, s.order)[i].id == id;
    }
  }
}
