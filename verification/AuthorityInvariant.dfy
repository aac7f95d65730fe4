/**
  Every accepted mutation keeps the room's invariant.
*/
module AuthorityInvariant {
  import opened Utf16
  import opened ChangeSets
  import opened Surrogates
  import opened Histories
  import opened Replay
  import opened Sequences
  import opened Validation
  import opened Authority

  // ----- Edits -----

  lemma NextDocumentFits(d: Document, trail: Trail, entry: Entry, content: Text, limits: Limits)
    requires Coherent(d) && TrailFits(trail, d)
    requires entry.revision == d.revision + 1 && entry.baseVersion == d.revision && entry.beforeLen == |d.content|
    requires StoredStep(entry.changes, d.content, content)
    ensures
      var next := NextDocument(d, entry, content, limits);
      && Coherent(next) && Bounded(next, limits.maxHistoryRows, limits.maxHistoryBytes)
      && TrailFits(trail.(texts := trail.texts + [content]), next)
  {
    AppliedLength(entry.changes, d.content);
    ExtendedCoherent(d, entry, content);
    var longer := trail.(texts := trail.texts + [content]);
    assert longer.At(d.revision) == d.content && longer.At(d.revision + 1) == content;
    forall i | 0 <= i < |d.history|
      ensures EntryLeads(longer, d.history[i])
    {
      assert EntryLeads(trail, d.history[i]);
      assert longer.At(d.history[i].revision) == trail.At(d.history[i].revision);
      assert longer.At(d.history[i].revision - 1) == trail.At(d.history[i].revision - 1);
    }
    assert EntryLeads(longer, entry);
  }

  /** The total changes only by the edited document's own difference. */
  lemma EditedTotal(documents: map<Id, Document>, order: seq<Id>, id: Id, next: Document)
    requires NoDuplicates(order) && Elements(order) == documents.Keys && id in documents
    ensures Elements(order) == documents[id := next].Keys
    ensures TotalBytes(documents[id := next], order) + Utf8Bytes(documents[id].content)
         == TotalBytes(documents, order) + Utf8Bytes(next.content)
  {
    assert forall x :: x in order ==> x in Elements(order);
    assert id in Elements(order);
    SumUpdated(order, Weights(documents), id, Utf8Bytes(next.content));
    assert Weights(documents[id := next]) == Weights(documents)[id := Utf8Bytes(next.content)];
  }

  lemma RememberedAt(ledger: seq<Record>, record: Record, limits: Limits, i: nat)
    requires i < |Remembered(ledger, record, limits)|
    ensures
      var k := |ledger| + 1 - |Remembered(ledger, record, limits)| + i;
      0 <= k <= |ledger| && Remembered(ledger, record, limits)[i] == if k < |ledger| then ledger[k] else record
  {
  }

  lemma RememberedFits(ledger: seq<Record>, record: Record, limits: Limits)
    requires LedgerFits(ledger, limits) && record.operationId !in RecordIds(ledger) && RecordFits(record)
    ensures LedgerFits(Remembered(ledger, record, limits), limits)
  {
    hide RecordFits;
    var kept := Remembered(ledger, record, limits);
    var dropped := |ledger| + 1 - |kept|;
    forall i | 0 <= i < |kept|
      ensures RecordFits(kept[i])
    {
      RememberedAt(ledger, record, limits, i);
    }
    forall i, j | 0 <= i < j < |kept|
      ensures RecordIds(kept)[i] != RecordIds(kept)[j]
    {
      RememberedAt(ledger, record, limits, i);
      RememberedAt(ledger, record, limits, j);
      assert RecordIds(ledger)[dropped + i] in RecordIds(ledger);
      assert dropped + j < |ledger| ==> RecordIds(ledger)[dropped + i] != RecordIds(ledger)[dropped + j];
    }
  }

  /** Tab lists stay recorded when more trails are known. */
  lemma ViewsKept(views: seq<View>, trails: map<Id, Trail>, more: map<Id, Trail>)
    requires forall k :: 0 <= k < |views| ==> ViewFits(views[k], trails)
    requires trails.Keys <= more.Keys
    ensures forall k :: 0 <= k < |views| ==> ViewFits(views[k], more)
  {
    forall k | 0 <= k < |views|
      ensures ViewFits(views[k], more)
    {
      assert ViewFits(views[k], trails);
    }
  }

  lemma EditKeepsDocuments(s: State, op: DocumentOperation, changes: ChangeSet, bytes: nat, limits: Limits)
    requires DocumentsFit(s.documents, s.trails, limits)
    requires op.documentId in s.documents && OldLen(changes) == |s.documents[op.documentId].content|
    ensures op.documentId in s.trails
    ensures
      var t := AcceptEdit(s, op, changes, bytes, limits);
      && DocumentsFit(t.documents, t.trails, limits)
      && t.documents.Keys == s.documents.Keys && t.trails.Keys == s.trails.Keys
  {
    var id := op.documentId;
    var d := s.documents[id];
    assert DocumentFits(s.documents, s.trails, limits, id);
    var t := AcceptEdit(s, op, changes, bytes, limits);
    NextDocumentFits(d, s.trails[id], EditEntry(op, d, changes, bytes), Stored(changes, d.content), limits);
    forall other | other in t.documents
      ensures DocumentFits(t.documents, t.trails, limits, other)
    {
      if other != id {
        assert DocumentFits(s.documents, s.trails, limits, other);
      }
    }
  }

  lemma EditKeepsMetadata(s: State, t: State, limits: Limits)
    requires MetadataFits(s, limits)
    requires t == s.(documents := t.documents, trails := t.trails, ledger := t.ledger)
    requires forall id :: id in s.trails ==>
      id in t.trails && t.trails[id].start == s.trails[id].start && s.trails[id].texts <= t.trails[id].texts
    ensures MetadataFits(t, limits)
  {
    forall i | 0 <= i < |t.metadataHistory|
      ensures MetadataEntryLeads(t, i)
    {
      assert MetadataEntryLeads(s, i);
    }
  }

  lemma EditKeepsStructure(s: State, t: State, id: Id, limits: Limits)
    requires Structured(s.documents, s.order, limits) && ViewsFit(s) && id in s.documents && id in t.documents
    requires t.order == s.order && t.views == s.views
    requires t.documents == s.documents[id := t.documents[id]] && t.trails.Keys == s.trails.Keys
    requires t.documents[id].name == s.documents[id].name && t.documents[id].language == s.documents[id].language
    requires TotalBytes(s.documents, s.order) - Utf8Bytes(s.documents[id].content)
          + Utf8Bytes(t.documents[id].content) <= limits.maxBytes
    ensures Structured(t.documents, t.order, limits) && ViewsFit(t)
  {
    hide ViewFits, NoDuplicates, TotalBytes, Utf8Bytes;
    EditedTotal(s.documents, s.order, id, t.documents[id]);
    ViewsKept(s.views, s.trails, t.trails);
    assert TabsOf(t.documents, t.order) == TabsOf(s.documents, s.order);
    hide TabsOf;
  }

  /** Accepting an edit that was rebased to the current text and fits the room keeps every part of the invariant. */
  lemma EditKeepsValid(s: State, op: DocumentOperation, changes: ChangeSet, bytes: nat, limits: Limits)
    requires Valid(s, limits) && op.documentId in s.documents
    requires op.operationId !in RecordIds(s.ledger) && ValidOperation(op.operationId, op.clientId)
    requires op.baseVersion >= 0
    requires OldLen(changes) == |s.documents[op.documentId].content|
    requires TotalBytes(s.documents, s.order) - Utf8Bytes(s.documents[op.documentId].content)
          + Utf8Bytes(Stored(changes, s.documents[op.documentId].content)) <= limits.maxBytes
    ensures op.documentId in s.trails
    ensures Valid(AcceptEdit(s, op, changes, bytes, limits), limits)
  {
    hide DocumentsFit, MetadataFits, ViewsFit, LedgerFits, LedgerBehind, Stored, TotalBytes, NoDuplicates, Labelled;
    EditKeepsDocuments(s, op, changes, bytes, limits);
    EditKeepsBehind(s, op, changes, bytes, limits);
    var id, t := op.documentId, AcceptEdit(s, op, changes, bytes, limits);
    EditKeepsStructure(s, t, id, limits);
    EditKeepsMetadata(s, t, limits);
    EditRecordFits(s, op, changes, limits);
    RememberedFits(s.ledger, EditRecord(op, s.documents[id], changes), limits);
  }

  lemma EditKeepsBehind(s: State, op: DocumentOperation, changes: ChangeSet, bytes: nat, limits: Limits)
    requires Elements(s.order) <= s.documents.Keys && LedgerBehind(s)
    requires op.documentId in s.documents && op.documentId in s.trails
    requires OldLen(changes) == |s.documents[op.documentId].content|
    ensures Elements(s.order) <= AcceptEdit(s, op, changes, bytes, limits).documents.Keys
    ensures LedgerBehind(AcceptEdit(s, op, changes, bytes, limits))
  {
    hide Shows, Stored, OldLen, Bounded, Remembered;
    var t := AcceptEdit(s, op, changes, bytes, limits);
    var record := EditRecord(op, s.documents[op.documentId], changes);
    assert TabsOf(t.documents, t.order) == TabsOf(s.documents, s.order);
    forall i | 0 <= i < |t.ledger|
      ensures RecordBehind(t, t.ledger[i])
    {
      RememberedAt(s.ledger, record, limits, i);
      var k := |s.ledger| + 1 - |t.ledger| + i;
      assert k < |s.ledger| ==> RecordBehind(s, s.ledger[k]);
    }
  }

  lemma EditRecordFits(s: State, op: DocumentOperation, changes: ChangeSet, limits: Limits)
    requires Structured(s.documents, s.order, limits) && DocumentsFit(s.documents, s.trails, limits)
    requires op.documentId in s.documents && ValidOperation(op.operationId, op.clientId) && op.baseVersion >= 0
    ensures RecordFits(EditRecord(op, s.documents[op.documentId], changes))
  {
    hide TotalBytes, ValidDocumentId, ValidTabName, ValidLanguage, ValidOperation;
    assert Labelled(op.documentId, s.documents[op.documentId]);
    assert DocumentFits(s.documents, s.trails, limits, op.documentId);
  }

  // ----- Tab lists -----

  lemma {:induction false} TabNamedFinds(view: View, i: nat)
    requires i < |view| && NoDuplicates(Ids(view))
    ensures TabNamed(view, view[i].id) == view[i]
    decreases |view|
  {
    assert Ids(view)[0] == view[0].id && Ids(view)[i] == view[i].id;
    if i > 0 {
      assert Ids(view[1..]) == Ids(view)[1..];
      TabNamedFinds(view[1..], i - 1);
    }
  }

  lemma {:induction false} WithoutTabMatches(documents: map<Id, Document>, order: seq<Id>, id: Id)
    requires NoDuplicates(order) && Elements(order) <= documents.Keys
    ensures Elements(Without(order, id)) <= (documents - {id}).Keys
    ensures WithoutTab(TabsOf(documents, order), id) == TabsOf(documents - {id}, Without(order, id))
    decreases |order|
  {
    WithoutFacts(order, id);
    ListedAreKnown(order, documents);
    if order != [] {
      var rest := order[1..];
      ListedAreKnown(rest, documents);
      TabsFrom(documents, order[0], rest);
      assert [order[0]] + rest == order;
      WithoutTabMatches(documents, rest, id);
      if order[0] == id {
        TabsElsewhere(documents, rest, id);
      } else {
        assert Without(order, id) == [order[0]] + Without(rest, id);
        assert TabsOf(documents, order)[0] == Tab(order[0], documents[order[0]].name, documents[order[0]].language);
        hide TabsOf, NoDuplicates, Elements, Without;
        TabsFrom(documents - {id}, order[0], Without(rest, id));
      }
    }
  }

  lemma ListedAreKnown(order: seq<Id>, documents: map<Id, Document>)
    ensures Elements(order) <= documents.Keys <==> forall x :: x in order ==> x in documents
  {
    assert forall x :: x in order <==> x in Elements(order);
  }

  lemma TabsFrom(documents: map<Id, Document>, first: Id, rest: seq<Id>)
    requires first in documents && Elements(rest) <= documents.Keys
    ensures Elements([first] + rest) <= documents.Keys
    ensures TabsOf(documents, [first] + rest)
         == [Tab(first, documents[first].name, documents[first].language)] + TabsOf(documents, rest)
  {
    ListedAreKnown([first] + rest, documents);
    ListedAreKnown(rest, documents);
  }

  lemma TabsElsewhere(documents: map<Id, Document>, order: seq<Id>, id: Id)
    requires Elements(order) <= documents.Keys && id !in order
    ensures Elements(order) <= (documents - {id}).Keys
    ensures TabsOf(documents - {id}, order) == TabsOf(documents, order)
  {
    ListedAreKnown(order, documents);
  }

  lemma ReorderedView(documents: map<Id, Document>, order: seq<Id>, reordered: seq<Id>)
    requires NoDuplicates(order) && Elements(order) == documents.Keys
    requires forall id :: id in reordered ==> id in documents
    ensures Elements(reordered) <= documents.Keys
    ensures TabsOf(documents, reordered) == Arranged(TabsOf(documents, order), reordered)
  {
    hide NoDuplicates;
    var view := TabsOf(documents, order);
    assert Ids(view) == order;
    forall i | 0 <= i < |reordered|
      ensures TabNamed(view, reordered[i]) ==
        Tab(reordered[i], documents[reordered[i]].name, documents[reordered[i]].language)
    {
      assert reordered[i] in Elements(order);
      var k := IndexIn(order, reordered[i]);
      assert view[k].id == reordered[i];
      TabNamedFinds(view, k);
    }
  }

  lemma CreatedView(documents: map<Id, Document>, order: seq<Id>, id: Id, d: Document)
    requires Elements(order) == documents.Keys && id !in documents
    ensures Elements(order + [id]) <= documents[id := d].Keys
    ensures TabsOf(documents[id := d], order + [id]) == TabsOf(documents, order) + [Tab(id, d.name, d.language)]
  {
    assert forall x :: x in order ==> x in Elements(order);
  }

  lemma UpdatedView(documents: map<Id, Document>, order: seq<Id>, id: Id, d: Document)
    requires Elements(order) == documents.Keys && id in documents
    ensures TabsOf(documents[id := d], order) == Renamed(TabsOf(documents, order), id, d.name, d.language)
  {
    assert forall x :: x in order ==> x in Elements(order);
  }

  /** The tab list of the new documents and order is the old list restructured. */
  lemma ViewRestructured(s: State, change: MetadataChange, limits: Limits)
    requires Structured(s.documents, s.order, limits) && ChangeFits(s, change, limits)
    requires s.documents.Keys <= s.trails.Keys
    ensures Elements(RestructuredOrder(s.order, change)) <= RestructuredDocuments(s.documents, change).Keys
    ensures TabsOf(RestructuredDocuments(s.documents, change), RestructuredOrder(s.order, change))
         == Restructured(TabsOf(s.documents, s.order), change)
  {
    hide NoDuplicates, TabsOf, Renamed, Arranged, WithoutTab, TotalBytes;
    match change
    case Created(id, name, language, content) =>
      CreatedView(s.documents, s.order, id, Document(name, language, content, 0, [], 0, 0));
    case Updated(id, name, language) =>
      UpdatedView(s.documents, s.order, id, s.documents[id].(name := name, language := language));
    case Deleted(id) =>
      WithoutTabMatches(s.documents, s.order, id);
    case Reordered(order) =>
      ReorderedView(s.documents, s.order, order);
  }

  /**
    Every accepted change of the tab list keeps the order a repetition-free
    list of all documents within the limits.
  */
  lemma RestructureKeepsStructure(s: State, change: MetadataChange, limits: Limits)
    requires Structured(s.documents, s.order, limits) && ChangeFits(s, change, limits)
    requires s.documents.Keys <= s.trails.Keys
    ensures Structured(RestructuredDocuments(s.documents, change), RestructuredOrder(s.order, change), limits)
  {
    hide NoDuplicates, TotalBytes, ValidDocumentId, ValidTabName, ValidLanguage;
    var documents, order := RestructuredDocuments(s.documents, change), RestructuredOrder(s.order, change);
    assert forall x :: x in s.order ==> x in Elements(s.order);
    match change
    case Created(id, name, language, content) =>
      NewLast(s.order, id);
      assert Elements(order) == documents.Keys;
      CreatedTotal(s.documents, s.order, id, documents[id]);
    case Updated(id, name, language) =>
      EditedTotal(s.documents, s.order, id, documents[id]);
    case Deleted(id) =>
      WithoutFacts(s.order, id);
      assert Elements(order) == documents.Keys;
      DeletedTotal(s.documents, s.order, id);
    case Reordered(_) =>
      ElementsSize(s.order);
      Covers(order, s.documents.Keys);
      PermutedTotal(s.documents, s.order, order);
  }

  lemma NewLast(order: seq<Id>, id: Id)
    requires NoDuplicates(order) && id !in order
    ensures NoDuplicates(order + [id])
  {
  }

  lemma PermutedTotal(documents: map<Id, Document>, order: seq<Id>, reordered: seq<Id>)
    requires NoDuplicates(order) && NoDuplicates(reordered) && Elements(order) == Elements(reordered) == documents.Keys
    ensures TotalBytes(documents, order) == TotalBytes(documents, reordered)
  {
    assert forall x :: x in order ==> x in Elements(order);
    SumPermuted(order, reordered, Weights(documents));
  }

  lemma CreatedTotal(documents: map<Id, Document>, order: seq<Id>, id: Id, d: Document)
    requires NoDuplicates(order) && Elements(order) == documents.Keys && id !in documents
    ensures Elements(order + [id]) <= documents[id := d].Keys
    ensures TotalBytes(documents[id := d], order + [id]) == TotalBytes(documents, order) + Utf8Bytes(d.content)
  {
    assert forall x :: x in order ==> x in Elements(order);
    var weights := Weights(documents[id := d]);
    SumAppend(order, [id], weights);
    SumUpdated(order, Weights(documents), id, Utf8Bytes(d.content));
    assert weights == Weights(documents)[id := Utf8Bytes(d.content)];
    assert Sum([id], weights) == weights[id] + Sum([], weights);
  }

  lemma DeletedTotal(documents: map<Id, Document>, order: seq<Id>, id: Id)
    requires NoDuplicates(order) && Elements(order) == documents.Keys && id in documents
    ensures Elements(Without(order, id)) <= (documents - {id}).Keys
    ensures TotalBytes(documents - {id}, Without(order, id)) + Utf8Bytes(documents[id].content) ==
      TotalBytes(documents, order)
  {
    WithoutFacts(order, id);
    assert forall x :: x in order ==> x in Elements(order);
    assert id in Elements(order);
    SumWithout(order, id, Weights(documents));
    SumAgrees(Without(order, id), Weights(documents), Weights(documents - {id}));
  }

  lemma {:induction false} SumAgrees<T>(s: seq<T>, v: map<T, nat>, w: map<T, nat>)
    requires forall x :: x in s ==> x in v && x in w && v[x] == w[x]
    ensures Sum(s, v) == Sum(s, w)
    decreases |s|
  {
    if s != [] {
      SumAgrees(s[1..], v, w);
    }
  }

  lemma RestructureKeepsDocuments(s: State, change: MetadataChange, trails: map<Id, Trail>, limits: Limits)
    requires DocumentsFit(s.documents, s.trails, limits)
    requires change.Created? ==> change.id !in s.trails
    requires trails == if change.Created? then s.trails[change.id := Trail(0, [change.content])] else s.trails
    ensures DocumentsFit(RestructuredDocuments(s.documents, change), trails, limits)
  {
    var documents := RestructuredDocuments(s.documents, change);
    forall id | id in documents
      ensures DocumentFits(documents, trails, limits, id)
    {
      if !(change.Created? && id == change.id) {
        assert DocumentFits(s.documents, s.trails, limits, id);
      }
    }
  }

  lemma MetadataSizeGrows(history: seq<MetadataEntry>, entry: MetadataEntry)
    ensures MetadataSize(history + [entry]) == MetadataSize(history) + entry.bytes
  {
    assert (history + [entry])[..|history|] == history;
  }

  lemma RestructureKeepsMetadata(s: State, op: MetadataOperation, change: MetadataChange, bytes: nat, limits: Limits)
    requires Structured(s.documents, s.order, limits) && MetadataFits(s, limits) && ViewsFit(s)
    requires s.documents.Keys <= s.trails.Keys && ChangeFits(s, change, limits)
    ensures Elements(RestructuredOrder(s.order, change)) <= RestructuredDocuments(s.documents, change).Keys
    ensures MetadataFits(AcceptMetadata(s, op, change, bytes, limits), limits)
  {
    hide Structured, ViewFits, TabsOf, Ids, Restructured, RestructuredDocuments, RestructuredOrder, Remembered,
         MetadataEntryLeads, TotalBytes, ValidDocumentId, ValidTabName, ValidLanguage, NoDuplicates, Trail.At;
    ViewRestructured(s, change, limits);
    if change.Reordered? {
      ReorderedCovers(s, change.order, limits);
    }
    var t := AcceptMetadata(s, op, change, bytes, limits);
    var entry := MetadataEntry(op.operationId, op.clientId, s.metadataRevision + 1, bytes, change);
    MetadataSizeGrows(s.metadataHistory, entry);
    if t.metadataHistory != [] {
      forall i | 0 <= i < |t.metadataHistory|
        ensures MetadataEntryLeads(t, i)
      {
        if i < |s.metadataHistory| {
          assert MetadataEntryLeads(s, i);
          RestructureKeepsEntry(s, t, i, change);
        } else {
          NewEntryLeads(s, t, change);
        }
      }
    }
  }

  /** An accepted order has exactly the room's ids. */
  lemma ReorderedCovers(s: State, order: seq<Id>, limits: Limits)
    requires Structured(s.documents, s.order, limits) && ChangeFits(s, Reordered(order), limits)
    ensures Elements(order) == Elements(Ids(TabsOf(s.documents, s.order)))
  {
    hide TotalBytes, Labelled;
    ElementsSize(s.order);
    Covers(order, s.documents.Keys);
    assert Ids(TabsOf(s.documents, s.order)) == s.order;
  }

  lemma NewEntryLeads(s: State, t: State, change: MetadataChange)
    requires s.metadataRevision == s.metadataCompacted + |s.metadataHistory| == s.viewStart + |s.views| - 1
    requires s.views != [] && t.views == s.views + [Restructured(s.views[|s.views| - 1], change)]
    requires t.viewStart == s.viewStart && t.metadataCompacted == s.metadataCompacted
    requires |t.metadataHistory| == |s.metadataHistory| + 1
    requires t.metadataHistory[|s.metadataHistory|].change == change
    requires t.metadataHistory[|s.metadataHistory|].revision == s.metadataRevision + 1
    requires t.trails == if change.Created? then s.trails[change.id := Trail(0, [change.content])] else s.trails
    requires change.Reordered? ==> Elements(change.order) == Elements(Ids(s.views[|s.views| - 1]))
    requires s.viewStart <= s.metadataCompacted
    ensures MetadataEntryLeads(t, |s.metadataHistory|)
  {
    hide Restructured, Ids, Elements;
  }

  lemma RestructureKeepsEntry(s: State, t: State, i: nat, change: MetadataChange)
    requires i < |s.metadataHistory| < |t.metadataHistory| && MetadataEntryLeads(s, i)
    requires t.metadataHistory[i] == s.metadataHistory[i] && t.metadataCompacted == s.metadataCompacted
    requires t.viewStart == s.viewStart && s.views <= t.views
    requires change.Created? ==> change.id !in s.trails
    requires t.trails == if change.Created? then s.trails[change.id := Trail(0, [change.content])] else s.trails
    ensures MetadataEntryLeads(t, i)
  {
    var at := s.metadataHistory[i].revision - s.viewStart;
    assert t.views[at] == s.views[at] && t.views[at - 1] == s.views[at - 1];
  }

  lemma RestructureKeepsViews(s: State, t: State, limits: Limits)
    requires Elements(s.order) <= s.documents.Keys && ViewsFit(s) && Structured(t.documents, t.order, limits)
    requires t.views == s.views + [TabsOf(t.documents, t.order)]
    requires s.trails.Keys <= t.trails.Keys && t.documents.Keys <= t.trails.Keys
    ensures ViewsFit(t)
  {
    ViewsKept(s.views, s.trails, t.trails);
    assert Ids(TabsOf(t.documents, t.order)) == t.order;
    forall k | 0 <= k < |t.views|
      ensures ViewFits(t.views[k], t.trails)
    {
      if k == |s.views| {
        assert forall id :: id in t.order ==> id in Elements(t.order);
      } else {
        assert ViewFits(s.views[k], t.trails);
      }
    }
  }

  /** Accepting a fitting change of the tab list keeps every part of the invariant. */
  lemma MetadataKeepsValid(s: State, op: MetadataOperation, change: MetadataChange, bytes: nat, limits: Limits)
    requires Valid(s, limits) && ChangeFits(s, change, limits)
    requires op.operationId !in RecordIds(s.ledger) && ValidOperation(op.operationId, op.clientId)
    ensures Elements(RestructuredOrder(s.order, change)) <= RestructuredDocuments(s.documents, change).Keys
    ensures Valid(AcceptMetadata(s, op, change, bytes, limits), limits)
  {
    hide ValidDocumentId, ValidTabName, ValidLanguage, ValidOperation, RestructuredDocuments, RestructuredOrder,
         TotalBytes, NoDuplicates, Labelled, DocumentsFit, MetadataEntryLeads, ViewsFit, LedgerFits, LedgerBehind,
         TabsOf, Restructured, Remembered;
    DocumentsHaveTrails(s, limits);
    ViewRestructured(s, change, limits);
    var t := AcceptMetadata(s, op, change, bytes, limits);
    RestructureKeepsStructure(s, change, limits);
    RestructureKeepsDocuments(s, change, t.trails, limits);
    DocumentsHaveTrails(t, limits);
    RestructureKeepsMetadata(s, op, change, bytes, limits);
    RestructureKeepsViews(s, t, limits);
    RememberedFits(s.ledger, StructureRecord(op, s.metadataRevision, change), limits);
    MetadataKeepsBehind(s, op, change, bytes, limits);
  }

  /** The new tab list shows the change that made it. */
  lemma ChangeShows(s: State, change: MetadataChange, limits: Limits)
    requires Structured(s.documents, s.order, limits) && ChangeFits(s, change, limits)
    requires Elements(RestructuredOrder(s.order, change)) <= RestructuredDocuments(s.documents, change).Keys
    ensures Shows(TabsOf(RestructuredDocuments(s.documents, change), RestructuredOrder(s.order, change)), change)
  {
    hide TotalBytes, Labelled, ValidDocumentId, ValidTabName, ValidLanguage;
    var order := RestructuredOrder(s.order, change);
    var view := TabsOf(RestructuredDocuments(s.documents, change), order);
    assert Ids(view) == order;
    if change.Created? {
      assert order[|s.order|] == change.id;
    }
    if change.Deleted? {
      WithoutFacts(s.order, change.id);
    }
  }

  lemma MetadataKeepsBehind(s: State, op: MetadataOperation, change: MetadataChange, bytes: nat, limits: Limits)
    requires Structured(s.documents, s.order, limits) && ChangeFits(s, change, limits) && LedgerBehind(s)
    requires Elements(RestructuredOrder(s.order, change)) <= RestructuredDocuments(s.documents, change).Keys
    ensures LedgerBehind(AcceptMetadata(s, op, change, bytes, limits))
  {
    ChangeShows(s, change, limits);
    hide Structured, Shows, TabsOf, RestructuredOrder, RestructuredDocuments, RecordBehind, ChangeFits, Remembered;
    var t, record := AcceptMetadata(s, op, change, bytes, limits), StructureRecord(op, s.metadataRevision, change);
    NewRecordBehind(t, op, change);
    forall i | 0 <= i < |t.ledger|
      ensures RecordBehind(t, t.ledger[i])
    {
      RememberedAt(s.ledger, record, limits, i);
      var k := |s.ledger| + 1 - |t.ledger| + i;
      if k < |s.ledger| {
        StaysRecordBehind(s, t, s.ledger[k], change, limits);
      }
    }
  }

  lemma NewRecordBehind(t: State, op: MetadataOperation, change: MetadataChange)
    requires Elements(t.order) <= t.documents.Keys && Shows(TabsOf(t.documents, t.order), change)
    ensures RecordBehind(t, StructureRecord(op, t.metadataRevision - 1, change))
  {
  }

  lemma StaysRecordBehind(s: State, t: State, record: Record, change: MetadataChange, limits: Limits)
    requires Elements(s.order) <= s.documents.Keys && Elements(t.order) <= t.documents.Keys
    requires RecordBehind(s, record) && ChangeFits(s, change, limits) && t.metadataRevision == s.metadataRevision + 1
    requires t.documents == RestructuredDocuments(s.documents, change)
    requires t.trails == if change.Created? then s.trails[change.id := Trail(0, [change.content])] else s.trails
    ensures RecordBehind(t, record)
  {
    hide Shows, TabsOf, TotalBytes, NoDuplicates, ValidDocumentId, ValidTabName, ValidLanguage;
  }

  lemma DocumentsHaveTrails(s: State, limits: Limits)
    requires DocumentsFit(s.documents, s.trails, limits)
    ensures s.documents.Keys <= s.trails.Keys
  {
    forall id | id in s.documents
      ensures id in s.trails
    {
      assert DocumentFits(s.documents, s.trails, limits, id);
    }
  }
}
