/**
  Recovering a room from tables that may be behind their logs: documents from
  their snapshot rows, the tab list from its own snapshot, each brought forward
  by the persisted changes after it.
*/
module Recovery {
  import opened Utf16
  import opened ChangeSets
  import opened Surrogates
  import opened Histories
  import opened Replay
  import opened Sequences
  import opened Validation
  import opened Authority
  import opened AuthorityInvariant
  import opened Stores
  import opened Durability
  import opened Rooms
  import opened Loading

  // ----- Tables that a room can be recovered from -----

  /** The rows show a tab list, in its order. */
  ghost predicate RowsShow(rows: map<Id, Row>, view: View) {
    && rows.Keys == Elements(Ids(view))
    && forall i :: 0 <= i < |view| ==> RowShows(rows, view[i], i)
  }

  ghost predicate RowShows(rows: map<Id, Row>, tab: Tab, i: nat) {
    && tab.id in rows
    && rows[tab.id].name == tab.name && rows[tab.id].language == tab.language && rows[tab.id].position == i
  }

  /** A live document's row may be at any revision from which the log leads to the current one. */
  ghost predicate RowRecovers(t: Tables, s: State, id: Id, limits: Limits)
    requires id in t.rows
  {
    && ValidRow(id, t.rows[id]) && Utf8Bytes(t.rows[id].content) <= limits.maxBytes
    && (id in s.documents ==>
          && id in s.trails && t.rows[id].currentRevision == s.documents[id].revision
          && Leads(t.log, id, s.trails[id], FromRow(t.rows[id])))
  }

  /** A change that the live room made of one tab list leads to the next; what it creates has not been edited since. */
  ghost predicate TabsLed(
      rows: map<Id, Row>, s: State, before: View, after: View, change: MetadataChange, limits: Limits)
  {
    && after == Restructured(before, change) && 1 <= |after| <= limits.maxTabs
    && match change
       case Created(id, _, _, content) =>
         id !in rows && (id in s.documents ==>
           id in s.trails && s.documents[id].revision == 0 && s.trails[id] == Trail(0, [content]))
       case Updated(id, _, _) => id in Ids(before)
       case Deleted(_) => true
       case Reordered(order) =>
         Elements(order) == Elements(Ids(before)) && forall i :: 0 <= i < |order| ==> ValidDocumentId(order[i])
  }

  /** The metadata log holds the change that led to this metadata revision. */
  ghost predicate RevisionLed(t: Tables, s: State, revision: int, limits: Limits) {
    var key, at := (MetadataStream, revision), revision - s.viewStart;
    && key in t.log && t.log[key].StructurePayload? && 0 < at < |s.views|
    && TabsLed(t.rows, s, s.views[at - 1], s.views[at], t.log[key].change, limits)
  }

  /**
    The tables that the room `s` left behind: rows at some revision of their
    documents and of the tab list, and the logs that lead on from there.
  */
  ghost predicate Recovers(t: Tables, s: State, limits: Limits) {
    && s.viewStart <= t.metadataSnapshotRevision <= t.metadataRevision == s.metadataRevision
    && t.metadataRevision == s.viewStart + |s.views| - 1
    && t.rows != map[] && RowsShow(t.rows, s.views[t.metadataSnapshotRevision - s.viewStart])
    && (forall id :: id in t.rows ==> RowRecovers(t, s, id, limits))
    && (forall revision :: t.metadataSnapshotRevision < revision <= t.metadataRevision ==>
          RevisionLed(t, s, revision, limits))
    && t.operations == LedgerRows(s.ledger)
    && forall key :: key in t.log ==> NotAhead(key, s)
  }

  lemma ContentWithin(documents: map<Id, Document>, order: seq<Id>, id: Id)
    requires id in order && Elements(order) == documents.Keys
    ensures id in documents && Utf8Bytes(documents[id].content) <= TotalBytes(documents, order)
  {
    assert forall x :: x in order ==> x in Elements(order);
    SumWithout(order, id, Weights(documents));
  }

  /** No persisted edit is ahead of its document. */
  lemma NothingBeyond(log: map<(ChangeStream, int), Payload>, s: State, id: Id)
    requires id in s.documents && forall key :: key in log ==> NotAhead(key, s)
    ensures forall revision :: revision > s.documents[id].revision ==> (DocumentStream(id), revision) !in log
  {
    forall revision | revision > s.documents[id].revision
      ensures (DocumentStream(id), revision) !in log
    {
      var key := (DocumentStream(id), revision);
      assert key in log ==> NotAhead(key, s);
    }
  }

  lemma CurrentRowRecovers(t: Tables, s: State, id: Id, i: nat, limits: Limits)
    requires id in s.documents && DocumentFits(s.documents, s.trails, limits, id)
    requires Structured(s.documents, s.order, limits)
    requires id in t.rows && t.rows[id] == RowFor(s.documents[id], i)
    requires forall key :: key in t.log ==> NotAhead(key, s)
    ensures RowRecovers(t, s, id, limits)
  {
    hide TotalBytes, ValidDocumentId, ValidTabName, ValidLanguage, NoDuplicates, LedStep;
    assert Labelled(id, s.documents[id]);
    assert id in Elements(s.order);
    ContentWithin(s.documents, s.order, id);
    NothingBeyond(t.log, s, id);
  }

  /** Tables that agree with a room are the special case with nothing to replay. */
  lemma AgreeingRecovers(t: Tables, s: State, limits: Limits)
    requires Valid(s, limits) && Agrees(t, s)
    ensures Recovers(t, s, limits)
  {
    hide TotalBytes, LedgerFits, LedgerBehind, Labelled, EditsLogged, MetadataEntryLeads, MetadataSize, RowRecovers,
         RowsShow, NotAhead, ValidDocumentId;
    ListedRows(s.documents, s.order);
    CurrentRowsShow(s.documents, s.order, t.rows);
    forall id | id in t.rows
      ensures RowRecovers(t, s, id, limits)
    {
      assert id in Elements(s.order);
      var i := IndexIn(s.order, id);
      assert t.rows[s.order[i]] == RowFor(s.documents[s.order[i]], i);
      assert DocumentFits(s.documents, s.trails, limits, id);
      CurrentRowRecovers(t, s, id, i, limits);
    }
    assert s.order[0] in t.rows;
  }

  lemma CurrentRowsShow(documents: map<Id, Document>, order: seq<Id>, rows: map<Id, Row>)
    requires Elements(order) == documents.Keys
    requires rows.Keys == Elements(order)
    requires forall i :: 0 <= i < |order| ==> rows[order[i]] == RowFor(documents[order[i]], i)
    ensures RowsShow(rows, TabsOf(documents, order))
  {
    var view := TabsOf(documents, order);
    assert Ids(view) == order;
    forall i | 0 <= i < |view|
      ensures RowShows(rows, view[i], i)
    {
      assert rows[order[i]] == RowFor(documents[order[i]], i);
    }
  }

  // ----- Where such tables come from -----

  /** `next` is `s` with one more edit of one document. */
  ghost predicate EditedOnce(s: State, next: State, id: Id, changes: ChangeSet) {
    && id in s.documents && id in s.trails && id in next.documents
    && OldLen(changes) == |s.documents[id].content|
    && next.documents == s.documents[id := next.documents[id]]
    && next.documents[id].revision == s.documents[id].revision + 1
    && next.trails == s.trails[id := Longer(s.trails[id], Stored(changes, s.documents[id].content))]
    && next.order == s.order && next.ledger == s.ledger && next.metadataRevision == s.metadataRevision
    && next.viewStart == s.viewStart && next.views == s.views
  }

  ghost function Longer(trail: Trail, text: Text): Trail {
    trail.(texts := trail.texts + [text])
  }

  lemma LeadsFurther(
      log: map<(ChangeStream, int), Payload>, id: Id, trail: Trail, d: Document, changes: ChangeSet, text: Text)
    requires Leads(log, id, trail, d) && StoredStep(changes, trail.At(d.revision), text)
    ensures Leads(log[(DocumentStream(id), d.revision + 1) := EditPayload(EncodedParts(changes))], id,
      trail.(texts := trail.texts + [text]), d.(revision := d.revision + 1))
  {
    var written := log[(DocumentStream(id), d.revision + 1) := EditPayload(EncodedParts(changes))];
    var longer, next := trail.(texts := trail.texts + [text]), d.(revision := d.revision + 1);
    forall i | 0 <= i < next.revision - next.compacted
      ensures LedStep(written, id, longer, next.compacted, i)
    {
      var revision := next.compacted + 1 + i;
      if revision == next.revision {
        assert Persists(written[(DocumentStream(id), revision)], changes, longer.At(revision - 1), longer.At(revision));
      } else {
        assert LedStep(log, id, trail, d.compacted, i);
        var led := LedChange(log, id, trail, revision);
        assert Persists(written[(DocumentStream(id), revision)], led, longer.At(revision - 1), longer.At(revision));
      }
    }
  }

  /** What is written on another stream is no step of this document. */
  lemma LeadsElsewhere(
      log: map<(ChangeStream, int), Payload>, id: Id, trail: Trail, d: Document, other: ChangeStream, revision: int,
      payload: Payload)
    requires Leads(log, id, trail, d) && other != DocumentStream(id)
    ensures Leads(log[(other, revision) := payload], id, trail, d)
  {
    hide Persists, Coherent, Stored;
    var written := log[(other, revision) := payload];
    forall i | 0 <= i < d.revision - d.compacted
      ensures LedStep(written, id, trail, d.compacted, i)
    {
      assert LedStep(log, id, trail, d.compacted, i);
      LedElsewhere(log, written, id, trail, d.compacted + 1 + i);
    }
  }

  lemma LedElsewhere(
      log: map<(ChangeStream, int), Payload>, written: map<(ChangeStream, int), Payload>, id: Id, trail: Trail,
      revision: int)
    requires LedBy(log, id, trail, revision)
    requires (DocumentStream(id), revision) in written
    requires written[(DocumentStream(id), revision)] == log[(DocumentStream(id), revision)]
    ensures LedBy(written, id, trail, revision)
  {
    hide Persists;
    var changes := LedChange(log, id, trail, revision);
    assert Persists(written[(DocumentStream(id), revision)], changes, trail.At(revision - 1), trail.At(revision));
  }

  ghost function EditChange(s: State, id: Id, changes: ChangeSet): ChangeRow
    requires id in s.documents
  {
    ChangeRow(s.documents[id].revision + 1, EditPayload(EncodedParts(changes)))
  }

  lemma AppendedRow(t: Tables, s: State, next: State, id: Id, changes: ChangeSet, other: Id, limits: Limits)
    requires EditedOnce(s, next, id, changes) && TrailFits(s.trails[id], s.documents[id]) && id in t.rows
      && other in t.rows
    requires RowRecovers(t, s, other, limits) && Appends(t, DocumentStream(id), EditChange(s, id, changes))
    ensures RowRecovers(Appended(t, DocumentStream(id), EditChange(s, id, changes)), next, other, limits)
  {
    hide Leads, Stored, OldLen, Utf8Bytes, Coherent, EncodedParts, ValidDocumentId, ValidTabName, ValidLanguage;
    var row := EditChange(s, id, changes);
    if other == id {
      LeadsFurther(t.log, id, s.trails[id], FromRow(t.rows[id]), changes, Stored(changes, s.documents[id].content));
    } else if other in s.documents {
      LeadsElsewhere(t.log, other, s.trails[other], FromRow(t.rows[other]), DocumentStream(id), row.revision,
        row.payload);
    }
  }

  /** Appending an edit to the log of a document that has a row keeps the tables recoverable, to the edited room. */
  lemma AppendedEditRecovers(t: Tables, s: State, next: State, id: Id, changes: ChangeSet, limits: Limits)
    requires Valid(s, limits) && Recovers(t, s, limits) && EditedOnce(s, next, id, changes) && id in t.rows
    ensures Appends(t, DocumentStream(id), EditChange(s, id, changes))
    ensures Recovers(Appended(t, DocumentStream(id), EditChange(s, id, changes)), next, limits)
  {
    hide TotalBytes, MetadataFits, ViewsFit, LedgerFits, LedgerBehind, NoDuplicates, Labelled, Leads, Stored, OldLen,
         Utf8Bytes, Coherent, LedgerRows, EncodedParts, Restructured, ValidTabName, ValidLanguage, ValidDocumentId,
         Structured, TabsLed, RowsShow;
    assert DocumentFits(s.documents, s.trails, limits, id) && RowRecovers(t, s, id, limits);
    NothingBeyond(t.log, s, id);
    RevisionsNonNegative(s, limits);
    var row := EditChange(s, id, changes);
    var after := Appended(t, DocumentStream(id), row);
    forall other | other in after.rows
      ensures RowRecovers(after, next, other, limits)
    {
      assert RowRecovers(t, s, other, limits);
      AppendedRow(t, s, next, id, changes, other, limits);
    }
    forall revision | after.metadataSnapshotRevision < revision <= after.metadataRevision
      ensures RevisionLed(after, next, revision, limits)
    {
      assert RevisionLed(t, s, revision, limits);
      EditKeepsLed(t, s, next, id, changes, revision, limits);
    }
    EditKeepsRows(t.rows, after.rows, s.views[t.metadataSnapshotRevision - s.viewStart]);
    forall key | key in after.log
      ensures NotAhead(key, next)
    {
      if key in t.log {
        assert NotAhead(key, s);
      }
    }
  }

  lemma EditKeepsLed(t: Tables, s: State, next: State, id: Id, changes: ChangeSet, revision: int, limits: Limits)
    requires EditedOnce(s, next, id, changes) && id in t.rows
      && Appends(t, DocumentStream(id), EditChange(s, id, changes))
    requires s.documents[id].revision >= 0 && RevisionLed(t, s, revision, limits)
    ensures RevisionLed(Appended(t, DocumentStream(id), EditChange(s, id, changes)), next, revision, limits)
  {
    hide Stored, OldLen, EncodedParts, Restructured, NoDuplicates, ValidDocumentId, Ids;
  }

  lemma EditKeepsRows(rows: map<Id, Row>, written: map<Id, Row>, view: View)
    requires RowsShow(rows, view) && written.Keys == rows.Keys
    requires forall id :: id in rows ==> written[id] == rows[id].(currentRevision := written[id].currentRevision)
    ensures RowsShow(written, view)
  {
    hide Ids;
    forall i | 0 <= i < |view|
      ensures RowShows(written, view[i], i)
    {
      assert RowShows(rows, view[i], i);
    }
  }

  /** `next` is `s` after one accepted change of the tab list. */
  ghost predicate RestructuredOnce(s: State, next: State, change: MetadataChange, limits: Limits) {
    && Elements(s.order) <= s.documents.Keys && ChangeFits(s, change, limits)
    && next.documents == RestructuredDocuments(s.documents, change) && next.order == RestructuredOrder(s.order, change)
    && Elements(next.order) <= next.documents.Keys
    && next.trails == (if change.Created? then s.trails[change.id := Trail(0, [change.content])] else s.trails)
    && next.ledger == s.ledger && next.metadataRevision == s.metadataRevision + 1
    && next.viewStart == s.viewStart && next.views == s.views + [TabsOf(next.documents, next.order)]
  }

  /** The changes persisted before stay what led the tab list. */
  lemma EarlierRevisionLed(
      t: Tables, s: State, next: State, change: MetadataChange, revision: int, after: Tables, limits: Limits)
    requires RestructuredOnce(s, next, change, limits) && RevisionLed(t, s, revision, limits) && ViewsFit(s)
    requires after.rows == t.rows && (MetadataStream, revision) in after.log
    requires after.log[(MetadataStream, revision)] == t.log[(MetadataStream, revision)]
    ensures RevisionLed(after, next, revision, limits)
  {
    hide TotalBytes, Restructured, NoDuplicates, ValidDocumentId, ValidTabName, ValidLanguage, TabsOf;
    var at, earlier := revision - s.viewStart, t.log[(MetadataStream, revision)].change;
    assert next.views[at] == s.views[at] && next.views[at - 1] == s.views[at - 1];
    if earlier.Created? {
      CreatedListed(s.views[at - 1], earlier);
      assert ViewFits(s.views[at], s.trails);
    }
  }

  lemma CreatedListed(view: View, change: MetadataChange)
    requires change.Created?
    ensures change.id in Ids(Restructured(view, change))
  {
    assert Ids(Restructured(view, change))[|view|] == change.id;
  }

  /** The new change leads from the old tab list to the new one. */
  lemma NewRevisionLed(rows: map<Id, Row>, s: State, next: State, change: MetadataChange, limits: Limits)
    requires Structured(s.documents, s.order, limits) && s.documents.Keys <= s.trails.Keys
    requires RestructuredOnce(s, next, change, limits) && (change.Created? ==> change.id !in rows)
    ensures TabsLed(rows, next, TabsOf(s.documents, s.order), TabsOf(next.documents, next.order), change, limits)
  {
    hide TotalBytes, Restructured, ValidDocumentId, ValidTabName, ValidLanguage, NoDuplicates, TabsOf, Ids;
    ViewRestructured(s, change, limits);
    RestructureKeepsStructure(s, change, limits);
    TabListIds(s.documents, s.order);
    if change.Updated? {
      assert change.id in Elements(s.order);
    }
    if change.Reordered? {
      ReorderedFits(s, change.order, limits);
    }
  }

  lemma TabListIds(documents: map<Id, Document>, order: seq<Id>)
    requires Elements(order) <= documents.Keys
    ensures Ids(TabsOf(documents, order)) == order
  {
  }

  /** An accepted order has exactly the room's ids, all of them valid. */
  lemma ReorderedFits(s: State, order: seq<Id>, limits: Limits)
    requires Structured(s.documents, s.order, limits) && ChangeFits(s, Reordered(order), limits)
    ensures Elements(order) == Elements(s.order) && forall i :: 0 <= i < |order| ==> ValidDocumentId(order[i])
  {
    hide TotalBytes, ValidDocumentId, ValidTabName, ValidLanguage;
    ElementsSize(s.order);
    Covers(order, s.documents.Keys);
    forall i | 0 <= i < |order|
      ensures ValidDocumentId(order[i])
    {
      assert Labelled(order[i], s.documents[order[i]]);
    }
  }

  lemma RestructuredRow(t: Tables, s: State, next: State, change: MetadataChange, id: Id, after: Tables, limits: Limits)
    requires RestructuredOnce(s, next, change, limits) && id in t.rows && RowRecovers(t, s, id, limits)
    requires change.Created? ==> change.id != id
    requires after.rows == t.rows
      && after.log == t.log[(MetadataStream, next.metadataRevision) := StructurePayload(change)]
    ensures RowRecovers(after, next, id, limits)
  {
    hide ValidRow, TotalBytes, Leads, Utf8Bytes, NoDuplicates, ChangeFits, RestructuredOrder, TabsOf;
    if id in s.documents {
      LeadsElsewhere(t.log, id, s.trails[id], FromRow(t.rows[id]), MetadataStream, next.metadataRevision,
                     StructurePayload(change));
    }
  }

  ghost function StructureChange(s: State, change: MetadataChange): ChangeRow {
    ChangeRow(s.metadataRevision + 1, StructurePayload(change))
  }

  /** Appending a tab change to the log keeps the tables recoverable, to the restructured room. */
  lemma AppendedStructureRecovers(t: Tables, s: State, next: State, change: MetadataChange, limits: Limits)
    requires Valid(s, limits) && Recovers(t, s, limits) && RestructuredOnce(s, next, change, limits)
    ensures Appends(t, MetadataStream, StructureChange(s, change))
    ensures Recovers(Appended(t, MetadataStream, StructureChange(s, change)), next, limits)
  {
    hide TotalBytes, MetadataEntryLeads, MetadataSize, LedgerFits, LedgerBehind, NoDuplicates, Labelled, RowRecovers,
         LedgerRows, Restructured, RestructuredDocuments, RestructuredOrder, ChangeFits, DocumentsFit, TabsLed;
    DocumentsTrailed(s, limits);
    var key := (MetadataStream, s.metadataRevision + 1);
    assert key in t.log ==> NotAhead(key, s);
    var after := Appended(t, MetadataStream, StructureChange(s, change));
    var view := s.views[t.metadataSnapshotRevision - s.viewStart];
    assert ViewFits(view, s.trails) && next.views[t.metadataSnapshotRevision - next.viewStart] == view;
    CreatedUnlisted(s, next, change, t.rows, view, limits);
    forall id | id in after.rows
      ensures RowRecovers(after, next, id, limits)
    {
      assert RowRecovers(t, s, id, limits);
      RestructuredRow(t, s, next, change, id, after, limits);
    }
    forall revision | after.metadataSnapshotRevision < revision <= after.metadataRevision
      ensures RevisionLed(after, next, revision, limits)
    {
      if revision <= t.metadataRevision {
        assert RevisionLed(t, s, revision, limits);
        EarlierRevisionLed(t, s, next, change, revision, after, limits);
      } else {
        NewRevisionLed(t.rows, s, next, change, limits);
        assert next.views[|s.views| - 1] == s.views[|s.views| - 1];
      }
    }
    forall other | other in after.log
      ensures NotAhead(other, next)
    {
      if other != key {
        assert NotAhead(other, s);
        StaysBehind(s, next, change, other, limits);
      }
    }
  }

  lemma DocumentsTrailed(s: State, limits: Limits)
    requires Valid(s, limits)
    ensures s.documents.Keys <= s.trails.Keys && s.metadataRevision >= 0
  {
    DocumentsHaveTrails(s, limits);
  }

  lemma CreatedUnlisted(s: State, next: State, change: MetadataChange, rows: map<Id, Row>, view: View, limits: Limits)
    requires RestructuredOnce(s, next, change, limits) && RowsShow(rows, view) && ViewFits(view, s.trails)
    ensures change.Created? ==> change.id !in rows
  {
    assert forall id :: id in rows ==> id in Elements(Ids(view));
  }

  lemma StaysBehind(s: State, next: State, change: MetadataChange, key: (ChangeStream, int), limits: Limits)
    requires RestructuredOnce(s, next, change, limits) && NotAhead(key, s)
    ensures NotAhead(key, next)
  {
  }

  // ----- Reading the rows -----

  lemma ListedCount(listed: seq<Listed>, rows: map<Id, Row>)
    requires ListsRows(listed, rows)
    ensures |listed| == |rows.Keys|
  {
    var ids := seq(|listed|, i requires 0 <= i < |listed| => listed[i].id);
    forall id | id in rows
      ensures id in ids
    {
      assert Lists(listed, id, rows[id]);
      var i :| 0 <= i < |listed| && listed[i].id == id && listed[i].row == rows[id];
      assert ids[i] == id;
    }
    assert Elements(ids) == rows.Keys;
    ElementsSize(ids);
  }

  /** A row's position is its tab's place in the list. */
  lemma ListedPlace(rows: map<Id, Row>, view: View, listed: seq<Listed>, i: nat)
    requires RowsShow(rows, view) && ListsRows(listed, rows) && i < |listed|
    ensures exists k :: 0 <= k < |Ids(view)| && Ids(view)[k] == listed[i].id && listed[i].row.position == k
  {
    assert listed[i].id in Elements(Ids(view));
    var k := IndexIn(Ids(view), listed[i].id);
    assert RowShows(rows, view[k], k);
  }

  /** The rows are listed in the tab list's order. */
  lemma ListedInOrder(rows: map<Id, Row>, view: View, listed: seq<Listed>)
    requires RowsShow(rows, view) && ListsRows(listed, rows) && NoDuplicates(Ids(view))
    ensures |listed| == |view|
    ensures forall i :: 0 <= i < |listed| ==> listed[i].id == Ids(view)[i] && listed[i].row == rows[Ids(view)[i]]
  {
    hide NoDuplicates, Elements, RowShows, Ids;
    ListedCount(listed, rows);
    ElementsSize(Ids(view));
    forall i | 0 <= i < |listed|
      ensures exists k :: 0 <= k < |Ids(view)| && Ids(view)[k] == listed[i].id && listed[i].row.position == k
    {
      ListedPlace(rows, view, listed, i);
    }
    PositionsSorted(Ids(view), listed);
  }

  /** Distinct positions below the length, in order, are the indices. */
  lemma PositionsSorted(order: seq<Id>, listed: seq<Listed>)
    requires |listed| == |order| && Distinct(listed)
    requires forall i :: 0 <= i < |listed| ==>
      exists k :: 0 <= k < |order| && order[k] == listed[i].id && listed[i].row.position == k
    requires forall i, j :: 0 <= i < j < |listed| ==> listed[i].row.position <= listed[j].row.position
    ensures forall i :: 0 <= i < |listed| ==> listed[i].id == order[i]
  {
    hide Distinct;
    forall i, j | 0 <= i < j < |listed|
      ensures listed[i].row.position < listed[j].row.position
    {
      StrictlyApart(order, listed, i, j);
    }
    forall i | 0 <= i < |listed|
      ensures listed[i].id == order[i]
    {
      AtLeast(listed, i);
      AtMost(listed, |order|, i);
      assert exists k :: 0 <= k < |order| && order[k] == listed[i].id && listed[i].row.position == k;
    }
  }

  lemma StrictlyApart(order: seq<Id>, listed: seq<Listed>, i: nat, j: nat)
    requires i < j < |listed| && Distinct(listed) && listed[i].row.position <= listed[j].row.position
    requires exists k :: 0 <= k < |order| && order[k] == listed[i].id && listed[i].row.position == k
    requires exists k :: 0 <= k < |order| && order[k] == listed[j].id && listed[j].row.position == k
    ensures listed[i].row.position < listed[j].row.position
  {
  }

  lemma {:induction false} AtLeast(listed: seq<Listed>, i: nat)
    requires i < |listed| && forall k :: 0 <= k < |listed| ==> listed[k].row.position >= 0
    requires forall k, l :: 0 <= k < l < |listed| ==> listed[k].row.position < listed[l].row.position
    ensures listed[i].row.position >= i
    decreases i
  {
    if i > 0 {
      AtLeast(listed, i - 1);
      assert listed[i - 1].row.position < listed[i].row.position;
    }
  }

  lemma {:induction false} AtMost(listed: seq<Listed>, n: nat, i: nat)
    requires i < |listed| == n && forall k :: 0 <= k < |listed| ==> listed[k].row.position < n
    requires forall k, l :: 0 <= k < l < |listed| ==> listed[k].row.position < listed[l].row.position
    ensures listed[i].row.position <= i
    decreases n - i
  {
    if i + 1 < n {
      AtMost(listed, n, i + 1);
      assert listed[i].row.position < listed[i + 1].row.position;
    }
  }

  // ----- Replaying the tab list -----

  /** A document before its edits are replayed: from its row, or created since. */
  ghost predicate Replayable(t: Tables, s: State, id: Id, d: Document) {
    && Unreplayed(d)
    && (d.compacted < d.revision ==> id in t.rows && ValidDocumentId(id))
    && (id in s.documents ==>
          id in s.trails && d.revision == s.documents[id].revision && Leads(t.log, id, s.trails[id], d))
  }

  /** The replay has reached a metadata revision: the documents and their order show its tab list. */
  ghost predicate Stage(t: Tables, s: State, documents: map<Id, Document>, order: seq<Id>, revision: int) {
    && 0 <= revision - s.viewStart < |s.views|
    && NoDuplicates(order) && Elements(order) == documents.Keys
    && TabsOf(documents, order) == s.views[revision - s.viewStart]
    && forall id :: id in documents ==> Replayable(t, s, id, documents[id])
  }

  /** The rows are the first stage. */
  lemma RowsAreStage(
      t: Tables, s: State, listed: seq<Listed>, documents: map<Id, Document>, order: seq<Id>, limits: Limits)
    requires Valid(s, limits) && Recovers(t, s, limits) && ListsRows(listed, t.rows)
    requires |order| == |listed| && documents.Keys == Elements(order)
    requires forall i :: 0 <= i < |listed| ==>
      order[i] == listed[i].id && order[i] in documents && documents[order[i]] == FromRow(listed[i].row)
    ensures Stage(t, s, documents, order, t.metadataSnapshotRevision)
  {
    hide TotalBytes, MetadataFits, LedgerFits, LedgerBehind, DocumentsFit, Labelled, NoDuplicates, Leads, RowRecovers,
         ListsRows;
    var view := s.views[t.metadataSnapshotRevision - s.viewStart];
    assert ViewFits(view, s.trails);
    ListedInOrder(t.rows, view, listed);
    assert order == Ids(view);
    forall id | id in documents
      ensures Replayable(t, s, id, documents[id])
    {
      assert id in Elements(order);
      var i := IndexIn(order, id);
      assert RowRecovers(t, s, id, limits);
      RowReplayable(t, s, id, limits);
    }
    forall i | 0 <= i < |view|
      ensures TabsOf(documents, order)[i] == view[i]
    {
      assert RowShows(t.rows, view[i], i);
    }
  }

  lemma RowReplayable(t: Tables, s: State, id: Id, limits: Limits)
    requires id in t.rows && RowRecovers(t, s, id, limits)
    ensures Replayable(t, s, id, FromRow(t.rows[id]))
  {
  }

  lemma RowsLoadable(t: Tables, s: State, listed: seq<Listed>, limits: Limits)
    requires Recovers(t, s, limits) && ListsRows(listed, t.rows)
    ensures listed != [] && forall i :: 0 <= i < |listed| ==> Loadable(listed[i], limits)
  {
    hide Leads;
    ListedCount(listed, t.rows);
    forall i | 0 <= i < |listed|
      ensures Loadable(listed[i], limits)
    {
      assert RowRecovers(t, s, listed[i].id, limits);
    }
  }

  /** A created document is replayable: nothing of it was edited since. */
  lemma CreatedReplayable(t: Tables, s: State, id: Id, name: string, language: string, content: Text)
    requires forall key :: key in t.log ==> NotAhead(key, s)
    requires id in s.documents ==>
      id in s.trails && s.documents[id].revision == 0 && s.trails[id] == Trail(0, [content])
    ensures Replayable(t, s, id, Document(name, language, content, 0, [], 0, 0))
  {
    if id in s.documents {
      NothingBeyond(t.log, s, id);
    }
  }

  lemma RelabelledReplayable(t: Tables, s: State, id: Id, d: Document, name: string, language: string)
    requires Replayable(t, s, id, d)
    ensures Replayable(t, s, id, d.(name := name, language := language))
  {
    if id in s.documents {
      var relabelled := d.(name := name, language := language);
      forall i | 0 <= i < d.revision - d.compacted
        ensures LedStep(t.log, id, s.trails[id], relabelled.compacted, i)
      {
        assert LedStep(t.log, id, s.trails[id], d.compacted, i);
      }
    }
  }

  lemma {:induction false} WithoutTabAbsent(view: View, id: Id)
    requires id !in Ids(view)
    ensures WithoutTab(view, id) == view
    decreases |view|
  {
    if view != [] {
      assert Ids(view)[0] == view[0].id && Ids(view[1..]) == Ids(view)[1..];
      WithoutTabAbsent(view[1..], id);
    }
  }

  lemma ArrangedIds(view: View, order: seq<Id>)
    ensures Ids(Arranged(view, order)) == order
  {
    forall i | 0 <= i < |order|
      ensures Ids(Arranged(view, order))[i] == order[i]
    {
      TabNamedHasId(view, order[i]);
    }
  }

  lemma {:induction false} TabNamedHasId(view: View, id: Id)
    ensures TabNamed(view, id).id == id
    decreases |view|
  {
    if view != [] {
      TabNamedHasId(view[1..], id);
    }
  }

  /** The effect of one replayed change on documents and order. */
  lemma StructureStage(
      t: Tables, s: State, documents: map<Id, Document>, order: seq<Id>, change: MetadataChange, after: View,
      limits: Limits)
    requires NoDuplicates(order) && Elements(order) == documents.Keys && NoDuplicates(Ids(after))
    requires TabsLed(t.rows, s, TabsOf(documents, order), after, change, limits)
    requires forall id :: id in documents ==> Replayable(t, s, id, documents[id])
    requires forall key :: key in t.log ==> NotAhead(key, s)
    ensures
      var r := PersistedStructure(documents, order, change, limits.maxTabs);
      && r.Ok? && NoDuplicates(r.value.1) && Elements(r.value.1) == r.value.0.Keys
      && TabsOf(r.value.0, r.value.1) == after
      && forall id :: id in r.value.0 ==> Replayable(t, s, id, r.value.0[id])
  {
    hide Leads, ValidDocumentId;
    var view := TabsOf(documents, order);
    assert Ids(view) == order;
    match change
    case Created(id, name, language, content) =>
      StageCreated(t, s, documents, order, change, after, limits);
    case Updated(id, name, language) =>
      assert id in Elements(order);
      UpdatedView(documents, order, id, documents[id].(name := name, language := language));
      RelabelledReplayable(t, s, id, documents[id], name, language);
    case Deleted(id) =>
      if id in documents {
        WithoutFacts(order, id);
        WithoutTabMatches(documents, order, id);
      } else {
        assert id !in Elements(order);
        WithoutTabAbsent(view, id);
      }
    case Reordered(reordered) =>
      ArrangedIds(view, reordered);
      assert forall id :: id in reordered ==> id in Elements(reordered);
      ReorderedView(documents, order, reordered);
  }

  lemma StageCreated(
      t: Tables, s: State, documents: map<Id, Document>, order: seq<Id>, change: MetadataChange, after: View,
      limits: Limits)
    requires change.Created? && NoDuplicates(order) && Elements(order) == documents.Keys && NoDuplicates(Ids(after))
    requires TabsLed(t.rows, s, TabsOf(documents, order), after, change, limits)
    requires forall id :: id in documents ==> Replayable(t, s, id, documents[id])
    requires forall key :: key in t.log ==> NotAhead(key, s)
    ensures
      var r := PersistedStructure(documents, order, change, limits.maxTabs);
      && r.Ok? && NoDuplicates(r.value.1) && Elements(r.value.1) == r.value.0.Keys
      && TabsOf(r.value.0, r.value.1) == after
      && forall id :: id in r.value.0 ==> Replayable(t, s, id, r.value.0[id])
  {
    hide Replayable, NotAhead;
    var id, view := change.id, TabsOf(documents, order);
    assert Ids(view) == order;
    assert Ids(after) == order + [id];
    assert Ids(after)[|order|] == id && forall k :: 0 <= k < |order| ==> Ids(after)[k] == order[k];
    assert id !in Elements(order);
    CreatedReplayable(t, s, id, change.name, change.language, change.content);
    CreatedView(documents, order, id, Document(change.name, change.language, change.content, 0, [], 0, 0));
    assert Elements(order + [id]) == Elements(order) + {id};
  }

  /** Replaying the persisted tab changes leads, stage by stage, to the live tab list. */
  lemma {:induction false} StructureReplays(
      t: Tables, s: State, documents: map<Id, Document>, order: seq<Id>, rows: seq<ChangeRow>, k: nat, limits: Limits)
    requires Recovers(t, s, limits) && Elements(s.order) <= s.documents.Keys && ViewsFit(s)
    requires Stage(t, s, documents, order, t.metadataSnapshotRevision)
    requires ChangesSince(t.log, MetadataStream, t.metadataSnapshotRevision, rows)
    requires |rows| == t.metadataRevision - t.metadataSnapshotRevision && k <= |rows|
    requires forall i :: 0 <= i < |rows| ==> rows[i].revision == t.metadataSnapshotRevision + 1 + i
    ensures
      var r := ReplayedStructure(documents, order, rows[..k], limits.maxTabs);
      r.Ok? && Stage(t, s, r.value.0, r.value.1, t.metadataSnapshotRevision + k)
    decreases k
  {
    hide Recovers, RevisionLed, ViewsFit, Stage, PersistedStructure, ReadBack;
    if k > 0 {
      StructureReplays(t, s, documents, order, rows, k - 1, limits);
      assert rows[..k][..k - 1] == rows[..k - 1];
      assert ReadBack(t.log, MetadataStream, t.metadataSnapshotRevision, rows[k - 1]);
      var before := ReplayedStructure(documents, order, rows[..k - 1], limits.maxTabs).value;
      OneMoreReplays(t, s, before.0, before.1, rows[k - 1], limits);
    }
  }

  lemma OneMoreReplays(
      t: Tables, s: State, documents: map<Id, Document>, order: seq<Id>, row: ChangeRow, limits: Limits)
    requires Recovers(t, s, limits) && Elements(s.order) <= s.documents.Keys && ViewsFit(s)
    requires t.metadataSnapshotRevision < row.revision <= t.metadataRevision
    requires Stage(t, s, documents, order, row.revision - 1)
    requires ReadBack(t.log, MetadataStream, t.metadataSnapshotRevision, row)
    ensures row.payload.StructurePayload?
    ensures
      var r := PersistedStructure(documents, order, row.payload.change, limits.maxTabs);
      r.Ok? && Stage(t, s, r.value.0, r.value.1, row.revision)
  {
    hide RowRecovers, RowsShow, Replayable, TabsLed, NoDuplicates, PersistedStructure, LedgerRows, Ids, TabsOf;
    assert RevisionLed(t, s, row.revision, limits);
    var after := s.views[row.revision - s.viewStart];
    assert ViewFits(after, s.trails);
    StructureStage(t, s, documents, order, row.payload.change, after, limits);
  }

  /** All metadata changes since the snapshot are in the log. */
  lemma MetadataLogReaches(t: Tables, s: State, limits: Limits)
    requires Recovers(t, s, limits) && t.metadataSnapshotRevision < t.metadataRevision
    ensures Reaches(t.log, MetadataStream, t.metadataSnapshotRevision, t.metadataRevision)
  {
    assert RevisionLed(t, s, t.metadataSnapshotRevision + 1, limits);
    assert (MetadataStream, t.metadataSnapshotRevision + 1) in t.log;
  }

  lemma AllMetadataRead(t: Tables, s: State, rows: seq<ChangeRow>, limits: Limits)
    requires Recovers(t, s, limits) && ChangesSince(t.log, MetadataStream, t.metadataSnapshotRevision, rows)
    ensures |rows| == t.metadataRevision - t.metadataSnapshotRevision
    ensures forall i :: 0 <= i < |rows| ==> rows[i].revision == t.metadataSnapshotRevision + 1 + i
  {
    hide RowRecovers, RowsShow, TabsLed, LedgerRows;
    forall revision | t.metadataSnapshotRevision < revision <= t.metadataRevision
      ensures (MetadataStream, revision) in t.log
    {
      assert RevisionLed(t, s, revision, limits);
    }
    forall revision | revision > t.metadataRevision
      ensures (MetadataStream, revision) !in t.log
    {
      var key := (MetadataStream, revision);
      assert key in t.log ==> NotAhead(key, s);
    }
    AllRead(t.log, MetadataStream, t.metadataSnapshotRevision, t.metadataRevision, rows);
  }

  ghost predicate SameRevision(d: Document, e: Document) {
    d.name == e.name && d.language == e.language && d.revision == e.revision
  }

  /** The last stage has the live order, names and languages, and every document can be replayed. */
  lemma LastStage(store: Store, t: Tables, s: State, documents: map<Id, Document>, order: seq<Id>, limits: Limits)
    requires Valid(s, limits) && Recovers(t, s, limits) && t == store.Contents()
    requires Stage(t, s, documents, order, t.metadataRevision)
    ensures order == s.order && documents.Keys == s.documents.Keys
    ensures forall id :: id in order ==>
      CanReplay(store, documents, id, s.trails) && SameRevision(documents[id], s.documents[id])
  {
    hide TotalBytes, MetadataFits, LedgerFits, LedgerBehind, DocumentsFit, Labelled, NoDuplicates, Leads, RowRecovers,
         RowsShow, RevisionLed, LedgerRows;
    var view := TabsOf(s.documents, s.order);
    assert TabsOf(documents, order) == view;
    assert Ids(TabsOf(documents, order)) == order && Ids(view) == s.order;
    forall id | id in order
      ensures CanReplay(store, documents, id, s.trails) && SameRevision(documents[id], s.documents[id])
    {
      var i := IndexIn(order, id);
      assert TabsOf(documents, order)[i] == view[i];
      assert id in Elements(s.order) && Replayable(t, s, id, documents[id]);
    }
  }

  lemma UnreplayedDocuments(listed: seq<Listed>, documents: map<Id, Document>, order: seq<Id>, limits: Limits)
    requires |order| == |listed| && documents.Keys == Elements(order) && Distinct(listed)
    requires forall i :: 0 <= i < |listed| ==>
      && Loadable(listed[i], limits)
      && order[i] == listed[i].id && order[i] in documents && documents[order[i]] == FromRow(listed[i].row)
    ensures NoDuplicates(order) && forall id :: id in documents ==> Unreplayed(documents[id])
  {
    forall id | id in documents
      ensures Unreplayed(documents[id])
    {
      assert id in Elements(order);
      var i := IndexIn(order, id);
      assert Loadable(listed[i], limits);
    }
  }

  /** Replaying tab changes leaves documents unreplayed. */
  lemma {:induction false} StructureUnreplayed(
      documents: map<Id, Document>, order: seq<Id>, rows: seq<ChangeRow>, maxTabs: nat)
    requires forall id :: id in documents ==> Unreplayed(documents[id])
    ensures
      var r := ReplayedStructure(documents, order, rows, maxTabs);
      r.Ok? ==> forall id :: id in r.value.0 ==> Unreplayed(r.value.0[id])
    decreases |rows|
  {
    hide PersistedStructure, Unreplayed;
    if rows != [] {
      StructureUnreplayed(documents, order, rows[..|rows| - 1], maxTabs);
      var init, last := ReplayedStructure(documents, order, rows[..|rows| - 1], maxTabs), rows[|rows| - 1];
      if init.Ok? && last.payload.StructurePayload? {
        PersistedUnreplayed(init.value.0, init.value.1, last.payload.change, maxTabs);
      }
    }
  }

  lemma PersistedUnreplayed(documents: map<Id, Document>, order: seq<Id>, change: MetadataChange, maxTabs: nat)
    requires forall id :: id in documents ==> Unreplayed(documents[id])
    ensures
      var r := PersistedStructure(documents, order, change, maxTabs);
      r.Ok? ==> forall id :: id in r.value.0 ==> Unreplayed(r.value.0[id])
  {
  }

  // ----- The loaded room -----

  ghost predicate DocumentLoaded(d: Document, before: Document, trail: Trail, limits: Limits) {
    && SameText(d, before) && Coherent(d) && Bounded(d, limits.maxHistoryRows, limits.maxHistoryBytes)
    && TrailFits(trail, d)
  }

  /**
    `s` has the texts, order, revision and ledger of `before`; of the histories
    it retains what was replayed, and of the metadata history nothing.
  */
  ghost predicate FreshlyLoaded(s: State, before: State, limits: Limits)
    requires Elements(before.order) <= before.documents.Keys
  {
    && s.order == before.order && s.documents.Keys == before.documents.Keys && s.ledger == before.ledger
    && (forall id :: id in s.documents ==>
          id in before.trails && DocumentLoaded(s.documents[id], before.documents[id], before.trails[id], limits))
    && s.metadataRevision == before.metadataRevision == s.metadataCompacted == s.viewStart
    && s.metadataHistory == [] && s.metadataBytes == 0 && s.views == [TabsOf(before.documents, before.order)]
    && s.trails == before.trails
  }

  lemma LoadedStructure(before: State, s: State, limits: Limits)
    requires Structured(before.documents, before.order, limits) && FreshlyLoaded(s, before, limits)
    ensures Structured(s.documents, s.order, limits)
    ensures TabsOf(s.documents, s.order) == TabsOf(before.documents, before.order)
    ensures ListedDocuments(s.documents, s.order) == ListedDocuments(before.documents, before.order)
  {
    hide ValidDocumentId, ValidTabName, ValidLanguage, Coherent, TrailFits, NoDuplicates;
    assert forall x :: x in s.order ==> x in Elements(s.order);
    forall id | id in s.documents
      ensures SameText(s.documents[id], before.documents[id]) && Labelled(id, s.documents[id])
    {
      assert Labelled(id, before.documents[id]);
      assert DocumentLoaded(s.documents[id], before.documents[id], before.trails[id], limits);
    }
    assert Weights(s.documents) == Weights(before.documents);
  }

  lemma LoadedViews(before: State, s: State, limits: Limits)
    requires Elements(before.order) == before.documents.Keys && FreshlyLoaded(s, before, limits)
    requires NoDuplicates(s.order) && before.metadataRevision >= 0
    requires TabsOf(s.documents, s.order) == TabsOf(before.documents, before.order)
    ensures MetadataFits(s, limits) && ViewsFit(s)
  {
    hide NoDuplicates, DocumentLoaded;
    assert Ids(s.views[0]) == s.order;
    assert forall x :: x in s.order ==> x in Elements(s.order);
  }

  lemma LoadedBehind(before: State, s: State, limits: Limits)
    requires Elements(before.order) <= before.documents.Keys && FreshlyLoaded(s, before, limits)
    requires Elements(s.order) <= s.documents.Keys
      && TabsOf(s.documents, s.order) == TabsOf(before.documents, before.order)
    requires LedgerBehind(before)
    ensures LedgerBehind(s)
  {
    hide Shows, TabsOf, Coherent, TrailFits;
    forall i | 0 <= i < |s.ledger|
      ensures RecordBehind(s, s.ledger[i])
    {
      assert RecordBehind(before, before.ledger[i]);
      var answer := s.ledger[i].answer;
      if answer.EditAnswer? && answer.documentId in s.documents {
        var id := answer.documentId;
        assert DocumentLoaded(s.documents[id], before.documents[id], before.trails[id], limits);
      }
    }
  }

  lemma LoadedFit(before: State, s: State, limits: Limits)
    requires Elements(before.order) <= before.documents.Keys && FreshlyLoaded(s, before, limits)
    ensures DocumentsFit(s.documents, s.trails, limits)
  {
    hide Coherent, TrailFits;
    forall id | id in s.documents
      ensures DocumentFits(s.documents, s.trails, limits, id)
    {
      assert DocumentLoaded(s.documents[id], before.documents[id], before.trails[id], limits);
    }
  }

  /** A freshly loaded room satisfies the invariant. */
  lemma LoadedValid(before: State, s: State, limits: Limits)
    requires Valid(before, limits) && Elements(before.order) <= before.documents.Keys
      && FreshlyLoaded(s, before, limits)
    ensures Valid(s, limits)
    ensures ListedDocuments(s.documents, s.order) == ListedDocuments(before.documents, before.order)
  {
    hide NoDuplicates, DocumentsFit, MetadataFits, ViewsFit, LedgerFits, LedgerBehind, Labelled, TotalBytes,
         ListedDocuments, DocumentLoaded, TabsOf;
    RevisionsNonNegative(before, limits);
    LoadedStructure(before, s, limits);
    LoadedViews(before, s, limits);
    LoadedFit(before, s, limits);
    LoadedBehind(before, s, limits);
  }

  /** With its rows and snapshot revision current, the store agrees with the loaded room. */
  lemma LoadedAgrees(before: State, s: State, t: Tables, repaired: Tables, limits: Limits)
    requires Elements(before.order) <= before.documents.Keys && FreshlyLoaded(s, before, limits)
    requires Recovers(t, before, limits) && Elements(s.order) <= s.documents.Keys
    requires forall id :: id in s.documents ==> EditsLogged(t.log, id, s.documents[id].history)
    requires repaired ==
      t.(metadataSnapshotRevision := t.metadataRevision, rows := RowsOf(ListedDocuments(s.documents, s.order)))
    ensures Agrees(repaired, s)
  {
    hide RowRecovers, EditsLogged, Coherent, TrailFits, ListedDocuments, RowsShow, RevisionLed, RowsOf, TabsOf;
    forall key | key in t.log
      ensures NotAhead(key, s)
    {
      assert NotAhead(key, before);
      if key.0.DocumentStream? && key.0.id in s.documents {
        assert DocumentLoaded(s.documents[key.0.id], before.documents[key.0.id], before.trails[key.0.id], limits);
      }
    }
  }

  predicate Settled(t: Tables) {
    && t.metadataRevision <= t.metadataSnapshotRevision
    && forall id :: id in t.rows ==> t.rows[id].currentRevision <= t.rows[id].snapshotRevision
  }

  lemma SettledRow(t: Tables, s: State, id: Id, i: nat, limits: Limits)
    requires id in t.rows && id in s.documents && DocumentFits(s.documents, s.trails, limits, id)
    requires RowRecovers(t, s, id, limits) && Settled(t)
    requires RowShows(t.rows, Tab(id, s.documents[id].name, s.documents[id].language), i)
    ensures t.rows[id] == RowFor(s.documents[id], i)
  {
    hide LedStep, Coherent;
  }

  /** Rows that need no replay show the current tab list. */
  lemma SettledTabs(t: Tables, s: State, limits: Limits)
    requires Valid(s, limits) && Recovers(t, s, limits) && Settled(t)
    ensures Elements(s.order) == s.documents.Keys && NoDuplicates(s.order)
    ensures RowsShow(t.rows, TabsOf(s.documents, s.order)) && t.metadataSnapshotRevision == t.metadataRevision
    ensures forall id :: id in t.rows ==> RowRecovers(t, s, id, limits)
  {
    hide TotalBytes, MetadataFits, LedgerFits, LedgerBehind, NoDuplicates, Labelled, RowRecovers, RevisionLed,
         LedgerRows, NotAhead, ViewFits, RowsShow, DocumentsFit;
  }

  /** Rows that need no replay are the room's current rows. */
  lemma SettledRows(t: Tables, s: State, limits: Limits)
    requires Valid(s, limits) && Recovers(t, s, limits) && Settled(t)
    ensures t.rows == RowsOf(ListedDocuments(s.documents, s.order)) && t.metadataSnapshotRevision == t.metadataRevision
  {
    hide *;
    SettledTabs(t, s, limits);
    ListedRows(s.documents, s.order);
    var rows := RowsOf(ListedDocuments(s.documents, s.order));
    ShownKeys(t.rows, s.documents, s.order);
    forall id | id in t.rows
      ensures t.rows[id] == rows[id]
    {
      OwnFits(s, id, limits);
      SettledRowAt(t, s, id, limits);
    }
  }

  lemma ShownKeys(rows: map<Id, Row>, documents: map<Id, Document>, order: seq<Id>)
    requires Elements(order) == documents.Keys && RowsShow(rows, TabsOf(documents, order))
    ensures rows.Keys == documents.Keys
  {
    assert Ids(TabsOf(documents, order)) == order;
  }

  lemma SettledRowAt(t: Tables, s: State, id: Id, limits: Limits)
    requires Elements(s.order) == s.documents.Keys && RowsShow(t.rows, TabsOf(s.documents, s.order)) && Settled(t)
    requires id in t.rows && id in s.documents && DocumentFits(s.documents, s.trails, limits, id)
    requires RowRecovers(t, s, id, limits) && NoDuplicates(s.order)
    ensures
      var rows := RowsOf(ListedDocuments(s.documents, s.order));
      id in rows && t.rows[id] == rows[id]
  {
    hide RowRecovers, DocumentFits, NoDuplicates, RowsOf, ListedDocuments;
    ListedRows(s.documents, s.order);
    assert id in Elements(s.order);
    var i, view := IndexIn(s.order, id), TabsOf(s.documents, s.order);
    assert RowShows(t.rows, view[i], i);
    SettledRow(t, s, id, i, limits);
  }

  lemma OwnFits(s: State, id: Id, limits: Limits)
    requires Valid(s, limits) && id in s.documents
    ensures DocumentFits(s.documents, s.trails, limits, id)
  {
    hide TotalBytes, MetadataFits, ViewsFit, LedgerFits, LedgerBehind, NoDuplicates, Labelled, DocumentFits;
  }

  /** The repaired snapshot supersedes the rows it was replayed from. */
  lemma RepairSaves(t: Tables, before: State, s: State, limits: Limits)
    requires Valid(s, limits) && Elements(before.order) <= before.documents.Keys && FreshlyLoaded(s, before, limits)
    requires Recovers(t, before, limits)
    ensures Saveable(t, SnapshotOf(s))
  {
    hide TotalBytes, MetadataFits, ViewsFit, LedgerFits, LedgerBehind, NoDuplicates, Labelled, LedStep, RowsShow,
         RevisionLed, LedgerRows, NotAhead;
    RevisionsNonNegative(s, limits);
    SnapshotPrepared(s, limits);
    var listed := ListedDocuments(s.documents, s.order);
    forall i | 0 <= i < |listed|
      ensures Supersedes(t.rows, listed[i])
    {
      var id := s.order[i];
      assert DocumentLoaded(s.documents[id], before.documents[id], before.trails[id], limits);
      if id in t.rows {
        assert RowRecovers(t, before, id, limits);
      }
    }
  }

  ghost predicate LedgerLoaded(rows: seq<OperationRow>, operations: map<string, Record>, order: seq<string>) {
    && |order| == |rows| && (forall id :: id in order <==> id in operations)
    && forall i :: 0 <= i < |rows| ==>
         order[i] == rows[i].operationId && order[i] in operations && Ok(operations[order[i]]) == RecordFrom(rows[i])
  }

  /** The loaded ledger is tied, and is the ledger whose rows were read. */
  lemma LoadedLedger(
      rows: seq<OperationRow>, operations: map<string, Record>, order: seq<string>, ledger: seq<Record>,
      limits: Limits)
    requires LedgerLoaded(rows, operations, order)
    ensures forall id :: id in operations ==> operations[id].operationId == id
    ensures rows == LedgerRows(ledger) && LedgerFits(ledger, limits) ==> RecordsOf(order, operations) == ledger
  {
    hide ValidOperation, ValidDocumentId, RecordFits;
    forall id | id in operations
      ensures operations[id].operationId == id
    {
      var i := IndexIn(order, id);
      assert Ok(operations[order[i]]) == RecordFrom(rows[i]);
    }
    if rows == LedgerRows(ledger) && LedgerFits(ledger, limits) {
      LedgerReadable(ledger, limits);
    }
  }

  ghost predicate DocumentRestored(d: Document, id: Id, before: State, limits: Limits) {
    id in before.documents && id in before.trails && DocumentLoaded(d, before.documents[id], before.trails[id], limits)
  }

  lemma ReplayRestored(
      store: Store, before: State, documents: map<Id, Document>, order: seq<Id>, loaded: map<Id, Document>,
        policy: Policy)
    requires Valid(before, policy.limits) && order == before.order
    requires Elements(order) == documents.Keys == before.documents.Keys == loaded.Keys
    requires forall id :: id in order ==>
      && Restored(loaded, id, documents[id], policy) && Relived(store.log, loaded, id, before.trails)
      && SameRevision(documents[id], before.documents[id])
    ensures forall id :: id in loaded ==>
      DocumentRestored(loaded[id], id, before, policy.limits) && EditsLogged(store.log, id, loaded[id].history)
  {
    hide Coherent, EditsLogged, MetadataFits, ViewsFit, LedgerFits, Structured;
    forall id | id in loaded
      ensures DocumentRestored(loaded[id], id, before, policy.limits) && EditsLogged(store.log, id, loaded[id].history)
    {
      assert id in Elements(order);
      assert DocumentFits(before.documents, before.trails, policy.limits, id);
      assert Restored(loaded, id, documents[id], policy) && Relived(store.log, loaded, id, before.trails);
    }
  }

  /** The state of a room loaded with these documents, its metadata said to be compacted up to a revision. */
  ghost function LoadedState(before: State, documents: map<Id, Document>, compacted: int): State
    requires Elements(before.order) <= before.documents.Keys
  {
    State(documents, before.order, before.metadataRevision, [], 0, compacted, before.ledger,
      before.trails, before.metadataRevision, [TabsOf(before.documents, before.order)])
  }

  lemma StateIsLoaded(before: State, documents: map<Id, Document>, limits: Limits)
    requires Valid(before, limits) && documents.Keys == before.documents.Keys
    requires forall id :: id in documents ==> DocumentRestored(documents[id], id, before, limits)
    ensures Elements(before.order) <= before.documents.Keys
    ensures
      var s := LoadedState(before, documents, before.metadataRevision);
      FreshlyLoaded(s, before, limits) && s.documents == documents && s.order == before.order
  {
    hide DocumentsFit, MetadataFits, ViewsFit, LedgerFits, LedgerBehind, DocumentLoaded, TotalBytes, NoDuplicates,
         Labelled;
  }

  /** The invariant's metadata history is broken exactly when the compacted mark is not the metadata revision. */
  lemma ValidExactly(before: State, documents: map<Id, Document>, compacted: int, limits: Limits)
    requires Elements(before.order) <= before.documents.Keys
    requires Valid(LoadedState(before, documents, before.metadataRevision), limits)
    ensures Valid(LoadedState(before, documents, compacted), limits) <==> compacted == before.metadataRevision
  {
    hide DocumentsFit, ViewsFit, LedgerFits, LedgerBehind, Structured, MetadataEntryLeads;
  }

  /** Loading restores the invariant but for the compacted mark and, with repaired rows, agreement with the store. */
  lemma LoadedSound(before: State, documents: map<Id, Document>, t: Tables, limits: Limits)
    requires Valid(before, limits) && Recovers(t, before, limits) && documents.Keys == before.documents.Keys
    requires forall id :: id in documents ==>
      DocumentRestored(documents[id], id, before, limits) && EditsLogged(t.log, id, documents[id].history)
    ensures
      var s := LoadedState(before, documents, before.metadataRevision);
      var rows := RowsOf(ListedDocuments(documents, before.order));
      && Valid(s, limits) && Saveable(t, SnapshotOf(s))
      && Agrees(t.(metadataSnapshotRevision := t.metadataRevision, rows := rows), s)
      && (Settled(t) ==> t.rows == rows && t.metadataSnapshotRevision == t.metadataRevision)
  {
    hide *;
    StateIsLoaded(before, documents, limits);
    var s := LoadedState(before, documents, before.metadataRevision);
    LoadedValid(before, s, limits);
    var rows := RowsOf(ListedDocuments(documents, before.order));
    LoadedAgrees(before, s, t, t.(metadataSnapshotRevision := t.metadataRevision, rows := rows), limits);
    RepairSaves(t, before, s, limits);
    if Settled(t) {
      SettledRows(t, before, limits);
    }
  }

  // ----- Loading -----

  /** The tab list as the store has it, replayed if its snapshot is behind. */
  method LoadTabs(policy: Policy, store: Store, ghost before: State)
      returns (r: Result<(map<Id, Document>, seq<Id>)>, revision: int)
    ensures r.Ok? ==> NoDuplicates(r.value.1) && forall id :: id in r.value.0 ==> Unreplayed(r.value.0[id])
    ensures Valid(before, policy.limits) && Recovers(store.Contents(), before, policy.limits) ==>
      r.Ok? && revision == store.metadataRevision && Stage(store.Contents(), before, r.value.0, r.value.1, revision)
  {
    hide Valid, Recovers, ListsRows, Loadable, Unreplayed, Stage, ReplayedStructure, ChangesSince, Reaches,
         NoDuplicates;
    ghost var t := store.Contents();
    ghost var recovers := Valid(before, policy.limits) && Recovers(t, before, policy.limits);
    r, revision := Err, store.metadataRevision;
    var listed := OrderedRows(store.rows);
    if recovers {
      RowsLoadable(t, before, listed, policy.limits);
    }
    ListsDistinct(listed, store.rows);
    var ok, documents, order := ListDocuments(listed, policy.limits);
    if !ok {
      return;
    }
    UnreplayedDocuments(listed, documents, order, policy.limits);
    if recovers {
      RowsAreStage(t, before, listed, documents, order, policy.limits);
      RevisionsOrdered(t, before, policy.limits);
    }
    if store.metadataRevision > store.metadataSnapshotRevision {
      if recovers {
        MetadataLogReaches(t, before, policy.limits);
      }
      var rows := store.LoadChangesSince(MetadataStream, store.metadataSnapshotRevision);
      if rows.Err? {
        return;
      }
      var structure := ReplayMetadata(documents, order, rows.value, policy.limits.maxTabs);
      if recovers {
        TabsReplayed(t, before, documents, order, rows.value, policy.limits);
      }
      if structure.Err? {
        return;
      }
      StructureUnreplayed(documents, order, rows.value, policy.limits.maxTabs);
      documents, order := structure.value.0, structure.value.1;
      var repeats := exists i, j :: 0 <= i < j < |order| && order[i] == order[j];
      if repeats {
        if recovers {
          StageDistinct(t, before, documents, order, store.metadataRevision);
        }
        return;
      }
      DistinctOrder(order);
      if |rows.value| > 0 {
        revision := rows.value[|rows.value| - 1].revision;
      }
    }
    r := Ok((documents, order));
  }

  lemma ListsDistinct(listed: seq<Listed>, rows: map<Id, Row>)
    requires ListsRows(listed, rows)
    ensures Distinct(listed)
  {
  }

  lemma DistinctOrder(order: seq<Id>)
    requires forall i, j :: 0 <= i < j < |order| ==> order[i] != order[j]
    ensures NoDuplicates(order)
  {
  }

  lemma StageDistinct(t: Tables, s: State, documents: map<Id, Document>, order: seq<Id>, revision: int)
    requires Stage(t, s, documents, order, revision)
    ensures forall i, j :: 0 <= i < j < |order| ==> order[i] != order[j]
  {
  }

  lemma RevisionsOrdered(t: Tables, s: State, limits: Limits)
    requires Recovers(t, s, limits) && Valid(s, limits)
    ensures 0 <= t.metadataSnapshotRevision <= t.metadataRevision
  {
    hide RowRecovers, RowsShow, RevisionLed, NotAhead, LedgerRows, Structured, DocumentsFit, ViewsFit, LedgerFits,
         LedgerBehind;
  }

  lemma TabsReplayed(
      t: Tables, s: State, documents: map<Id, Document>, order: seq<Id>, rows: seq<ChangeRow>, limits: Limits)
    requires Valid(s, limits) && Recovers(t, s, limits) && Stage(t, s, documents, order, t.metadataSnapshotRevision)
    requires ChangesSince(t.log, MetadataStream, t.metadataSnapshotRevision, rows)
    requires t.metadataSnapshotRevision < t.metadataRevision
    ensures rows != [] && rows[|rows| - 1].revision == t.metadataRevision
    ensures
      var r := ReplayedStructure(documents, order, rows, limits.maxTabs);
      r.Ok? && Stage(t, s, r.value.0, r.value.1, t.metadataRevision)
  {
    hide Recovers, Stage, ChangesSince, DocumentsFit, MetadataFits, LedgerFits, LedgerBehind, NoDuplicates, TotalBytes;
    AllMetadataRead(t, s, rows, limits);
    assert rows[..|rows|] == rows;
    StructureReplays(t, s, documents, order, rows, |rows|, limits);
  }

  /** Every document and the tab list as the store has them, replayed where they are behind. */
  method LoadAll(policy: Policy, store: Store, ghost before: State)
      returns (r: Result<(map<Id, Document>, seq<Id>)>, revision: int)
    ensures r.Ok? ==> Elements(r.value.1) <= r.value.0.Keys
    ensures r.Ok? ==> forall id :: id in r.value.1 ==>
      Coherent(r.value.0[id]) && Bounded(r.value.0[id], policy.limits.maxHistoryRows, policy.limits.maxHistoryBytes)
    ensures Valid(before, policy.limits) && Recovers(store.Contents(), before, policy.limits) ==>
      && r.Ok? && revision == store.metadataRevision
      && r.value.1 == before.order && r.value.0.Keys == before.documents.Keys
      && forall id :: id in r.value.0 ==>
           && DocumentRestored(r.value.0[id], id, before, policy.limits)
           && EditsLogged(store.log, id, r.value.0[id].history)
  {
    hide Valid, Recovers, Stage, Unreplayed, CanReplay, Relived, Coherent, EditsLogged, DocumentLoaded, SameRevision;
    ghost var recovers := Valid(before, policy.limits) && Recovers(store.Contents(), before, policy.limits);
    var tabs;
    tabs, revision := LoadTabs(policy, store, before);
    if tabs.Err? {
      return Err, revision;
    }
    var documents, order := tabs.value.0, tabs.value.1;
    if recovers {
      LastStage(store, store.Contents(), before, documents, order, policy.limits);
    }
    var loaded := ReplayDocuments(store, documents, order, policy, before.trails);
    if loaded.Err? {
      return Err, revision;
    }
    r := Ok((loaded.value, order));
    if recovers {
      ReplayedKeys(before, documents, order, policy.limits);
      ReplayRestored(store, before, documents, order, loaded.value, policy);
    }
  }

  lemma ReplayedKeys(before: State, documents: map<Id, Document>, order: seq<Id>, limits: Limits)
    requires Valid(before, limits) && order == before.order && documents.Keys == before.documents.Keys
    ensures Elements(order) == documents.Keys
  {
    hide DocumentsFit, MetadataFits, ViewsFit, LedgerFits, LedgerBehind, TotalBytes, Labelled, NoDuplicates;
  }

  /** The rows say whether something has to be replayed. */
  method IsSettled(store: Store) returns (settled: bool)
    ensures settled == Settled(store.Contents())
  {
    settled := store.metadataRevision <= store.metadataSnapshotRevision
      && forall id :: id in store.rows ==> store.rows[id].currentRevision <= store.rows[id].snapshotRevision;
  }

  /** The room has the live texts, names, order, revisions and ledger, and no metadata history since `compacted`. */
  ghost predicate LoadedAs(room: Room, before: State, compacted: int)
    requires room.LedgerTied()
    reads room
  {
    && room.order == before.order && room.metadataRevision == before.metadataRevision && room.Ledger() == before.ledger
    && room.documents.Keys == before.documents.Keys
    && (forall id :: id in before.documents ==> SameText(room.documents[id], before.documents[id]))
    && room.metadataHistory == [] && room.metadataCompactedRevision == compacted
    && room.viewStart == room.metadataRevision
  }

  /**
    Loads a room. From any tables whose rows, of documents and of the tab list,
    are at revisions that their logs lead on from, the loaded room has the live
    room's texts, names, order, revisions and ledger and agrees with the store
    it repaired; only a repair that cannot be saved makes the load fail. It
    satisfies the invariant if and only if no tab change had to be replayed:
    otherwise only its compacted mark, which stays behind, breaks it. Whatever
    the tables, every document of a loaded room has a coherent, bounded history.
  */
  method LoadRoom(policy: Policy, store: Store, available: bool, ghost before: State) returns (r: Result<Room>)
    modifies store
    ensures r.Ok? ==> fresh(r.value) && r.value.policy == policy && r.value.store == store && r.value.LedgerTied()
    ensures r.Ok? ==> forall id :: id in r.value.order ==>
      && id in r.value.documents && Coherent(r.value.documents[id])
      && Bounded(r.value.documents[id], policy.limits.maxHistoryRows, policy.limits.maxHistoryBytes)
    ensures Valid(before, policy.limits) && old(Recovers(store.Contents(), before, policy.limits)) ==>
      && (r.Ok? <==> available || old(Settled(store.Contents())))
      && (r.Err? ==> store.Contents() == old(store.Contents()))
      && (r.Ok? ==>
            && LoadedAs(r.value, before, old(store.metadataSnapshotRevision))
            && Valid(r.value.Current().(metadataCompacted := r.value.metadataRevision), policy.limits)
            && Agrees(store.Contents(), r.value.Current())
            && (r.value.Sound() <==> old(store.metadataSnapshotRevision == store.metadataRevision)))
  {
    hide Valid, Recovers, Coherent, EditsLogged, Agrees, ListedDocuments, RowsOf, Saveable, Readable, RecordFrom,
         Settled, TabsOf, DocumentRestored;
    ghost var t := store.Contents();
    ghost var recovers := Valid(before, policy.limits) && Recovers(t, before, policy.limits);
    var loaded, revision := LoadAll(policy, store, before);
    if loaded.Err? {
      return Err;
    }
    var documents, order := loaded.value.0, loaded.value.1;
    if recovers {
      LoadedSound(before, documents, t, policy.limits);
      RecoveredRevision(t, before, policy.limits);
    }
    var compacted := store.metadataSnapshotRevision;
    var settled := IsSettled(store);
    if !settled {
      var listed := ListRows(documents, order);
      var saved := store.SaveSnapshot(Snapshot(revision, revision, listed), available);
      if !saved {
        return Err;
      }
    }
    if recovers {
      ReadableLedger(before, policy.limits);
    }
    var ok, operations, operationOrder := LoadOperations(store.operations);
    if !ok {
      return Err;
    }
    LoadedLedger(store.operations, operations, operationOrder, before.ledger, policy.limits);
    var room := new Room(policy, store, documents, order, revision, compacted, operations, operationOrder,
      before.trails, if recovers then TabsOf(before.documents, before.order) else []);
    r := Ok(room);
    if recovers {
      RestoredTexts(before, documents, policy.limits);
      assert room.Current() == LoadedState(before, documents, compacted);
      assert room.Current().(metadataCompacted := room.metadataRevision) ==
        LoadedState(before, documents, before.metadataRevision);
      ValidExactly(before, documents, compacted, policy.limits);
      AgreesAnyMark(store.Contents(), before, documents, compacted);
    }
  }

  lemma RecoveredRevision(t: Tables, before: State, limits: Limits)
    requires Recovers(t, before, limits)
    ensures t.metadataRevision == before.metadataRevision && t.operations == LedgerRows(before.ledger)
  {
    hide RowRecovers, RowsShow, RevisionLed, NotAhead, LedgerRows;
  }

  /** Agreement with the store does not look at the compacted mark. */
  lemma AgreesAnyMark(t: Tables, before: State, documents: map<Id, Document>, compacted: int)
    requires Elements(before.order) <= before.documents.Keys && Elements(before.order) <= documents.Keys
    requires Agrees(t, LoadedState(before, documents, before.metadataRevision))
    ensures Agrees(t, LoadedState(before, documents, compacted))
  {
    hide EditsLogged, ListedDocuments, RowsOf, LedgerRows, TabsOf;
    var s, marked := LoadedState(before, documents, before.metadataRevision), LoadedState(before, documents, compacted);
    forall key | key in t.log
      ensures NotAhead(key, marked)
    {
      assert NotAhead(key, s);
    }
  }

  lemma ReadableLedger(before: State, limits: Limits)
    requires Valid(before, limits)
    ensures LedgerFits(before.ledger, limits) && Readable(LedgerRows(before.ledger))
    ensures Elements(before.order) <= before.documents.Keys
  {
    hide RecordFrom, RecordFits, RecordBehind;
    LedgerReadable(before.ledger, limits);
  }

  lemma RestoredTexts(before: State, documents: map<Id, Document>, limits: Limits)
    requires forall id :: id in documents ==> DocumentRestored(documents[id], id, before, limits)
    ensures forall id :: id in documents ==> id in before.documents && SameText(documents[id], before.documents[id])
  {
    hide Coherent, TrailFits;
  }
}
