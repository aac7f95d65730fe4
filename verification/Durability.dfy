/**
  Memory and store agree: after every committed mutation the document rows, the
  metadata revision and the operation ledger of the store are those of the room
  in memory, and the persisted log holds every retained edit.
*/
module Durability {
  import opened Utf16
  import opened ChangeSets
  import opened Surrogates
  import opened Encoding
  import opened Histories
  import opened Sequences
  import opened Validation
  import opened Authority
  import opened Stores

  ghost function ListedDocuments(documents: map<Id, Document>, order: seq<Id>): (r: seq<Listed>)
    requires Elements(order) <= documents.Keys
    ensures |r| == |order|
  {
    assert forall id :: id in order ==> id in Elements(order);
    seq(|order|, i requires 0 <= i < |order| => Listed(order[i], RowFor(documents[order[i]], i)))
  }

  function RowFor(d: Document, position: int): Row {
    Row(d.name, d.language, d.content, position, d.revision, d.revision)
  }

  ghost function EncodedParts(changes: ChangeSet): (r: seq<Json>)
    ensures |r| == |changes|
  {
    seq(|changes|, i requires 0 <= i < |changes| => EncodedSection(changes[i]))
  }

  ghost function RowOf(record: Record): OperationRow {
    match record.answer
    case EditAnswer(id, base, revision, changes) =>
      OperationRow(record.operationId, record.clientId, record.request, DocumentStream(id), base, revision,
        EditPayload(EncodedParts(changes)))
    case StructureAnswer(base, revision, change) =>
      OperationRow(record.operationId, record.clientId, record.request, MetadataStream, base, revision,
        StructurePayload(change))
  }

  ghost function LedgerRows(ledger: seq<Record>): (r: seq<OperationRow>)
    ensures |r| == |ledger|
  {
    seq(|ledger|, i requires 0 <= i < |ledger| => RowOf(ledger[i]))
  }

  /** The log holds every retained edit of a document. */
  ghost predicate EditsLogged(log: map<(ChangeStream, int), Payload>, id: Id, history: seq<Entry>) {
    forall i :: 0 <= i < |history| ==> EditLogged(log, id, history[i])
  }

  ghost predicate EditLogged(log: map<(ChangeStream, int), Payload>, id: Id, entry: Entry) {
    var key := (DocumentStream(id), entry.revision);
    key in log && log[key] == EditPayload(EncodedParts(entry.changes))
  }

  /** No persisted change is ahead of its stream, and document streams belong to documents the room has known. */
  ghost predicate NotAhead(key: (ChangeStream, int), s: State) {
    match key.0
    case MetadataStream => key.1 <= s.metadataRevision
    case DocumentStream(id) => id in s.trails && (id in s.documents ==> key.1 <= s.documents[id].revision)
  }

  ghost predicate LogFits(log: map<(ChangeStream, int), Payload>, s: State) {
    && (forall id :: id in s.documents ==> EditsLogged(log, id, s.documents[id].history))
    && (forall key :: key in log ==> NotAhead(key, s))
  }

  ghost predicate Agrees(t: Tables, s: State)
    requires Elements(s.order) <= s.documents.Keys
  {
    && t.metadataRevision == t.metadataSnapshotRevision == s.metadataRevision
    && t.rows == RowsOf(ListedDocuments(s.documents, s.order))
    && t.operations == LedgerRows(s.ledger)
    && LogFits(t.log, s)
  }

  // ----- A new room -----

  ghost predicate IsNew(d: Document) {
    d.revision == 0 && d.history == [] && d.historyBytes == 0 && d.compacted == 0
  }

  ghost function NewRoom(documents: map<Id, Document>, order: seq<Id>): State
    requires Elements(order) <= documents.Keys
  {
    State(documents, order, 0, [], 0, 0, [], map id | id in documents :: Trail(0, [documents[id].content]), 0,
      [TabsOf(documents, order)])
  }

  /**
    A room created with some first documents satisfies the invariant, and the
    tables it is created with agree with it.
  */
  lemma NewRoomIsValid(documents: map<Id, Document>, order: seq<Id>, limits: Limits)
    requires limits.Positive() && Structured(documents, order, limits)
    requires forall id :: id in documents ==> IsNew(documents[id])
    ensures Valid(NewRoom(documents, order), limits)
    ensures Agrees(Tables(0, 0, RowsOf(ListedDocuments(documents, order)), map[], []), NewRoom(documents, order))
  {
    hide TotalBytes, Labelled, RowsOf, ListedDocuments;
    var s := NewRoom(documents, order);
    forall id | id in documents
      ensures DocumentFits(s.documents, s.trails, limits, id)
    {
      assert IsNew(documents[id]) && s.trails[id].At(0) == documents[id].content;
    }
    assert forall id :: id in order ==> id in Elements(order);
    assert Ids(s.views[0]) == order;
  }

  // ----- Commits -----

  ghost function SnapshotOf(s: State): Snapshot
    requires Elements(s.order) <= s.documents.Keys
  {
    Snapshot(s.metadataRevision, s.metadataRevision, ListedDocuments(s.documents, s.order))
  }

  /** The transaction that persists the step from `s` to `next`, whose newest record is `record`. */
  ghost function CommitOf(next: State, record: Record, compactThrough: int, limits: Limits): Commit
    requires Elements(next.order) <= next.documents.Keys
  {
    var row := RowOf(record);
    Commit(SnapshotOf(next), row.stream, row.revision, row.payload, row, compactThrough, limits.LedgerRows())
  }

  lemma ListedRows(documents: map<Id, Document>, order: seq<Id>)
    requires NoDuplicates(order) && Elements(order) == documents.Keys
    ensures Distinct(ListedDocuments(documents, order))
    ensures RowsOf(ListedDocuments(documents, order)).Keys == documents.Keys
    ensures forall i :: 0 <= i < |order| ==>
      && order[i] in documents && order[i] in RowsOf(ListedDocuments(documents, order))
      && RowsOf(ListedDocuments(documents, order))[order[i]] == RowFor(documents[order[i]], i)
  {
    assert forall id :: id in order ==> id in Elements(order);
    var listed := ListedDocuments(documents, order);
    var rows := RowsOf(listed);
    forall i | 0 <= i < |order|
      ensures order[i] in documents && order[i] in rows && rows[order[i]] == RowFor(documents[order[i]], i)
    {
      RowOfListed(listed, i);
    }
    forall id | id in rows
      ensures id in documents
    {
      RowIsListed(listed, id);
    }
    forall id | id in documents
      ensures id in rows
    {
      assert id in Elements(order);
      assert order[IndexIn(order, id)] in rows;
    }
  }

  lemma SnapshotPrepared(s: State, limits: Limits)
    requires Structured(s.documents, s.order, limits) && s.metadataRevision >= 0
    requires forall id :: id in s.documents ==> s.documents[id].revision >= 0
    ensures Prepared(SnapshotOf(s))
  {
    hide TotalBytes, NoDuplicates, ValidDocumentId, ValidTabName, ValidLanguage;
    ListedRows(s.documents, s.order);
    var listed := ListedDocuments(s.documents, s.order);
    forall i | 0 <= i < |listed|
      ensures listed[i].row.position == i && ValidRow(listed[i].id, listed[i].row)
    {
      assert Labelled(s.order[i], s.documents[s.order[i]]);
    }
  }

  /** Both sides forget the same oldest operations. */
  lemma LedgerFollows(ledger: seq<Record>, record: Record, limits: Limits)
    ensures LastRows(LedgerRows(ledger) + [RowOf(record)], limits.LedgerRows())
         == LedgerRows(Remembered(ledger, record, limits))
  {
    assert LedgerRows(ledger) + [RowOf(record)] == LedgerRows(ledger + [record]);
  }

  lemma NotRecorded(ledger: seq<Record>, operationId: string)
    requires operationId !in RecordIds(ledger)
    ensures !Recorded(LedgerRows(ledger), operationId)
  {
    forall i | 0 <= i < |ledger|
      ensures LedgerRows(ledger)[i].operationId != operationId
    {
      assert RecordIds(ledger)[i] in RecordIds(ledger);
    }
  }

  /** The revision through which an edit compacts its stream: none, or all of it. */
  ghost function EditCompaction(d: Document, entry: Entry, content: Text, limits: Limits): int {
    if Bounded(Extended(d, entry, content), limits.maxHistoryRows, limits.maxHistoryBytes) then 0 else d.revision + 1
  }

  ghost function EditCommit(s: State, op: DocumentOperation, changes: ChangeSet, bytes: nat, limits: Limits): Commit
    requires op.documentId in s.documents && op.documentId in s.trails && Elements(s.order) <= s.documents.Keys
    requires OldLen(changes) == |s.documents[op.documentId].content|
  {
    var d := s.documents[op.documentId];
    CommitOf(AcceptEdit(s, op, changes, bytes, limits), EditRecord(op, d, changes),
      EditCompaction(d, EditEntry(op, d, changes, bytes), Stored(changes, d.content), limits), limits)
  }

  /**
    The store's checks hold of any transaction that moves one document to its
    next revision, except that it alone refuses ids with surrounding white space.
  */
  lemma EditAcceptable(t: Tables, s: State, next: State, id: Id, record: Record, through: int, limits: Limits)
    requires Structured(s.documents, s.order, limits) && Structured(next.documents, next.order, limits) && Agrees(t, s)
    requires id in s.documents && next.order == s.order && next.documents == s.documents[id := next.documents[id]]
    requires next.metadataRevision == s.metadataRevision >= 0
    requires forall other :: other in next.documents ==> next.documents[other].revision >= 0
    requires next.documents[id].revision == s.documents[id].revision + 1 > 0
    requires record.answer.EditAnswer? && record.answer.documentId == id && record.answer.baseVersion >= 0
    requires record.answer.revision == next.documents[id].revision && 0 <= through <= record.answer.revision
    requires record.operationId !in RecordIds(s.ledger) && ValidOperation(record.operationId, record.clientId)
    ensures Acceptable(t, CommitOf(next, record, through, limits))
      <==> Trimmed(record.operationId) && Trimmed(record.clientId)
  {
    hide NoDuplicates, TotalBytes, ListedDocuments, ValidDocumentId, ValidTabName, ValidLanguage, ValidOperation,
         Trimmed;
    assert Labelled(id, s.documents[id]);
    var commit := CommitOf(next, record, through, limits);
    SnapshotPrepared(next, limits);
    NotRecorded(s.ledger, record.operationId);
    ListedRows(s.documents, s.order);
    var i := EditListed(t, s, next, id);
    var key := (commit.stream, commit.revision);
    assert key in t.log ==> NotAhead(key, s);
  }

  /** The store's row of the document is the current one, and the transaction lists the next. */
  lemma EditListed(t: Tables, s: State, next: State, id: Id) returns (i: nat)
    requires NoDuplicates(s.order) && Elements(s.order) == s.documents.Keys
    requires Elements(next.order) <= next.documents.Keys && Agrees(t, s)
    requires id in s.documents && next.order == s.order && id in next.documents
    ensures i < |s.order| && s.order[i] == id && id in t.rows && t.rows[id] == RowFor(s.documents[id], i)
    ensures Lists(ListedDocuments(next.documents, next.order), id, RowFor(next.documents[id], i))
  {
    ListedRows(s.documents, s.order);
    assert id in Elements(s.order);
    i := IndexIn(s.order, id);
    assert t.rows[s.order[i]] == RowFor(s.documents[s.order[i]], i);
    var listed := ListedDocuments(next.documents, next.order);
    assert listed[i] == Listed(id, RowFor(next.documents[id], i));
    assert Lists(listed, id, RowFor(next.documents[id], i));
  }

  lemma RevisionsNonNegative(s: State, limits: Limits)
    requires Valid(s, limits)
    ensures s.metadataRevision >= 0
    ensures forall id :: id in s.documents ==> s.documents[id].revision >= 0
  {
    forall id | id in s.documents
      ensures s.documents[id].revision >= 0
    {
      assert DocumentFits(s.documents, s.trails, limits, id);
    }
  }

  /** An edit rewrites one row; that is as good as rewriting all of them. */
  lemma EditRows(rows: map<Id, Row>, s: State, next: State, id: Id)
    requires NoDuplicates(s.order) && Elements(s.order) == s.documents.Keys && id in s.documents && id in next.documents
    requires next.order == s.order && next.documents == s.documents[id := next.documents[id]]
    requires rows == RowsOf(ListedDocuments(s.documents, s.order))
    ensures
      var all := RowsOf(ListedDocuments(next.documents, next.order));
      id in all && rows[id := all[id]] == all
  {
    ListedRows(s.documents, s.order);
    ListedRows(next.documents, next.order);
    var listed := ListedDocuments(next.documents, next.order);
    var all := RowsOf(listed);
    forall other | other in rows && other != id
      ensures rows[other] == all[other]
    {
      assert other in Elements(s.order);
      var i := IndexIn(s.order, other);
      assert rows[s.order[i]] == RowFor(s.documents[s.order[i]], i);
      assert all[s.order[i]] == RowFor(next.documents[s.order[i]], i);
    }
    OneRowSuffices(rows, listed, id);
  }

  lemma EditLog(
      log: map<(ChangeStream, int), Payload>, s: State, next: State, id: Id, entry: Entry, content: Text,
      limits: Limits)
    requires LogFits(log, s) && id in s.documents && id in s.trails && Coherent(s.documents[id])
    requires entry.revision == s.documents[id].revision + 1
    requires next.documents == s.documents[id := NextDocument(s.documents[id], entry, content, limits)]
    requires next.trails.Keys == s.trails.Keys && next.metadataRevision == s.metadataRevision
    ensures
      var written := log[(DocumentStream(id), entry.revision) := EditPayload(EncodedParts(entry.changes))];
      LogFits(Compacted(written, DocumentStream(id), EditCompaction(s.documents[id], entry, content, limits)), next)
  {
    var d := s.documents[id];
    var written := log[(DocumentStream(id), entry.revision) := EditPayload(EncodedParts(entry.changes))];
    var through := EditCompaction(d, entry, content, limits);
    var kept := Compacted(written, DocumentStream(id), through);
    forall other | other in next.documents
      ensures EditsLogged(kept, other, next.documents[other].history)
    {
      assert EditsLogged(log, other, s.documents[other].history);
      var history := next.documents[other].history;
      forall i | 0 <= i < |history|
        ensures EditLogged(kept, other, history[i])
      {
        if other != id || i < |d.history| {
          assert EditLogged(log, other, s.documents[other].history[i]);
          if other == id {
            assert EntryFits(d.history, i, d.compacted, |d.content|);
          }
        }
      }
    }
    forall key | key in kept
      ensures NotAhead(key, next)
    {
      if key in log {
        assert NotAhead(key, s);
      }
    }
  }

  /**
    The edit's transaction finds the store as it expects, so the store accepts
    it if and only if the ids are trimmed.
  */
  lemma EditCommits(t: Tables, s: State, op: DocumentOperation, changes: ChangeSet, bytes: nat, limits: Limits)
    requires Valid(s, limits) && Agrees(t, s)
    requires op.documentId in s.documents && op.documentId in s.trails && op.baseVersion >= 0
    requires op.operationId !in RecordIds(s.ledger) && ValidOperation(op.operationId, op.clientId)
    requires OldLen(changes) == |s.documents[op.documentId].content|
    requires Valid(AcceptEdit(s, op, changes, bytes, limits), limits)
    ensures Acceptable(t, EditCommit(s, op, changes, bytes, limits))
      <==> Trimmed(op.operationId) && Trimmed(op.clientId)
  {
    var id, next := op.documentId, AcceptEdit(s, op, changes, bytes, limits);
    var d := s.documents[id];
    RevisionsNonNegative(s, limits);
    RevisionsNonNegative(next, limits);
    EditAcceptable(t, s, next, id, EditRecord(op, d, changes),
      EditCompaction(d, EditEntry(op, d, changes, bytes), Stored(changes, d.content), limits), limits);
  }

  /** And it leaves memory and store in agreement. */
  lemma EditStaysInAgreement(t: Tables, s: State, op: DocumentOperation, changes: ChangeSet, bytes: nat, limits: Limits)
    requires Structured(s.documents, s.order, limits) && Agrees(t, s)
    requires op.documentId in s.documents && op.documentId in s.trails && Coherent(s.documents[op.documentId])
    requires OldLen(changes) == |s.documents[op.documentId].content|
    requires Structured(AcceptEdit(s, op, changes, bytes, limits).documents, s.order, limits)
    ensures Agrees(Committed(t, EditCommit(s, op, changes, bytes, limits)), AcceptEdit(s, op, changes, bytes, limits))
  {
    hide Agrees, Structured, Coherent, Committed, Stored, OldLen, TotalBytes, CommitOf;
    var id, next := op.documentId, AcceptEdit(s, op, changes, bytes, limits);
    var d := s.documents[id];
    var entry, record := EditEntry(op, d, changes, bytes), EditRecord(op, d, changes);
    EditAgrees(t, s, next, id, entry, Stored(changes, d.content), record, limits);
  }

  lemma EditAgrees(
      t: Tables, s: State, next: State, id: Id, entry: Entry, content: Text, record: Record, limits: Limits)
    requires Structured(s.documents, s.order, limits) && Structured(next.documents, next.order, limits) && Agrees(t, s)
    requires id in s.documents && id in s.trails && Coherent(s.documents[id])
    requires entry.revision == s.documents[id].revision + 1
    requires next.order == s.order
    requires next.documents == s.documents[id := NextDocument(s.documents[id], entry, content, limits)]
    requires next.trails.Keys == s.trails.Keys && next.metadataRevision == s.metadataRevision
    requires record.answer.EditAnswer? && record.answer.documentId == id
    requires record.answer.revision == entry.revision && record.answer.changes == entry.changes
    requires next.ledger == Remembered(s.ledger, record, limits)
    ensures
      var through := EditCompaction(s.documents[id], entry, content, limits);
      Agrees(Committed(t, CommitOf(next, record, through, limits)), next)
  {
    hide Coherent, EditCompaction, Remembered, TotalBytes, Labelled;
    EditRows(t.rows, s, next, id);
    EditLog(t.log, s, next, id, entry, content, limits);
    LedgerFollows(s.ledger, record, limits);
  }

  /**
    An operation id that the room accepts and the store never does: with a
    leading space, every transaction is refused whatever the tables hold.
  */
  lemma PaddedIdNeverCommits(t: Tables, commit: Commit)
    requires commit.operation.operationId == " x" && commit.operation.clientId == "c"
    ensures ValidOperation(commit.operation.operationId, commit.operation.clientId) && !Acceptable(t, commit)
  {
    PaddedIdsDiffer();
  }

  // ----- Metadata commits -----

  ghost predicate MetadataOverflows(s: State, bytes: nat, limits: Limits) {
    |s.metadataHistory| + 1 > limits.maxHistoryRows || s.metadataBytes + bytes > limits.maxHistoryBytes
  }

  ghost function MetadataCommit(
      s: State, op: MetadataOperation, change: MetadataChange, bytes: nat, limits: Limits): Commit
    requires Elements(RestructuredOrder(s.order, change)) <= RestructuredDocuments(s.documents, change).Keys
  {
    CommitOf(AcceptMetadata(s, op, change, bytes, limits), StructureRecord(op, s.metadataRevision, change),
      if MetadataOverflows(s, bytes, limits) then s.metadataRevision + 1 else 0, limits)
  }

  /** The store accepts the transaction of a fitting change if and only if the ids are trimmed. */
  lemma MetadataCommits(t: Tables, s: State, op: MetadataOperation, change: MetadataChange, bytes: nat, limits: Limits)
    requires Valid(s, limits) && Agrees(t, s) && ChangeFits(s, change, limits)
    requires op.operationId !in RecordIds(s.ledger) && ValidOperation(op.operationId, op.clientId)
    requires Elements(RestructuredOrder(s.order, change)) <= RestructuredDocuments(s.documents, change).Keys
    requires Valid(AcceptMetadata(s, op, change, bytes, limits), limits)
    ensures Acceptable(t, MetadataCommit(s, op, change, bytes, limits))
      <==> Trimmed(op.operationId) && Trimmed(op.clientId)
  {
    hide NoDuplicates, TotalBytes, ListedDocuments, ValidOperation, Trimmed, ChangeFits, RestructuredDocuments,
         RestructuredOrder;
    var next, commit := AcceptMetadata(s, op, change, bytes, limits), MetadataCommit(s, op, change, bytes, limits);
    RevisionsNonNegative(s, limits);
    RevisionsNonNegative(next, limits);
    SnapshotPrepared(next, limits);
    NotRecorded(s.ledger, op.operationId);
    var key := (commit.stream, commit.revision);
    assert key in t.log ==> NotAhead(key, s);
  }

  lemma MetadataLog(log: map<(ChangeStream, int), Payload>, s: State, next: State, change: MetadataChange, through: int)
    requires LogFits(log, s) && next.metadataRevision == s.metadataRevision + 1
    requires s.trails.Keys <= next.trails.Keys && s.documents.Keys <= s.trails.Keys
    requires next.documents == RestructuredDocuments(s.documents, change)
    requires change.Created? ==> change.id !in s.trails
    ensures
      var appended := log[(MetadataStream, next.metadataRevision) := StructurePayload(change)];
      LogFits(Compacted(appended, MetadataStream, through), next)
  {
    var written := log[(MetadataStream, next.metadataRevision) := StructurePayload(change)];
    var kept := Compacted(written, MetadataStream, through);
    forall id | id in next.documents
      ensures EditsLogged(kept, id, next.documents[id].history)
    {
      if id in s.documents {
        var history := next.documents[id].history;
        assert EditsLogged(log, id, s.documents[id].history);
        forall i | 0 <= i < |history|
          ensures EditLogged(kept, id, history[i])
        {
          assert EditLogged(log, id, s.documents[id].history[i]);
        }
      }
    }
    forall key | key in kept
      ensures NotAhead(key, next)
    {
      if key in log {
        assert NotAhead(key, s);
      }
    }
  }

  lemma MetadataStaysInAgreement(
      t: Tables, s: State, op: MetadataOperation, change: MetadataChange, bytes: nat, limits: Limits)
    requires Elements(s.order) <= s.documents.Keys && Agrees(t, s)
    requires s.documents.Keys <= s.trails.Keys && (change.Created? ==> change.id !in s.trails)
    requires Elements(RestructuredOrder(s.order, change)) <= RestructuredDocuments(s.documents, change).Keys
    ensures Agrees(Committed(t, MetadataCommit(s, op, change, bytes, limits)),
      AcceptMetadata(s, op, change, bytes, limits))
  {
    var next := AcceptMetadata(s, op, change, bytes, limits);
    var through := if MetadataOverflows(s, bytes, limits) then s.metadataRevision + 1 else 0;
    MetadataLog(t.log, s, next, change, through);
    LedgerFollows(s.ledger, StructureRecord(op, s.metadataRevision, change), limits);
  }
}
