/**
  What the store keeps whatever it is asked to write: its rows stay ones that a
  room can be loaded from, and no revision and no remembered operation is
  written twice.
*/
module StoreSafety {
  import opened Validation
  import opened Authority
  import opened Stores

  /** A row with labels that are accepted and a snapshot that is not ahead of its document. */
  ghost predicate RowFits(id: Id, row: Row) {
    && ValidDocumentId(id) && ValidTabName(row.name) && ValidLanguage(row.language)
    && 0 <= row.snapshotRevision <= row.currentRevision
  }

  ghost predicate OnceEach(operations: seq<OperationRow>) {
    forall i, j :: 0 <= i < j < |operations| ==> operations[i].operationId != operations[j].operationId
  }

  ghost predicate OperationFits(operation: OperationRow) {
    && Trimmed(operation.operationId) && Trimmed(operation.clientId)
    && operation.baseRevision >= 0 && operation.revision > 0
  }

  ghost predicate TablesFit(t: Tables) {
    && 0 <= t.metadataSnapshotRevision <= t.metadataRevision
    && t.rows != map[] && (forall id :: id in t.rows ==> RowFits(id, t.rows[id]))
    && OnceEach(t.operations)
    && (forall i :: 0 <= i < |t.operations| ==> OperationFits(t.operations[i]))
    && forall key :: key in t.log ==> key.1 > 0 && (key.0.MetadataStream? ==> key.1 <= t.metadataRevision)
  }

  lemma PreparedRows(snapshot: Snapshot)
    requires Prepared(snapshot)
    ensures RowsOf(snapshot.documents) != map[]
    ensures forall id :: id in RowsOf(snapshot.documents) ==> RowFits(id, RowsOf(snapshot.documents)[id])
  {
    hide ValidDocumentId, ValidTabName, ValidLanguage;
    RowOfListed(snapshot.documents, 0);
    forall id | id in RowsOf(snapshot.documents)
      ensures RowFits(id, RowsOf(snapshot.documents)[id])
    {
      RowIsListed(snapshot.documents, id);
      var i :| 0 <= i < |snapshot.documents| && snapshot.documents[i].id == id
               && snapshot.documents[i].row == RowsOf(snapshot.documents)[id];
    }
  }

  lemma OperationsKept(operations: seq<OperationRow>, operation: OperationRow, retain: nat)
    requires OnceEach(operations) && !Recorded(operations, operation.operationId) && OperationFits(operation)
    requires forall i :: 0 <= i < |operations| ==> OperationFits(operations[i])
    ensures OnceEach(LastRows(operations + [operation], retain))
    ensures forall i :: 0 <= i < |LastRows(operations + [operation], retain)| ==>
      OperationFits(LastRows(operations + [operation], retain)[i])
  {
    hide OperationFits;
    var all := operations + [operation];
    var kept := LastRows(all, retain);
    forall i | 0 <= i < |kept|
      ensures OperationFits(kept[i])
    {
      var k := |all| - |kept| + i;
      assert kept[i] == all[k] && (k < |operations| ==> all[k] == operations[k]);
    }
    forall i, j | 0 <= i < j < |kept|
      ensures kept[i].operationId != kept[j].operationId
    {
      var k, m := |all| - |kept| + i, |all| - |kept| + j;
      assert kept[i] == all[k] == operations[k] && kept[j] == all[m];
      assert m < |operations| ==> all[m] == operations[m];
    }
  }

  /** No transaction breaks the tables, whatever snapshot, change and operation it is given. */
  lemma CommitKeepsTables(t: Tables, commit: Commit)
    requires TablesFit(t) && Acceptable(t, commit)
    ensures TablesFit(Committed(t, commit))
  {
    hide RowFits, RowsOf, Prepared, ValidDocumentId, Recorded, OnceEach, OperationFits, LastRows;
    PreparedRevisions(commit.snapshot);
    PreparedRows(commit.snapshot);
    RecordedFits(commit);
    OperationsKept(t.operations, commit.operation, commit.retain);
  }

  lemma PreparedRevisions(snapshot: Snapshot)
    requires Prepared(snapshot)
    ensures 0 <= snapshot.metadataSnapshotRevision <= snapshot.metadataRevision
  {
  }

  lemma RecordedFits(commit: Commit)
    requires Consistent(commit)
    ensures OperationFits(commit.operation)
  {
    hide ValidDocumentId;
  }

  lemma SaveKeepsTables(t: Tables, snapshot: Snapshot)
    requires TablesFit(t) && Saveable(t, snapshot)
    ensures TablesFit(t.(metadataRevision := snapshot.metadataRevision,
      metadataSnapshotRevision := snapshot.metadataSnapshotRevision, rows := RowsOf(snapshot.documents)))
  {
    hide RowFits, RowsOf, ValidRow, ValidDocumentId, OnceEach, OperationFits, Distinct;
    PreparedRows(snapshot);
  }

  /** A snapshot that is saved takes no document and no tab list to another revision. */
  lemma SaveMovesNothing(t: Tables, snapshot: Snapshot, id: Id)
    requires Saveable(t, snapshot)
    ensures snapshot.metadataRevision == t.metadataRevision
    ensures snapshot.metadataSnapshotRevision >= t.metadataSnapshotRevision
    ensures id in t.rows && id in RowsOf(snapshot.documents) ==>
      && RowsOf(snapshot.documents)[id].currentRevision == t.rows[id].currentRevision
      && RowsOf(snapshot.documents)[id].snapshotRevision >= t.rows[id].snapshotRevision
  {
    hide ValidRow, ValidDocumentId, RowsOf, Distinct;
    if id in t.rows && id in RowsOf(snapshot.documents) {
      RowIsListed(snapshot.documents, id);
      var i :| 0 <= i < |snapshot.documents| && snapshot.documents[i].id == id
               && snapshot.documents[i].row == RowsOf(snapshot.documents)[id];
      assert Supersedes(t.rows, snapshot.documents[i]);
    }
  }

  lemma {:induction false} AppendsKeepTables(t: Tables, changes: seq<StreamChange>)
    requires TablesFit(t) && AllAppended(t, changes).Ok?
    ensures TablesFit(AllAppended(t, changes).value)
    decreases |changes|
  {
    hide ValidDocumentId, ValidTabName, ValidLanguage, OnceEach, OperationFits;
    if changes != [] {
      AppendsKeepTables(t, changes[..|changes| - 1]);
    }
  }

  /** Once a change is committed, no other commit of that revision, and none of that operation, is accepted. */
  lemma CommittedOnce(t: Tables, commit: Commit, other: Commit)
    requires Acceptable(t, commit)
    requires
      || (other.stream == commit.stream && other.revision == commit.revision)
      || other.operation.operationId == commit.operation.operationId
    ensures !Acceptable(Committed(t, commit), other)
  {
    hide ValidDocumentId, Prepared, RowsOf;
    var all, after := t.operations + [commit.operation], Committed(t, commit);
    assert after.operations[|after.operations| - 1] == all[|all| - 1] == commit.operation;
    if commit.stream.DocumentStream? && other.stream == commit.stream {
      CommittedRow(t, commit);
    }
  }

  lemma CommittedRow(t: Tables, commit: Commit)
    requires Acceptable(t, commit) && commit.stream.DocumentStream?
    ensures commit.stream.id in RowsOf(commit.snapshot.documents)
    ensures RowsOf(commit.snapshot.documents)[commit.stream.id].currentRevision == commit.revision
  {
    hide ValidRow, ValidDocumentId;
    var row :| Lists(commit.snapshot.documents, commit.stream.id, row) && row.currentRevision == commit.revision;
    var i :| 0 <= i < |commit.snapshot.documents| && commit.snapshot.documents[i].id == commit.stream.id
             && commit.snapshot.documents[i].row == row;
    RowOfListed(commit.snapshot.documents, i);
  }

  /**
    What a commit writes: its change, without the ones it compacts, its
    operation, without the oldest beyond those to be retained, and rows: those of
    the snapshot, or of an edit just the edited document's.
  */
  lemma CommitWrites(t: Tables, commit: Commit)
    requires Acceptable(t, commit)
    ensures
      var after, own := Committed(t, commit), (commit.stream, commit.revision);
      && (forall key :: key in after.log <==>
            && (key in t.log || key == own)
            && !(commit.compactThrough > 0 && key.0 == commit.stream && key.1 <= commit.compactThrough))
      && (forall key :: key in after.log ==> after.log[key] == if key == own then commit.payload else t.log[key])
      && (|t.operations| < commit.retain ==> after.operations == t.operations + [commit.operation])
      && (|t.operations| >= commit.retain ==>
            after.operations == t.operations[|t.operations| - commit.retain + 1..] + [commit.operation])
      && (commit.stream.MetadataStream? ==>
            && after.metadataRevision == after.metadataSnapshotRevision == commit.revision == t.metadataRevision + 1
            && after.rows == RowsOf(commit.snapshot.documents))
      && (commit.stream.DocumentStream? ==>
            && after.metadataRevision == t.metadataRevision
            && after.metadataSnapshotRevision == t.metadataSnapshotRevision
            && after.rows.Keys == t.rows.Keys
            && commit.stream.id in t.rows
            && after.rows[commit.stream.id].currentRevision == commit.revision
               == t.rows[commit.stream.id].currentRevision + 1
            && forall id :: id in t.rows && id != commit.stream.id ==> after.rows[id] == t.rows[id])
  {
    hide ValidDocumentId, Prepared, RowsOf, LastRows;
    LastRowsOf(t.operations, commit.operation, commit.retain);
    if commit.stream.DocumentStream? {
      CommittedRow(t, commit);
    }
  }

  lemma LastRowsOf(operations: seq<OperationRow>, operation: OperationRow, retain: nat)
    requires retain >= 1
    ensures LastRows(operations + [operation], retain) ==
      (if |operations| < retain then operations else operations[|operations| - retain + 1..]) + [operation]
  {
  }
}
