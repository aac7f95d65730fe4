/**
  The durable side of a room: its document rows, the persisted change log and
  the ledger of recent operations, updated by one atomic transaction for each
  accepted mutation.
*/
module Stores {
  import opened Utf16
  import opened ChangeSets
  import opened Encoding
  import opened Validation
  import opened Authority

  datatype Row = Row(name: string, language: string, content: Text, position: int, currentRevision: int,
    snapshotRevision: int)

  datatype ChangeStream = MetadataStream | DocumentStream(id: Id)

  datatype Payload = EditPayload(parts: seq<Json>) | StructurePayload(change: MetadataChange)

  datatype OperationRow = OperationRow(
    operationId: string, clientId: string, request: Request, stream: ChangeStream, baseRevision: int, revision: int,
      payload: Payload)

  /** A document and its row, as a snapshot lists them. */
  datatype Listed = Listed(id: Id, row: Row)

  datatype Snapshot = Snapshot(metadataRevision: int, metadataSnapshotRevision: int, documents: seq<Listed>)

  datatype Commit = Commit(snapshot: Snapshot, stream: ChangeStream, revision: int, payload: Payload,
    operation: OperationRow, compactThrough: int, retain: int)

  datatype Tables = Tables(
    metadataRevision: int, metadataSnapshotRevision: int,
    rows: map<Id, Row>, log: map<(ChangeStream, int), Payload>, operations: seq<OperationRow>)

  predicate Distinct(documents: seq<Listed>) {
    forall i, j :: 0 <= i < j < |documents| ==> documents[i].id != documents[j].id
  }

  /** The rows a snapshot describes. */
  ghost function RowsOf(documents: seq<Listed>): map<Id, Row> {
    if documents == [] then map[]
    else RowsOf(documents[..|documents| - 1])[documents[|documents| - 1].id := documents[|documents| - 1].row]
  }

  /** Each listed document has its own row. */
  lemma {:induction false} RowOfListed(documents: seq<Listed>, i: nat)
    requires Distinct(documents) && i < |documents|
    ensures documents[i].id in RowsOf(documents) && RowsOf(documents)[documents[i].id] == documents[i].row
    decreases |documents|
  {
    var last := |documents| - 1;
    if i < last {
      RowOfListed(documents[..last], i);
      assert documents[i].id != documents[last].id;
    }
  }

  /** And there are no other rows. */
  lemma {:induction false} RowIsListed(documents: seq<Listed>, id: Id)
    requires id in RowsOf(documents)
    ensures Lists(documents, id, RowsOf(documents)[id])
    decreases |documents|
  {
    var last := |documents| - 1;
    if documents[last].id != id {
      RowIsListed(documents[..last], id);
      var i :| 0 <= i < last && documents[..last][i].id == id && documents[..last][i].row == RowsOf(documents)[id];
      assert documents[i] == documents[..last][i];
    } else {
      assert documents[last].row == RowsOf(documents)[id];
    }
  }

  predicate ValidRow(id: Id, row: Row) {
    && 0 <= row.snapshotRevision <= row.currentRevision
    && ValidDocumentId(id) && ValidTabName(row.name) && ValidLanguage(row.language)
  }

  /** What the store demands of a snapshot: valid rows listed by position, each document once. */
  predicate Prepared(snapshot: Snapshot) {
    && 0 <= snapshot.metadataSnapshotRevision <= snapshot.metadataRevision
    && snapshot.documents != []
    && (forall i :: 0 <= i < |snapshot.documents| ==>
          snapshot.documents[i].row.position == i && ValidRow(snapshot.documents[i].id, snapshot.documents[i].row))
    && Distinct(snapshot.documents)
  }

  predicate Consistent(commit: Commit) {
    && commit.revision > 0
    && 0 <= commit.compactThrough <= commit.revision
    && commit.retain >= 1
    && commit.operation.stream == commit.stream
    && commit.operation.revision == commit.revision
    && commit.operation.payload == commit.payload
    && commit.operation.baseRevision >= 0
    && Recordable(commit.operation.operationId, commit.operation.clientId)
    && (commit.stream.DocumentStream? ==> ValidDocumentId(commit.stream.id))
  }

  ghost predicate Recorded(operations: seq<OperationRow>, operationId: string) {
    exists i :: 0 <= i < |operations| && operations[i].operationId == operationId
  }

  /** The listed document a document stream names. */
  ghost predicate Lists(documents: seq<Listed>, id: Id, row: Row) {
    exists i :: 0 <= i < |documents| && documents[i].id == id && documents[i].row == row
  }

  /** Exactly when a transaction finds the tables in the state it expects. */
  ghost predicate Acceptable(t: Tables, commit: Commit) {
    && Prepared(commit.snapshot) && Consistent(commit)
    && !Recorded(t.operations, commit.operation.operationId)
    && (commit.stream, commit.revision) !in t.log
    && match commit.stream
       case DocumentStream(id) =>
         && t.metadataRevision == commit.snapshot.metadataRevision
         && id in t.rows && t.rows[id].currentRevision + 1 == commit.revision
         && exists row ::
              && Lists(commit.snapshot.documents, id, row)
              && row.currentRevision == row.snapshotRevision == commit.revision
       case MetadataStream =>
         && commit.snapshot.metadataRevision == commit.snapshot.metadataSnapshotRevision == commit.revision
         && t.metadataRevision + 1 == commit.revision
  }

  ghost function LastRows(operations: seq<OperationRow>, retain: nat): seq<OperationRow> {
    if |operations| > retain then operations[|operations| - retain..] else operations
  }

  ghost function Compacted(
      log: map<(ChangeStream, int), Payload>, stream: ChangeStream, through: int): map<(ChangeStream, int), Payload> {
    if through > 0 then map key | key in log && !(key.0 == stream && key.1 <= through) :: log[key] else log
  }

  /**
    The tables after a successful transaction: as if every document row were
    rewritten for a metadata change, one row for an edit.
  */
  ghost function Committed(t: Tables, commit: Commit): Tables
    requires commit.retain >= 1
  {
    var rows := RowsOf(commit.snapshot.documents);
    Tables(
      if commit.stream.MetadataStream? then commit.snapshot.metadataRevision else t.metadataRevision,
      if commit.stream.MetadataStream? then commit.snapshot.metadataSnapshotRevision else t.metadataSnapshotRevision,
      if commit.stream.MetadataStream?
        then rows else if commit.stream.id in rows then t.rows[commit.stream.id := rows[commit.stream.id]] else t.rows,
      Compacted(t.log[(commit.stream, commit.revision) := commit.payload], commit.stream, commit.compactThrough),
      LastRows(t.operations + [commit.operation], commit.retain))
  }

  class Store {
    var metadataRevision: int
    var metadataSnapshotRevision: int
    var rows: map<Id, Row>
    var log: map<(ChangeStream, int), Payload>
    var operations: seq<OperationRow>

    ghost function Contents(): Tables
      reads this
    {
      Tables(metadataRevision, metadataSnapshotRevision, rows, log, operations)
    }

    constructor (tables: Tables)
      ensures Contents() == tables
    {
      metadataRevision, metadataSnapshotRevision := tables.metadataRevision, tables.metadataSnapshotRevision;
      rows, log, operations := tables.rows, tables.log, tables.operations;
    }

    /**
      Commits one change, the snapshot it leads to and its ledger record, or
      nothing at all. `available` is false when the database fails on the way.
    */
    method CommitChange(commit: Commit, available: bool) returns (ok: bool)
      modifies this
      ensures ok <==> available && Acceptable(old(Contents()), commit)
      ensures ok ==> Contents() == Committed(old(Contents()), commit)
      ensures !ok ==> Contents() == old(Contents())
    {
      hide Recordable, ValidRow, ValidDocumentId, Recorded, RowsOf;
      if !Prepared(commit.snapshot) || !Consistent(commit) {
        return false;
      }
      if !available {
        return false;
      }
      var recorded := IsRecorded(operations, commit.operation.operationId);
      if recorded || (commit.stream, commit.revision) in log {
        return false;
      }
      var newRows := rows;
      match commit.stream {
        case DocumentStream(id) =>
          var found, row := FindListed(commit.snapshot.documents, id);
          if !found || row.currentRevision != commit.revision || row.snapshotRevision != commit.revision
             || metadataRevision != commit.snapshot.metadataRevision {
            return false;
          }
          if id !in rows || rows[id].currentRevision + 1 != commit.revision {
            return false;
          }
          newRows := newRows[id := row];
        case MetadataStream =>
          if commit.revision != commit.snapshot.metadataRevision
            || commit.snapshot.metadataSnapshotRevision != commit.revision
             || metadataRevision + 1 != commit.revision {
            return false;
          }
          newRows := SyncDocuments(rows, commit.snapshot.documents);
      }
      var newLog := log[(commit.stream, commit.revision) := commit.payload];
      if commit.compactThrough > 0 {
        newLog := map key | key in newLog && !(key.0 == commit.stream && key.1 <= commit.compactThrough) :: newLog[key];
      }
      var newOperations := operations + [commit.operation];
      if |newOperations| > commit.retain {
        newOperations := newOperations[|newOperations| - commit.retain..];
      }
      if commit.stream.MetadataStream? {
        metadataRevision, metadataSnapshotRevision := commit.snapshot.metadataRevision,
          commit.snapshot.metadataSnapshotRevision;
      }
      rows, log, operations := newRows, newLog, newOperations;
      ok := true;
    }

    /** The current revision of a stream that exists. */
    ghost function StreamRevision(stream: ChangeStream): int
      requires stream.DocumentStream? ==> stream.id in rows
      reads this
    {
      if stream.MetadataStream? then metadataRevision else rows[stream.id].currentRevision
    }

    /**
      Reads the changes of a stream after a revision; a gap between that
      revision and the oldest retained change is an error.
    */
    method LoadChangesSince(stream: ChangeStream, since: int) returns (r: Result<seq<ChangeRow>>)
      ensures r.Ok? <==>
        && since >= 0 && (stream.DocumentStream? ==> ValidDocumentId(stream.id) && stream.id in rows)
        && Reaches(log, stream, since, StreamRevision(stream))
      ensures r.Ok? ==> ChangesSince(log, stream, since, r.value)
    {
      if since < 0 || (stream.DocumentStream? && (!ValidDocumentId(stream.id) || stream.id !in rows)) {
        return Err;
      }
      var minimum := (if stream.MetadataStream? then metadataRevision else rows[stream.id].currentRevision) + 1;
      var retained := set key | key in log && key.0 == stream :: key.1;
      assert forall revision :: revision in retained <==> (stream, revision) in log;
      if retained != {} {
        minimum := Lowest(retained);
        assert (stream, minimum) in log;
      }
      if since < minimum - 1 {
        return Err;
      }
      var changes := OrderedChanges(log, stream, since);
      r := Ok(changes);
    }

    /** Appends changes to their streams' logs without touching any snapshot, all of them or none. */
    method AppendChanges(changes: seq<StreamChange>, available: bool) returns (ok: bool)
      modifies this
      ensures ok <==> available && changes != [] && AllAppended(old(Contents()), changes).Ok?
      ensures ok ==> Contents() == AllAppended(old(Contents()), changes).value
      ensures !ok ==> Contents() == old(Contents())
    {
      if changes == [] || !available {
        return false;
      }
      var newLog, newRows, newMetadataRevision := log, rows, metadataRevision;
      for i := 0 to |changes|
        invariant Contents() == old(Contents())
        invariant AllAppended(Contents(), changes[..i])
               == Ok(Contents().(log := newLog, rows := newRows, metadataRevision := newMetadataRevision))
      {
        assert changes[..i + 1][..i] == changes[..i];
        var stream, change := changes[i].stream, changes[i].change;
        if change.revision <= 0
           || (stream.DocumentStream? && (!ValidDocumentId(stream.id) || stream.id !in newRows))
           || change.revision !=
              (if stream.MetadataStream? then newMetadataRevision else newRows[stream.id].currentRevision) + 1
           || (stream, change.revision) in newLog {
          AppendStaysFailed(Contents(), changes, i + 1);
          return false;
        }
        newLog := newLog[(stream, change.revision) := change.payload];
        match stream {
          case MetadataStream => newMetadataRevision := change.revision;
          case DocumentStream(id) => newRows := newRows[id := newRows[id].(currentRevision := change.revision)];
        }
      }
      assert changes[..|changes|] == changes;
      log, rows, metadataRevision := newLog, newRows, newMetadataRevision;
      return true;
    }

    /** Replaces every document row by a snapshot of the same revisions, or nothing. */
    method SaveSnapshot(snapshot: Snapshot, available: bool) returns (ok: bool)
      modifies this
      ensures ok <==> available && Saveable(old(Contents()), snapshot)
      ensures ok ==> Contents() == old(Contents()).(
        metadataRevision := snapshot.metadataRevision, metadataSnapshotRevision := snapshot.metadataSnapshotRevision,
        rows := RowsOf(snapshot.documents))
      ensures !ok ==> Contents() == old(Contents())
    {
      if !Prepared(snapshot) || !available {
        return false;
      }
      if metadataRevision != snapshot.metadataRevision || metadataSnapshotRevision > snapshot.metadataSnapshotRevision {
        return false;
      }
      for i := 0 to |snapshot.documents|
        invariant forall k :: 0 <= k < i ==> Supersedes(rows, snapshot.documents[k])
      {
        if !Supersedes(rows, snapshot.documents[i]) {
          return false;
        }
      }
      metadataSnapshotRevision := snapshot.metadataSnapshotRevision;
      rows := SyncDocuments(rows, snapshot.documents);
      return true;
    }
  }

  datatype StreamChange = StreamChange(stream: ChangeStream, change: ChangeRow)

  /** The change is the next revision of a stream that exists. */
  ghost predicate Appends(t: Tables, stream: ChangeStream, change: ChangeRow) {
    && change.revision > 0 && (stream, change.revision) !in t.log
    && match stream
       case MetadataStream => change.revision == t.metadataRevision + 1
       case DocumentStream(id) =>
         && ValidDocumentId(id) && id in t.rows
         && change.revision == t.rows[id].currentRevision + 1
  }

  /** The stream with one more change, its snapshot as it was. */
  ghost function Appended(t: Tables, stream: ChangeStream, change: ChangeRow): Tables
    requires Appends(t, stream, change)
  {
    var written := t.(log := t.log[(stream, change.revision) := change.payload]);
    match stream
    case MetadataStream => written.(metadataRevision := change.revision)
    case DocumentStream(id) => written.(rows := t.rows[id := t.rows[id].(currentRevision := change.revision)])
  }

  ghost function AllAppended(t: Tables, changes: seq<StreamChange>): Result<Tables> {
    if changes == [] then Ok(t)
    else
      var init, last := AllAppended(t, changes[..|changes| - 1]), changes[|changes| - 1];
      if init.Err? || !Appends(init.value, last.stream, last.change) then Err
      else Ok(Appended(init.value, last.stream, last.change))
  }

  lemma {:induction false} AppendStaysFailed(t: Tables, changes: seq<StreamChange>, k: nat)
    requires k <= |changes| && AllAppended(t, changes[..k]).Err?
    ensures AllAppended(t, changes).Err?
    decreases |changes|
  {
    if k < |changes| {
      assert changes[..|changes| - 1][..k] == changes[..k];
      AppendStaysFailed(t, changes[..|changes| - 1], k);
    } else {
      assert changes[..k] == changes;
    }
  }

  /** A listed row is new, or has its row's current revision and no older snapshot. */
  predicate Supersedes(rows: map<Id, Row>, listed: Listed) {
    listed.id in rows ==>
      rows[listed.id].currentRevision == listed.row.currentRevision
        && rows[listed.id].snapshotRevision <= listed.row.snapshotRevision
  }

  ghost predicate Saveable(t: Tables, snapshot: Snapshot) {
    && Prepared(snapshot)
    && t.metadataRevision == snapshot.metadataRevision
    && t.metadataSnapshotRevision <= snapshot.metadataSnapshotRevision
    && forall i :: 0 <= i < |snapshot.documents| ==> Supersedes(t.rows, snapshot.documents[i])
  }

  method IsRecorded(operations: seq<OperationRow>, operationId: string) returns (found: bool)
    ensures found <==> Recorded(operations, operationId)
  {
    for i := 0 to |operations|
      invariant forall k :: 0 <= k < i ==> operations[k].operationId != operationId
    {
      if operations[i].operationId == operationId {
        return true;
      }
    }
    return false;
  }

  method FindListed(documents: seq<Listed>, id: Id) returns (found: bool, row: Row)
    requires Distinct(documents)
    ensures found ==> Lists(documents, id, row) && id in RowsOf(documents) && RowsOf(documents)[id] == row
    ensures forall other :: Lists(documents, id, other) ==> found && other == row
  {
    for i := 0 to |documents|
      invariant forall k :: 0 <= k < i ==> documents[k].id != id
    {
      if documents[i].id == id {
        RowOfListed(documents, i);
        return true, documents[i].row;
      }
    }
    found, row := false, Row("", "", [], 0, 0, 0);
  }

  // ----- Reading -----

  /** Listed by position, each row once. */
  ghost predicate ListsRows(documents: seq<Listed>, rows: map<Id, Row>) {
    && Distinct(documents)
    && (forall i :: 0 <= i < |documents| ==> documents[i].id in rows && rows[documents[i].id] == documents[i].row)
    && (forall id :: id in rows ==> Lists(documents, id, rows[id]))
    && ByPosition(documents)
  }

  ghost predicate ByPosition(documents: seq<Listed>) {
    forall i, j :: 0 <= i < j < |documents| ==> documents[i].row.position <= documents[j].row.position
  }

  ghost predicate UpTo(documents: seq<Listed>, position: int) {
    forall i :: 0 <= i < |documents| ==> documents[i].row.position <= position
  }

  ghost predicate ReadFrom(documents: seq<Listed>, rows: map<Id, Row>, ids: set<Id>) {
    forall i :: 0 <= i < |documents| ==>
      documents[i].id in ids && documents[i].id in rows && rows[documents[i].id] == documents[i].row
  }

  /** The id of a row with the lowest position. */
  method FirstRow(rows: map<Id, Row>, ids: set<Id>) returns (first: Id)
    requires ids != {} && ids <= rows.Keys
    ensures first in ids && forall id :: id in ids ==> rows[first].position <= rows[id].position
  {
    first :| first in ids;
    var rest := ids - {first};
    while rest != {}
      invariant rest <= ids && first in ids
      invariant forall id :: id in ids && id !in rest ==> rows[first].position <= rows[id].position
      decreases |rest|
    {
      var id :| id in rest;
      if rows[id].position < rows[first].position {
        first := id;
      }
      rest := rest - {id};
    }
  }

  /** Reads the document rows ordered by position. */
  method OrderedRows(rows: map<Id, Row>) returns (documents: seq<Listed>)
    ensures ListsRows(documents, rows)
  {
    documents := [];
    var rest := rows.Keys;
    while rest != {}
      invariant rest <= rows.Keys && Distinct(documents) && ByPosition(documents)
      invariant ReadFrom(documents, rows, rows.Keys - rest)
      invariant forall id :: id in rows && id !in rest ==> Lists(documents, id, rows[id])
      invariant forall id :: id in rest ==> UpTo(documents, rows[id].position)
      decreases |rest|
    {
      hide Distinct, ByPosition, UpTo, ReadFrom, Lists;
      var id := FirstRow(rows, rest);
      ghost var before := documents;
      ReadMore(before, rows, rows.Keys - rest, id);
      documents := documents + [Listed(id, rows[id])];
      ghost var taken := rows.Keys - rest;
      rest := rest - {id};
      assert rows.Keys - rest == taken + {id};
      forall other | other in rows && other !in rest
        ensures Lists(documents, other, rows[other])
      {
        ListsMore(before, Listed(id, rows[id]), other, rows[other]);
      }
    }
  }

  /** One more row, not before the others. */
  lemma ReadMore(documents: seq<Listed>, rows: map<Id, Row>, ids: set<Id>, id: Id)
    requires Distinct(documents) && ByPosition(documents) && ReadFrom(documents, rows, ids)
    requires id in rows && id !in ids && UpTo(documents, rows[id].position)
    ensures Distinct(documents + [Listed(id, rows[id])]) && ByPosition(documents + [Listed(id, rows[id])])
    ensures ReadFrom(documents + [Listed(id, rows[id])], rows, ids + {id})
    ensures forall position :: position >= rows[id].position ==> UpTo(documents + [Listed(id, rows[id])], position)
  {
  }

  lemma ListsMore(documents: seq<Listed>, last: Listed, id: Id, row: Row)
    requires Lists(documents, id, row) || last == Listed(id, row)
    ensures Lists(documents + [last], id, row)
  {
    var all := documents + [last];
    if last == Listed(id, row) {
      assert all[|documents|] == last;
    } else {
      var i :| 0 <= i < |documents| && documents[i].id == id && documents[i].row == row;
      assert all[i] == documents[i];
    }
  }

  datatype ChangeRow = ChangeRow(revision: int, payload: Payload)

  /** Exactly the persisted changes of a stream after a revision, in order. */
  ghost predicate ChangesSince(
      log: map<(ChangeStream, int), Payload>, stream: ChangeStream, since: int, changes: seq<ChangeRow>)
  {
    && AllReadBack(log, stream, since, changes) && Ascending(changes)
    && forall revision :: revision > since && (stream, revision) in log ==> HasRevision(changes, revision)
  }

  ghost predicate AllReadBack(
      log: map<(ChangeStream, int), Payload>, stream: ChangeStream, since: int, changes: seq<ChangeRow>) {
    forall i :: 0 <= i < |changes| ==> ReadBack(log, stream, since, changes[i])
  }

  ghost predicate Ascending(changes: seq<ChangeRow>) {
    forall i, j :: 0 <= i < j < |changes| ==> changes[i].revision < changes[j].revision
  }

  ghost predicate Below(changes: seq<ChangeRow>, revision: int) {
    forall i :: 0 <= i < |changes| ==> changes[i].revision < revision
  }

  ghost predicate ReadBack(
      log: map<(ChangeStream, int), Payload>, stream: ChangeStream, since: int, change: ChangeRow) {
    var key := (stream, change.revision);
    change.revision > since && key in log && log[key] == change.payload
  }

  ghost predicate HasRevision(changes: seq<ChangeRow>, revision: int) {
    exists i :: 0 <= i < |changes| && changes[i].revision == revision
  }

  /** Some retained change of the stream, or the next one, comes right after `since` or earlier. */
  ghost predicate Reaches(log: map<(ChangeStream, int), Payload>, stream: ChangeStream, since: int, current: int) {
    if exists revision :: (stream, revision) in log
    then exists revision :: (stream, revision) in log && revision <= since + 1
    else current <= since
  }

  method AnyOf<T>(s: set<T>) returns (x: T)
    requires s != {}
    ensures x in s
  {
    x :| x in s;
  }

  method Lowest(revisions: set<int>) returns (lowest: int)
    requires revisions != {}
    ensures lowest in revisions && forall r :: r in revisions ==> lowest <= r
  {
    lowest := AnyOf(revisions);
    var rest := revisions - {lowest};
    while rest != {}
      invariant rest <= revisions && lowest in revisions
      invariant forall r :: r in revisions && r !in rest ==> lowest <= r
      decreases |rest|
    {
      var r := AnyOf(rest);
      if r < lowest {
        lowest := r;
      }
      rest := rest - {r};
    }
  }

  method OrderedChanges(
      log: map<(ChangeStream, int), Payload>, stream: ChangeStream, since: int) returns (changes: seq<ChangeRow>)
    ensures ChangesSince(log, stream, since, changes)
  {
    changes := [];
    var rest := set key | key in log && key.0 == stream && key.1 > since :: key.1;
    assert forall revision :: revision in rest <==> revision > since && (stream, revision) in log;
    while rest != {}
      invariant forall r :: r in rest ==> r > since && (stream, r) in log
      invariant AllReadBack(log, stream, since, changes) && Ascending(changes)
      invariant forall r :: r in rest ==> Below(changes, r)
      invariant forall r :: r > since && (stream, r) in log && r !in rest ==> HasRevision(changes, r)
      decreases |rest|
    {
      hide AllReadBack, Ascending, Below, HasRevision;
      var revision := Lowest(rest);
      ghost var before := changes;
      AscendsFurther(log, stream, since, before, ChangeRow(revision, log[(stream, revision)]));
      changes := changes + [ChangeRow(revision, log[(stream, revision)])];
      rest := rest - {revision};
      forall r | r > since && (stream, r) in log && r !in rest
        ensures HasRevision(changes, r)
      {
        HasRevisionFurther(before, ChangeRow(revision, log[(stream, revision)]), r);
      }
    }
  }

  /** One more change, after the others. */
  lemma AscendsFurther(
      log: map<(ChangeStream, int), Payload>, stream: ChangeStream, since: int, changes: seq<ChangeRow>,
      last: ChangeRow)
    requires AllReadBack(log, stream, since, changes) && ReadBack(log, stream, since, last)
    requires Ascending(changes) && Below(changes, last.revision)
    ensures AllReadBack(log, stream, since, changes + [last]) && Ascending(changes + [last])
    ensures forall r :: r > last.revision ==> Below(changes + [last], r)
  {
  }

  lemma HasRevisionFurther(changes: seq<ChangeRow>, last: ChangeRow, revision: int)
    requires HasRevision(changes, revision) || last.revision == revision
    ensures HasRevision(changes + [last], revision)
  {
    var all := changes + [last];
    if last.revision == revision {
      assert all[|changes|] == last;
    } else {
      var i :| 0 <= i < |changes| && changes[i].revision == revision;
      assert all[i] == changes[i];
    }
  }

  /** Updates, inserts and deletes rows until they are exactly the listed ones. */
  method SyncDocuments(rows: map<Id, Row>, documents: seq<Listed>) returns (r: map<Id, Row>)
    ensures r == RowsOf(documents)
  {
    r := rows;
    var existing := rows.Keys;
    for i := 0 to |documents|
      invariant r == rows + RowsOf(documents[..i])
      invariant existing == rows.Keys - RowsOf(documents[..i]).Keys
    {
      assert documents[..i + 1][..i] == documents[..i];
      r := r[documents[i].id := documents[i].row];
      existing := existing - {documents[i].id};
    }
    assert documents[..|documents|] == documents;
    ghost var merged := r;
    r := DeleteRows(r, existing);
    assert merged - existing == RowsOf(documents);
  }

  method DeleteRows(rows: map<Id, Row>, ids: set<Id>) returns (r: map<Id, Row>)
    ensures r == rows - ids
  {
    r := rows;
    var left := ids;
    while left != {}
      invariant left <= ids && r == rows - (ids - left)
      decreases |left|
    {
      var id :| id in left;
      r := r - {id};
      left := left - {id};
    }
  }

  /** Updating one row gives the same rows as rewriting all of them, when the other rows are already current. */
  lemma OneRowSuffices(rows: map<Id, Row>, documents: seq<Listed>, id: Id)
    requires rows.Keys == RowsOf(documents).Keys && id in rows
    requires forall other :: other in rows && other != id ==> rows[other] == RowsOf(documents)[other]
    ensures rows[id := RowsOf(documents)[id]] == RowsOf(documents)
  {
  }
}
