/**
  Loading a room from its store: every document from its snapshot row and the
  persisted changes after it, the ledger from its rows, and a repaired snapshot
  when something had to be replayed.
*/
module Loading {
  import opened Utf16
  import opened ChangeSets
  import opened Surrogates
  import opened Encoding
  import opened Histories
  import opened Replay
  import opened Sequences
  import opened Validation
  import opened Authority
  import opened Stores
  import opened Durability
  import opened Rooms

  // ----- Documents -----

  /** A document as its row has it: the current revision is declared, the text is the snapshot's. */
  function FromRow(row: Row): Document {
    Document(row.name, row.language, row.content, row.currentRevision, [], 0, row.snapshotRevision)
  }

  predicate Loadable(listed: Listed, limits: Limits) {
    ValidRow(listed.id, listed.row) && Utf8Bytes(listed.row.content) <= limits.maxBytes
  }

  method ListDocuments(
      listed: seq<Listed>, limits: Limits) returns (ok: bool, documents: map<Id, Document>, order: seq<Id>)
    requires Distinct(listed)
    ensures ok <==> listed != [] && forall i :: 0 <= i < |listed| ==> Loadable(listed[i], limits)
    ensures ok ==> |order| == |listed| && documents.Keys == Elements(order)
    ensures ok ==> forall i :: 0 <= i < |listed| ==>
      order[i] == listed[i].id && order[i] in documents && documents[order[i]] == FromRow(listed[i].row)
  {
    hide Loadable, FromRow;
    ok, documents, order := false, map[], [];
    if listed == [] {
      return;
    }
    for i := 0 to |listed|
      invariant forall k :: 0 <= k < i ==> Loadable(listed[k], limits)
      invariant |order| == i && documents.Keys == Elements(order)
      invariant forall k :: 0 <= k < i ==>
        order[k] == listed[k].id && order[k] in documents && documents[order[k]] == FromRow(listed[k].row)
    {
      if !Loadable(listed[i], limits) {
        return;
      }
      documents := documents[listed[i].id := FromRow(listed[i].row)];
      order := order + [listed[i].id];
      assert Elements(order) == Elements(order[..i]) + {listed[i].id};
    }
    ok := true;
  }

  // ----- One document's log -----

  /** The log row of a revision persists a change that leads from the text before it to the text after it. */
  ghost predicate LedBy(log: map<(ChangeStream, int), Payload>, id: Id, trail: Trail, revision: int) {
    && trail.Covers(revision - 1) && trail.Covers(revision) && (DocumentStream(id), revision) in log
    && var payload, before, after := log[(DocumentStream(id), revision)], trail.At(revision - 1), trail.At(revision);
       exists changes: ChangeSet :: Persists(payload, changes, before, after)
  }

  /** The `i`-th change after revision `base`. */
  ghost predicate LedStep(log: map<(ChangeStream, int), Payload>, id: Id, trail: Trail, base: int, i: nat) {
    LedBy(log, id, trail, base + 1 + i)
  }

  ghost predicate Persists(payload: Payload, changes: ChangeSet, before: Text, after: Text) {
    payload == EditPayload(EncodedParts(changes)) && StoredStep(changes, before, after)
  }

  ghost function LedChange(
      log: map<(ChangeStream, int), Payload>, id: Id, trail: Trail, revision: int): (changes: ChangeSet)
    requires LedBy(log, id, trail, revision)
    ensures Persists(log[(DocumentStream(id), revision)], changes, trail.At(revision - 1), trail.At(revision))
  {
    var payload, before, after := log[(DocumentStream(id), revision)], trail.At(revision - 1), trail.At(revision);
    var changes: ChangeSet :| Persists(payload, changes, before, after);
    changes
  }

  /** The log leads an unreplayed document from its snapshot to its declared revision, and no further. */
  ghost predicate Leads(log: map<(ChangeStream, int), Payload>, id: Id, trail: Trail, d: Document) {
    && 0 <= trail.start <= d.compacted <= d.revision == trail.start + |trail.texts| - 1
    && d.content == trail.At(d.compacted)
    && (forall i :: 0 <= i < d.revision - d.compacted ==> LedStep(log, id, trail, d.compacted, i))
    && forall revision :: revision > d.revision ==> (DocumentStream(id), revision) !in log
  }

  ghost function LedChanges(
      log: map<(ChangeStream, int), Payload>, id: Id, trail: Trail, d: Document): (r: seq<ChangeSet>)
    requires Leads(log, id, trail, d)
    ensures |r| == d.revision - d.compacted
  {
    seq<ChangeSet>(d.revision - d.compacted, i requires 0 <= i < d.revision - d.compacted =>
      assert LedStep(log, id, trail, d.compacted, i); LedChange(log, id, trail, d.compacted + 1 + i))
  }

  /** A gapless log is read as consecutive revisions. */
  lemma {:induction false} Contiguous(
      log: map<(ChangeStream, int), Payload>, stream: ChangeStream, since: int, target: int, rows: seq<ChangeRow>,
        k: nat)
    requires ChangesSince(log, stream, since, rows) && since <= target
    requires forall revision :: since < revision <= target ==> (stream, revision) in log
    requires forall revision :: revision > target ==> (stream, revision) !in log
    requires k <= |rows|
    ensures forall i :: 0 <= i < k ==> rows[i].revision == since + 1 + i
    decreases k
  {
    if k > 0 {
      Contiguous(log, stream, since, target, rows, k - 1);
      var last := rows[k - 1].revision;
      assert ReadBack(log, stream, since, rows[k - 1]);
      if k > 1 {
        assert rows[k - 2].revision < rows[k - 1].revision;
      }
      if last > since + k {
        var missing := since + k;
        assert last <= target;
        assert HasRevision(rows, missing);
        var j :| 0 <= j < |rows| && rows[j].revision == missing;
        assert j < k - 1;
      }
    }
  }

  lemma AllRead(
      log: map<(ChangeStream, int), Payload>, stream: ChangeStream, since: int, target: int, rows: seq<ChangeRow>)
    requires ChangesSince(log, stream, since, rows) && since <= target
    requires forall revision :: since < revision <= target ==> (stream, revision) in log
    requires forall revision :: revision > target ==> (stream, revision) !in log
    ensures |rows| == target - since && forall i :: 0 <= i < |rows| ==> rows[i].revision == since + 1 + i
  {
    Contiguous(log, stream, since, target, rows, |rows|);
    assert |rows| < target - since ==> HasRevision(rows, since + 1 + |rows|);
    assert |rows| > target - since ==> ReadBack(log, stream, since, rows[target - since]);
  }

  /** The rows of an edit stream as the replay reads them; other payloads do not decode. */
  function Decoded(row: ChangeRow, policy: Policy): LogRow {
    match row.payload
    case EditPayload(parts) =>
      var changes := Parsed(parts);
      LogRow(row.revision, parts, if changes.Ok? then policy.payloadBytes(changes.value) else 0)
    case StructurePayload(_) => LogRow(row.revision, [Object], 0)
  }

  /** Loads one document: from its row alone, or by replaying the changes after its snapshot. */
  method LoadDocument(
      store: Store, id: Id, d: Document, policy: Policy, ghost trail: Trail) returns (r: Result<Document>)
    requires d.history == [] && d.historyBytes == 0 && 0 <= d.compacted <= d.revision
    ensures r.Ok? ==>
      && r.value.revision == d.revision && r.value.name == d.name && r.value.language == d.language
      && Coherent(r.value) && Bounded(r.value, policy.limits.maxHistoryRows, policy.limits.maxHistoryBytes)
    ensures Leads(store.log, id, trail, d) && (d.compacted < d.revision ==> ValidDocumentId(id) && id in store.rows) ==>
      && r.Ok? && r.value.content == trail.At(d.revision)
      && TrailFits(trail, r.value) && EditsLogged(store.log, id, r.value.history)
  {
    ghost var led :=
      Leads(store.log, id, trail, d) && (d.compacted < d.revision ==> ValidDocumentId(id) && id in store.rows);
    if d.revision <= d.compacted {
      return Ok(d);
    }
    var loaded := store.LoadChangesSince(DocumentStream(id), d.compacted);
    if led {
      LogReaches(store.log, id, trail, d, store.rows[id].currentRevision);
    }
    if loaded.Err? {
      return Err;
    }
    var log := DecodeAll(loaded.value, policy);
    ghost var texts, changes := [], [];
    if led {
      texts, changes := trail.texts[d.compacted - trail.start..], LedChanges(store.log, id, trail, d);
      LogIsLive(store.log, id, trail, d, loaded.value, log, policy);
    }
    r := ReplayDocument(
      d.(revision := d.compacted), d.revision, log, policy.limits.maxHistoryRows, policy.limits.maxHistoryBytes,
        texts, changes);
    if led {
      ReplayedFits(store.log, id, trail, d, r.value);
    }
  }

  method DecodeAll(rows: seq<ChangeRow>, policy: Policy) returns (log: seq<LogRow>)
    ensures |log| == |rows| && forall i :: 0 <= i < |rows| ==> log[i] == Decoded(rows[i], policy)
  {
    log := [];
    for i := 0 to |rows|
      invariant |log| == i && forall k :: 0 <= k < i ==> log[k] == Decoded(rows[k], policy)
    {
      log := log + [Decoded(rows[i], policy)];
    }
  }

  lemma LogReaches(log: map<(ChangeStream, int), Payload>, id: Id, trail: Trail, d: Document, current: int)
    requires Leads(log, id, trail, d) && d.compacted < d.revision
    ensures Reaches(log, DocumentStream(id), d.compacted, current)
  {
    assert LedStep(log, id, trail, d.compacted, 0);
    assert (DocumentStream(id), d.compacted + 1) in log;
  }

  /** The rows read from the log persist exactly the changes that lead the document's texts. */
  lemma LogIsLive(
      log: map<(ChangeStream, int), Payload>, id: Id, trail: Trail, d: Document, rows: seq<ChangeRow>,
      decoded: seq<LogRow>, policy: Policy)
    requires Leads(log, id, trail, d) && ChangesSince(log, DocumentStream(id), d.compacted, rows)
    requires |decoded| == |rows| && forall i :: 0 <= i < |rows| ==> decoded[i] == Decoded(rows[i], policy)
    ensures LiveLog(
      d.(revision := d.compacted), d.revision, decoded, trail.texts[d.compacted - trail.start..],
      LedChanges(log, id, trail, d))
  {
    hide LedBy, Stored, OldLen;
    var stream, texts := DocumentStream(id), trail.texts[d.compacted - trail.start..];
    var changes := LedChanges(log, id, trail, d);
    forall revision | d.compacted < revision <= d.revision
      ensures (stream, revision) in log
    {
      assert LedStep(log, id, trail, d.compacted, revision - d.compacted - 1);
      LedInLog(log, id, trail, revision);
    }
    AllRead(log, stream, d.compacted, d.revision, rows);
    forall i | 0 <= i < |changes|
      ensures StoredStep(changes[i], texts[i], texts[i + 1])
      ensures PersistedRow(decoded[i], changes[i], d.compacted + i + 1)
    {
      assert LedStep(log, id, trail, d.compacted, i);
      assert ReadBack(log, stream, d.compacted, rows[i]);
      LedInLog(log, id, trail, d.compacted + 1 + i);
      LedDecodes(log, id, trail, rows[i], policy);
    }
  }

  lemma LedInLog(log: map<(ChangeStream, int), Payload>, id: Id, trail: Trail, revision: int)
    requires LedBy(log, id, trail, revision)
    ensures (DocumentStream(id), revision) in log
  {
  }

  /** A persisted edit reads back as the row that the replay expects. */
  lemma LedDecodes(log: map<(ChangeStream, int), Payload>, id: Id, trail: Trail, row: ChangeRow, policy: Policy)
    requires LedBy(log, id, trail, row.revision) && row.payload == log[(DocumentStream(id), row.revision)]
    ensures
      var changes := LedChange(log, id, trail, row.revision);
      && trail.Covers(row.revision - 1) && trail.Covers(row.revision)
      && StoredStep(changes, trail.At(row.revision - 1), trail.At(row.revision))
      && PersistedRow(Decoded(row, policy), changes, row.revision)
  {
    hide StoredStep;
  }

  /** What is retained after the replay leads through the document's texts and stands in the log. */
  lemma ReplayedFits(log: map<(ChangeStream, int), Payload>, id: Id, trail: Trail, d: Document, r: Document)
    requires Leads(log, id, trail, d) && Coherent(r) && r.revision == d.revision && r.content == trail.At(d.revision)
    requires NewestOf(r.history, LedChanges(log, id, trail, d))
    ensures TrailFits(trail, r) && EditsLogged(log, id, r.history)
  {
    var changes := LedChanges(log, id, trail, d);
    forall i | 0 <= i < |r.history|
      ensures EntryLeads(trail, r.history[i]) && EditLogged(log, id, r.history[i])
    {
      assert EntryFits(r.history, i, r.compacted, |r.content|);
      var k := |changes| - |r.history| + i;
      assert r.history[i].changes == ChangesOf(r.history)[i] == changes[k];
      assert LedStep(log, id, trail, d.compacted, k);
      assert r.history[i].revision == d.compacted + 1 + k;
    }
  }

  // ----- All documents -----

  ghost predicate Restored(documents: map<Id, Document>, id: Id, d: Document, policy: Policy) {
    && id in documents && documents[id].revision == d.revision
    && documents[id].name == d.name && documents[id].language == d.language
    && Coherent(documents[id]) && Bounded(documents[id], policy.limits.maxHistoryRows, policy.limits.maxHistoryBytes)
  }

  ghost predicate Relived(
      log: map<(ChangeStream, int), Payload>, documents: map<Id, Document>, id: Id, trails: map<Id, Trail>) {
    && id in documents && id in trails && TrailFits(trails[id], documents[id])
    && EditsLogged(log, id, documents[id].history)
  }

  ghost predicate CanReplay(store: Store, documents: map<Id, Document>, id: Id, trails: map<Id, Trail>)
    reads store
  {
    && id in documents && id in trails && Leads(store.log, id, trails[id], documents[id])
    && (documents[id].compacted < documents[id].revision ==> ValidDocumentId(id) && id in store.rows)
  }

  ghost predicate Unreplayed(d: Document) {
    d.history == [] && d.historyBytes == 0 && 0 <= d.compacted <= d.revision
  }

  /** Replays every listed document whose snapshot is behind. */
  method ReplayDocuments(
      store: Store, documents: map<Id, Document>, order: seq<Id>, policy: Policy, ghost trails: map<Id, Trail>)
      returns (r: Result<map<Id, Document>>)
    requires NoDuplicates(order) && forall id :: id in documents ==> Unreplayed(documents[id])
    ensures r.Ok? ==> Elements(order) <= documents.Keys == r.value.Keys
    ensures r.Ok? ==> forall id :: id in order ==> Restored(r.value, id, documents[id], policy)
    ensures (forall id :: id in order ==> CanReplay(store, documents, id, trails)) ==>
      r.Ok? && forall id :: id in order ==> Relived(store.log, r.value, id, trails)
  {
    ghost var can := forall id :: id in order ==> CanReplay(store, documents, id, trails);
    var loaded := documents;
    for i := 0 to |order|
      invariant loaded.Keys == documents.Keys && Elements(order[..i]) <= documents.Keys
      invariant forall id :: id in documents && id !in order[..i] ==> loaded[id] == documents[id]
      invariant forall id :: id in order[..i] ==> Restored(loaded, id, documents[id], policy)
      invariant can ==> forall id :: id in order[..i] ==> Relived(store.log, loaded, id, trails)
    {
      var id := order[i];
      assert order[..i + 1] == order[..i] + [id] && id !in order[..i];
      assert can ==> CanReplay(store, documents, id, trails);
      if id !in documents {
        return Err;
      }
      var document := LoadDocument(store, id, documents[id], policy, if id in trails then trails[id] else Trail(0, []));
      if document.Err? {
        return Err;
      }
      loaded := loaded[id := document.value];
    }
    assert order[..|order|] == order;
    r := Ok(loaded);
  }

  // ----- The tab list -----

  /**
    What replaying one persisted tab change does; creations of known and
    deletions of unknown documents are skipped.
  */
  function PersistedStructure(documents: map<Id, Document>, order: seq<Id>, change: MetadataChange, maxTabs: nat)
      : Result<(map<Id, Document>, seq<Id>)>
  {
    match change
    case Created(id, name, language, content) =>
      if id in documents then Ok((documents, order))
      else if |order| >= maxTabs then Err
      else Ok((documents[id := Document(name, language, content, 0, [], 0, 0)], order + [id]))
    case Updated(id, name, language) =>
      if id !in documents then Err
      else Ok((documents[id := documents[id].(name := name, language := language)], order))
    case Deleted(id) => Ok(if id in documents then (documents - {id}, Without(order, id)) else (documents, order))
    case Reordered(reordered) => if ValidOrder(reordered, maxTabs) then Ok((documents, reordered)) else Err
  }

  /** Replaying a change that the room accepted does to documents and order what accepting it did. */
  lemma PersistedIsRestructured(s: State, change: MetadataChange, limits: Limits)
    requires Structured(s.documents, s.order, limits) && ChangeFits(s, change, limits)
    requires s.documents.Keys <= s.trails.Keys
    ensures PersistedStructure(s.documents, s.order, change, limits.maxTabs)
         == Ok((RestructuredDocuments(s.documents, change), RestructuredOrder(s.order, change)))
  {
    hide TotalBytes, ValidDocumentId, ValidTabName, ValidLanguage;
    if change.Reordered? {
      forall i | 0 <= i < |change.order|
        ensures ValidDocumentId(change.order[i])
      {
        assert Labelled(change.order[i], s.documents[change.order[i]]);
      }
    }
  }

  ghost function ReplayedStructure(documents: map<Id, Document>, order: seq<Id>, rows: seq<ChangeRow>, maxTabs: nat)
      : Result<(map<Id, Document>, seq<Id>)>
  {
    if rows == [] then Ok((documents, order))
    else
      var init, last := ReplayedStructure(documents, order, rows[..|rows| - 1], maxTabs), rows[|rows| - 1];
      if init.Err? || !last.payload.StructurePayload? then Err
      else PersistedStructure(init.value.0, init.value.1, last.payload.change, maxTabs)
  }

  /** Replays the persisted tab changes in order. */
  method ReplayMetadata(documents: map<Id, Document>, order: seq<Id>, rows: seq<ChangeRow>, maxTabs: nat)
      returns (r: Result<(map<Id, Document>, seq<Id>)>)
    ensures r == ReplayedStructure(documents, order, rows, maxTabs)
  {
    var current := (documents, order);
    for i := 0 to |rows|
      invariant ReplayedStructure(documents, order, rows[..i], maxTabs) == Ok(current)
    {
      assert rows[..i + 1][..i] == rows[..i];
      var next :=
        if rows[i].payload.StructurePayload?
        then PersistedStructure(current.0, current.1, rows[i].payload.change, maxTabs) else Err;
      if next.Err? {
        StaysFailed(documents, order, rows, i + 1, maxTabs);
        return Err;
      }
      current := next.value;
    }
    assert rows[..|rows|] == rows;
    r := Ok(current);
  }

  lemma {:induction false} StaysFailed(
      documents: map<Id, Document>, order: seq<Id>, rows: seq<ChangeRow>, k: nat, maxTabs: nat)
    requires k <= |rows| && ReplayedStructure(documents, order, rows[..k], maxTabs).Err?
    ensures ReplayedStructure(documents, order, rows, maxTabs).Err?
    decreases |rows|
  {
    if k < |rows| {
      assert rows[..|rows| - 1][..k] == rows[..k];
      StaysFailed(documents, order, rows[..|rows| - 1], k, maxTabs);
    } else {
      assert rows[..k] == rows;
    }
  }

  // ----- The ledger -----

  function RecordFrom(row: OperationRow): Result<Record> {
    if !ValidOperation(row.operationId, row.clientId) || row.revision <= 0 || row.baseRevision < 0 then Err
    else
      match row.payload
      case EditPayload(parts) =>
        var changes := Parsed(parts);
        if changes.Ok? && row.stream.DocumentStream? && ValidDocumentId(row.stream.id) then
          Ok(Record(row.operationId, row.clientId, row.request,
                    EditAnswer(row.stream.id, row.baseRevision, row.revision, changes.value)))
        else Err
      case StructurePayload(change) =>
        if row.stream.MetadataStream? then
          Ok(Record(row.operationId, row.clientId, row.request,
            StructureAnswer(row.baseRevision, row.revision, change)))
        else Err
  }

  /** Exactly well-formed rows decode, and say who asked for what. */
  lemma DecodesExactly(row: OperationRow)
    ensures RecordFrom(row).Ok? <==>
      && ValidOperation(row.operationId, row.clientId) && row.revision > 0 && row.baseRevision >= 0
      && (row.payload.StructurePayload? ==> row.stream.MetadataStream?)
      && (row.payload.EditPayload? ==>
            && row.stream.DocumentStream? && ValidDocumentId(row.stream.id)
            && AllParts(row.payload.parts))
    ensures RecordFrom(row).Ok? ==>
      var record := RecordFrom(row).value;
      && record.operationId == row.operationId && record.clientId == row.clientId && record.request == row.request
      && (row.payload.StructurePayload? ==>
            record.answer == StructureAnswer(row.baseRevision, row.revision, row.payload.change))
      && (row.payload.EditPayload? ==>
            && record.answer.EditAnswer? && record.answer.documentId == row.stream.id
            && record.answer.baseVersion == row.baseRevision && record.answer.revision == row.revision
            && OldLen(record.answer.changes) == LengthsOf(row.payload.parts))
  {
    hide ValidOperation, ValidDocumentId, AllParts, Parsed, LengthsOf;
    if row.payload.EditPayload? {
      ParsesExactly(row.payload.parts);
    }
  }

  /** Reading a ledger row back yields the record it was written for. */
  lemma RecordRoundTrip(record: Record)
    requires RecordFits(record)
    ensures RecordFrom(RowOf(record)) == Ok(record)
  {
    hide ValidOperation, ValidDocumentId;
    if record.answer.EditAnswer? {
      RoundTrip(record.answer.changes, EncodedParts(record.answer.changes));
    }
  }

  ghost predicate Readable(rows: seq<OperationRow>) {
    && (forall i :: 0 <= i < |rows| ==> RecordFrom(rows[i]).Ok?)
    && forall i, j :: 0 <= i < j < |rows| ==> rows[i].operationId != rows[j].operationId
  }

  /**
    Loading fails exactly on a row that does not decode or repeats an id;
    otherwise it yields the rows' records in order.
  */
  method LoadOperations(rows: seq<OperationRow>) returns (ok: bool, operations: map<string, Record>, order: seq<string>)
    ensures ok <==> Readable(rows)
    ensures ok ==> |order| == |rows| && forall id :: id in order <==> id in operations
    ensures ok ==> forall i :: 0 <= i < |rows| ==>
      order[i] == rows[i].operationId && order[i] in operations && Ok(operations[order[i]]) == RecordFrom(rows[i])
  {
    ok, operations, order := false, map[], [];
    for i := 0 to |rows|
      invariant |order| == i && forall id :: id in order <==> id in operations
      invariant forall k :: 0 <= k < i ==>
        order[k] == rows[k].operationId && order[k] in operations && Ok(operations[order[k]]) == RecordFrom(rows[k])
      invariant forall k, l :: 0 <= k < l < i ==> rows[k].operationId != rows[l].operationId
    {
      var record := RecordFrom(rows[i]);
      if record.Err? {
        return;
      }
      if rows[i].operationId in operations {
        var id := rows[i].operationId;
        assert id in order;
        ghost var k := IndexIn(order, id);
        assert rows[k].operationId == rows[i].operationId;
        return;
      }
      operations := operations[rows[i].operationId := record.value];
      order := order + [rows[i].operationId];
    }
    ok := true;
  }

  /** The rows of a ledger are read back as that ledger. */
  lemma LedgerReadable(ledger: seq<Record>, limits: Limits)
    requires LedgerFits(ledger, limits)
    ensures Readable(LedgerRows(ledger))
    ensures forall i :: 0 <= i < |ledger| ==>
      RecordFrom(LedgerRows(ledger)[i]) == Ok(ledger[i]) && LedgerRows(ledger)[i].operationId == ledger[i].operationId
  {
    hide RecordFits, RecordFrom;
    forall i | 0 <= i < |ledger|
      ensures RecordFrom(LedgerRows(ledger)[i]) == Ok(ledger[i])
    {
      RecordRoundTrip(ledger[i]);
    }
    forall i, j | 0 <= i < j < |ledger|
      ensures LedgerRows(ledger)[i].operationId != LedgerRows(ledger)[j].operationId
    {
      assert RecordIds(ledger)[i] != RecordIds(ledger)[j];
    }
  }
}
