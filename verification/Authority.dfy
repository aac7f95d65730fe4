/**
  The authoritative state of a room and what each accepted mutation makes of it.

  `documents`, `order`, the metadata stream and the ledger of recent operations
  are the server's own fields. `trails` and `views` record, for the
  specification only, the text of every document at every revision since it was
  loaded or created, and the tab list at every metadata revision; the invariant
  ties the retained histories to them.
*/
module Authority {
  import opened Utf16
  import opened ChangeSets
  import opened Surrogates
  import opened Histories
  import opened Replay
  import opened Sequences
  import opened Validation

  type Id = string

  datatype Limits = Limits(maxTabs: nat, maxBytes: nat, maxMessageBytes: nat, maxHistoryRows: nat,
    maxHistoryBytes: nat) {
    predicate Positive() {
      maxTabs >= 1 && maxBytes >= 1 && maxMessageBytes >= 1 && maxHistoryRows >= 1 && maxHistoryBytes >= 1
    }

    /** How many operations the ledger retains. */
    function LedgerRows(): nat {
      if maxHistoryRows * 2 < 32 then 32 else maxHistoryRows * 2
    }
  }

  // ----- Operations and their results -----

  datatype DocumentOperation = DocumentOperation(
    operationId: string, clientId: string, documentId: Id, baseVersion: int, changes: ChangeSet)

  datatype MetadataRequest =
    | CreateDocument(name: string, language: string, content: Text)
    | UpdateDocument(id: Id, name: string, language: string)
    | DeleteDocument(id: Id)
    | ReorderDocuments(order: seq<Id>)
    | OtherKind

  datatype MetadataOperation = MetadataOperation(
    operationId: string, clientId: string, baseVersion: int, request: MetadataRequest)

  /** An accepted change of the tab list. */
  datatype MetadataChange =
    | Created(id: Id, name: string, language: string, content: Text)
    | Updated(id: Id, name: string, language: string)
    | Deleted(id: Id)
    | Reordered(order: seq<Id>)

  datatype MetadataEntry = MetadataEntry(
    operationId: string, clientId: string, revision: int, bytes: nat, change: MetadataChange)

  /** The request stands for its fingerprint: equal fingerprints are equal requests. */
  datatype Request = EditRequest(edit: DocumentOperation) | StructureRequest(structure: MetadataOperation)

  datatype Answer =
    | EditAnswer(documentId: Id, baseVersion: int, revision: int, changes: ChangeSet)
    | StructureAnswer(baseRevision: int, revision: int, change: MetadataChange)

  /** One remembered operation. */
  datatype Record = Record(operationId: string, clientId: string, request: Request, answer: Answer)

  // ----- State -----

  /** The texts of one document from revision `start` on. */
  datatype Trail = Trail(start: int, texts: seq<Text>) {
    ghost predicate Covers(revision: int) {
      start <= revision < start + |texts|
    }

    ghost function At(revision: int): Text
      requires Covers(revision)
    {
      texts[revision - start]
    }
  }

  datatype Tab = Tab(id: Id, name: string, language: string)

  type View = seq<Tab>

  datatype State = State(
    documents: map<Id, Document>,
    order: seq<Id>,
    metadataRevision: int,
    metadataHistory: seq<MetadataEntry>,
    metadataBytes: int,
    metadataCompacted: int,
    ledger: seq<Record>,
    trails: map<Id, Trail>,
    viewStart: int,
    views: seq<View>)

  ghost function Weights(documents: map<Id, Document>): map<Id, nat> {
    map id | id in documents :: Utf8Bytes(documents[id].content)
  }

  ghost function TotalBytes(documents: map<Id, Document>, order: seq<Id>): nat
    requires Elements(order) <= documents.Keys
  {
    assert forall id :: id in order ==> id in Elements(order);
    Sum(order, Weights(documents))
  }

  ghost function TabsOf(documents: map<Id, Document>, order: seq<Id>): (v: View)
    requires Elements(order) <= documents.Keys
    ensures |v| == |order|
  {
    assert forall id :: id in order ==> id in Elements(order);
    seq(|order|, i requires 0 <= i < |order| =>
      Tab(order[i], documents[order[i]].name, documents[order[i]].language))
  }

  ghost function Ids(view: View): (r: seq<Id>)
    ensures |r| == |view|
  {
    seq(|view|, i requires 0 <= i < |view| => view[i].id)
  }

  // ----- Invariant -----

  /** A document's id, name and language are ones the room and its store accept. */
  ghost predicate Labelled(id: Id, d: Document) {
    ValidDocumentId(id) && ValidTabName(d.name) && ValidLanguage(d.language)
  }

  /** The order lists every document once, is never empty, and labels and contents fit the room. */
  ghost predicate Structured(documents: map<Id, Document>, order: seq<Id>, limits: Limits) {
    && NoDuplicates(order)
    && Elements(order) == documents.Keys
    && 1 <= |order| <= limits.maxTabs
    && TotalBytes(documents, order) <= limits.maxBytes
    && forall id :: id in documents ==> Labelled(id, documents[id])
  }

  /** The trail ends with the document's text, and every retained edit leads from one text to the next. */
  ghost predicate TrailFits(trail: Trail, d: Document) {
    && 0 <= trail.start <= d.compacted
    && trail.start + |trail.texts| - 1 == d.revision >= d.compacted
    && trail.At(d.revision) == d.content
    && forall i :: 0 <= i < |d.history| ==> EntryLeads(trail, d.history[i])
  }

  ghost predicate EntryLeads(trail: Trail, entry: Entry) {
    && trail.Covers(entry.revision) && trail.Covers(entry.revision - 1)
    && StoredStep(entry.changes, trail.At(entry.revision - 1), trail.At(entry.revision))
  }

  ghost predicate DocumentFits(documents: map<Id, Document>, trails: map<Id, Trail>, limits: Limits, id: Id)
    requires id in documents
  {
    && Coherent(documents[id])
    && Bounded(documents[id], limits.maxHistoryRows, limits.maxHistoryBytes)
    && id in trails && TrailFits(trails[id], documents[id])
  }

  ghost predicate DocumentsFit(documents: map<Id, Document>, trails: map<Id, Trail>, limits: Limits) {
    forall id :: id in documents ==> DocumentFits(documents, trails, limits, id)
  }

  ghost function MetadataSize(history: seq<MetadataEntry>): nat {
    if history == [] then 0 else MetadataSize(history[..|history| - 1]) + history[|history| - 1].bytes
  }

  /** What an accepted change makes of a tab list. */
  ghost function Restructured(view: View, change: MetadataChange): View {
    match change
    case Created(id, name, language, _) => view + [Tab(id, name, language)]
    case Updated(id, name, language) => Renamed(view, id, name, language)
    case Deleted(id) => WithoutTab(view, id)
    case Reordered(order) => Arranged(view, order)
  }

  ghost function Renamed(view: View, id: Id, name: string, language: string): (r: View)
    ensures |r| == |view|
  {
    seq(|view|, i requires 0 <= i < |view| => if view[i].id == id then Tab(id, name, language) else view[i])
  }

  ghost function WithoutTab(view: View, id: Id): View {
    if view == [] then []
    else if view[0].id == id then view[1..]
    else [view[0]] + WithoutTab(view[1..], id)
  }

  /** The tab with a given id; tabs not in the list read as empty. */
  ghost function TabNamed(view: View, id: Id): Tab {
    if view == [] then Tab(id, "", "") else if view[0].id == id then view[0] else TabNamed(view[1..], id)
  }

  ghost function Arranged(view: View, order: seq<Id>): (r: View)
    ensures |r| == |order|
  {
    seq(|order|, i requires 0 <= i < |order| => TabNamed(view, order[i]))
  }

  /** A retained metadata entry leads from one recorded tab list to the next, and creations start a trail. */
  ghost predicate MetadataEntryLeads(s: State, i: nat)
    requires i < |s.metadataHistory|
  {
    var entry := s.metadataHistory[i];
    var at := entry.revision - s.viewStart;
    && entry.revision == s.metadataCompacted + i + 1
    && 0 < at < |s.views|
    && s.views[at] == Restructured(s.views[at - 1], entry.change)
    && (entry.change.Created? ==>
          && entry.change.id in s.trails
          && s.trails[entry.change.id].start == 0
          && s.trails[entry.change.id].texts != []
          && s.trails[entry.change.id].texts[0] == entry.change.content)
    && (entry.change.Reordered? ==> Elements(entry.change.order) == Elements(Ids(s.views[at - 1])))
  }

  ghost predicate MetadataFits(s: State, limits: Limits) {
    && 0 <= s.viewStart <= s.metadataCompacted
    && s.metadataRevision == s.metadataCompacted + |s.metadataHistory|
    && s.metadataBytes == MetadataSize(s.metadataHistory)
    && |s.metadataHistory| <= limits.maxHistoryRows && s.metadataBytes <= limits.maxHistoryBytes
    && s.viewStart + |s.views| - 1 == s.metadataRevision
    && forall i :: 0 <= i < |s.metadataHistory| ==> MetadataEntryLeads(s, i)
  }

  /** Recorded tab lists repeat no tab and name only documents that have a trail; the last one is current. */
  ghost predicate ViewsFit(s: State)
    requires Elements(s.order) <= s.documents.Keys
  {
    && s.views != [] && s.views[|s.views| - 1] == TabsOf(s.documents, s.order)
    && forall k :: 0 <= k < |s.views| ==> ViewFits(s.views[k], s.trails)
  }

  ghost predicate ViewFits(view: View, trails: map<Id, Trail>) {
    NoDuplicates(Ids(view)) && forall id :: id in Ids(view) ==> id in trails
  }

  ghost function RecordIds(ledger: seq<Record>): (r: seq<string>)
    ensures |r| == |ledger|
  {
    seq(|ledger|, i requires 0 <= i < |ledger| => ledger[i].operationId)
  }

  /** A remembered operation has ids and revisions that a reload accepts, and an answer of its request's kind. */
  ghost predicate RecordFits(record: Record) {
    && ValidOperation(record.operationId, record.clientId)
    && record.request.EditRequest? == record.answer.EditAnswer?
    && match record.answer
       case EditAnswer(id, base, revision, _) => ValidDocumentId(id) && base >= 0 && revision > 0
       case StructureAnswer(base, revision, _) => base >= 0 && revision > 0
  }

  ghost predicate LedgerFits(ledger: seq<Record>, limits: Limits) {
    && NoDuplicates(RecordIds(ledger)) && |ledger| <= limits.LedgerRows()
    && forall i :: 0 <= i < |ledger| ==> RecordFits(ledger[i])
  }

  /** A tab list that already shows a change: making the change again would leave it as it is. */
  ghost predicate Shows(view: View, change: MetadataChange) {
    match change
    case Created(id, _, _, _) => id in Ids(view)
    case Updated(id, name, language) =>
      forall i :: 0 <= i < |view| && view[i].id == id ==> view[i] == Tab(id, name, language)
    case Deleted(id) => id !in Ids(view)
    case Reordered(order) => Ids(view) == order
  }

  /** A remembered answer is not ahead of the room, and the newest tab change is the one the tab list shows. */
  ghost predicate RecordBehind(s: State, record: Record)
    requires Elements(s.order) <= s.documents.Keys
  {
    match record.answer
    case EditAnswer(id, _, revision, _) =>
      id in s.trails && (id in s.documents ==> revision <= s.documents[id].revision)
    case StructureAnswer(_, revision, change) =>
      && revision <= s.metadataRevision
      && (revision == s.metadataRevision ==> Shows(TabsOf(s.documents, s.order), change))
  }

  ghost predicate LedgerBehind(s: State)
    requires Elements(s.order) <= s.documents.Keys
  {
    forall i :: 0 <= i < |s.ledger| ==> RecordBehind(s, s.ledger[i])
  }

  ghost predicate Valid(s: State, limits: Limits) {
    && limits.Positive()
    && Structured(s.documents, s.order, limits)
    && DocumentsFit(s.documents, s.trails, limits)
    && MetadataFits(s, limits)
    && ViewsFit(s)
    && LedgerFits(s.ledger, limits)
    && LedgerBehind(s)
  }

  // ----- Accepting an edit -----

  /** The ledger with one more record, oldest dropped beyond the limit. */
  ghost function Remembered(ledger: seq<Record>, record: Record, limits: Limits): seq<Record> {
    var all := ledger + [record];
    if |all| > limits.LedgerRows() then all[|all| - limits.LedgerRows()..] else all
  }

  /** The document at its next revision; a history that would overflow is dropped whole. */
  ghost function NextDocument(d: Document, entry: Entry, content: Text, limits: Limits): Document {
    var extended := Extended(d, entry, content);
    if Bounded(extended, limits.maxHistoryRows, limits.maxHistoryBytes) then extended
    else extended.(history := [], historyBytes := 0, compacted := extended.revision)
  }

  ghost function EditEntry(op: DocumentOperation, d: Document, changes: ChangeSet, bytes: nat): Entry {
    Entry(op.operationId, op.clientId, d.revision + 1, d.revision, |d.content|, bytes, changes)
  }

  ghost function EditRecord(op: DocumentOperation, d: Document, changes: ChangeSet): Record {
    Record(op.operationId, op.clientId, EditRequest(op),
      EditAnswer(op.documentId, op.baseVersion, d.revision + 1, changes))
  }

  /** The state after accepting `op` as `changes`, its rebased form. */
  ghost function AcceptEdit(s: State, op: DocumentOperation, changes: ChangeSet, bytes: nat, limits: Limits): State
    requires op.documentId in s.documents && op.documentId in s.trails
    requires OldLen(changes) == |s.documents[op.documentId].content|
  {
    var d, trail := s.documents[op.documentId], s.trails[op.documentId];
    var content := Stored(changes, d.content);
    s.(documents := s.documents[op.documentId := NextDocument(d, EditEntry(op, d, changes, bytes), content, limits)],
       trails := s.trails[op.documentId := trail.(texts := trail.texts + [content])],
       ledger := Remembered(s.ledger, EditRecord(op, d, changes), limits))
  }

  // ----- Accepting a metadata operation -----

  ghost function RestructuredDocuments(documents: map<Id, Document>, change: MetadataChange): map<Id, Document> {
    match change
    case Created(id, name, language, content) => documents[id := Document(name, language, content, 0, [], 0, 0)]
    case Updated(id, name, language) =>
      if id in documents then documents[id := documents[id].(name := name, language := language)] else documents
    case Deleted(id) => documents - {id}
    case Reordered(_) => documents
  }

  ghost function RestructuredOrder(order: seq<Id>, change: MetadataChange): seq<Id> {
    match change
    case Created(id, _, _, _) => order + [id]
    case Updated(_, _, _) => order
    case Deleted(id) => Without(order, id)
    case Reordered(reordered) => reordered
  }

  /** What the room checks before it accepts a change of its tab list. */
  ghost predicate ChangeFits(s: State, change: MetadataChange, limits: Limits)
    requires Elements(s.order) <= s.documents.Keys
  {
    match change
    case Created(id, name, language, content) =>
      && ValidDocumentId(id) && ValidTabName(name) && ValidLanguage(language)
      && id !in s.trails && |s.order| < limits.maxTabs
      && TotalBytes(s.documents, s.order) + Utf8Bytes(content) <= limits.maxBytes
    case Updated(id, name, language) => id in s.documents && ValidTabName(name) && ValidLanguage(language)
    case Deleted(id) => id in s.documents && |s.order| > 1
    case Reordered(order) => NoDuplicates(order) && |order| == |s.order| && forall id :: id in order ==>
      id in s.documents
  }

  ghost function StructureRecord(op: MetadataOperation, revision: int, change: MetadataChange): Record {
    Record(op.operationId, op.clientId, StructureRequest(op), StructureAnswer(revision, revision + 1, change))
  }

  ghost function AcceptMetadata(
      s: State, op: MetadataOperation, change: MetadataChange, bytes: nat, limits: Limits): State
    requires Elements(RestructuredOrder(s.order, change)) <= RestructuredDocuments(s.documents, change).Keys
  {
    var revision := s.metadataRevision + 1;
    var documents, order := RestructuredDocuments(s.documents, change), RestructuredOrder(s.order, change);
    var history := s.metadataHistory + [MetadataEntry(op.operationId, op.clientId, revision, bytes, change)];
    var fits := |history| <= limits.maxHistoryRows && s.metadataBytes + bytes <= limits.maxHistoryBytes;
    State(
      documents, order, revision,
      if fits then history else [],
      if fits then s.metadataBytes + bytes else 0,
      if fits then s.metadataCompacted else revision,
      Remembered(s.ledger, StructureRecord(op, s.metadataRevision, change), limits),
      if change.Created? then s.trails[change.id := Trail(0, [change.content])] else s.trails,
      s.viewStart,
      s.views + [TabsOf(documents, order)])
  }
}
