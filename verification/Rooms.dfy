/**
  The room authority: one object per room that rebases, bounds, deduplicates,
  commits and remembers every mutation, or leaves everything as it was.
*/
module Rooms {
  import opened Utf16
  import opened ChangeSets
  import opened Mapping
  import opened Surrogates
  import opened Encoding
  import opened Histories
  import opened Replay
  import opened Sequences
  import opened Validation
  import opened Authority
  import opened AuthorityInvariant
  import opened Stores
  import opened Durability

  datatype Refusal =
    | NotPermitted
    | OperationConflict
    | DuplicateOperation
    | DocumentNotFound
    | DocumentResync
    | RevisionConflict
    | OperationLimit
    | InvalidChangeSet
    | RoomLimit
    | Persistence
    | DocumentDeleted
    | LastDocument
    | MetadataResync
    | InvalidName
    | InvalidLanguage

  datatype Reply = Accepted(answer: Answer, duplicate: bool) | Refused(reason: Refusal)

  datatype Verdict = Pass | Fail(reason: Refusal)

  /** Limits and encoded sizes of one deployment. */
  datatype Policy = Policy(
    limits: Limits,
    encodedBytes: ChangeSet -> nat,
    payloadBytes: ChangeSet -> nat,
    metadataBytes: MetadataChange -> nat)

  function InsertedBytes(changes: ChangeSet): nat {
    if changes == [] then 0
    else InsertedBytes(changes[..|changes| - 1]) + Utf8Bytes(changes[|changes| - 1].insert)
  }

  /** Everything that is decided about an edit before it is rebased, in the order it is checked. */
  ghost function Precheck(s: State, op: DocumentOperation, permitted: bool, policy: Policy): Verdict
    requires DocumentsFit(s.documents, s.trails, policy.limits)
  {
    if !permitted then Fail(NotPermitted)
    else if !ValidOperation(op.operationId, op.clientId) then Fail(OperationConflict)
    else if op.operationId in RecordIds(s.ledger) then Pass
    else if !ValidDocumentId(op.documentId) || op.documentId !in s.documents then Fail(DocumentNotFound)
    else
      var d := s.documents[op.documentId];
      assert DocumentFits(s.documents, s.trails, policy.limits, op.documentId);
      if op.baseVersion < d.compacted then Fail(DocumentResync)
      else if op.baseVersion > d.revision then Fail(RevisionConflict)
      else if InsertedBytes(op.changes) > policy.limits.maxMessageBytes then Fail(OperationLimit)
      else if policy.encodedBytes(op.changes) > policy.limits.maxMessageBytes then Fail(OperationLimit)
      else if OldLen(op.changes) != LengthAt(d, op.baseVersion) then Fail(RevisionConflict)
      else Pass
  }

  ghost function RecordsOf(order: seq<string>, operations: map<string, Record>): (r: seq<Record>)
    requires forall id :: id in order ==> id in operations
    ensures |r| == |order|
  {
    seq(|order|, i requires 0 <= i < |order| => operations[order[i]])
  }

  /** The remembered operation with a given id. */
  ghost function RecordFor(ledger: seq<Record>, operationId: string): Record
    requires operationId in RecordIds(ledger)
  {
    ledger[IndexIn(RecordIds(ledger), operationId)]
  }

  ghost predicate SameText(d: Document, e: Document) {
    d.name == e.name && d.language == e.language && d.content == e.content && d.revision == e.revision
  }

  method ListRows(documents: map<Id, Document>, order: seq<Id>) returns (listed: seq<Listed>)
    requires Elements(order) <= documents.Keys
    ensures listed == ListedDocuments(documents, order)
  {
    assert forall x :: x in order ==> x in Elements(order);
    listed := [];
    for position := 0 to |order|
      invariant |listed| == position
      invariant forall i :: 0 <= i < position ==> listed[i] == ListedDocuments(documents, order)[i]
    {
      assert order[position] in Elements(order);
      listed := listed + [Listed(order[position], RowFor(documents[order[position]], position))];
    }
  }

  /** Rows do not show the retained history. */
  lemma ListedAlike(documents: map<Id, Document>, others: map<Id, Document>, order: seq<Id>)
    requires documents.Keys == others.Keys && Elements(order) <= documents.Keys
    requires forall id :: id in documents ==> SameText(documents[id], others[id])
    ensures ListedDocuments(documents, order) == ListedDocuments(others, order)
  {
    assert forall x :: x in order ==> x in Elements(order);
  }

  /** An edit that fits the room can be committed, and its step keeps invariant and agreement. */
  lemma EditPrepared(t: Tables, s: State, op: DocumentOperation, changes: ChangeSet, bytes: nat, limits: Limits)
    requires Valid(s, limits) && Agrees(t, s) && op.documentId in s.documents
    requires op.operationId !in RecordIds(s.ledger) && ValidOperation(op.operationId, op.clientId)
    requires op.baseVersion >= 0
    requires OldLen(changes) == |s.documents[op.documentId].content|
    requires TotalBytes(s.documents, s.order) - Utf8Bytes(s.documents[op.documentId].content)
          + Utf8Bytes(Stored(changes, s.documents[op.documentId].content)) <= limits.maxBytes
    ensures op.documentId in s.trails && Coherent(s.documents[op.documentId])
    ensures Valid(AcceptEdit(s, op, changes, bytes, limits), limits)
    ensures Acceptable(t, EditCommit(s, op, changes, bytes, limits))
      <==> Trimmed(op.operationId) && Trimmed(op.clientId)
    ensures Agrees(Committed(t, EditCommit(s, op, changes, bytes, limits)), AcceptEdit(s, op, changes, bytes, limits))
  {
    hide NoDuplicates, LogFits, MetadataFits, ViewsFit, TotalBytes, Elements, Stored, Acceptable, Committed,
         ValidOperation, Trimmed, Labelled, RecordFits;
    assert DocumentFits(s.documents, s.trails, limits, op.documentId);
    EditKeepsValid(s, op, changes, bytes, limits);
    EditCommits(t, s, op, changes, bytes, limits);
    EditStaysInAgreement(t, s, op, changes, bytes, limits);
  }

  /** Everything the room's code needs to know before it commits an edit. */
  lemma EditReady(
      t: Tables, s: State, op: DocumentOperation, changes: ChangeSet, content: Text, bytes: nat, through: int,
      limits: Limits)
    requires Valid(s, limits) && Agrees(t, s) && op.documentId in s.documents
    requires op.operationId !in RecordIds(s.ledger) && ValidOperation(op.operationId, op.clientId)
    requires op.baseVersion >= 0
    requires OldLen(changes) == |s.documents[op.documentId].content|
    requires content == Stored(changes, s.documents[op.documentId].content)
    requires TotalBytes(s.documents, s.order) - Utf8Bytes(s.documents[op.documentId].content) + Utf8Bytes(content) <=
      limits.maxBytes
    requires
      var d := s.documents[op.documentId];
      through == if |d.history| + 1 > limits.maxHistoryRows || d.historyBytes + bytes > limits.maxHistoryBytes
        then d.revision + 1 else 0
    ensures op.documentId in s.trails && Coherent(s.documents[op.documentId])
    ensures Elements(s.order) <= s.documents.Keys && NoDuplicates(RecordIds(s.ledger))
    ensures Valid(AcceptEdit(s, op, changes, bytes, limits), limits)
    ensures
      var d, commit := s.documents[op.documentId], EditCommit(s, op, changes, bytes, limits);
      && (Acceptable(t, commit) <==> Trimmed(op.operationId) && Trimmed(op.clientId))
      && Agrees(Committed(t, commit), AcceptEdit(s, op, changes, bytes, limits))
      && (var edited := s.documents[op.documentId := d.(content := content, revision := d.revision + 1)];
          commit == CommitOf(s.(documents := edited), EditRecord(op, d, changes), through, limits))
      && through == EditCompaction(d, EditEntry(op, d, changes, bytes), content, limits)
  {
    hide NoDuplicates, DocumentsFit, LogFits, MetadataFits, ViewsFit, TotalBytes, Elements, Stored, Acceptable,
         Committed, Weights, Agrees, Labelled, ValidOperation, Trimmed, RecordFits;
    EditPrepared(t, s, op, changes, bytes, limits);
    var d := s.documents[op.documentId];
    ListedAlike(s.documents[op.documentId := d.(content := content, revision := d.revision + 1)],
                AcceptEdit(s, op, changes, bytes, limits).documents, s.order);
  }

  /** The answer to a request whose operation id is remembered. */
  function Answered(record: Record, request: Request): Reply {
    if record.request != request || record.answer.EditAnswer? != request.EditRequest? then Refused(DuplicateOperation)
    else Accepted(record.answer, true)
  }

  /** `changes` is the operation rebased from its base revision to the current text of its document. */
  ghost predicate EditedBy(s: State, op: DocumentOperation, changes: ChangeSet) {
    && op.documentId in s.documents && op.documentId in s.trails
    && var d := s.documents[op.documentId];
       && Coherent(d) && d.compacted <= op.baseVersion <= d.revision
       && OldLen(changes) == |d.content|
       && Rebased(op.changes, ChangesOf(After(d, op.baseVersion)), changes)
  }

  lemma RebasedHasTrail(s: State, op: DocumentOperation, changes: ChangeSet)
    requires EditedBy(s, op, changes)
    ensures op.documentId in s.trails
  {
  }

  // ----- Metadata operations -----

  datatype Proposal = Change(change: MetadataChange) | Known | Reject(reason: Refusal)

  function FirstFree(generated: seq<Id>, used: set<Id>): Result<Id> {
    if generated == [] then Err
    else if ValidDocumentId(generated[0]) && generated[0] !in used then Ok(generated[0])
    else FirstFree(generated[1..], used)
  }

  /** A complete tab ordering: between one and `maxTabs` valid ids, none repeated. */
  predicate ValidOrder(ids: seq<Id>, maxTabs: nat) {
    && 1 <= |ids| <= maxTabs
    && (forall i :: 0 <= i < |ids| ==> ValidDocumentId(ids[i]))
    && forall i, j :: 0 <= i < j < |ids| ==> ids[i] != ids[j]
  }

  method ValidateDocumentOrder(ids: seq<Id>, maxTabs: nat) returns (ok: bool)
    ensures ok <==> ValidOrder(ids, maxTabs)
  {
    if maxTabs < 1 || |ids| < 1 || |ids| > maxTabs {
      return false;
    }
    var seen := {};
    for i := 0 to |ids|
      invariant seen == set k | 0 <= k < i :: ids[k]
      invariant forall k :: 0 <= k < i ==> ValidDocumentId(ids[k])
      invariant NoDuplicates(ids[..i])
    {
      if !ValidDocumentId(ids[i]) {
        return false;
      }
      if ids[i] in seen {
        return false;
      }
      seen := seen + {ids[i]};
      assert forall k :: 0 <= k < i ==> ids[k] in seen;
    }
    assert ids[..|ids|] == ids;
    return true;
  }

  /** Everything that is decided about a metadata operation before it is committed. */
  ghost function Proposed(
      s: State, op: MetadataOperation, permitted: bool, generated: seq<Id>, policy: Policy): Proposal
    requires Elements(s.order) <= s.documents.Keys
  {
    if !permitted then Reject(NotPermitted)
    else if !ValidOperation(op.operationId, op.clientId) then Reject(OperationConflict)
    else if op.operationId in RecordIds(s.ledger) then Known
    else if op.baseVersion < 0 || op.baseVersion > s.metadataRevision then Reject(RevisionConflict)
    else match op.request
      case CreateDocument(name, language, content) =>
        var id := FirstFree(generated, s.documents.Keys);
        if |s.order| >= policy.limits.maxTabs then Reject(RoomLimit)
        else if !ValidTabName(name) then Reject(InvalidName)
        else if !ValidLanguage(language) then Reject(InvalidLanguage)
        else if Utf8Bytes(content) > policy.limits.maxMessageBytes then Reject(OperationLimit)
        else if TotalBytes(s.documents, s.order) + Utf8Bytes(content) > policy.limits.maxBytes then Reject(RoomLimit)
        else if id.Err? then Reject(OperationLimit)
        else Change(Created(id.value, name, language, content))
      case UpdateDocument(id, name, language) =>
        if id !in s.documents then Reject(DocumentDeleted)
        else if !ValidTabName(name) then Reject(InvalidName)
        else if !ValidLanguage(language) then Reject(InvalidLanguage)
        else Change(Updated(id, name, language))
      case DeleteDocument(id) =>
        if |s.order| == 1 then Reject(LastDocument)
        else if id !in s.documents then Reject(DocumentDeleted)
        else Change(Deleted(id))
      case ReorderDocuments(order) =>
        if op.baseVersion != s.metadataRevision
           || !ValidOrder(order, policy.limits.maxTabs) || |order| != |s.order|
           || exists i :: 0 <= i < |order| && order[i] !in s.documents
        then Reject(MetadataResync)
        else Change(Reordered(order))
      case OtherKind => Reject(OperationConflict)
  }

  /** The loop that takes one id out of the order. */
  method RemoveFromOrder(order: seq<Id>, id: Id) returns (r: seq<Id>)
    ensures r == Without(order, id)
  {
    for i := 0 to |order|
      invariant id !in order[..i]
    {
      if order[i] == id {
        WithoutAt(order, i, id);
        return order[..i] + order[i + 1..];
      }
    }
    assert order[..|order|] == order;
    WithoutAbsent(order, id);
    return order;
  }

  /** A proposed change fits the room, and its operation is new. */
  lemma ProposalFacts(s: State, op: MetadataOperation, permitted: bool, generated: seq<Id>, policy: Policy)
    requires Valid(s, policy.limits) && forall id :: id in generated && id in s.trails ==> id in s.documents
    ensures
      var p := Proposed(s, op, permitted, generated, policy);
      && (p.Known? ==> op.operationId in RecordIds(s.ledger))
      && (p.Change? ==>
            && op.operationId !in RecordIds(s.ledger) && ValidOperation(op.operationId, op.clientId)
            && ChangeFits(s, p.change, policy.limits)
            && (p.change.Updated? ==> p.change.id in s.documents))
  {
    hide DocumentsFit, MetadataFits, ViewsFit, LedgerFits, TotalBytes;
    if op.request.CreateDocument? {
      FirstFreeIsFree(generated, s.documents.Keys);
    }
    if op.request.ReorderDocuments? {
      var order := op.request.order;
      if forall i :: 0 <= i < |order| ==> order[i] in s.documents {
        assert forall id :: id in order ==> id in s.documents;
      }
    }
  }

  lemma {:induction false} FirstFreeIsFree(generated: seq<Id>, used: set<Id>)
    ensures
      var r := FirstFree(generated, used);
      r.Ok? ==> r.value in generated && r.value !in used && ValidDocumentId(r.value)
    decreases |generated|
  {
    if generated != [] {
      FirstFreeIsFree(generated[1..], used);
    }
  }

  /** A fitting change of the tab list can be committed, and its step keeps invariant and agreement. */
  lemma MetadataPrepared(t: Tables, s: State, op: MetadataOperation, change: MetadataChange, bytes: nat, limits: Limits)
    requires Valid(s, limits) && Agrees(t, s) && ChangeFits(s, change, limits)
    requires op.operationId !in RecordIds(s.ledger) && ValidOperation(op.operationId, op.clientId)
    ensures Elements(RestructuredOrder(s.order, change)) <= RestructuredDocuments(s.documents, change).Keys
    ensures Valid(AcceptMetadata(s, op, change, bytes, limits), limits)
    ensures Acceptable(t, MetadataCommit(s, op, change, bytes, limits))
      <==> Trimmed(op.operationId) && Trimmed(op.clientId)
    ensures Agrees(Committed(t, MetadataCommit(s, op, change, bytes, limits)),
      AcceptMetadata(s, op, change, bytes, limits))
    ensures s.metadataRevision >= 0 && (s.metadataHistory == [] ==> s.metadataCompacted == s.metadataRevision)
    ensures s.metadataHistory != [] ==> s.metadataHistory[0].revision == s.metadataCompacted + 1
  {
    hide NoDuplicates, LogFits, ViewsFit, TotalBytes, Elements, Acceptable, Committed, RestructuredDocuments,
         RestructuredOrder, ValidOperation, Trimmed, Labelled, RecordFits, ValidDocumentId, ValidTabName, ValidLanguage;
    MetadataKeepsValid(s, op, change, bytes, limits);
    MetadataCommits(t, s, op, change, bytes, limits);
    DocumentsHaveTrails(s, limits);
    MetadataStaysInAgreement(t, s, op, change, bytes, limits);
    if s.metadataHistory != [] {
      assert MetadataEntryLeads(s, 0);
    }
  }

  /** Everything the room's code needs to know before it commits a change of the tab list. */
  lemma MetadataReady(
      t: Tables, s: State, op: MetadataOperation, change: MetadataChange, bytes: nat, through: int, limits: Limits)
    requires Valid(s, limits) && Agrees(t, s) && ChangeFits(s, change, limits)
    requires op.operationId !in RecordIds(s.ledger) && ValidOperation(op.operationId, op.clientId)
    requires through ==
      if |s.metadataHistory| + 1 > limits.maxHistoryRows || s.metadataBytes + bytes > limits.maxHistoryBytes
      then s.metadataRevision + 1 else 0
    ensures Elements(RestructuredOrder(s.order, change)) <= RestructuredDocuments(s.documents, change).Keys
    ensures NoDuplicates(RecordIds(s.ledger))
    ensures Valid(AcceptMetadata(s, op, change, bytes, limits), limits)
    ensures
      var commit := MetadataCommit(s, op, change, bytes, limits);
      && (Acceptable(t, commit) <==> Trimmed(op.operationId) && Trimmed(op.clientId))
      && Agrees(Committed(t, commit), AcceptMetadata(s, op, change, bytes, limits))
      && commit == CommitOf(
           s.(documents := RestructuredDocuments(s.documents, change), order := RestructuredOrder(s.order, change),
             metadataRevision := s.metadataRevision + 1),
           StructureRecord(op, s.metadataRevision, change), through, limits)
      && through == if MetadataOverflows(s, bytes, limits) then s.metadataRevision + 1 else 0
    ensures s.metadataRevision >= 0 && (s.metadataHistory == [] ==> s.metadataCompacted == s.metadataRevision)
    ensures s.metadataHistory != [] ==> s.metadataHistory[0].revision == s.metadataCompacted + 1
  {
    hide NoDuplicates, DocumentsFit, LogFits, MetadataFits, ViewsFit, TotalBytes, Elements, Acceptable, Committed,
         Agrees, RestructuredDocuments, RestructuredOrder, ChangeFits, Structured;
    MetadataPrepared(t, s, op, change, bytes, limits);
  }

  /** The room stays within its byte limit with the edited text. */
  ghost predicate EditFits(s: State, op: DocumentOperation, changes: ChangeSet, limits: Limits)
    requires op.documentId in s.documents && OldLen(changes) == |s.documents[op.documentId].content|
  {
    && Elements(s.order) <= s.documents.Keys
    && var content := s.documents[op.documentId].content;
       TotalBytes(s.documents, s.order) - Utf8Bytes(content) + Utf8Bytes(Stored(changes, content)) <= limits.maxBytes
  }

  lemma SizeFits(s: State, op: DocumentOperation, changes: ChangeSet, content: Text, limits: Limits)
    requires Structured(s.documents, s.order, limits) && op.documentId in s.documents
    requires OldLen(changes) == |s.documents[op.documentId].content|
    requires content == Stored(changes, s.documents[op.documentId].content)
    ensures Elements(s.order) <= s.documents[op.documentId := s.documents[op.documentId].(content := content)].Keys
    ensures
      var total := TotalBytes(s.documents[op.documentId := s.documents[op.documentId].(content := content)], s.order);
      && (EditFits(s, op, changes, limits) <==> total <= limits.maxBytes)
      && total == TotalBytes(s.documents, s.order) - Utf8Bytes(s.documents[op.documentId].content) + Utf8Bytes(content)
  {
    hide TotalBytes, Stored, NoDuplicates, Labelled;
    EditedTotal(s.documents, s.order, op.documentId, s.documents[op.documentId].(content := content));
  }

  /** The store can be reached and takes the operation's ids. */
  predicate Commits(operationId: string, clientId: string, available: bool) {
    available && Trimmed(operationId) && Trimmed(clientId)
  }

  /** The reply to a screened new edit whose rebased form is `changes`. */
  ghost function EditDecision(
      s: State, op: DocumentOperation, changes: ChangeSet, available: bool, policy: Policy): Reply
    requires op.documentId in s.documents && OldLen(changes) == |s.documents[op.documentId].content|
  {
    if !EditFits(s, op, changes, policy.limits) then Refused(RoomLimit)
    else if policy.payloadBytes(changes) > policy.limits.maxMessageBytes then Refused(OperationLimit)
    else if !Commits(op.operationId, op.clientId, available) then Refused(Persistence)
    else Accepted(EditAnswer(op.documentId, op.baseVersion, s.documents[op.documentId].revision + 1, changes), false)
  }

  /** A new edit is rebased, and the decision about its rebased form is the reply. */
  ghost predicate EditDecided(s: State, op: DocumentOperation, available: bool, policy: Policy, r: Reply) {
    exists changes :: EditedBy(s, op, changes) && r == EditDecision(s, op, changes, available, policy)
  }

  /**
    What one submitted edit does to the room. A refused or remembered operation
    changes nothing. A screened new edit is refused if and only if its rebased
    form does not fit the room, its payload is too large or the store does not
    commit it; otherwise that form becomes the document's next revision.
  */
  ghost predicate EditStep(
      s: State, t: State, op: DocumentOperation, permitted: bool, available: bool, policy: Policy, r: Reply)
    requires DocumentsFit(s.documents, s.trails, policy.limits)
  {
    var verdict := Precheck(s, op, permitted, policy);
    && (verdict.Fail? ==> r == Refused(verdict.reason))
    && (verdict.Pass? && op.operationId in RecordIds(s.ledger) ==>
          r == Answered(RecordFor(s.ledger, op.operationId), EditRequest(op)))
    && (verdict.Pass? && op.operationId !in RecordIds(s.ledger) ==> EditDecided(s, op, available, policy, r))
    && (r.Refused? || r.duplicate ==> t == s)
    && (r.Accepted? && !r.duplicate ==>
          && op.operationId !in RecordIds(s.ledger) && ValidOperation(op.operationId, op.clientId)
          && r.answer.EditAnswer? && EditedBy(s, op, r.answer.changes)
          && EditFits(s, op, r.answer.changes, policy.limits)
          && t == AcceptEdit(s, op, r.answer.changes, policy.payloadBytes(r.answer.changes), policy.limits)
          && r.answer ==
            EditAnswer(op.documentId, op.baseVersion, s.documents[op.documentId].revision + 1, r.answer.changes))
  }

  /** The reply to a metadata operation that asks for a fitting change. */
  ghost function MetadataDecision(
      s: State, op: MetadataOperation, change: MetadataChange, available: bool, policy: Policy): Reply {
    if policy.metadataBytes(change) > policy.limits.maxMessageBytes then Refused(OperationLimit)
    else if !Commits(op.operationId, op.clientId, available) then Refused(Persistence)
    else Accepted(StructureAnswer(s.metadataRevision, s.metadataRevision + 1, change), false)
  }

  /** What one metadata operation does to the room. */
  ghost predicate MetadataStep(
      s: State, t: State, op: MetadataOperation, permitted: bool, generated: seq<Id>, available: bool,
        policy: Policy, r: Reply)
    requires Elements(s.order) <= s.documents.Keys
  {
    var proposal := Proposed(s, op, permitted, generated, policy);
    && (proposal.Reject? ==> r == Refused(proposal.reason))
    && (proposal.Known? ==>
          op.operationId in RecordIds(s.ledger) && r == Answered(RecordFor(s.ledger, op.operationId),
            StructureRequest(op)))
    && (proposal.Change? ==> r == MetadataDecision(s, op, proposal.change, available, policy))
    && (r.Refused? || r.duplicate ==> t == s)
    && (r.Accepted? && !r.duplicate ==>
          && proposal.Change? && op.operationId !in RecordIds(s.ledger) && ValidOperation(op.operationId, op.clientId)
          && ChangeFits(s, proposal.change, policy.limits)
          && Elements(RestructuredOrder(s.order, proposal.change)) <=
            RestructuredDocuments(s.documents, proposal.change).Keys
          && t == AcceptMetadata(s, op, proposal.change, policy.metadataBytes(proposal.change), policy.limits)
          && r.answer == StructureAnswer(s.metadataRevision, s.metadataRevision + 1, proposal.change))
  }

  class Room {
    const policy: Policy
    const store: Store
    var documents: map<Id, Document>
    var order: seq<Id>
    var metadataRevision: int
    var metadataHistory: seq<MetadataEntry>
    var metadataHistoryBytes: int
    var metadataCompactedRevision: int
    var operations: map<string, Record>
    var operationOrder: seq<string>
    ghost var trails: map<Id, Trail>
    ghost var viewStart: int
    ghost var views: seq<View>

    /** The ledger map and its order list describe the same records. */
    ghost predicate LedgerTied()
      reads this`operations, this`operationOrder
    {
      && (forall id :: id in operationOrder <==> id in operations)
      && (forall id :: id in operations ==> operations[id].operationId == id)
    }

    ghost function Ledger(): (r: seq<Record>)
      requires LedgerTied()
      reads this`operations, this`operationOrder
      ensures |r| == |operationOrder|
    {
      RecordsOf(operationOrder, operations)
    }

    ghost function Current(): State
      requires LedgerTied()
      reads this
    {
      State(documents, order, metadataRevision, metadataHistory, metadataHistoryBytes, metadataCompactedRevision,
        Ledger(), trails, viewStart, views)
    }

    ghost predicate Sound()
      reads this, store
    {
      && LedgerTied()
      && Valid(Current(), policy.limits)
      && Agrees(store.Contents(), Current())
    }

    /** A room with the given documents and ledger and no retained metadata, at tab list `view`. */
    constructor (
        policy: Policy, store: Store, documents: map<Id, Document>, order: seq<Id>, metadataRevision: int,
          metadataCompacted: int,
        operations: map<string, Record>, operationOrder: seq<string>, ghost trails: map<Id, Trail>, ghost view: View)
      ensures this.policy == policy && this.store == store
      ensures this.documents == documents && this.order == order && this.metadataRevision == metadataRevision
      ensures metadataHistory == [] && metadataHistoryBytes == 0 && metadataCompactedRevision == metadataCompacted
      ensures this.operations == operations && this.operationOrder == operationOrder
      ensures this.trails == trails && viewStart == metadataRevision && views == [view]
    {
      this.policy, this.store := policy, store;
      this.documents, this.order := documents, order;
      this.metadataRevision, this.operations, this.operationOrder := metadataRevision, operations, operationOrder;
      metadataHistory, metadataHistoryBytes, metadataCompactedRevision := [], 0, metadataCompacted;
      this.trails, viewStart, views := trails, metadataRevision, [view];
    }

    lemma LedgerIds()
      requires LedgerTied()
      ensures RecordIds(Ledger()) == operationOrder
      ensures forall id :: id in operations ==> id in RecordIds(Ledger()) && RecordFor(Ledger(), id) == operations[id]
    {
    }

    /** The bytes of the room if one document had another text. */
    method ContentSizeWith(id: Id, content: Text) returns (size: nat)
      requires Elements(order) == documents.Keys && id in documents
      ensures size == TotalBytes(documents[id := documents[id].(content := content)], order)
    {
      ghost var changed := documents[id := documents[id].(content := content)];
      assert forall x :: x in order ==> x in Elements(order);
      size := 0;
      for i := 0 to |order|
        invariant forall x :: x in order[i..] ==> x in Weights(changed)
        invariant size + Sum(order[i..], Weights(changed)) == TotalBytes(changed, order)
      {
        assert order[i..][1..] == order[i + 1..];
        assert order[i] in Elements(order);
        size := size + Utf8Bytes(if order[i] == id then content else documents[order[i]].content);
      }
    }

    /** The rows of a durable snapshot, listed by position. */
    method SyncSnapshot() returns (snapshot: Snapshot)
      requires Elements(order) <= documents.Keys
      ensures snapshot == Snapshot(metadataRevision, metadataRevision, ListedDocuments(documents, order))
    {
      var listed := ListRows(documents, order);
      snapshot := Snapshot(metadataRevision, metadataRevision, listed);
    }

    method Append(record: Record)
      requires LedgerTied() && record.operationId !in operations
      modifies this`operations, this`operationOrder
      ensures LedgerTied() && Ledger() == old(Ledger()) + [record]
      ensures operationOrder == old(operationOrder) + [record.operationId]
    {
      operations := operations[record.operationId := record];
      operationOrder := operationOrder + [record.operationId];
    }

    method ForgetOldest()
      requires LedgerTied() && NoDuplicates(operationOrder) && operationOrder != []
      modifies this`operations, this`operationOrder
      ensures LedgerTied() && Ledger() == old(Ledger())[1..]
      ensures operationOrder == old(operationOrder)[1..] && NoDuplicates(operationOrder)
    {
      var id := operationOrder[0];
      assert forall other :: other in operationOrder[1..] ==> other != id;
      operationOrder := operationOrder[1..];
      operations := operations - {id};
    }

    /** Remembers one more operation and forgets the oldest beyond the limit. */
    method Remember(record: Record)
      requires LedgerTied() && NoDuplicates(operationOrder) && record.operationId !in operations
      modifies this`operations, this`operationOrder
      ensures LedgerTied() && Ledger() == Remembered(old(Ledger()), record, policy.limits)
    {
      Append(record);
      ghost var all, dropped := Ledger(), 0;
      assert NoDuplicates(operationOrder);
      while |operationOrder| > policy.limits.LedgerRows()
        invariant 0 <= dropped <= |all| && (dropped > 0 ==> |operationOrder| >= policy.limits.LedgerRows())
        invariant LedgerTied() && NoDuplicates(operationOrder) && Ledger() == all[dropped..]
        decreases |operationOrder|
      {
        ForgetOldest();
        dropped := dropped + 1;
      }
    }

    /** The checks on an edit before it is rebased. */
    method Screen(op: DocumentOperation, permitted: bool) returns (verdict: Verdict)
      requires Sound()
      ensures verdict == Precheck(Current(), op, permitted, policy)
    {
      hide NoDuplicates, Structured, LogFits, MetadataFits, ViewsFit, Agrees;
      LedgerIds();
      if !permitted {
        return Fail(NotPermitted);
      }
      if !ValidOperation(op.operationId, op.clientId) {
        return Fail(OperationConflict);
      }
      if op.operationId in operations {
        return Pass;
      }
      if !ValidDocumentId(op.documentId) || op.documentId !in documents {
        return Fail(DocumentNotFound);
      }
      var d := documents[op.documentId];
      assert DocumentFits(documents, trails, policy.limits, op.documentId);
      if op.baseVersion < d.compacted {
        return Fail(DocumentResync);
      }
      if op.baseVersion > d.revision {
        return Fail(RevisionConflict);
      }
      var length, found := FindLength(d, op.baseVersion);
      if !found {
        return Fail(DocumentResync);
      }
      if InsertedBytes(op.changes) > policy.limits.maxMessageBytes {
        return Fail(OperationLimit);
      }
      if policy.encodedBytes(op.changes) > policy.limits.maxMessageBytes {
        return Fail(OperationLimit);
      }
      if OldLen(op.changes) != length {
        return Fail(RevisionConflict);
      }
      return Pass;
    }

    /** Adds an accepted edit to its document's history, or drops the history whole when it is compacted. */
    method RecordHistory(id: Id, entry: Entry, through: int, ghost d: Document, ghost content: Text)
      requires id in documents && documents[id] == d.(content := content, revision := d.revision + 1)
      requires Coherent(d) && StoredStep(entry.changes, d.content, content)
      requires entry.revision == d.revision + 1 && entry.baseVersion == d.revision && entry.beforeLen == |d.content|
      requires through == EditCompaction(d, entry, content, policy.limits)
      modifies this`documents
      ensures documents == old(documents)[id := NextDocument(d, entry, content, policy.limits)]
    {
      AppliedLength(entry.changes, d.content);
      ExtendedCoherent(d, entry, content);
      var document := documents[id];
      document := document.(history := document.history + [entry], historyBytes := document.historyBytes + entry.bytes);
      document := PruneHistory(document, policy.limits.maxHistoryRows, policy.limits.maxHistoryBytes);
      if through > 0 {
        document := document.(history := [], historyBytes := 0, compacted := through);
      }
      documents := documents[id := document];
    }

    /**
      Puts the edited text in place and commits it. When the payload is too
      large or the store fails, memory is put back exactly as it was.
    */
    method PersistEdit(
        op: DocumentOperation, changes: ChangeSet, content: Text, through: int, available: bool, ghost commit: Commit)
        returns (verdict: Verdict)
      requires LedgerTied() && op.documentId in documents && Elements(order) <= documents.Keys
      requires
        var d := documents[op.documentId];
        && commit == CommitOf(
             Current().(documents := documents[op.documentId := d.(content := content, revision := d.revision + 1)]),
             EditRecord(op, d, changes), through, policy.limits)
      modifies this`documents, store
      ensures verdict ==
        if policy.payloadBytes(changes) > policy.limits.maxMessageBytes then Fail(OperationLimit)
        else if !available || !old(Acceptable(store.Contents(), commit)) then Fail(Persistence)
        else Pass
      ensures verdict.Fail? ==> documents == old(documents) && store.Contents() == old(store.Contents())
      ensures verdict.Pass? ==>
        && (var d := old(documents)[op.documentId];
            documents == old(documents)[op.documentId := d.(content := content, revision := d.revision + 1)])
        && store.Contents() == Committed(old(store.Contents()), commit)
    {
      hide Acceptable, Committed, ListedDocuments, Elements;
      var id, d, backup := op.documentId, documents[op.documentId], documents;
      documents := documents[id := d.(content := content, revision := d.revision + 1)];
      var snapshot := SyncSnapshot();
      var parts := Encode(changes);
      if policy.payloadBytes(changes) > policy.limits.maxMessageBytes {
        documents := backup;
        return Fail(OperationLimit);
      }
      assert parts == EncodedParts(changes);
      var row := OperationRow(op.operationId, op.clientId, EditRequest(op), DocumentStream(id), op.baseVersion,
        d.revision + 1, EditPayload(parts));
      var ok := store.CommitChange(
        Commit(snapshot, DocumentStream(id), d.revision + 1, EditPayload(parts), row, through,
          policy.limits.LedgerRows()), available);
      if !ok {
        documents := backup;
        return Fail(Persistence);
      }
      return Pass;
    }

    /** What memory records once an edit is durable. */
    method RecordEdit(
        op: DocumentOperation, changes: ChangeSet, content: Text, bytes: nat, through: int, d: Document,
        ghost before: State)
      requires LedgerTied() && NoDuplicates(operationOrder) && op.operationId !in operations
      requires op.documentId in before.documents && op.documentId in before.trails
      requires d == before.documents[op.documentId]
      requires OldLen(changes) == |d.content| && content == Stored(changes, d.content) && Coherent(d)
      requires Current() ==
        before.(documents := before.documents[op.documentId := d.(content := content, revision := d.revision + 1)])
      requires through == EditCompaction(d, EditEntry(op, d, changes, bytes), content, policy.limits)
      modifies this
      ensures LedgerTied() && Current() == AcceptEdit(before, op, changes, bytes, policy.limits)
    {
      hide NoDuplicates, Remembered, Coherent, Stored, OldLen;
      var id := op.documentId;
      Remember(Record(op.operationId, op.clientId, EditRequest(op),
        EditAnswer(id, op.baseVersion, d.revision + 1, changes)));
      RecordHistory(id, Entry(op.operationId, op.clientId, d.revision + 1, d.revision, |d.content|, bytes, changes),
        through, d, content);
      trails := AcceptEdit(before, op, changes, bytes, policy.limits).trails;
    }

    /** Commits a rebased edit and remembers it, or refuses it and changes nothing. */
    method CommitEdit(op: DocumentOperation, changes: ChangeSet, content: Text, available: bool) returns (r: Reply)
      requires Sound() && op.documentId in documents && op.operationId !in operations && op.baseVersion >= 0
      requires ValidOperation(op.operationId, op.clientId)
      requires OldLen(changes) == |documents[op.documentId].content|
      requires content == Stored(changes, documents[op.documentId].content)
      requires TotalBytes(documents, order) - Utf8Bytes(documents[op.documentId].content) + Utf8Bytes(content) <=
        policy.limits.maxBytes
      modifies this, store
      ensures Sound()
      ensures r.Refused? ==> Current() == old(Current()) && store.Contents() == old(store.Contents())
      ensures r.Accepted? ==>
        && op.documentId in old(trails)
        && Current() == AcceptEdit(old(Current()), op, changes, policy.payloadBytes(changes), policy.limits)
      ensures r ==
        if policy.payloadBytes(changes) > policy.limits.maxMessageBytes then Refused(OperationLimit)
        else if !Commits(op.operationId, op.clientId, available) then Refused(Persistence)
        else Accepted(EditAnswer(op.documentId, op.baseVersion, old(documents)[op.documentId].revision + 1, changes),
          false)
    {
      hide Valid, Agrees, AcceptEdit, EditCommit, CommitOf, EditCompaction, NoDuplicates, TotalBytes, Elements, Stored,
           Acceptable, Committed, Coherent, ValidOperation, Trimmed;
      ghost var before := Current();
      var id, d, bytes := op.documentId, documents[op.documentId], policy.payloadBytes(changes);
      var through :=
        if |d.history| + 1 > policy.limits.maxHistoryRows || d.historyBytes + bytes > policy.limits.maxHistoryBytes
        then d.revision + 1 else 0;
      LedgerIds();
      EditReady(store.Contents(), before, op, changes, content, bytes, through, policy.limits);
      var verdict :=
        PersistEdit(op, changes, content, through, available, EditCommit(before, op, changes, bytes, policy.limits));
      if verdict.Fail? {
        return Refused(verdict.reason);
      }
      RecordEdit(op, changes, content, bytes, through, d, before);
      r := Accepted(EditAnswer(id, op.baseVersion, d.revision + 1, changes), false);
    }

    /** Rebases a screened edit to the current text and applies it; neither can fail. */
    method RebaseAndApply(op: DocumentOperation) returns (ok: bool, failure: Refusal, changes: ChangeSet, content: Text)
      requires Sound() && Precheck(Current(), op, true, policy).Pass? && op.operationId !in operations
      ensures ok && EditedBy(Current(), op, changes) && op.baseVersion >= 0
      ensures ValidOperation(op.operationId, op.clientId)
      ensures op.documentId in documents && OldLen(changes) == |documents[op.documentId].content|
      ensures content == Stored(changes, documents[op.documentId].content)
    {
      hide NoDuplicates, LogFits, MetadataFits, ViewsFit, Agrees, TrailFits;
      LedgerIds();
      var d := documents[op.documentId];
      assert DocumentFits(documents, trails, policy.limits, op.documentId);
      failure, changes, content := RevisionConflict, op.changes, [];
      var rebased := Rebase(d, op.changes, op.baseVersion);
      if rebased.Err? {
        ok := false;
        return;
      }
      changes := rebased.value;
      var applied := Apply(changes, d.content);
      if applied.Err? {
        ok, failure := false, InvalidChangeSet;
        return;
      }
      ok, content := true, applied.value;
    }

    /** Rebases, sizes and commits a screened edit that is not remembered. */
    method SubmitNew(op: DocumentOperation, available: bool) returns (r: Reply)
      requires Sound() && Precheck(Current(), op, true, policy).Pass? && op.operationId !in operations
      modifies this, store
      ensures Sound()
      ensures EditDecided(old(Current()), op, available, policy, r)
      ensures r.Refused? ==> Current() == old(Current()) && store.Contents() == old(store.Contents())
      ensures r.Accepted? ==>
        && !r.duplicate && ValidOperation(op.operationId, op.clientId)
        && r.answer.EditAnswer? && EditedBy(old(Current()), op, r.answer.changes)
        && EditFits(old(Current()), op, r.answer.changes, policy.limits)
        && Current() ==
          AcceptEdit(old(Current()), op, r.answer.changes, policy.payloadBytes(r.answer.changes), policy.limits)
        && r.answer ==
          EditAnswer(op.documentId, op.baseVersion, old(documents)[op.documentId].revision + 1, r.answer.changes)
    {
      hide NoDuplicates, DocumentsFit, LogFits, MetadataFits, ViewsFit, LedgerFits, Labelled, Stored, Agrees,
           AcceptEdit, EditedBy, TotalBytes, EditFits, Precheck, ValidOperation, Trimmed;
      ghost var before := Current();
      var ok, failure, changes, content := RebaseAndApply(op);
      if !ok {
        return Refused(failure);
      }
      assert op.documentId in before.trails by { RebasedHasTrail(before, op, changes); }
      var size := ContentSizeWith(op.documentId, content);
      SizeFits(before, op, changes, content, policy.limits);
      if size > policy.limits.maxBytes {
        r := Refused(RoomLimit);
        assert r == EditDecision(before, op, changes, available, policy);
        return;
      }
      r := CommitEdit(op, changes, content, available);
      assert r == EditDecision(before, op, changes, available, policy);
    }

    /**
      Submits an edit made for some earlier revision. Only the listed checks,
      the size limits and the store can refuse it: rebasing and applying never
      fail. A remembered operation is answered from the ledger and changes
      nothing, a refused one leaves memory and store as they were, and an
      accepted one takes the document to its next revision by its rebased form.
    */
    method SubmitDocument(op: DocumentOperation, permitted: bool, available: bool) returns (r: Reply)
      requires Sound()
      modifies this, store
      ensures Sound()
      ensures EditStep(old(Current()), Current(), op, permitted, available, policy, r)
      ensures r.Refused? || r.duplicate ==> store.Contents() == old(store.Contents())
    {
      hide NoDuplicates, DocumentsFit, LogFits, MetadataFits, ViewsFit, LedgerFits, Structured, Agrees, AcceptEdit,
           EditedBy, EditFits, EditDecided, ValidOperation;
      var verdict := Screen(op, permitted);
      if verdict.Fail? {
        return Refused(verdict.reason);
      }
      LedgerIds();
      if op.operationId in operations {
        var record := operations[op.operationId];
        if record.request != EditRequest(op) || !record.answer.EditAnswer? {
          return Refused(DuplicateOperation);
        }
        return Accepted(record.answer, true);
      }
      r := SubmitNew(op, available);
    }

    /** Checks a metadata operation and works out the change it asks for. */
    method Propose(op: MetadataOperation, permitted: bool, generated: seq<Id>) returns (p: Proposal)
      requires Sound()
      ensures p == Proposed(Current(), op, permitted, generated, policy)
    {
      hide NoDuplicates, DocumentsFit, LogFits, MetadataFits, ViewsFit, Agrees, LedgerFits, Labelled, TotalBytes,
           ValidOperation, ValidTabName, ValidLanguage, ValidDocumentId, FirstFree;
      LedgerIds();
      var limits := policy.limits;
      if !permitted {
        return Reject(NotPermitted);
      }
      if !ValidOperation(op.operationId, op.clientId) {
        return Reject(OperationConflict);
      }
      if op.operationId in operations {
        return Known;
      }
      if op.baseVersion < 0 || op.baseVersion > metadataRevision {
        return Reject(RevisionConflict);
      }
      match op.request {
        case CreateDocument(name, language, content) =>
          if |order| >= limits.maxTabs {
            return Reject(RoomLimit);
          }
          if !ValidTabName(name) {
            return Reject(InvalidName);
          }
          if !ValidLanguage(language) {
            return Reject(InvalidLanguage);
          }
          if Utf8Bytes(content) > limits.maxMessageBytes {
            return Reject(OperationLimit);
          }
          var size := ContentSize();
          if size + Utf8Bytes(content) > limits.maxBytes {
            return Reject(RoomLimit);
          }
          var found, id := NewDocumentId(generated);
          if !found {
            return Reject(OperationLimit);
          }
          return Change(Created(id, name, language, content));
        case UpdateDocument(id, name, language) =>
          if id !in documents {
            return Reject(DocumentDeleted);
          }
          if !ValidTabName(name) {
            return Reject(InvalidName);
          }
          if !ValidLanguage(language) {
            return Reject(InvalidLanguage);
          }
          return Change(Updated(id, name, language));
        case DeleteDocument(id) =>
          if |order| == 1 {
            return Reject(LastDocument);
          }
          if id !in documents {
            return Reject(DocumentDeleted);
          }
          return Change(Deleted(id));
        case ReorderDocuments(reordered) =>
          if op.baseVersion != metadataRevision {
            return Reject(MetadataResync);
          }
          var valid := ValidateDocumentOrder(reordered, limits.maxTabs);
          if !valid || |reordered| != |order| {
            return Reject(MetadataResync);
          }
          for i := 0 to |reordered|
            invariant forall k :: 0 <= k < i ==> reordered[k] in documents
          {
            if reordered[i] !in documents {
              return Reject(MetadataResync);
            }
          }
          return Change(Reordered(reordered));
        case OtherKind =>
          return Reject(OperationConflict);
      }
    }

    method ContentSize() returns (size: nat)
      requires Elements(order) == documents.Keys
      ensures size == TotalBytes(documents, order)
    {
      assert forall x :: x in order ==> x in Elements(order);
      size := 0;
      for i := 0 to |order|
        invariant forall x :: x in order[i..] ==> x in Weights(documents)
        invariant size + Sum(order[i..], Weights(documents)) == TotalBytes(documents, order)
      {
        assert order[i..][1..] == order[i + 1..];
        assert order[i] in Elements(order);
        size := size + Utf8Bytes(documents[order[i]].content);
      }
    }

    /** The first generated id that is valid and not in use. */
    method NewDocumentId(generated: seq<Id>) returns (found: bool, id: Id)
      ensures found == FirstFree(generated, documents.Keys).Ok?
      ensures found ==> id == FirstFree(generated, documents.Keys).value
    {
      for i := 0 to |generated|
        invariant FirstFree(generated[i..], documents.Keys) == FirstFree(generated, documents.Keys)
      {
        assert generated[i..][1..] == generated[i + 1..];
        if ValidDocumentId(generated[i]) && generated[i] !in documents {
          return true, generated[i];
        }
      }
      found, id := false, "";
    }

    /** Applies a change of the tab list to the documents and their order. */
    method Restructure(change: MetadataChange)
      requires change.Updated? ==> change.id in documents
      modifies this`documents, this`order
      ensures documents == RestructuredDocuments(old(documents), change)
      ensures order == RestructuredOrder(old(order), change)
    {
      match change {
        case Created(id, name, language, content) =>
          documents := documents[id := Document(name, language, content, 0, [], 0, 0)];
          order := order + [id];
        case Updated(id, name, language) =>
          documents := documents[id := documents[id].(name := name, language := language)];
        case Deleted(id) =>
          documents := documents - {id};
          order := RemoveFromOrder(order, id);
        case Reordered(reordered) =>
          order := reordered;
      }
    }

    /** Adds an accepted change to the metadata history, or drops the history whole when it is compacted. */
    method RecordMetadata(entry: MetadataEntry, through: int)
      requires through >= 0
      requires through == 0 <==>
        && |metadataHistory| + 1 <= policy.limits.maxHistoryRows
        && metadataHistoryBytes + entry.bytes <= policy.limits.maxHistoryBytes
      modifies this`metadataHistory, this`metadataHistoryBytes, this`metadataCompactedRevision
      ensures through == 0 ==>
        && metadataHistory == old(metadataHistory) + [entry]
        && metadataHistoryBytes == old(metadataHistoryBytes) + entry.bytes
        && metadataCompactedRevision == (old(metadataHistory) + [entry])[0].revision - 1
      ensures through != 0 ==>
        metadataHistory == [] && metadataHistoryBytes == 0 && metadataCompactedRevision == through
    {
      metadataHistory := metadataHistory + [entry];
      metadataHistoryBytes := metadataHistoryBytes + entry.bytes;
      while |metadataHistory| > policy.limits.maxHistoryRows || metadataHistoryBytes > policy.limits.maxHistoryBytes
        invariant through == 0 ==>
          && metadataHistory == old(metadataHistory) + [entry]
          && metadataHistoryBytes == old(metadataHistoryBytes) + entry.bytes
        decreases |metadataHistory|
      {
        if |metadataHistory| == 0 {
          break;
        }
        metadataHistoryBytes := metadataHistoryBytes - metadataHistory[0].bytes;
        metadataHistory := metadataHistory[1..];
      }
      if |metadataHistory| > 0 {
        metadataCompactedRevision := metadataHistory[0].revision - 1;
      } else {
        metadataCompactedRevision := entry.revision;
      }
      if through > 0 {
        metadataHistory, metadataHistoryBytes, metadataCompactedRevision := [], 0, through;
      }
    }

    /** Puts a change of the tab list in place and commits it, or puts everything back. */
    method PersistMetadata(
        op: MetadataOperation, change: MetadataChange, through: int, available: bool, ghost commit: Commit)
        returns (verdict: Verdict)
      requires LedgerTied() && (change.Updated? ==> change.id in documents)
      requires Elements(RestructuredOrder(order, change)) <= RestructuredDocuments(documents, change).Keys
      requires commit == CommitOf(
        Current().(documents := RestructuredDocuments(documents, change), order := RestructuredOrder(order, change),
          metadataRevision := metadataRevision + 1),
        StructureRecord(op, metadataRevision, change), through, policy.limits)
      modifies this`documents, this`order, this`metadataRevision, store
      ensures verdict ==
        if policy.metadataBytes(change) > policy.limits.maxMessageBytes then Fail(OperationLimit)
        else if !available || !old(Acceptable(store.Contents(), commit)) then Fail(Persistence)
        else Pass
      ensures verdict.Fail? ==>
        && documents == old(documents) && order == old(order) && metadataRevision == old(metadataRevision)
        && store.Contents() == old(store.Contents())
      ensures verdict.Pass? ==>
        && documents == RestructuredDocuments(old(documents), change) && order == RestructuredOrder(old(order), change)
        && metadataRevision == old(metadataRevision) + 1
        && store.Contents() == Committed(old(store.Contents()), commit)
    {
      hide RestructuredDocuments, RestructuredOrder, Acceptable, Committed;
      var backupDocuments, backupOrder, backupRevision := documents, order, metadataRevision;
      Restructure(change);
      metadataRevision := metadataRevision + 1;
      var snapshot := SyncSnapshot();
      if policy.metadataBytes(change) > policy.limits.maxMessageBytes {
        documents, order, metadataRevision := backupDocuments, backupOrder, backupRevision;
        return Fail(OperationLimit);
      }
      var row := OperationRow(op.operationId, op.clientId, StructureRequest(op), MetadataStream, backupRevision,
        backupRevision + 1, StructurePayload(change));
      var ok := store.CommitChange(
        Commit(snapshot, MetadataStream, backupRevision + 1, StructurePayload(change), row, through,
          policy.limits.LedgerRows()), available);
      if !ok {
        documents, order, metadataRevision := backupDocuments, backupOrder, backupRevision;
        return Fail(Persistence);
      }
      return Pass;
    }

    /** What memory records once a change of the tab list is durable. */
    method RecordStructure(op: MetadataOperation, change: MetadataChange, bytes: nat, through: int, ghost before: State)
      requires LedgerTied() && NoDuplicates(operationOrder) && op.operationId !in operations
      requires Elements(RestructuredOrder(before.order, change)) <= RestructuredDocuments(before.documents, change).Keys
      requires Current() == before.(
        documents := RestructuredDocuments(before.documents, change), order := RestructuredOrder(before.order, change),
        metadataRevision := before.metadataRevision + 1)
      requires through == if MetadataOverflows(before, bytes, policy.limits) then before.metadataRevision + 1 else 0
      requires before.metadataRevision >= 0
      requires (before.metadataHistory == [] ==> before.metadataCompacted == before.metadataRevision)
      requires before.metadataHistory != [] ==> before.metadataHistory[0].revision == before.metadataCompacted + 1
      modifies this
      ensures LedgerTied() && Current() == AcceptMetadata(before, op, change, bytes, policy.limits)
    {
      hide RestructuredDocuments, RestructuredOrder, NoDuplicates, Remembered, TabsOf, Elements;
      ghost var next := AcceptMetadata(before, op, change, bytes, policy.limits);
      Remember(Record(op.operationId, op.clientId, StructureRequest(op),
        StructureAnswer(metadataRevision - 1, metadataRevision, change)));
      RecordMetadata(MetadataEntry(op.operationId, op.clientId, metadataRevision, bytes, change), through);
      trails, views := next.trails, next.views;
    }

    /** Commits a fitting change of the tab list and remembers it, or refuses it and changes nothing. */
    method CommitMetadata(op: MetadataOperation, change: MetadataChange, available: bool) returns (r: Reply)
      requires Sound() && ChangeFits(Current(), change, policy.limits) && op.operationId !in operations
      requires ValidOperation(op.operationId, op.clientId)
      requires change.Updated? ==> change.id in documents
      modifies this, store
      ensures Sound()
      ensures r.Refused? ==> Current() == old(Current()) && store.Contents() == old(store.Contents())
      ensures r.Accepted? ==>
        && Elements(RestructuredOrder(old(order), change)) <= RestructuredDocuments(old(documents), change).Keys
        && Current() == AcceptMetadata(old(Current()), op, change, policy.metadataBytes(change), policy.limits)
      ensures r == MetadataDecision(old(Current()), op, change, available, policy)
    {
      hide Valid, Agrees, AcceptMetadata, MetadataCommit, CommitOf, MetadataOverflows, NoDuplicates, Elements,
           Acceptable, Committed, RestructuredDocuments, RestructuredOrder, ChangeFits, ValidOperation, Trimmed;
      ghost var before := Current();
      var bytes := policy.metadataBytes(change);
      var through := if |metadataHistory| + 1 > policy.limits.maxHistoryRows
        || metadataHistoryBytes + bytes > policy.limits.maxHistoryBytes
        then metadataRevision + 1 else 0;
      LedgerIds();
      MetadataReady(store.Contents(), before, op, change, bytes, through, policy.limits);
      var verdict :=
        PersistMetadata(op, change, through, available, MetadataCommit(before, op, change, bytes, policy.limits));
      if verdict.Fail? {
        return Refused(verdict.reason);
      }
      r := Accepted(StructureAnswer(metadataRevision - 1, metadataRevision, change), false);
      RecordStructure(op, change, bytes, through, before);
    }

    /**
      Applies a metadata operation: create, update, delete or reorder documents.
      As with edits, refusals and remembered operations change nothing, and an
      accepted change advances memory and store together by one metadata
      revision. Generated ids are assumed never to reuse a deleted document's.
    */
    method ApplyMetadata(op: MetadataOperation, permitted: bool, generated: seq<Id>, available: bool) returns (r: Reply)
      requires Sound()
      requires forall id :: id in generated && id in trails ==> id in documents
      modifies this, store
      ensures Sound()
      ensures MetadataStep(old(Current()), Current(), op, permitted, generated, available, policy, r)
      ensures r.Refused? || r.duplicate ==> store.Contents() == old(store.Contents())
    {
      hide NoDuplicates, DocumentsFit, LogFits, MetadataFits, ViewsFit, TotalBytes, Elements, Proposed, Agrees,
           AcceptMetadata, RestructuredDocuments, RestructuredOrder, ChangeFits, Structured;
      ghost var before := Current();
      var proposal := Propose(op, permitted, generated);
      LedgerIds();
      ProposalFacts(before, op, permitted, generated, policy);
      match proposal {
        case Reject(reason) =>
          return Refused(reason);
        case Known =>
          var record := operations[op.operationId];
          if record.request != StructureRequest(op) || !record.answer.StructureAnswer? {
            return Refused(DuplicateOperation);
          }
          return Accepted(record.answer, true);
        case Change(change) =>
          r := CommitMetadata(op, change, available);
      }
    }
  }
}
