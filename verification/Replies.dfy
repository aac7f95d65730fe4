/**
  What the room answers and why, in terms of its state alone: every refusal has
  its exact condition, everything else is accepted, and what an accepted
  operation leaves is what was asked for.
*/
module Replies {
  import opened Utf16
  import opened ChangeSets
  import opened Surrogates
  import opened Histories
  import opened Sequences
  import opened Validation
  import opened Authority
  import opened Rooms

  // ----- Operation ids -----

  /** The operation was permitted, has proper ids, and is not one the room remembers. */
  ghost predicate IsNew(s: State, operationId: string, clientId: string, permitted: bool) {
    permitted && ValidOperation(operationId, clientId) && !Remembers(s, operationId)
  }

  ghost predicate Remembers(s: State, operationId: string) {
    exists i :: 0 <= i < |s.ledger| && s.ledger[i].operationId == operationId
  }

  /** The room remembers this very request, answered like this. */
  ghost predicate Answers(s: State, operationId: string, request: Request, answer: Answer) {
    exists i ::
      && 0 <= i < |s.ledger| && s.ledger[i].operationId == operationId
      && s.ledger[i].request == request && s.ledger[i].answer == answer
  }

  lemma RemembersIds(s: State, operationId: string)
    ensures Remembers(s, operationId) <==> operationId in RecordIds(s.ledger)
  {
    if Remembers(s, operationId) {
      var i :| 0 <= i < |s.ledger| && s.ledger[i].operationId == operationId;
      assert RecordIds(s.ledger)[i] == operationId;
    }
    if operationId in RecordIds(s.ledger) {
      var i := IndexIn(RecordIds(s.ledger), operationId);
      assert s.ledger[i].operationId == operationId;
    }
  }

  /** A remembered operation is repeated to whoever asks the same again, and refused to anyone else. */
  lemma RememberedReply(s: State, operationId: string, request: Request, r: Reply, limits: Limits)
    requires LedgerFits(s.ledger, limits) && operationId in RecordIds(s.ledger)
    requires r == Answered(RecordFor(s.ledger, operationId), request)
    ensures r == Refused(DuplicateOperation) || (r.Accepted? && r.duplicate)
    ensures r.Accepted? ==> Answers(s, operationId, request, r.answer)
    ensures r == Refused(DuplicateOperation) ==> !exists answer :: Answers(s, operationId, request, answer)
  {
    hide ValidOperation, ValidDocumentId;
    var k := IndexIn(RecordIds(s.ledger), operationId);
    assert s.ledger[k].operationId == operationId && RecordFits(s.ledger[k]);
    if answer :| Answers(s, operationId, request, answer) {
      var i :| 0 <= i < |s.ledger| && s.ledger[i].operationId == operationId && s.ledger[i].request == request;
      assert RecordIds(s.ledger)[i] == RecordIds(s.ledger)[k];
      assert i == k;
    }
  }

  // ----- Edits -----

  /** The edit names a document and a revision of it that the room still retains. */
  ghost predicate BaseRetained(s: State, op: DocumentOperation) {
    && op.documentId in s.documents
    && s.documents[op.documentId].compacted <= op.baseVersion <= s.documents[op.documentId].revision
  }

  /** The bytes of all inserted texts. */
  ghost function TextBytes(changes: ChangeSet): nat {
    if changes == [] then 0 else Utf8Bytes(changes[0].insert) + TextBytes(changes[1..])
  }

  lemma {:induction false} TextBytesInserted(changes: ChangeSet)
    ensures InsertedBytes(changes) == TextBytes(changes)
    decreases |changes|
  {
    hide Utf8Bytes;
    if |changes| > 1 {
      var init := changes[..|changes| - 1];
      TextBytesInserted(init);
      TextBytesInserted(changes[1..]);
      TextBytesInserted(changes[1..][..|changes| - 2]);
      assert init[1..] == changes[1..][..|changes| - 2];
    } else if |changes| == 1 {
      assert changes[1..] == [] && changes[..0] == [];
    }
  }

  ghost predicate SmallEnough(op: DocumentOperation, policy: Policy) {
    && TextBytes(op.changes) <= policy.limits.maxMessageBytes
    && policy.encodedBytes(op.changes) <= policy.limits.maxMessageBytes
  }

  /** The edit was made for the text of its base revision. */
  ghost predicate MadeForBase(s: State, op: DocumentOperation)
    requires op.documentId in s.trails && s.trails[op.documentId].Covers(op.baseVersion)
  {
    OldLen(op.changes) == |s.trails[op.documentId].At(op.baseVersion)|
  }

  /** A retained revision's length is the length of the text of that revision. */
  lemma RevisionLength(s: State, id: Id, version: int, limits: Limits)
    requires DocumentsFit(s.documents, s.trails, limits) && id in s.documents
    requires Coherent(s.documents[id]) && s.documents[id].compacted <= version <= s.documents[id].revision
    ensures id in s.trails && s.trails[id].Covers(version)
    ensures LengthAt(s.documents[id], version) == |s.trails[id].At(version)|
  {
    hide Stored, OldLen, NewLen;
    var d := s.documents[id];
    assert DocumentFits(s.documents, s.trails, limits, id);
    if version < d.revision {
      var i := version - d.compacted;
      assert EntryFits(d.history, i, d.compacted, |d.content|) && EntryLeads(s.trails[id], d.history[i]);
    }
  }

  /** A new edit for the text of a retained revision, within the message limit. */
  ghost predicate InOrder(s: State, op: DocumentOperation, permitted: bool, policy: Policy) {
    && IsNew(s, op.operationId, op.clientId, permitted) && BaseRetained(s, op) && SmallEnough(op, policy)
    && op.documentId in s.trails && s.trails[op.documentId].Covers(op.baseVersion) && MadeForBase(s, op)
  }

  /**
    Why an edit is refused before it is rebased: each reason exactly when its
    condition holds. Being stale is no reason as long as the base revision is
    retained.
  */
  lemma EditRefusals(
      s: State, t: State, op: DocumentOperation, permitted: bool, available: bool, policy: Policy, r: Reply)
    requires Valid(s, policy.limits) && EditStep(s, t, op, permitted, available, policy, r)
    ensures r == Refused(NotPermitted) <==> !permitted
    ensures r == Refused(OperationConflict) <==> permitted && !ValidOperation(op.operationId, op.clientId)
    ensures r == Refused(DuplicateOperation) <==>
      && permitted && ValidOperation(op.operationId, op.clientId) && Remembers(s, op.operationId)
      && !exists answer :: Answers(s, op.operationId, EditRequest(op), answer)
    ensures r == Refused(DocumentNotFound) <==>
      IsNew(s, op.operationId, op.clientId, permitted) && op.documentId !in s.documents
    ensures r == Refused(DocumentResync) <==>
      && IsNew(s, op.operationId, op.clientId, permitted) && op.documentId in s.documents
      && op.baseVersion < s.documents[op.documentId].compacted
    ensures BaseRetained(s, op) ==> op.documentId in s.trails && s.trails[op.documentId].Covers(op.baseVersion)
    ensures r == Refused(RevisionConflict) <==>
      && IsNew(s, op.operationId, op.clientId, permitted) && op.documentId in s.documents
      && (|| op.baseVersion > s.documents[op.documentId].revision
          || (BaseRetained(s, op) && SmallEnough(op, policy) && !MadeForBase(s, op)))
    ensures r.Accepted? && r.duplicate <==>
      && permitted && ValidOperation(op.operationId, op.clientId)
      && exists answer :: Answers(s, op.operationId, EditRequest(op), answer)
    ensures r.Accepted? && r.duplicate ==> Answers(s, op.operationId, EditRequest(op), r.answer)
  {
    hide MetadataFits, ViewsFit, LedgerFits, LedgerBehind, ValidOperation, EditedBy, EditFits, Answers, Remembers,
         TotalBytes, RecordFor, Answered, MadeForBase, AcceptEdit, InsertedBytes, TextBytes, Utf8Bytes, Structured,
         DocumentsFit, ValidDocumentId;
    TextBytesInserted(op.changes);
    RemembersIds(s, op.operationId);
    AnsweredIsRemembered(s, op.operationId, EditRequest(op));
    if op.operationId in RecordIds(s.ledger) {
      if permitted && ValidOperation(op.operationId, op.clientId) {
        RememberedReply(s, op.operationId, EditRequest(op), r, policy.limits);
      }
    } else if op.documentId in s.documents {
      KnownDocument(s, op.documentId, policy.limits);
      if BaseRetained(s, op) {
        RevisionLength(s, op.documentId, op.baseVersion, policy.limits);
        MadeForLength(s, op);
      }
    }
    if BaseRetained(s, op) {
      KnownDocument(s, op.documentId, policy.limits);
      RevisionLength(s, op.documentId, op.baseVersion, policy.limits);
    }
  }

  lemma AnsweredIsRemembered(s: State, operationId: string, request: Request)
    ensures (exists answer :: Answers(s, operationId, request, answer)) ==> Remembers(s, operationId)
  {
  }

  lemma KnownDocument(s: State, id: Id, limits: Limits)
    requires Valid(s, limits) && id in s.documents
    ensures ValidDocumentId(id) && Coherent(s.documents[id])
  {
    hide MetadataFits, ViewsFit, LedgerFits, LedgerBehind, ValidDocumentId, ValidTabName, ValidLanguage, TotalBytes;
    assert Labelled(id, s.documents[id]) && DocumentFits(s.documents, s.trails, limits, id);
  }

  lemma MadeForLength(s: State, op: DocumentOperation)
    requires op.documentId in s.trails && s.trails[op.documentId].Covers(op.baseVersion)
    ensures MadeForBase(s, op) <==> OldLen(op.changes) == |s.trails[op.documentId].At(op.baseVersion)|
  {
  }

  /** The room's bytes once a document has another text. */
  ghost function BytesWith(s: State, id: Id, content: Text): nat
    requires id in s.documents && Elements(s.order) <= s.documents.Keys
  {
    TotalBytes(s.documents[id := s.documents[id].(content := content)], s.order)
  }

  /** What is decided about the rebased form of an edit that is in order. */
  ghost predicate Settles(
      s: State, op: DocumentOperation, changes: ChangeSet, available: bool, policy: Policy, r: Reply)
    requires op.documentId in s.documents && Elements(s.order) <= s.documents.Keys
    requires OldLen(changes) == |s.documents[op.documentId].content|
  {
    var d := s.documents[op.documentId];
    var fits := BytesWith(s, op.documentId, Stored(changes, d.content)) <= policy.limits.maxBytes;
    var sends := policy.payloadBytes(changes) <= policy.limits.maxMessageBytes;
    var commits := available && Trimmed(op.operationId) && Trimmed(op.clientId);
    && (r == Refused(RoomLimit) <==> !fits)
    && (r == Refused(OperationLimit) <==> fits && !sends)
    && (r == Refused(Persistence) <==> fits && sends && !commits)
    && (r.Accepted? <==> fits && sends && commits)
    && (r.Accepted? ==>
          !r.duplicate && r.answer == EditAnswer(op.documentId, op.baseVersion, d.revision + 1, changes))
  }

  /**
    An edit that is in order is rebased, whatever its base, and refused only if
    its rebased form does not fit the room, its payload the message limit, or
    the store does not take it.
  */
  lemma EditsInOrder(
      s: State, t: State, op: DocumentOperation, permitted: bool, available: bool, policy: Policy, r: Reply)
    requires Valid(s, policy.limits) && EditStep(s, t, op, permitted, available, policy, r)
    requires InOrder(s, op, permitted, policy)
    ensures Elements(s.order) <= s.documents.Keys
    ensures exists changes :: EditedBy(s, op, changes) && Settles(s, op, changes, available, policy, r)
  {
    hide MetadataFits, ViewsFit, LedgerFits, LedgerBehind, ValidOperation, EditFits, Remembers, TotalBytes, Labelled,
         NoDuplicates, AcceptEdit, InsertedBytes, TextBytes, Utf8Bytes, Stored, Rebased, Trimmed, Coherent;
    TextBytesInserted(op.changes);
    RemembersIds(s, op.operationId);
    KnownDocument(s, op.documentId, policy.limits);
    RevisionLength(s, op.documentId, op.baseVersion, policy.limits);
    assert Precheck(s, op, permitted, policy).Pass?;
    var changes :| EditedBy(s, op, changes) && r == EditDecision(s, op, changes, available, policy);
    SizeFits(s, op, changes, Stored(changes, s.documents[op.documentId].content), policy.limits);
  }

  /**
    In particular a stale edit is accepted: permitted, with ids that are proper,
    trimmed and not remembered, made for the text of a retained revision, within
    the limits with its rebased form, and with a store that answers.
  */
  lemma StaleEditAccepted(
      s: State, t: State, op: DocumentOperation, permitted: bool, available: bool, policy: Policy, r: Reply)
    requires Valid(s, policy.limits) && EditStep(s, t, op, permitted, available, policy, r)
    requires InOrder(s, op, permitted, policy) && available && Trimmed(op.operationId) && Trimmed(op.clientId)
    requires Elements(s.order) <= s.documents.Keys
    requires op.documentId in s.documents && forall changes :: EditedBy(s, op, changes) ==>
      && BytesWith(s, op.documentId, Stored(changes, s.documents[op.documentId].content)) <= policy.limits.maxBytes
      && policy.payloadBytes(changes) <= policy.limits.maxMessageBytes
    ensures r.Accepted? && !r.duplicate && r.answer.EditAnswer?
    ensures r.answer.documentId == op.documentId && EditedBy(s, op, r.answer.changes)
    ensures r.answer.revision == s.documents[op.documentId].revision + 1
  {
    hide Valid, EditStep, BytesWith, InOrder, Trimmed, Rebased, Coherent, Stored;
    EditsInOrder(s, t, op, permitted, available, policy, r);
    var changes :| EditedBy(s, op, changes) && Settles(s, op, changes, available, policy, r);
    assert EditedBy(s, op, changes);
  }

  /** Reasons that only an edit in order, or one that is too large, can be refused for. */
  lemma LateRefusals(
      s: State, t: State, op: DocumentOperation, permitted: bool, available: bool, policy: Policy, r: Reply)
    requires Valid(s, policy.limits) && EditStep(s, t, op, permitted, available, policy, r)
    ensures r == Refused(RoomLimit) || r == Refused(Persistence) || (r.Accepted? && !r.duplicate) ==>
      InOrder(s, op, permitted, policy)
    ensures r == Refused(OperationLimit) ==>
      InOrder(s, op, permitted, policy) ||
      (IsNew(s, op.operationId, op.clientId, permitted) && BaseRetained(s, op) && !SmallEnough(op, policy))
    ensures IsNew(s, op.operationId, op.clientId, permitted) && BaseRetained(s, op) && !SmallEnough(op, policy) ==>
      r == Refused(OperationLimit)
    ensures r.Refused? ==> r.reason in {NotPermitted, OperationConflict, DuplicateOperation, DocumentNotFound,
      DocumentResync, RevisionConflict, OperationLimit, RoomLimit, Persistence}
  {
    hide MetadataFits, ViewsFit, LedgerFits, LedgerBehind, ValidOperation, EditFits, Remembers, TotalBytes, Labelled,
         NoDuplicates, AcceptEdit, InsertedBytes, TextBytes, Utf8Bytes, Stored, EditedBy, Trimmed, Coherent, RecordFor,
         Structured;
    TextBytesInserted(op.changes);
    RemembersIds(s, op.operationId);
    if op.documentId in s.documents {
      KnownDocument(s, op.documentId, policy.limits);
      if BaseRetained(s, op) {
        RevisionLength(s, op.documentId, op.baseVersion, policy.limits);
      }
    }
  }

  /**
    What an accepted edit leaves: its document at the next revision with the
    stored text of the rebased form, everything else as it was. The history
    grows by this edit, and goes only if it would exceed a bound.
  */
  lemma EditLeaves(
      s: State, t: State, op: DocumentOperation, permitted: bool, available: bool, policy: Policy, r: Reply)
    requires Valid(s, policy.limits) && EditStep(s, t, op, permitted, available, policy, r)
    requires r.Accepted? && !r.duplicate
    ensures r.answer.EditAnswer? && op.documentId in s.documents && op.documentId in t.documents
    ensures OldLen(r.answer.changes) == |s.documents[op.documentId].content|
    ensures
      var d, e, limits := s.documents[op.documentId], t.documents[op.documentId], policy.limits;
      var bytes := policy.payloadBytes(r.answer.changes);
      && e.content == Stored(r.answer.changes, d.content) && e.revision == d.revision + 1 == r.answer.revision
      && e.name == d.name && e.language == d.language
      && t.documents == s.documents[op.documentId := e]
      && t.order == s.order && t.metadataRevision == s.metadataRevision
      && if |d.history| < limits.maxHistoryRows && d.historyBytes + bytes <= limits.maxHistoryBytes
         then e.compacted == d.compacted && |e.history| == |d.history| + 1 && e.history[..|d.history|] == d.history
         else e.compacted == e.revision && e.history == []
  {
    hide MetadataFits, ViewsFit, LedgerFits, LedgerBehind, Structured, Precheck, Rebased, EditFits, Stored, OldLen,
         Coherent, Remembered;
  }

  // ----- Operations on the tab list -----

  /** A new operation for a metadata revision there has been. */
  ghost predicate InRange(s: State, op: MetadataOperation, permitted: bool) {
    IsNew(s, op.operationId, op.clientId, permitted) && 0 <= op.baseVersion <= s.metadataRevision
  }

  /** The change is refused for its size or by the store, or accepted as the next metadata revision. */
  ghost predicate SettlesChange(
      s: State, op: MetadataOperation, change: MetadataChange, available: bool, policy: Policy, r: Reply)
  {
    var sends := policy.metadataBytes(change) <= policy.limits.maxMessageBytes;
    var commits := available && Trimmed(op.operationId) && Trimmed(op.clientId);
    && (r == Refused(OperationLimit) <==> !sends)
    && (r == Refused(Persistence) <==> sends && !commits)
    && (r.Accepted? <==> sends && commits)
    && (r.Accepted? ==>
          !r.duplicate && r.answer == StructureAnswer(s.metadataRevision, s.metadataRevision + 1, change))
    && (r.Refused? ==> r.reason in {OperationLimit, Persistence})
  }

  /** The refusals that do not depend on what is asked for. */
  lemma MetadataRefusals(
      s: State, t: State, op: MetadataOperation, permitted: bool, generated: seq<Id>, available: bool, policy: Policy,
      r: Reply)
    requires Valid(s, policy.limits) && MetadataStep(s, t, op, permitted, generated, available, policy, r)
    ensures r == Refused(NotPermitted) <==> !permitted
    ensures r == Refused(OperationConflict) <==>
      || (permitted && !ValidOperation(op.operationId, op.clientId))
      || (InRange(s, op, permitted) && op.request.OtherKind?)
    ensures r == Refused(DuplicateOperation) <==>
      && permitted && ValidOperation(op.operationId, op.clientId) && Remembers(s, op.operationId)
      && !exists answer :: Answers(s, op.operationId, StructureRequest(op), answer)
    ensures r == Refused(RevisionConflict) <==>
      && IsNew(s, op.operationId, op.clientId, permitted)
      && (op.baseVersion < 0 || op.baseVersion > s.metadataRevision)
    ensures r.Accepted? && r.duplicate <==>
      && permitted && ValidOperation(op.operationId, op.clientId)
      && exists answer :: Answers(s, op.operationId, StructureRequest(op), answer)
    ensures r.Accepted? && r.duplicate ==> Answers(s, op.operationId, StructureRequest(op), r.answer)
  {
    hide MetadataFits, ViewsFit, LedgerFits, LedgerBehind, ValidOperation, Answers, Remembers, TotalBytes, RecordFor,
         Answered, Labelled, NoDuplicates, Utf8Bytes, AcceptMetadata, DocumentsFit, FirstFree, ValidOrder, ChangeFits;
    RemembersIds(s, op.operationId);
    AnsweredIsRemembered(s, op.operationId, StructureRequest(op));
    if op.operationId in RecordIds(s.ledger) && permitted && ValidOperation(op.operationId, op.clientId) {
      RememberedReply(s, op.operationId, StructureRequest(op), r, policy.limits);
    }
  }

  /** The first generated id that is valid and not in use. */
  ghost predicate Offers(generated: seq<Id>, s: State, id: Id) {
    exists i ::
      && 0 <= i < |generated| && generated[i] == id && Usable(id, s)
      && forall k :: 0 <= k < i ==> !Usable(generated[k], s)
  }

  ghost predicate Usable(id: Id, s: State) {
    ValidDocumentId(id) && id !in s.documents
  }

  lemma {:induction false} FirstIsOffered(generated: seq<Id>, s: State)
    ensures
      var id := FirstFree(generated, s.documents.Keys);
      && (id.Ok? ==> Offers(generated, s, id.value))
      && (id.Err? ==> forall i :: 0 <= i < |generated| ==> !Usable(generated[i], s))
    decreases |generated|
  {
    if generated != [] {
      if Usable(generated[0], s) {
        assert Offers(generated, s, generated[0]);
      } else {
        FirstIsOffered(generated[1..], s);
        var id := FirstFree(generated[1..], s.documents.Keys);
        if id.Ok? {
          var i :| 0 <= i < |generated[1..]| && generated[1..][i] == id.value && Usable(id.value, s)
                   && forall k :: 0 <= k < i ==> !Usable(generated[1..][k], s);
          assert generated[i + 1] == id.value;
          forall k | 0 <= k < i + 1
            ensures !Usable(generated[k], s)
          {
            assert k > 0 ==> generated[k] == generated[1..][k - 1];
          }
        }
      }
    }
  }

  /** A document is created unless the room is full, its labels or its text are not acceptable or no id is left. */
  lemma CreateReplies(
      s: State, t: State, op: MetadataOperation, permitted: bool, generated: seq<Id>, available: bool, policy: Policy,
      r: Reply)
    requires Valid(s, policy.limits) && MetadataStep(s, t, op, permitted, generated, available, policy, r)
    requires InRange(s, op, permitted) && op.request.CreateDocument?
    ensures Elements(s.order) <= s.documents.Keys
    ensures
      var limits, bytes := policy.limits, Utf8Bytes(op.request.content);
      var hasTab := |s.order| < limits.maxTabs;
      var labelled := ValidTabName(op.request.name) && ValidLanguage(op.request.language);
      var fits := TotalBytes(s.documents, s.order) + bytes <= limits.maxBytes;
      var usable := exists i :: 0 <= i < |generated| && Usable(generated[i], s);
      && (r == Refused(RoomLimit) <==> !hasTab || (labelled && bytes <= limits.maxMessageBytes && !fits))
      && (r == Refused(InvalidName) <==> hasTab && !ValidTabName(op.request.name))
      && (r == Refused(InvalidLanguage) <==>
            hasTab && ValidTabName(op.request.name) && !ValidLanguage(op.request.language))
      && (hasTab && labelled && (bytes > limits.maxMessageBytes || (fits && !usable)) ==> r == Refused(OperationLimit))
      && (hasTab && labelled && bytes <= limits.maxMessageBytes && fits && usable ==>
            exists id :: Offers(generated, s, id) &&
                         SettlesChange(s, op, Created(id, op.request.name, op.request.language, op.request.content),
                           available, policy, r))
  {
    hide MetadataFits, ViewsFit, LedgerFits, LedgerBehind, ValidOperation, Remembers, TotalBytes, Labelled, Trimmed,
         NoDuplicates, Utf8Bytes, AcceptMetadata, DocumentsFit, FirstFree, ValidTabName, ValidLanguage, ChangeFits,
         Usable, Offers;
    RemembersIds(s, op.operationId);
    FirstIsOffered(generated, s);
    var id := FirstFree(generated, s.documents.Keys);
    if id.Ok? {
      OfferedIsUsable(generated, s, id.value);
    }
  }

  lemma OfferedIsUsable(generated: seq<Id>, s: State, id: Id)
    requires Offers(generated, s, id)
    ensures exists i :: 0 <= i < |generated| && Usable(generated[i], s)
  {
    var i :| 0 <= i < |generated| && generated[i] == id && Usable(id, s);
  }

  /** A document is renamed unless it is gone or its new labels are not acceptable. */
  lemma UpdateReplies(
      s: State, t: State, op: MetadataOperation, permitted: bool, generated: seq<Id>, available: bool, policy: Policy,
      r: Reply)
    requires Valid(s, policy.limits) && MetadataStep(s, t, op, permitted, generated, available, policy, r)
    requires InRange(s, op, permitted) && op.request.UpdateDocument?
    ensures
      var known, named := op.request.id in s.documents, ValidTabName(op.request.name);
      var spoken := ValidLanguage(op.request.language);
      && (r == Refused(DocumentDeleted) <==> !known)
      && (r == Refused(InvalidName) <==> known && !named)
      && (r == Refused(InvalidLanguage) <==> known && named && !spoken)
      && (known && named && spoken ==>
            SettlesChange(s, op, Updated(op.request.id, op.request.name, op.request.language), available, policy, r))
  {
    hide MetadataFits, ViewsFit, LedgerFits, LedgerBehind, ValidOperation, Remembers, TotalBytes, Labelled, Trimmed,
         NoDuplicates, Utf8Bytes, AcceptMetadata, DocumentsFit, ValidTabName, ValidLanguage, ChangeFits;
    RemembersIds(s, op.operationId);
  }

  /** A document is deleted unless it is gone or the last one. */
  lemma DeleteReplies(
      s: State, t: State, op: MetadataOperation, permitted: bool, generated: seq<Id>, available: bool, policy: Policy,
      r: Reply)
    requires Valid(s, policy.limits) && MetadataStep(s, t, op, permitted, generated, available, policy, r)
    requires InRange(s, op, permitted) && op.request.DeleteDocument?
    ensures
      && (r == Refused(LastDocument) <==> |s.order| == 1)
      && (r == Refused(DocumentDeleted) <==> |s.order| > 1 && op.request.id !in s.documents)
      && (|s.order| > 1 && op.request.id in s.documents ==>
            SettlesChange(s, op, Deleted(op.request.id), available, policy, r))
  {
    hide MetadataFits, ViewsFit, LedgerFits, LedgerBehind, ValidOperation, Remembers, TotalBytes, Labelled, Trimmed,
         NoDuplicates, Utf8Bytes, AcceptMetadata, DocumentsFit, ChangeFits;
    RemembersIds(s, op.operationId);
  }

  /** An order is accepted for the current metadata revision, if it lists exactly the room's documents. */
  lemma ReorderReplies(
      s: State, t: State, op: MetadataOperation, permitted: bool, generated: seq<Id>, available: bool, policy: Policy,
      r: Reply)
    requires Valid(s, policy.limits) && MetadataStep(s, t, op, permitted, generated, available, policy, r)
    requires InRange(s, op, permitted) && op.request.ReorderDocuments?
    ensures
      var order := op.request.order;
      var complete := NoDuplicates(order) && Elements(order) == s.documents.Keys;
      && (r == Refused(MetadataResync) <==> op.baseVersion != s.metadataRevision || !complete)
      && (op.baseVersion == s.metadataRevision && complete ==>
            SettlesChange(s, op, Reordered(order), available, policy, r))
  {
    hide MetadataFits, ViewsFit, LedgerFits, LedgerBehind, ValidOperation, Remembers, TotalBytes, Labelled, Trimmed,
         Utf8Bytes, AcceptMetadata, DocumentsFit, ChangeFits, NoDuplicates, ValidOrder;
    RemembersIds(s, op.operationId);
    CompleteOrder(s, op.request.order, policy.limits);
  }

  lemma CompleteOrder(s: State, order: seq<Id>, limits: Limits)
    requires Structured(s.documents, s.order, limits)
    ensures NoDuplicates(order) && Elements(order) == s.documents.Keys <==>
      && ValidOrder(order, limits.maxTabs) && |order| == |s.order|
      && forall i :: 0 <= i < |order| ==> order[i] in s.documents
  {
    hide TotalBytes, ValidDocumentId, ValidTabName, ValidLanguage;
    ElementsSize(s.order);
    if NoDuplicates(order) && Elements(order) == s.documents.Keys {
      ElementsSize(order);
      forall i | 0 <= i < |order|
        ensures order[i] in s.documents && ValidDocumentId(order[i])
      {
        assert order[i] in Elements(order);
        assert Labelled(order[i], s.documents[order[i]]);
      }
    }
    if ValidOrder(order, limits.maxTabs) && |order| == |s.order|
       && forall i :: 0 <= i < |order| ==> order[i] in s.documents {
      Covers(order, s.documents.Keys);
    }
  }

  // ----- What an accepted change leaves -----

  /** Documents other than this one are exactly as they were. */
  ghost predicate OthersUntouched(s: State, t: State, id: Id) {
    forall other :: other != id ==>
      && (other in t.documents <==> other in s.documents)
      && (other in s.documents ==> t.documents[other] == s.documents[other])
  }

  /** The created document is empty of history, holds the content asked for and stands last. */
  lemma CreateLeaves(
      s: State, t: State, op: MetadataOperation, permitted: bool, generated: seq<Id>, available: bool, policy: Policy,
      r: Reply)
    requires Valid(s, policy.limits) && MetadataStep(s, t, op, permitted, generated, available, policy, r)
    requires r.Accepted? && !r.duplicate && op.request.CreateDocument?
    ensures r.answer.StructureAnswer? && r.answer.change.Created?
    ensures
      var id := r.answer.change.id;
      && id in generated && id !in s.documents && id in t.documents && OthersUntouched(s, t, id)
      && t.documents[id].name == op.request.name && t.documents[id].language == op.request.language
      && t.documents[id].content == op.request.content && t.documents[id].revision == 0
      && t.documents[id].history == []
      && t.order == s.order + [id]
  {
    hide MetadataFits, ViewsFit, LedgerFits, LedgerBehind, ValidOperation, Remembered, TotalBytes, NoDuplicates,
         Utf8Bytes, DocumentsFit, FirstFree, ValidTabName, ValidLanguage, Structured, RecordFor;
    FirstFreeIsFree(generated, s.documents.Keys);
  }

  lemma UpdateLeaves(
      s: State, t: State, op: MetadataOperation, permitted: bool, generated: seq<Id>, available: bool, policy: Policy,
      r: Reply)
    requires Valid(s, policy.limits) && MetadataStep(s, t, op, permitted, generated, available, policy, r)
    requires r.Accepted? && !r.duplicate && op.request.UpdateDocument?
    ensures r.answer.StructureAnswer?
    ensures r.answer.change == Updated(op.request.id, op.request.name, op.request.language)
    ensures
      var id := op.request.id;
      && id in s.documents && id in t.documents && OthersUntouched(s, t, id) && t.order == s.order
      && t.documents[id] == s.documents[id].(name := op.request.name, language := op.request.language)
  {
    hide MetadataFits, ViewsFit, LedgerFits, LedgerBehind, ValidOperation, Remembered, TotalBytes, NoDuplicates,
         DocumentsFit, ValidTabName, ValidLanguage, Structured, RecordFor;
  }

  /** The deleted document is gone, from the order too, and nothing else is. */
  lemma DeleteLeaves(
      s: State, t: State, op: MetadataOperation, permitted: bool, generated: seq<Id>, available: bool, policy: Policy,
      r: Reply)
    requires Valid(s, policy.limits) && MetadataStep(s, t, op, permitted, generated, available, policy, r)
    requires r.Accepted? && !r.duplicate && op.request.DeleteDocument?
    ensures r.answer.StructureAnswer? && r.answer.change == Deleted(op.request.id)
    ensures
      var id := op.request.id;
      && id in s.documents && id !in t.documents && OthersUntouched(s, t, id)
      && exists i :: 0 <= i < |s.order| && s.order[i] == id && t.order == s.order[..i] + s.order[i + 1..]
  {
    hide MetadataFits, ViewsFit, LedgerFits, LedgerBehind, ValidOperation, Remembered, TotalBytes, NoDuplicates,
         DocumentsFit, Labelled, RecordFor;
    var id := op.request.id;
    assert id in Elements(s.order);
    FirstPlace(s.order, id);
  }

  lemma FirstPlace(order: seq<Id>, id: Id)
    requires id in order
    ensures exists i :: 0 <= i < |order| && order[i] == id && Without(order, id) == order[..i] + order[i + 1..]
  {
    var i := FirstIndex(order, id);
    WithoutAt(order, i, id);
  }

  ghost function FirstIndex(order: seq<Id>, id: Id): (i: nat)
    requires id in order
    ensures i < |order| && order[i] == id && id !in order[..i]
  {
    if order[0] == id then 0
    else
      var i := FirstIndex(order[1..], id);
      assert order[..i + 1] == [order[0]] + order[1..][..i];
      i + 1
  }

  lemma ReorderLeaves(
      s: State, t: State, op: MetadataOperation, permitted: bool, generated: seq<Id>, available: bool, policy: Policy,
      r: Reply)
    requires Valid(s, policy.limits) && MetadataStep(s, t, op, permitted, generated, available, policy, r)
    requires r.Accepted? && !r.duplicate && op.request.ReorderDocuments?
    ensures r.answer.StructureAnswer? && r.answer.change == Reordered(op.request.order)
    ensures t.order == op.request.order && t.documents == s.documents
  {
    hide MetadataFits, ViewsFit, LedgerFits, LedgerBehind, ValidOperation, Remembered, TotalBytes, NoDuplicates,
         DocumentsFit, Labelled, RecordFor, Structured;
  }

  /** An accepted change is the next metadata revision, retained unless the history would exceed a bound. */
  lemma ChangeRetained(
      s: State, t: State, op: MetadataOperation, permitted: bool, generated: seq<Id>, available: bool, policy: Policy,
      r: Reply)
    requires Valid(s, policy.limits) && MetadataStep(s, t, op, permitted, generated, available, policy, r)
    requires r.Accepted? && !r.duplicate
    ensures r.answer.StructureAnswer? && t.metadataRevision == s.metadataRevision + 1 == r.answer.revision
    ensures
      var limits, bytes := policy.limits, policy.metadataBytes(r.answer.change);
      if |s.metadataHistory| < limits.maxHistoryRows && s.metadataBytes + bytes <= limits.maxHistoryBytes
      then
        && t.metadataCompacted == s.metadataCompacted && |t.metadataHistory| == |s.metadataHistory| + 1
        && t.metadataHistory[..|s.metadataHistory|] == s.metadataHistory
        && t.metadataHistory[|s.metadataHistory|].change == r.answer.change
      else t.metadataCompacted == t.metadataRevision && t.metadataHistory == []
  {
    hide MetadataFits, ViewsFit, LedgerFits, LedgerBehind, ValidOperation, Remembered, TotalBytes, NoDuplicates,
         DocumentsFit, Labelled, RecordFor, Structured, Proposed, ChangeFits;
  }
}
