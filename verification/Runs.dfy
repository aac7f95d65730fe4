/**
  Whole runs of a room: any sequence of submitted edits and metadata operations,
  accepted, refused or repeated.
*/
module Runs {
  import opened ChangeSets
  import opened Surrogates
  import opened Histories
  import opened Sequences
  import opened Validation
  import opened Authority
  import opened AuthorityInvariant
  import opened Rooms

  datatype Action =
    | SubmitEdit(edit: DocumentOperation, permitted: bool, available: bool, reply: Reply)
    | SubmitStructure(structure: MetadataOperation, permitted: bool, generated: seq<Id>, available: bool, reply: Reply)

  ghost predicate Step(s: State, action: Action, t: State, policy: Policy)
    requires Valid(s, policy.limits)
  {
    match action
    case SubmitEdit(op, permitted, available, r) => EditStep(s, t, op, permitted, available, policy, r)
    case SubmitStructure(op, permitted, generated, available, r) => MetadataStep(s, t, op, permitted, generated,
      available, policy, r)
  }

  /** A run: every state follows from its predecessor by one action. */
  ghost predicate IsRun(states: seq<State>, actions: seq<Action>, policy: Policy) {
    |states| == |actions| + 1
    && Valid(states[0], policy.limits)
    && forall i :: 0 <= i < |actions| ==> Valid(states[i], policy.limits) ==>
              Step(states[i], actions[i], states[i + 1], policy)
  }

  ghost predicate Changes(action: Action) {
    action.reply.Accepted? && !action.reply.duplicate
  }

  lemma StepKeepsValid(s: State, action: Action, t: State, policy: Policy)
    requires Valid(s, policy.limits) && Step(s, action, t, policy)
    ensures Valid(t, policy.limits)
  {
    hide Valid, Precheck, Proposed, RecordFor, Answered;
    if Changes(action) {
      match action
      case SubmitEdit(op, permitted, available, r) =>
        EditKeepsValid(s, op, r.answer.changes, policy.payloadBytes(r.answer.changes), policy.limits);
      case SubmitStructure(op, permitted, generated, available, r) =>
        MetadataKeepsValid(s, op, r.answer.change, policy.metadataBytes(r.answer.change), policy.limits);
    }
  }

  /** The invariant, and with it the room's structure and limits, holds after every action of every run. */
  lemma {:induction false} RunKeepsValid(states: seq<State>, actions: seq<Action>, policy: Policy, k: nat)
    requires IsRun(states, actions, policy) && k < |states|
    ensures Valid(states[k], policy.limits)
    decreases k
  {
    hide Valid, Step;
    if k > 0 {
      RunKeepsValid(states, actions, policy, k - 1);
      assert Step(states[k - 1], actions[k - 1], states[k], policy);
      StepKeepsValid(states[k - 1], actions[k - 1], states[k], policy);
    }
  }

  // ----- What an accepted change does -----

  /** Revision `revision` of one document, made by applying `changes`; nothing else moves. */
  ghost predicate EditEffect(s: State, t: State, id: Id, revision: int, changes: ChangeSet) {
    && id in s.documents && id in t.documents
    && t.order == s.order && t.metadataRevision == s.metadataRevision
    && t.documents == s.documents[id := t.documents[id]]
    && t.trails.Keys == s.trails.Keys
    && OldLen(changes) == |s.documents[id].content|
    && revision == s.documents[id].revision + 1 == t.documents[id].revision
    && t.documents[id].content == Stored(changes, s.documents[id].content)
    && t.documents[id].name == s.documents[id].name && t.documents[id].language == s.documents[id].language
  }

  ghost predicate StructureEffect(s: State, t: State, revision: int, change: MetadataChange, limits: Limits)
    requires Elements(s.order) <= s.documents.Keys
  {
    && ChangeFits(s, change, limits) && revision == s.metadataRevision + 1 == t.metadataRevision
    && t.documents == RestructuredDocuments(s.documents, change) && t.order == RestructuredOrder(s.order, change)
    && t.trails.Keys == s.trails.Keys + (if change.Created? then {change.id} else {})
  }

  lemma EditStepEffect(s: State, action: Action, t: State, policy: Policy)
    requires Valid(s, policy.limits) && Changes(action) && Step(s, action, t, policy) && action.SubmitEdit?
    ensures action.reply.answer.EditAnswer?
    ensures EditEffect(s, t, action.reply.answer.documentId, action.reply.answer.revision, action.reply.answer.changes)
  {
    hide MetadataFits, ViewsFit, Structured, LedgerFits, Precheck, RecordFor, Answered, Rebased, Coherent;
  }

  lemma StructureStepEffect(s: State, action: Action, t: State, policy: Policy)
    requires Valid(s, policy.limits) && Changes(action) && Step(s, action, t, policy) && action.SubmitStructure?
    ensures action.reply.answer.StructureAnswer? && Elements(s.order) <= s.documents.Keys
    ensures StructureEffect(s, t, action.reply.answer.revision, action.reply.answer.change, policy.limits)
  {
    hide MetadataFits, ViewsFit, DocumentsFit, LedgerFits, Proposed, RecordFor, Answered, ChangeFits,
         RestructuredDocuments, RestructuredOrder;
  }

  // ----- The ledger -----

  /** The record an accepted action leaves. */
  ghost function ActionRecord(s: State, action: Action): Record
    requires Changes(action)
  {
    match action
    case SubmitEdit(op, _, _, r) => Record(op.operationId, op.clientId, EditRequest(op), r.answer)
    case SubmitStructure(op, _, _, _, r) => Record(op.operationId, op.clientId, StructureRequest(op), r.answer)
  }

  ghost function Newest(all: seq<Record>, n: nat): seq<Record> {
    if |all| > n then all[|all| - n..] else all
  }

  /** Every record accepted along a run, oldest first, starting from the ledger the run started with. */
  ghost function AllRecords(states: seq<State>, actions: seq<Action>, k: nat): seq<Record>
    requires k <= |actions| < |states|
  {
    if k == 0 then states[0].ledger
    else
      AllRecords(states, actions, k - 1)
      + (if Changes(actions[k - 1]) then [ActionRecord(states[k - 1], actions[k - 1])] else [])
  }

  /** Along every run the ledger is exactly the newest accepted operations, in order. */
  lemma {:induction false} LedgerIsNewest(states: seq<State>, actions: seq<Action>, policy: Policy, k: nat)
    requires IsRun(states, actions, policy) && k < |states|
    ensures states[k].ledger == Newest(AllRecords(states, actions, k), policy.limits.LedgerRows())
    decreases k
  {
    hide Valid, Step;
    if k == 0 {
      StartingLedger(states[0], policy.limits);
    } else {
      var s, t, action := states[k - 1], states[k], actions[k - 1];
      LedgerIsNewest(states, actions, policy, k - 1);
      RunKeepsValid(states, actions, policy, k - 1);
      assert Step(s, action, t, policy);
      StepLedger(s, action, t, policy);
      if Changes(action) {
        NewestExtends(AllRecords(states, actions, k - 1), ActionRecord(s, action), policy.limits);
      }
    }
  }

  lemma StartingLedger(s: State, limits: Limits)
    requires Valid(s, limits)
    ensures s.ledger == Newest(s.ledger, limits.LedgerRows())
  {
  }

  lemma StepLedger(s: State, action: Action, t: State, policy: Policy)
    requires Valid(s, policy.limits) && Step(s, action, t, policy)
    ensures Changes(action) ==> t.ledger == Remembered(s.ledger, ActionRecord(s, action), policy.limits)
    ensures !Changes(action) ==> t == s
  {
    hide Valid, Precheck, Proposed, RecordFor, Answered;
  }

  lemma NewestExtends(all: seq<Record>, record: Record, limits: Limits)
    ensures Remembered(Newest(all, limits.LedgerRows()), record, limits) == Newest(all + [record], limits.LedgerRows())
  {
  }

  ghost function SubmittedId(action: Action): string {
    if action.SubmitEdit? then action.edit.operationId else action.structure.operationId
  }

  ghost function SubmittedClient(action: Action): string {
    if action.SubmitEdit? then action.edit.clientId else action.structure.clientId
  }

  ghost function SubmittedRequest(action: Action): Request {
    if action.SubmitEdit? then EditRequest(action.edit) else StructureRequest(action.structure)
  }

  /**
    At most once: while an operation is remembered, submitting its id again
    leaves the room as it is; a permitted submission gets the recorded answer if
    it makes the same request, and is refused as a duplicate if it does not.
  */
  lemma RememberedOnce(s: State, action: Action, t: State, policy: Policy, record: Record)
    requires Valid(s, policy.limits) && Step(s, action, t, policy) && record in s.ledger
    requires record.operationId == SubmittedId(action)
    ensures t == s && !Changes(action)
    ensures action.permitted && ValidOperation(SubmittedId(action), SubmittedClient(action)) ==>
      action.reply ==
        if record.request == SubmittedRequest(action) then Accepted(record.answer, true)
          else Refused(DuplicateOperation)
  {
    hide DocumentsFit, MetadataFits, ViewsFit, Structured, AcceptEdit, AcceptMetadata, EditedBy, EditFits, ChangeFits,
         EditDecided, ValidOperation;
    var i := IndexIn(s.ledger, record);
    assert RecordIds(s.ledger)[i] == record.operationId;
    assert record.operationId in RecordIds(s.ledger);
    assert RecordFits(s.ledger[i]);
    assert RecordFor(s.ledger, record.operationId) == record by {
      var j := IndexIn(RecordIds(s.ledger), record.operationId);
      assert RecordIds(s.ledger)[j] == RecordIds(s.ledger)[i];
      assert i == j;
    }
  }

  // ----- Reconciling snapshots -----

  datatype Revision = Revision(id: Id, revision: int)

  datatype RevisionAuthority = RevisionAuthority(metadataRevision: int, documents: seq<Revision>)

  /** The revision a lookup map built from the list holds for an id: the last one listed. */
  function Lookup(documents: seq<Revision>, id: Id): Result<int> {
    if documents == [] then Err
    else if documents[|documents| - 1].id == id then Ok(documents[|documents| - 1].revision)
    else Lookup(documents[..|documents| - 1], id)
  }

  /** One known document against a snapshot. */
  predicate MayAdvance(known: Revision, current: RevisionAuthority, snapshot: RevisionAuthority) {
    match Lookup(snapshot.documents, known.id)
    case Err => snapshot.metadataRevision > current.metadataRevision
    case Ok(revision) => revision >= known.revision
  }

  /** The client's test whether a snapshot only advances what it knows. */
  predicate SnapshotCanReconcile(current: RevisionAuthority, snapshot: RevisionAuthority) {
    && snapshot.metadataRevision >= current.metadataRevision
    && forall i :: 0 <= i < |current.documents| ==> MayAdvance(current.documents[i], current, snapshot)
  }

  ghost function AuthorityOf(s: State): RevisionAuthority
    requires Elements(s.order) <= s.documents.Keys
  {
    assert forall id :: id in s.order ==> id in Elements(s.order);
    RevisionAuthority(s.metadataRevision,
      seq(|s.order|, i requires 0 <= i < |s.order| => Revision(s.order[i], s.documents[s.order[i]].revision)))
  }

  /** `t` is a later state: nothing goes back, documents disappear only with a metadata revision, and never return. */
  ghost predicate Later(s: State, t: State) {
    && s.metadataRevision <= t.metadataRevision
    && (forall id :: id in s.documents ==>
          if id in t.documents then s.documents[id].revision <= t.documents[id].revision
          else s.metadataRevision < t.metadataRevision)
    && s.trails.Keys <= t.trails.Keys
    && (forall id :: id in t.documents && id in s.trails ==> id in s.documents)
  }

  lemma LaterTransitive(s: State, t: State, u: State)
    requires Later(s, t) && Later(t, u) && s.documents.Keys <= s.trails.Keys
    ensures Later(s, u)
  {
    assert forall id :: id in s.documents ==> id in t.trails;
    forall id | id in u.documents && id in s.trails
      ensures id in s.documents
    {
      assert id in t.documents;
    }
  }

  lemma StepIsLater(s: State, action: Action, t: State, policy: Policy)
    requires Valid(s, policy.limits) && Step(s, action, t, policy)
    ensures Later(s, t)
  {
    hide Valid, Step;
    ValidHasTrails(s, policy.limits);
    if !Changes(action) {
      StepLedger(s, action, t, policy);
    } else if action.SubmitEdit? {
      EditStepEffect(s, action, t, policy);
    } else {
      StructureStepEffect(s, action, t, policy);
      StructureIsLater(s, t, action.reply.answer.revision, action.reply.answer.change, policy.limits);
    }
  }

  lemma StructureIsLater(s: State, t: State, revision: int, change: MetadataChange, limits: Limits)
    requires Elements(s.order) <= s.documents.Keys <= s.trails.Keys && StructureEffect(s, t, revision, change, limits)
    ensures Later(s, t)
  {
  }

  lemma ValidHasTrails(s: State, limits: Limits)
    requires Valid(s, limits)
    ensures s.documents.Keys <= s.trails.Keys
  {
    DocumentsHaveTrails(s, limits);
  }

  lemma {:induction false} RunIsLater(states: seq<State>, actions: seq<Action>, policy: Policy, i: nat, j: nat)
    requires IsRun(states, actions, policy) && i <= j < |states|
    ensures Later(states[i], states[j])
    decreases j
  {
    hide Valid, Step;
    RunKeepsValid(states, actions, policy, i);
    ValidHasTrails(states[i], policy.limits);
    if i < j {
      RunIsLater(states, actions, policy, i, j - 1);
      RunKeepsValid(states, actions, policy, j - 1);
      assert Step(states[j - 1], actions[j - 1], states[j], policy);
      StepIsLater(states[j - 1], actions[j - 1], states[j], policy);
      LaterTransitive(states[i], states[j - 1], states[j]);
    }
  }

  lemma {:induction false} LookupFinds(documents: seq<Revision>, id: Id)
    ensures Lookup(documents, id).Ok? ==>
      exists i :: 0 <= i < |documents| && documents[i] == Revision(id, Lookup(documents, id).value)
    ensures Lookup(documents, id).Err? ==> forall i :: 0 <= i < |documents| ==> documents[i].id != id
    decreases |documents|
  {
    if documents != [] {
      var last := |documents| - 1;
      if documents[last].id == id {
        assert documents[last] == Revision(id, documents[last].revision);
      } else {
        LookupFinds(documents[..last], id);
        if Lookup(documents, id).Ok? {
          var i :| 0 <= i < last && documents[..last][i] == Revision(id, Lookup(documents[..last], id).value);
          assert documents[i] == documents[..last][i];
        } else {
          forall i | 0 <= i < |documents|
            ensures documents[i].id != id
          {
            if i < last {
              assert documents[..last][i] == documents[i];
            }
          }
        }
      }
    }
  }

  /** A later state of the room passes the client's test against an earlier one. */
  lemma LaterReconciles(s: State, t: State, limits: Limits)
    requires Valid(s, limits) && Valid(t, limits) && Later(s, t)
    ensures SnapshotCanReconcile(AuthorityOf(s), AuthorityOf(t))
  {
    hide DocumentsFit, MetadataFits, ViewsFit, LedgerFits, TotalBytes;
    var current, snapshot := AuthorityOf(s), AuthorityOf(t);
    assert forall id :: id in s.order ==> id in Elements(s.order);
    forall i | 0 <= i < |current.documents|
      ensures MayAdvance(current.documents[i], current, snapshot)
    {
      var id := s.order[i];
      LookupFinds(snapshot.documents, id);
      if id in t.documents {
        assert id in Elements(t.order);
        var k := IndexIn(t.order, id);
        assert snapshot.documents[k].id == id;
      }
    }
  }

  /** Along every run, any later snapshot of the server passes the client's test against any earlier one. */
  lemma RunReconciles(states: seq<State>, actions: seq<Action>, policy: Policy, i: nat, j: nat)
    requires IsRun(states, actions, policy) && i <= j < |states|
    ensures Valid(states[i], policy.limits) && Valid(states[j], policy.limits)
    ensures SnapshotCanReconcile(AuthorityOf(states[i]), AuthorityOf(states[j]))
  {
    hide Valid, Later, SnapshotCanReconcile, AuthorityOf;
    RunKeepsValid(states, actions, policy, i);
    RunKeepsValid(states, actions, policy, j);
    RunIsLater(states, actions, policy, i, j);
    LaterReconciles(states[i], states[j], policy.limits);
  }

  /** A snapshot that passes the test never lowers the revision of a document it still lists, nor drops one silently. */
  lemma ReconcilingNeverLowers(current: RevisionAuthority, snapshot: RevisionAuthority, i: nat, k: nat)
    requires SnapshotCanReconcile(current, snapshot) && i < |current.documents|
    requires forall a, b :: 0 <= a < b < |snapshot.documents| ==> snapshot.documents[a].id != snapshot.documents[b].id
    ensures k < |snapshot.documents| && snapshot.documents[k].id == current.documents[i].id ==>
      snapshot.documents[k].revision >= current.documents[i].revision
    ensures (forall b :: 0 <= b < |snapshot.documents| ==> snapshot.documents[b].id != current.documents[i].id) ==>
      snapshot.metadataRevision > current.metadataRevision
  {
    assert MayAdvance(current.documents[i], current, snapshot);
    LookupFinds(snapshot.documents, current.documents[i].id);
  }
}
