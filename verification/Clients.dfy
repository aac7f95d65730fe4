/**
  The browser's copy of a room and how it folds the server's events into it.
  The browser applies change sets to raw UTF-16 strings: it never replaces a
  lone surrogate.
*/
module Clients {
  import opened Scripts
  import opened Utf16
  import opened ChangeSets
  import opened Mapping
  import opened Authority

  datatype ClientDocument = ClientDocument(id: Id, name: string, language: string, content: Text, revision: int)

  datatype Copy = Copy(metadataRevision: int, documents: seq<ClientDocument>)

  datatype EditEvent = EditEvent(id: Id, revision: int, changes: ChangeSet)

  datatype StructureEvent = StructureEvent(revision: int, change: MetadataChange)

  // ----- What an event makes of a copy -----

  /** The index of the first document with an id, or the length of the list. */
  function IndexOf(documents: seq<ClientDocument>, id: Id): (i: nat)
    ensures i <= |documents|
    ensures i < |documents| ==> documents[i].id == id
    ensures forall k :: 0 <= k < i ==> documents[k].id != id
  {
    if documents == [] then 0 else if documents[0].id == id then 0 else 1 + IndexOf(documents[1..], id)
  }

  /** A document's copy after an edit that is exactly its next revision. */
  ghost function EditedDocument(d: ClientDocument, event: EditEvent): ClientDocument
    requires OldLen(event.changes) == |d.content|
  {
    d.(content := Applied(event.changes, d.content), revision := event.revision)
  }

  /** Unknown documents and edits already seen are skipped; a gap, or an edit for another length, is refused. */
  ghost function FoldEdit(copy: Copy, event: EditEvent): Result<Copy> {
    var i := IndexOf(copy.documents, event.id);
    if i == |copy.documents| || event.revision <= copy.documents[i].revision then Ok(copy)
    else if event.revision != copy.documents[i].revision + 1 then Err
    else if OldLen(event.changes) != |copy.documents[i].content| then Err
    else Ok(copy.(documents := copy.documents[i := EditedDocument(copy.documents[i], event)]))
  }

  ghost function WithNames(
      documents: seq<ClientDocument>, id: Id, name: string, language: string): (r: seq<ClientDocument>)
    ensures |r| == |documents|
  {
    seq(|documents|, i requires 0 <= i < |documents| =>
      if documents[i].id == id then documents[i].(name := name, language := language) else documents[i])
  }

  /** The list without every document of that id. */
  function Filtered(documents: seq<ClientDocument>, id: Id): seq<ClientDocument> {
    if documents == [] then []
    else if documents[0].id == id then Filtered(documents[1..], id)
    else [documents[0]] + Filtered(documents[1..], id)
  }

  /** The ids of an order without repetitions, by their last place in it. */
  function LastPlaces(order: seq<Id>): seq<Id> {
    if order == [] then []
    else if order[0] in order[1..] then LastPlaces(order[1..])
    else [order[0]] + LastPlaces(order[1..])
  }

  /** An order has as many ids as there are documents, and every document's id among them. */
  predicate Places(order: seq<Id>, documents: seq<ClientDocument>) {
    |LastPlaces(order)| == |documents| && forall i :: 0 <= i < |documents| ==> documents[i].id in order
  }

  function Only(documents: seq<ClientDocument>, id: Id): seq<ClientDocument> {
    if documents == [] then []
    else (if documents[0].id == id then [documents[0]] else []) + Only(documents[1..], id)
  }

  /** The documents stably sorted by the place of their ids. */
  function SortedBy(documents: seq<ClientDocument>, places: seq<Id>): seq<ClientDocument> {
    if places == [] then [] else Only(documents, places[0]) + SortedBy(documents, places[1..])
  }

  ghost function FoldedDocuments(documents: seq<ClientDocument>, change: MetadataChange): Result<seq<ClientDocument>> {
    match change
    case Created(id, name, language, content) =>
      Ok(if IndexOf(documents, id) < |documents| then documents
         else documents + [ClientDocument(id, name, language, content, 0)])
    case Updated(id, name, language) => Ok(WithNames(documents, id, name, language))
    case Deleted(id) => Ok(Filtered(documents, id))
    case Reordered(order) =>
      if Places(order, documents) then Ok(SortedBy(documents, LastPlaces(order))) else Err
  }

  /** Metadata events of older revisions are skipped, gaps are refused, the next revision is folded in. */
  ghost function FoldStructure(copy: Copy, event: StructureEvent): Result<Copy> {
    if event.revision < copy.metadataRevision then Ok(copy)
    else if event.revision > copy.metadataRevision + 1 then Err
    else
      var documents := FoldedDocuments(copy.documents, event.change);
      if documents.Err? then Err else Ok(Copy(event.revision, documents.value))
  }

  ghost function FoldStructures(copy: Copy, events: seq<StructureEvent>): Result<Copy> {
    if events == [] then Ok(copy)
    else
      var init := FoldStructures(copy, events[..|events| - 1]);
      if init.Err? then Err else FoldStructure(init.value, events[|events| - 1])
  }

  ghost function FoldEdits(copy: Copy, events: seq<EditEvent>): Result<Copy> {
    if events == [] then Ok(copy)
    else
      var init := FoldEdits(copy, events[..|events| - 1]);
      if init.Err? then Err else FoldEdit(init.value, events[|events| - 1])
  }

  // ----- What a reorder makes of the list -----

  /** The last index of an id in an order. */
  ghost function LastIndex(order: seq<Id>, id: Id): (i: nat)
    requires id in order
    ensures i < |order| && order[i] == id && forall k :: i < k < |order| ==> order[k] != id
    decreases |order|
  {
    if order[|order| - 1] == id then |order| - 1 else LastIndex(order[..|order| - 1], id)
  }

  lemma LastIndexIs(order: seq<Id>, id: Id, i: nat)
    requires i < |order| && order[i] == id && id !in order[i + 1..]
    ensures LastIndex(order, id) == i
  {
    assert forall k :: i < k < |order| ==> order[k] == order[i + 1..][k - i - 1];
  }

  /** An order names each of its ids once, by the last place it has. */
  lemma {:induction false} LastPlacesOrder(order: seq<Id>)
    ensures forall id :: id in LastPlaces(order) <==> id in order
    ensures forall i, j :: 0 <= i < j < |LastPlaces(order)| ==>
      LastIndex(order, LastPlaces(order)[i]) < LastIndex(order, LastPlaces(order)[j])
    decreases |order|
  {
    if order != [] {
      var rest, places := order[1..], LastPlaces(order);
      LastPlacesOrder(rest);
      assert forall id :: id in order <==> id == order[0] || id in rest;
      forall i | 0 <= i < |LastPlaces(rest)|
        ensures LastIndex(order, LastPlaces(rest)[i]) == LastIndex(rest, LastPlaces(rest)[i]) + 1
      {
        var id := LastPlaces(rest)[i];
        var k := LastIndex(rest, id);
        assert rest[k + 1..] == order[k + 2..];
        LastIndexIs(order, id, k + 1);
      }
      if order[0] !in rest {
        LastIndexIs(order, order[0], 0);
        assert places == [order[0]] + LastPlaces(rest);
      }
    }
  }

  lemma {:induction false} OnlyConcat(documents: seq<ClientDocument>, more: seq<ClientDocument>, id: Id)
    ensures Only(documents + more, id) == Only(documents, id) + Only(more, id)
    decreases |documents|
  {
    if documents == [] {
      assert documents + more == more;
    } else {
      OnlyConcat(documents[1..], more, id);
      TailOfSum(documents, more);
      Associative(if documents[0].id == id then [documents[0]] else [], Only(documents[1..], id), Only(more, id));
    }
  }

  lemma {:induction false} OnlyOnly(documents: seq<ClientDocument>, one: Id, id: Id)
    ensures Only(Only(documents, one), id) == if one == id then Only(documents, id) else []
    ensures forall i :: 0 <= i < |Only(documents, one)| ==> Only(documents, one)[i].id == one
    decreases |documents|
  {
    if documents != [] {
      OnlyOnly(documents[1..], one, id);
      var head := if documents[0].id == one then [documents[0]] else [];
      OnlyConcat(head, Only(documents[1..], one), id);
    }
  }

  /** The documents of every id keep their order among themselves, and those of earlier places come first. */
  lemma {:induction false} SortedExactly(documents: seq<ClientDocument>, places: seq<Id>, id: Id)
    requires forall i, j :: 0 <= i < j < |places| ==> places[i] != places[j]
    ensures Only(SortedBy(documents, places), id) == if id in places then Only(documents, id) else []
    decreases |places|
  {
    if places != [] {
      SortedExactly(documents, places[1..], id);
      OnlyOnly(documents, places[0], id);
      OnlyConcat(Only(documents, places[0]), SortedBy(documents, places[1..]), id);
      assert id in places <==> id == places[0] || id in places[1..];
    }
  }

  /** The list is sorted by place. */
  lemma {:induction false} SortedInOrder(documents: seq<ClientDocument>, places: seq<Id>, i: nat, j: nat)
    requires i < j < |SortedBy(documents, places)|
    ensures exists k, m ::
      && 0 <= k <= m < |places|
      && places[k] == SortedBy(documents, places)[i].id && places[m] == SortedBy(documents, places)[j].id
    decreases |places|
  {
    var first, sorted := Only(documents, places[0]), SortedBy(documents, places);
    OnlyOnly(documents, places[0], places[0]);
    if j < |first| {
      assert places[0] == sorted[i].id && places[0] == sorted[j].id;
    } else if i < |first| {
      var m := PlaceOf(documents, places[1..], j - |first|);
      assert places[0] == sorted[i].id && places[m + 1] == sorted[j].id;
    } else {
      SortedInOrder(documents, places[1..], i - |first|, j - |first|);
      var k, m :| 0 <= k <= m < |places[1..]| && places[1..][k] == sorted[i].id && places[1..][m] == sorted[j].id;
      assert places[k + 1] == sorted[i].id && places[m + 1] == sorted[j].id;
    }
  }

  ghost function PlaceOf(documents: seq<ClientDocument>, places: seq<Id>, j: nat): (m: nat)
    requires j < |SortedBy(documents, places)|
    ensures m < |places| && places[m] == SortedBy(documents, places)[j].id
    decreases |places|
  {
    var first := Only(documents, places[0]);
    OnlyOnly(documents, places[0], places[0]);
    if j < |first| then 0 else PlaceOf(documents, places[1..], j - |first|) + 1
  }

  // ----- The browser's state -----

  class ClientRoom {
    var metadataRevision: int
    var documents: seq<ClientDocument>

    ghost function Held(): Copy
      reads this
    {
      Copy(metadataRevision, documents)
    }

    constructor (copy: Copy)
      ensures Held() == copy
    {
      metadataRevision, documents := copy.metadataRevision, copy.documents;
    }

    method ApplyDocumentEvent(event: EditEvent) returns (ok: bool)
      modifies this
      ensures ok == FoldEdit(old(Held()), event).Ok?
      ensures Held() == if ok then FoldEdit(old(Held()), event).value else old(Held())
    {
      var i := IndexOf(documents, event.id);
      if i == |documents| {
        return true;
      }
      var document := documents[i];
      if event.revision <= document.revision {
        return true;
      }
      if event.revision != document.revision + 1 || OldLen(event.changes) != |document.content| {
        return false;
      }
      var content := Concatenated(event.changes, document.content);
      documents := documents[i := document.(content := content, revision := event.revision)];
      return true;
    }

    method ApplyMetadataEvent(event: StructureEvent) returns (ok: bool)
      modifies this
      ensures ok == FoldStructure(old(Held()), event).Ok?
      ensures Held() == if ok then FoldStructure(old(Held()), event).value else old(Held())
    {
      if event.revision < metadataRevision {
        return true;
      }
      if event.revision > metadataRevision + 1 {
        return false;
      }
      match event.change {
        case Created(id, name, language, content) =>
          if IndexOf(documents, id) == |documents| {
            documents := documents + [ClientDocument(id, name, language, content, 0)];
          }
        case Updated(id, name, language) =>
          documents := RenameDocuments(documents, id, name, language);
        case Deleted(id) =>
          documents := Filtered(documents, id);
        case Reordered(order) =>
          if !Places(order, documents) {
            return false;
          }
          documents := SortedBy(documents, LastPlaces(order));
      }
      metadataRevision := event.revision;
      return true;
    }
  }

  method RenameDocuments(
      documents: seq<ClientDocument>, id: Id, name: string, language: string) returns (r: seq<ClientDocument>)
    ensures r == WithNames(documents, id, name, language)
  {
    r := [];
    for i := 0 to |documents|
      invariant r == WithNames(documents[..i], id, name, language)
    {
      assert documents[..i + 1][..i] == documents[..i];
      r := r + [if documents[i].id == id then documents[i].(name := name, language := language) else documents[i]];
    }
    assert documents[..|documents|] == documents;
  }

  // ----- Nothing is skipped -----

  /** Some event is this revision of the document. */
  ghost predicate HasEdit(events: seq<EditEvent>, id: Id, revision: int) {
    exists k :: 0 <= k < |events| && events[k].id == id && events[k].revision == revision
  }

  ghost predicate HasStructure(events: seq<StructureEvent>, revision: int) {
    exists k :: 0 <= k < |events| && events[k].revision == revision
  }

  lemma HasMore(events: seq<EditEvent>, id: Id, revision: int)
    requires events != [] && HasEdit(events[..|events| - 1], id, revision)
    ensures HasEdit(events, id, revision)
  {
    var init := events[..|events| - 1];
    var k :| 0 <= k < |init| && init[k].id == id && init[k].revision == revision;
    assert events[k] == init[k];
  }

  lemma IdsKept(copy: Copy, event: EditEvent, id: Id)
    requires FoldEdit(copy, event).Ok?
    ensures |FoldEdit(copy, event).value.documents| == |copy.documents|
    ensures IndexOf(FoldEdit(copy, event).value.documents, id) == IndexOf(copy.documents, id)
  {
    var after := FoldEdit(copy, event).value;
    assert forall i :: 0 <= i < |copy.documents| ==> after.documents[i].id == copy.documents[i].id;
  }

  /**
    Edits that a client folds without refusal leave no gap: it ends no earlier
    than any edit it was given, and was given every revision it went through.
  */
  lemma {:induction false} EditsLeaveNoGap(copy: Copy, events: seq<EditEvent>, id: Id)
    requires FoldEdits(copy, events).Ok? && IndexOf(copy.documents, id) < |copy.documents|
    ensures
      var after, i := FoldEdits(copy, events).value, IndexOf(copy.documents, id);
      && |after.documents| == |copy.documents| && IndexOf(after.documents, id) == i
      && copy.documents[i].revision <= after.documents[i].revision
      && (forall k :: 0 <= k < |events| && events[k].id == id ==> events[k].revision <= after.documents[i].revision)
      && forall revision :: copy.documents[i].revision < revision <= after.documents[i].revision ==>
           HasEdit(events, id, revision)
    decreases |events|
  {
    hide HasEdit, FoldEdit;
    if events != [] {
      var init, last := events[..|events| - 1], events[|events| - 1];
      var middle, i := FoldEdits(copy, init).value, IndexOf(copy.documents, id);
      EditsLeaveNoGap(copy, init, id);
      IdsKept(middle, last, id);
      OneEditLeavesNoGap(middle, last, id);
      forall revision | copy.documents[i].revision < revision <= FoldEdit(middle, last).value.documents[i].revision
        ensures HasEdit(events, id, revision)
      {
        if revision <= middle.documents[i].revision {
          HasMore(events, id, revision);
        } else {
          LastEdit(events, id, revision);
        }
      }
      assert forall k :: 0 <= k < |init| ==> events[k] == init[k];
    }
  }

  lemma LastEdit(events: seq<EditEvent>, id: Id, revision: int)
    requires events != [] && events[|events| - 1].id == id && events[|events| - 1].revision == revision
    ensures HasEdit(events, id, revision)
  {
  }

  lemma OneEditLeavesNoGap(copy: Copy, event: EditEvent, id: Id)
    requires FoldEdit(copy, event).Ok? && IndexOf(copy.documents, id) < |copy.documents|
    ensures
      var after, i := FoldEdit(copy, event).value, IndexOf(copy.documents, id);
      && |after.documents| == |copy.documents| && copy.documents[i].revision <= after.documents[i].revision
      && (event.id == id ==> event.revision <= after.documents[i].revision)
      && (copy.documents[i].revision < after.documents[i].revision ==>
            event.id == id && event.revision == after.documents[i].revision == copy.documents[i].revision + 1)
  {
  }

  /** So it is with the events of the tab list. */
  lemma {:induction false} StructuresLeaveNoGap(copy: Copy, events: seq<StructureEvent>)
    requires FoldStructures(copy, events).Ok?
    ensures
      var after := FoldStructures(copy, events).value;
      && copy.metadataRevision <= after.metadataRevision
      && (forall k :: 0 <= k < |events| ==> events[k].revision <= after.metadataRevision)
      && forall revision :: copy.metadataRevision < revision <= after.metadataRevision ==>
           HasStructure(events, revision)
    decreases |events|
  {
    hide FoldedDocuments;
    if events != [] {
      var init, last := events[..|events| - 1], events[|events| - 1];
      StructuresLeaveNoGap(copy, init);
      assert forall k :: 0 <= k < |init| ==> events[k] == init[k];
      forall revision | copy.metadataRevision < revision <= FoldStructures(copy, events).value.metadataRevision
        ensures HasStructure(events, revision)
      {
        if HasStructure(init, revision) {
          var k :| 0 <= k < |init| && init[k].revision == revision;
          assert events[k].revision == revision;
        } else {
          assert events[|init|].revision == revision;
        }
      }
    }
  }
}
