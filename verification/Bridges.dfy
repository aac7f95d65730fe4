/**
  Bridging a reconnecting client: from the revisions it declares, the server
  sends the retained changes that lead to the current state, or asks the client
  to fetch a snapshot.
*/
module Bridges {
  import opened Histories
  import opened Sequences
  import opened Authority
  import opened Durability
  import opened Rooms
  import opened Clients

  datatype Known = Known(metadata: int, documents: map<Id, int>)

  datatype Bridge = Resync | Deltas(structures: seq<StructureEvent>, edits: seq<EditEvent>)

  // ----- What the server sends -----

  ghost function StructuresAfter(history: seq<MetadataEntry>, revision: int): seq<StructureEvent> {
    if history == [] then []
    else
      var last := history[|history| - 1];
      StructuresAfter(history[..|history| - 1], revision)
      + (if last.revision <= revision then [] else [StructureEvent(last.revision, last.change)])
  }

  /** The known revisions, with every document created since at revision 0. */
  ghost function KnownAfter(history: seq<MetadataEntry>, known: Known): map<Id, int> {
    if history == [] then known.documents
    else
      var last, before := history[|history| - 1], KnownAfter(history[..|history| - 1], known);
      if last.revision <= known.metadata || !last.change.Created? then before else before[last.change.id := 0]
  }

  ghost function DeletedAfter(history: seq<MetadataEntry>, revision: int): set<Id> {
    if history == [] then {}
    else
      var last, before := history[|history| - 1], DeletedAfter(history[..|history| - 1], revision);
      if last.revision <= revision || !last.change.Deleted? then before else before + {last.change.id}
  }

  ghost function EditsAfter(id: Id, history: seq<Entry>, version: int): seq<EditEvent> {
    if history == [] then []
    else
      var last := history[|history| - 1];
      EditsAfter(id, history[..|history| - 1], version)
      + (if last.revision <= version then [] else [EditEvent(id, last.revision, last.changes)])
  }

  ghost predicate ReachesBack(documents: map<Id, Document>, known: map<Id, int>, id: Id) {
    id in documents && id in known && documents[id].compacted <= known[id] <= documents[id].revision
  }

  ghost function AllEditsAfter(order: seq<Id>, documents: map<Id, Document>, known: map<Id, int>): seq<EditEvent>
    requires forall id :: id in order ==> ReachesBack(documents, known, id)
  {
    if order == [] then []
    else
      var id := order[|order| - 1];
      assert ReachesBack(documents, known, id);
      AllEditsAfter(order[..|order| - 1], documents, known) + EditsAfter(id, documents[id].history, known[id])
  }

  ghost function Bridged(s: State, known: Known): Bridge {
    if known.metadata < s.metadataCompacted || known.metadata > s.metadataRevision then Resync
    else
      var revisions := KnownAfter(s.metadataHistory, known);
      var deleted := DeletedAfter(s.metadataHistory, known.metadata);
      if (forall id :: id in s.order ==> ReachesBack(s.documents, revisions, id))
         && (forall id :: id in revisions ==> id in s.documents || id in deleted)
      then Deltas(StructuresAfter(s.metadataHistory, known.metadata), AllEditsAfter(s.order, s.documents, revisions))
      else Resync
  }

  method MetadataSince(history: seq<MetadataEntry>, known: Known)
      returns (events: seq<StructureEvent>, revisions: map<Id, int>, deleted: set<Id>)
    ensures events == StructuresAfter(history, known.metadata)
    ensures revisions == KnownAfter(history, known)
    ensures deleted == DeletedAfter(history, known.metadata)
  {
    events, revisions, deleted := [], known.documents, {};
    for i := 0 to |history|
      invariant events == StructuresAfter(history[..i], known.metadata)
      invariant revisions == KnownAfter(history[..i], known)
      invariant deleted == DeletedAfter(history[..i], known.metadata)
    {
      assert history[..i + 1][..i] == history[..i];
      var accepted := history[i];
      if accepted.revision <= known.metadata {
        continue;
      }
      events := events + [StructureEvent(accepted.revision, accepted.change)];
      match accepted.change {
        case Created(id, _, _, _) => revisions := revisions[id := 0];
        case Deleted(id) => deleted := deleted + {id};
        case _ =>
      }
    }
    assert history[..|history|] == history;
  }

  method EditsSince(id: Id, history: seq<Entry>, version: int) returns (events: seq<EditEvent>)
    ensures events == EditsAfter(id, history, version)
  {
    events := [];
    for i := 0 to |history|
      invariant events == EditsAfter(id, history[..i], version)
    {
      assert history[..i + 1][..i] == history[..i];
      if history[i].revision <= version {
        continue;
      }
      events := events + [EditEvent(id, history[i].revision, history[i].changes)];
    }
    assert history[..|history|] == history;
  }

  method BridgeRoom(room: Room, known: Known) returns (r: Bridge)
    requires room.Sound()
    ensures r == Bridged(room.Current(), known)
  {
    hide Valid, Agrees, ReachesBack;
    OrderedDocuments(room.Current(), room.policy.limits);
    if known.metadata < room.metadataCompactedRevision || known.metadata > room.metadataRevision {
      return Resync;
    }
    var structures, revisions, deleted := MetadataSince(room.metadataHistory, known);
    var retained := AllRetained(room.order, room.documents, revisions);
    if !retained {
      return Resync;
    }
    var unknown := revisions.Keys;
    while unknown != {}
      invariant unknown <= revisions.Keys
      invariant forall id :: id in revisions && id !in unknown ==> id in room.documents || id in deleted
      decreases |unknown|
    {
      var id :| id in unknown;
      if id !in room.documents && id !in deleted {
        return Resync;
      }
      unknown := unknown - {id};
    }
    var edits := AllEditsSince(room.order, room.documents, revisions);
    r := Deltas(structures, edits);
  }

  method AllRetained(order: seq<Id>, documents: map<Id, Document>, known: map<Id, int>) returns (r: bool)
    requires forall id :: id in order ==> id in documents
    ensures r <==> forall id :: id in order ==> ReachesBack(documents, known, id)
  {
    for i := 0 to |order|
      invariant forall id :: id in order[..i] ==> ReachesBack(documents, known, id)
    {
      var id := order[i];
      if id !in known || known[id] < documents[id].compacted || known[id] > documents[id].revision {
        assert !ReachesBack(documents, known, id);
        return false;
      }
      assert order[..i + 1] == order[..i] + [id];
    }
    assert order[..|order|] == order;
    return true;
  }

  method AllEditsSince(
      order: seq<Id>, documents: map<Id, Document>, known: map<Id, int>) returns (events: seq<EditEvent>)
    requires forall id :: id in order ==> ReachesBack(documents, known, id)
    ensures events == AllEditsAfter(order, documents, known)
  {
    events := [];
    for i := 0 to |order|
      invariant forall id :: id in order[..i] ==> id in order
      invariant events == AllEditsAfter(order[..i], documents, known)
    {
      var id := order[i];
      assert order[..i + 1][..i] == order[..i];
      assert ReachesBack(documents, known, id);
      var more := EditsSince(id, documents[id].history, known[id]);
      events := events + more;
      assert forall x :: x in order[..i + 1] ==> x in order;
    }
    assert order[..|order|] == order;
  }

  lemma OrderedDocuments(s: State, limits: Limits)
    requires Valid(s, limits)
    ensures forall id :: id in s.order ==> id in s.documents
  {
    assert forall id :: id in s.order ==> id in Elements(s.order);
  }
}
