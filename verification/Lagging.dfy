/**
  Bridging from a room that was loaded behind its metadata log. Such a room has
  replayed tab changes that it does not retain, and its compacted mark stays at
  the tab list's snapshot, before them.
*/
module Lagging {
  import opened ChangeSets
  import opened Histories
  import opened Sequences
  import opened Validation
  import opened Authority
  import opened Stores
  import opened Durability
  import opened Clients
  import opened Bridges
  import opened Reconnection
  import opened Loading
  import opened Recovery

  /** The state with its compacted mark where an empty metadata history puts it. */
  ghost function Marked(s: State): State {
    s.(metadataCompacted := s.metadataRevision)
  }

  /** A room without metadata history whose only fault may be its compacted mark. */
  ghost predicate Lags(s: State, limits: Limits) {
    && s.metadataHistory == [] && s.metadataCompacted <= s.metadataRevision == s.viewStart
    && Valid(Marked(s), limits)
  }

  /** The client holds the room's state at the revisions it declares. */
  ghost predicate Honest(s: State, copy: Copy, known: Known) {
    Holds(s, copy) && known.metadata == copy.metadataRevision && Declared(known.documents, copy.documents)
  }

  /** Folding the bridge gives the client a mirror of the room. */
  ghost predicate BridgedSoundly(s: State, copy: Copy, known: Known)
    requires Bridged(s, known).Deltas? && Elements(s.order) <= s.documents.Keys
  {
    var b := Bridged(s, known);
    var r := Folded(copy, b.structures, b.edits);
    r.Ok? && Mirrored(r.value, s, BridgeScars(s, known.documents))
  }

  lemma {:induction false} EditsKeepTabs(copy: Copy, events: seq<EditEvent>)
    ensures FoldEdits(copy, events).Ok? ==> FoldEdits(copy, events).value.metadataRevision == copy.metadataRevision
    decreases |events|
  {
    if events != [] {
      EditsKeepTabs(copy, events[..|events| - 1]);
    }
  }

  lemma LagsBasics(s: State, limits: Limits)
    requires Lags(s, limits)
    ensures Elements(s.order) <= s.documents.Keys
  {
  }

  /** Without metadata history the bridge does not depend on where the mark is, if the client is not before it. */
  lemma MarkedBridge(s: State, known: Known)
    requires s.metadataHistory == [] && s.metadataCompacted <= known.metadata == s.metadataRevision
    ensures Bridged(Marked(s), known) == Bridged(s, known)
  {
  }

  /** The scars of a bridge are a matter of documents and trails only. */
  lemma MarkedScars(s: State, revisions: map<Id, int>)
    ensures BridgeScars(Marked(s), revisions) == BridgeScars(s, revisions)
  {
    assert forall id :: KnownAt(Marked(s), revisions, id) == KnownAt(s, revisions, id);
  }

  lemma MarkedHolds(s: State, copy: Copy)
    ensures Holds(Marked(s), copy) == Holds(s, copy)
  {
  }

  lemma MarkedMirror(s: State, copy: Copy, scars: map<Id, seq<bool>>)
    requires Elements(s.order) <= s.documents.Keys
    ensures Mirrored(copy, Marked(s), scars) == Mirrored(copy, s, scars)
  {
    assert forall i :: 0 <= i < |copy.documents| ==>
      MatchesAt(copy, Marked(s), i, scars) == MatchesAt(copy, s, i, scars);
  }

  /**
    An honest client that a lagging room does not ask to resync is bridged into
    a mirror of the room if and only if it knew the current metadata revision;
    any other client is sent no tab change and stays behind.
  */
  lemma LaggingBridge(s: State, copy: Copy, known: Known, limits: Limits)
    requires Lags(s, limits) && Honest(s, copy, known) && Bridged(s, known).Deltas?
    ensures Elements(s.order) <= s.documents.Keys
    ensures BridgedSoundly(s, copy, known) <==> known.metadata == s.metadataRevision
  {
    hide Valid, Holds, Declared, BridgeScars, Mirrored, FoldEdits, Bridged;
    LagsBasics(s, limits);
    if known.metadata == s.metadataRevision {
      MarkedBridge(s, known);
      MarkedScars(s, known.documents);
      MarkedHolds(s, copy);
      BridgeSound(Marked(s), copy, known, limits);
      MarkedMirror(s, Folded(copy, Bridged(s, known).structures, Bridged(s, known).edits).value,
        BridgeScars(s, known.documents));
    } else {
      StaysBehind(s, copy, known);
    }
  }

  /** A client before the current metadata revision is sent no tab change at all. */
  lemma StaysBehind(s: State, copy: Copy, known: Known)
    requires s.metadataHistory == [] && known.metadata == copy.metadataRevision != s.metadataRevision
    requires Bridged(s, known).Deltas?
    ensures
      var b := Bridged(s, known);
      && b.structures == [] && known.metadata < s.metadataRevision
      && (Folded(copy, b.structures, b.edits).Ok? ==>
            Folded(copy, b.structures, b.edits).value.metadataRevision == copy.metadataRevision)
    ensures Elements(s.order) <= s.documents.Keys ==> !BridgedSoundly(s, copy, known)
  {
    hide AllEditsAfter, BridgeScars;
    EditsKeepTabs(copy, Bridged(s, known).edits);
  }

  /** Every honest client that is not asked to resync is bridged into a mirror. */
  ghost predicate BridgesSoundly(s: State)
    requires Elements(s.order) <= s.documents.Keys
  {
    forall copy, known :: Honest(s, copy, known) && Bridged(s, known).Deltas? ==> BridgedSoundly(s, copy, known)
  }

  /** A client that last saw the tab list at the compacted mark, with today's documents. */
  ghost function Laggard(s: State): Copy
    requires Elements(s.order) <= s.documents.Keys
  {
    CopyOf(s).(metadataRevision := s.metadataCompacted)
  }

  ghost function LaggardKnows(s: State): Known {
    Known(s.metadataCompacted, map id | id in s.documents :: s.documents[id].revision)
  }

  /** Such a client is honest and is not asked to resync. */
  lemma LaggardIsHonest(s: State, limits: Limits)
    requires Lags(s, limits) && s.metadataCompacted < s.metadataRevision && Elements(s.order) <= s.documents.Keys
    ensures Honest(s, Laggard(s), LaggardKnows(s)) && Bridged(s, LaggardKnows(s)).Deltas?
  {
    hide MetadataFits, ViewsFit, LedgerFits, LedgerBehind, TotalBytes, NoDuplicates, Labelled;
    assert forall id :: id in s.order ==> id in Elements(s.order);
    var copy, known := Laggard(s), LaggardKnows(s);
    forall i | 0 <= i < |copy.documents|
      ensures HoldsText(s.trails, copy.documents[i])
    {
      assert DocumentFits(s.documents, s.trails, limits, s.order[i]);
    }
    forall id | id in s.order
      ensures ReachesBack(s.documents, known.documents, id)
    {
      assert DocumentFits(s.documents, s.trails, limits, id);
    }
  }

  /** A lagging room bridges every honest client soundly if and only if it does not lag. */
  lemma BridgesSoundlyExactly(s: State, limits: Limits)
    requires Lags(s, limits)
    ensures Elements(s.order) <= s.documents.Keys
    ensures BridgesSoundly(s) <==> s.metadataCompacted == s.metadataRevision
  {
    hide Valid, Honest, Bridged, BridgedSoundly;
    LagsBasics(s, limits);
    forall copy, known | Honest(s, copy, known) && Bridged(s, known).Deltas?
      ensures BridgedSoundly(s, copy, known) <==> known.metadata == s.metadataRevision
      ensures s.metadataCompacted <= known.metadata <= s.metadataRevision
    {
      LaggingBridge(s, copy, known, limits);
      KnownInRange(s, known);
    }
    if s.metadataCompacted < s.metadataRevision {
      LaggardIsHonest(s, limits);
      assert !BridgedSoundly(s, Laggard(s), LaggardKnows(s));
    }
  }

  lemma KnownInRange(s: State, known: Known)
    requires Bridged(s, known).Deltas?
    ensures s.metadataCompacted <= known.metadata <= s.metadataRevision
  {
  }

  /**
    A room loaded from the tables of `before` bridges every honest client
    soundly if and only if the tab list's snapshot was at the metadata revision.
  */
  lemma LoadedBridgesExactly(before: State, documents: map<Id, Document>, snapshotRevision: int, limits: Limits)
    requires Elements(before.order) <= before.documents.Keys
    requires Valid(LoadedState(before, documents, before.metadataRevision), limits)
    requires snapshotRevision <= before.metadataRevision
    ensures
      var s := LoadedState(before, documents, snapshotRevision);
      && Elements(s.order) <= s.documents.Keys
      && (BridgesSoundly(s) <==> snapshotRevision == before.metadataRevision)
  {
    hide Valid, BridgesSoundly;
    var s := LoadedState(before, documents, snapshotRevision);
    assert Marked(s) == LoadedState(before, documents, before.metadataRevision);
    BridgesSoundlyExactly(s, limits);
  }

  // ----- An input -----

  const SMALLEST: Limits := Limits(1, 1, 1, 1, 1)
  const OLD_TAB: Tab := Tab("a", "x", "go")
  const NEW_TAB: Tab := Tab("a", "y", "go")
  const RENAMING: MetadataChange := Updated("a", "y", "go")

  /** A room with one empty tab, renamed once. */
  ghost function RenamedRoom(): State {
    State(map["a" := Document("y", "go", [], 0, [], 0, 0)], ["a"], 1, [], 0, 1, [],
      map["a" := Trail(0, [[]])], 0, [[OLD_TAB], [NEW_TAB]])
  }

  /** Its tables if the renaming was only appended to the log: the row has the old name. */
  ghost function UnrenamedTables(): Tables {
    Tables(1, 0, map["a" := Row("x", "go", [], 0, 0, 0)], map[(MetadataStream, 1) := StructurePayload(RENAMING)], [])
  }

  lemma ShortLabels()
    ensures ValidDocumentId("a") && ValidTabName("x") && ValidTabName("y") && ValidLanguage("go")
  {
    assert "a"[..0] == "" && "x"[..0] == "" && "y"[..0] == "";
    assert ByteLength("") == 0 && ByteLength("a") == 1 && ByteLength("x") == 1 && ByteLength("y") == 1;
    assert LANGUAGES[5] == "go";
  }

  lemma RenamedRoomIsValid()
    ensures Valid(RenamedRoom(), SMALLEST)
  {
    ShortLabels();
    hide ValidDocumentId, ValidTabName, ValidLanguage;
    var s := RenamedRoom();
    assert Elements(s.order) == {"a"};
    assert Sum([], Weights(s.documents)) == 0;
    assert Sum(["a"], Weights(s.documents)) == 0 by {
      assert ["a"][1..] == [];
    }
    assert TrailFits(s.trails["a"], s.documents["a"]);
    assert TabsOf(s.documents, s.order) == [NEW_TAB];
    assert Ids([OLD_TAB]) == ["a"] && Ids([NEW_TAB]) == ["a"];
  }

  /** The room can be recovered from these tables, so loading succeeds and yields a lagging room. */
  lemma RenamedRoomRecovers()
    ensures Recovers(UnrenamedTables(), RenamedRoom(), SMALLEST)
  {
    ShortLabels();
    hide ValidDocumentId, ValidTabName, ValidLanguage;
    var t, s := UnrenamedTables(), RenamedRoom();
    assert Ids([OLD_TAB]) == ["a"] && Elements(["a"]) == {"a"};
    assert RowShows(t.rows, OLD_TAB, 0);
    assert Leads(t.log, "a", s.trails["a"], FromRow(t.rows["a"]));
    assert RowRecovers(t, s, "a", SMALLEST);
    assert Renamed([OLD_TAB], "a", "y", "go") == [NEW_TAB];
    assert RevisionLed(t, s, 1, SMALLEST);
    assert LedgerRows([]) == [];
  }

  /** A client that saw the tab before it was renamed folds the whole bridge and keeps the old name. */
  lemma RenamingIsMissed()
    ensures
      var s := LoadedState(RenamedRoom(), RenamedRoom().documents, 0);
      var copy, known := Copy(0, [ClientDocument("a", "x", "go", [], 0)]), Known(0, map["a" := 0]);
      && Honest(s, copy, known) && Bridged(s, known) == Deltas([], [])
      && Folded(copy, [], []) == Ok(copy) && CopyOf(s).documents[0].name == "y"
  {
    var s := LoadedState(RenamedRoom(), RenamedRoom().documents, 0);
    assert Elements(["a"]) == {"a"};
    assert ReachesBack(s.documents, map["a" := 0], "a");
    assert ["a"][..0] == [];
    assert AllEditsAfter([], s.documents, map["a" := 0]) == [];
    assert EditsAfter("a", [], 0) == [];
  }
}
