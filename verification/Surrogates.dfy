/**
  The server stores texts as Go strings, so every application of a change set
  replaces surrogates left without their partner by U+FFFD. Convergence of the
  stored texts then holds exactly when the two edits agree on every surrogate
  pair of the merged text: both leave it whole, or both break it.
*/
module Surrogates {
  import opened Scripts
  import opened Utf16
  import opened ChangeSets
  import opened Mapping
  import opened Convergence

  /** What the server's `Apply` stores. */
  ghost function Stored(s: ChangeSet, doc: Text): Text
    requires OldLen(s) == |doc|
  {
    Repaired(Applied(s, doc))
  }

  /** Inserted texts are Go strings too. */
  ghost predicate TextsWellFormed(s: Script<Unit>) {
    match s
    case End => true
    case Keep(rest) => TextsWellFormed(rest)
    case Drop(rest) => TextsWellFormed(rest)
    case Put(text, _, rest) => WellFormed(text) && TextsWellFormed(rest)
  }

  /** The document with its kept units as they stand in `out`, an output of `s`. */
  ghost function Backfilled(s: Script<Unit>, doc: Text, out: Text): (r: Text)
    requires Span(s) == |doc| && |out| == |Run(s, doc)|
    ensures |r| == |doc|
    decreases s
  {
    match s
    case End => []
    case Keep(rest) => [out[0]] + Backfilled(rest, doc[1..], out[1..])
    case Drop(rest) => [doc[0]] + Backfilled(rest, doc[1..], out)
    case Put(text, _, rest) => Backfilled(rest, doc, out[|text|..])
  }

  /** `s` is `t` with some surrogates replaced by U+FFFD. */
  ghost predicate Blotted(s: Text, t: Text) {
    |s| == |t| && forall i :: 0 <= i < |s| ==> s[i] == t[i] || (IsSurrogate(t[i]) && s[i] == REPLACEMENT)
  }

  /** A repaired output is the script's output on the backfilled document: only document units get repaired. */
  lemma {:induction false} RepairedOutput(s: Script<Unit>, doc: Text, before: Text)
    requires Span(s) == |doc| && TextsWellFormed(s)
    ensures
      var out := Repaired(before + Run(s, doc))[|before|..];
      && Run(s, Backfilled(s, doc, out)) == out
      && Blotted(Backfilled(s, doc, out), doc)
    decreases s
  {
    hide Repaired, Blotted, Backfilled;
    var whole := before + Run(s, doc);
    var out := Repaired(whole)[|before|..];
    match s
    case End =>
      BackfilledEnd(s, doc, out);
      BlottedSame(doc);
    case Keep(rest) =>
      RepairedAt(whole, |before|);
      BlottedCons(out[0], Backfilled(rest, doc[1..], out[1..]), doc);
      BackfilledKeep(s, doc, out);
      Associative(before, [doc[0]], Run(rest, doc[1..]));
      RepairedOutput(rest, doc[1..], before + [doc[0]]);
      Behind(Repaired(whole), |before|, 1);
    case Drop(rest) =>
      RepairedOutput(rest, doc[1..], before);
      BlottedCons(doc[0], Backfilled(rest, doc[1..], out), doc);
      BackfilledDrop(s, doc, out);
    case Put(text, _, rest) =>
      Associative(before, text, Run(rest, doc));
      RepairedOutput(rest, doc, before + text);
      BackfilledPut(s, doc, out);
      Behind(Repaired(whole), |before|, |text|);
      TextStands(before, text, Run(rest, doc));
      CutAt(out, |text|);
  }

  lemma Behind(text: Text, n: nat, k: nat)
    requires n + k <= |text|
    ensures text[n..][k..] == text[n + k..]
  {
  }

  lemma CutAt(text: Text, n: nat)
    requires n <= |text|
    ensures text == text[..n] + text[n..]
  {
  }

  lemma BackfilledEnd(s: Script<Unit>, doc: Text, out: Text)
    requires s.End? && doc == out == []
    ensures Backfilled(s, doc, out) == [] == Run(s, [])
  {
  }

  lemma BackfilledKeep(s: Script<Unit>, doc: Text, out: Text)
    requires s.Keep? && Span(s) == |doc| && |out| == |Run(s, doc)|
    ensures
      var filled := Backfilled(s.rest, doc[1..], out[1..]);
      && Backfilled(s, doc, out) == [out[0]] + filled
      && (Run(s.rest, filled) == out[1..] ==> Run(s, [out[0]] + filled) == out)
  {
    var filled := Backfilled(s.rest, doc[1..], out[1..]);
    assert ([out[0]] + filled)[1..] == filled;
    assert [out[0]] + out[1..] == out;
  }

  lemma BackfilledDrop(s: Script<Unit>, doc: Text, out: Text)
    requires s.Drop? && Span(s) == |doc| && |out| == |Run(s, doc)|
    ensures
      var filled := Backfilled(s.rest, doc[1..], out);
      && Backfilled(s, doc, out) == [doc[0]] + filled
      && Run(s, [doc[0]] + filled) == Run(s.rest, filled)
  {
    var filled := Backfilled(s.rest, doc[1..], out);
    assert ([doc[0]] + filled)[1..] == filled;
  }

  lemma BackfilledPut(s: Script<Unit>, doc: Text, out: Text)
    requires s.Put? && Span(s) == |doc| && |out| == |Run(s, doc)|
    ensures
      var filled := Backfilled(s.rest, doc, out[|s.text|..]);
      && Backfilled(s, doc, out) == filled
      && Run(s, filled) == s.text + Run(s.rest, filled)
  {
  }

  lemma RepairedAt(s: Text, i: nat)
    requires i < |s|
    ensures Repaired(s)[i] == s[i] || (IsSurrogate(s[i]) && Repaired(s)[i] == REPLACEMENT)
  {
  }

  lemma BlottedSame(s: Text)
    ensures Blotted(s, s)
  {
  }

  lemma BlottedCons(unit: Unit, rest: Text, t: Text)
    requires t != [] && (unit == t[0] || (IsSurrogate(t[0]) && unit == REPLACEMENT))
    ensures Blotted(rest, t[1..]) ==> Blotted([unit] + rest, t)
  {
  }

  /** A well-formed text survives repair wherever it stands. */
  lemma TextStands(before: Text, text: Text, after: Text)
    requires WellFormed(text)
    ensures Repaired((before + text) + after)[|before|..][..|text|] == text
  {
    var whole := (before + text) + after;
    forall i | 0 <= i < |text|
      ensures Repaired(whole)[|before| + i] == text[i]
    {
      assert !Lone(text, i);
      assert whole[|before| + i] == text[i];
      if i + 1 < |text| {
        assert whole[|before| + i + 1] == text[i + 1];
      }
      if i > 0 {
        assert whole[|before| + i - 1] == text[i - 1];
      }
    }
  }

  lemma {:induction false} BackfilledRuns(s: Script<Unit>, doc: Text)
    requires Span(s) == |doc| && TextsWellFormed(s)
    ensures Run(s, Backfilled(s, doc, Repaired(Run(s, doc)))) == Repaired(Run(s, doc))
    ensures Blotted(Backfilled(s, doc, Repaired(Run(s, doc))), doc)
  {
    RepairedOutput(s, doc, []);
    assert [] + Run(s, doc) == Run(s, doc);
    assert Repaired(Run(s, doc))[0..] == Repaired(Run(s, doc));
  }

  lemma {:induction false} MergeBlotted(a: Script<Unit>, b: Script<Unit>, doc: Text, blotted: Text)
    requires Span(a) == Span(b) == |doc| && Blotted(blotted, doc)
    ensures Blotted(Merge(a, b, blotted), Merge(a, b, doc))
    decreases Size(a) + Size(b)
  {
    if a.Put? && GoesFirst(a, b, true) {
      MergeBlotted(a.rest, b, doc, blotted);
    } else if b.Put? {
      MergeBlotted(a, b.rest, doc, blotted);
    } else if !a.End? {
      MergeBlotted(a.rest, b.rest, doc[1..], blotted[1..]);
    }
  }

  /** The document units that `s` alone leaves without a partner, blotted out. */
  ghost function BrokenBy(s: ChangeSet, doc: Text): (r: Text)
    requires OldLen(s) == |doc|
    ensures |r| == |doc|
  {
    RunIsApplied(s, doc);
    Backfilled(ScriptOf(s), doc, Stored(s, doc))
  }

  /** The pair at `i`, `i + 1` of `whole` stands in a blotted copy. */
  ghost predicate PairStands(whole: Text, blotted: Text, i: nat)
    requires i + 1 < |whole| == |blotted|
  {
    blotted[i] == whole[i] && blotted[i + 1] == whole[i + 1]
  }

  ghost predicate PairsAgree(whole: Text, s: Text, t: Text)
    requires |s| == |t| == |whole|
  {
    forall i :: 0 <= i < |whole| - 1 && IsHigh(whole[i]) && IsLow(whole[i + 1]) ==>
      PairStands(whole, s, i) == PairStands(whole, t, i)
  }

  /** Two blotted copies of one text repair to the same text exactly when they agree on its pairs. */
  lemma RepairsAgree(whole: Text, s: Text, t: Text)
    requires Blotted(s, whole) && Blotted(t, whole)
    ensures Repaired(s) == Repaired(t) <==> PairsAgree(whole, s, t)
  {
    if Repaired(s) == Repaired(t) {
      forall i | 0 <= i < |whole| - 1 && IsHigh(whole[i]) && IsLow(whole[i + 1])
        ensures PairStands(whole, s, i) == PairStands(whole, t, i)
      {
        assert Repaired(s)[i] == Repaired(t)[i];
        PairSurvives(whole, s, i);
        PairSurvives(whole, t, i);
      }
    }
    if PairsAgree(whole, s, t) {
      forall i | 0 <= i < |whole|
        ensures Repaired(s)[i] == Repaired(t)[i]
      {
        RepairedUnit(whole, s, i);
        RepairedUnit(whole, t, i);
        if i > 0 && IsHigh(whole[i - 1]) && IsLow(whole[i]) {
          assert PairStands(whole, s, i - 1) == PairStands(whole, t, i - 1);
        }
      }
    }
  }

  lemma PairSurvives(whole: Text, s: Text, i: nat)
    requires Blotted(s, whole) && i + 1 < |whole| && IsHigh(whole[i]) && IsLow(whole[i + 1])
    ensures Repaired(s)[i] == whole[i] <==> PairStands(whole, s, i)
  {
  }

  /** A surrogate of a blotted copy survives repair exactly when its pair stands; other units always do. */
  lemma RepairedUnit(whole: Text, s: Text, i: nat)
    requires Blotted(s, whole) && i < |whole|
    ensures
      var high := IsHigh(whole[i]) && i + 1 < |whole| && IsLow(whole[i + 1]) && PairStands(whole, s, i);
      var low := IsLow(whole[i]) && i > 0 && IsHigh(whole[i - 1]) && PairStands(whole, s, i - 1);
      Repaired(s)[i] == if !IsSurrogate(whole[i]) || high || low then whole[i] else REPLACEMENT
  {
  }

  /** The merged text when the second applier sees the first one's repaired output. */
  lemma StoredOrders(a: ChangeSet, b: ChangeSet, aAfterB: ChangeSet, bAfterA: ChangeSet, doc: Text)
    requires OldLen(a) == OldLen(b) == |doc|
    requires TextsWellFormed(ScriptOf(a)) && TextsWellFormed(ScriptOf(b))
    requires IsMapped(aAfterB, a, b, true) && IsMapped(bAfterA, b, a, false)
    ensures OldLen(aAfterB) == |Stored(b, doc)| && OldLen(bAfterA) == |Stored(a, doc)|
    ensures Stored(aAfterB, Stored(b, doc)) == Repaired(Merged(a, b, BrokenBy(b, doc)))
    ensures Stored(bAfterA, Stored(a, doc)) == Repaired(Merged(a, b, BrokenBy(a, doc)))
  {
    RunIsApplied(a, doc);
    RunIsApplied(b, doc);
    BackfilledRuns(ScriptOf(a), doc);
    BackfilledRuns(ScriptOf(b), doc);
    RunIsApplied(a, BrokenBy(a, doc));
    RunIsApplied(b, BrokenBy(b, doc));
    FirstMappedApplied(aAfterB, a, b, BrokenBy(b, doc));
    SecondMappedApplied(bAfterA, a, b, BrokenBy(a, doc));
  }

  /** Each edit alone leaves every surrogate pair of the merged text whole, or both break it. */
  ghost predicate AgreeOnPairs(a: ChangeSet, b: ChangeSet, doc: Text)
    requires OldLen(a) == OldLen(b) == |doc|
    requires TextsWellFormed(ScriptOf(a)) && TextsWellFormed(ScriptOf(b))
  {
    BlottedMerges(a, b, doc);
    PairsAgree(Merged(a, b, doc), Merged(a, b, BrokenBy(a, doc)), Merged(a, b, BrokenBy(b, doc)))
  }

  lemma BlottedMerges(a: ChangeSet, b: ChangeSet, doc: Text)
    requires OldLen(a) == OldLen(b) == |doc|
    requires TextsWellFormed(ScriptOf(a)) && TextsWellFormed(ScriptOf(b))
    ensures Blotted(Merged(a, b, BrokenBy(a, doc)), Merged(a, b, doc))
    ensures Blotted(Merged(a, b, BrokenBy(b, doc)), Merged(a, b, doc))
  {
    RunIsApplied(a, doc);
    RunIsApplied(b, doc);
    BackfilledRuns(ScriptOf(a), doc);
    BackfilledRuns(ScriptOf(b), doc);
    MergeBlotted(ScriptOf(a), ScriptOf(b), doc, BrokenBy(a, doc));
    MergeBlotted(ScriptOf(a), ScriptOf(b), doc, BrokenBy(b, doc));
  }

  /** Stored texts converge if and only if the two edits agree on the merged text's pairs. */
  lemma StoredConverges(a: ChangeSet, b: ChangeSet, aAfterB: ChangeSet, bAfterA: ChangeSet, doc: Text)
    requires OldLen(a) == OldLen(b) == |doc|
    requires TextsWellFormed(ScriptOf(a)) && TextsWellFormed(ScriptOf(b))
    requires IsMapped(aAfterB, a, b, true) && IsMapped(bAfterA, b, a, false)
    ensures OldLen(aAfterB) == |Stored(b, doc)| && OldLen(bAfterA) == |Stored(a, doc)|
    ensures Stored(aAfterB, Stored(b, doc)) == Stored(bAfterA, Stored(a, doc)) <==> AgreeOnPairs(a, b, doc)
  {
    StoredOrders(a, b, aAfterB, bAfterA, doc);
    BlottedMerges(a, b, doc);
    RepairsAgree(Merged(a, b, doc), Merged(a, b, BrokenBy(a, doc)), Merged(a, b, BrokenBy(b, doc)));
  }

  /** In particular they converge when neither edit alone splits a pair. */
  lemma WholePairsConverge(a: ChangeSet, b: ChangeSet, doc: Text)
    requires OldLen(a) == OldLen(b) == |doc|
    requires TextsWellFormed(ScriptOf(a)) && TextsWellFormed(ScriptOf(b))
    requires WellFormed(Applied(a, doc)) && WellFormed(Applied(b, doc))
    ensures AgreeOnPairs(a, b, doc)
  {
    UnbrokenBy(a, doc);
    UnbrokenBy(b, doc);
  }

  lemma UnbrokenBy(s: ChangeSet, doc: Text)
    requires OldLen(s) == |doc| && WellFormed(Applied(s, doc))
    ensures BrokenBy(s, doc) == doc
  {
    RepairedIsWellFormed(Applied(s, doc));
    RunIsApplied(s, doc);
    BackfilledSame(ScriptOf(s), doc);
  }

  lemma {:induction false} BackfilledSame(s: Script<Unit>, doc: Text)
    requires Span(s) == |doc|
    ensures Backfilled(s, doc, Run(s, doc)) == doc
    decreases s
  {
    match s
    case End =>
    case Keep(rest) => BackfilledSame(rest, doc[1..]);
    case Drop(rest) => BackfilledSame(rest, doc[1..]);
    case Put(text, _, rest) =>
      BackfilledSame(rest, doc);
      assert Run(s, doc)[|text|..] == Run(rest, doc);
  }

  // ----- Two edits that do not converge -----

  const TWO_FACES: Text := [0xD83D, 0xDE42, 0xD83D, 0xDE00]

  /** Deletes the inner halves of both pairs, joining the outer ones into a pair. */
  const INNER: ChangeSet := [Section(1, -1, []), Section(2, 0, []), Section(1, -1, [])]

  /** Deletes the second half of the first pair. */
  const HALF: ChangeSet := [Section(1, -1, []), Section(1, 0, []), Section(2, -1, [])]

  const INNER_AFTER_HALF: ChangeSet := [Section(1, -1, []), Section(1, 0, []), Section(1, -1, [])]
  const HALF_AFTER_INNER: ChangeSet := [Section(2, -1, [])]

  lemma ThreeSections(s: ChangeSet)
    requires |s| == 3
    ensures ScriptOf(s) == SectionScript(s[0], SectionScript(s[1], SectionScript(s[2], End)))
    ensures EditsOf(s) == SectionEdits(s[0]) + SectionEdits(s[1]) + SectionEdits(s[2])
    ensures OldLen(s) == s[0].oldLen + s[1].oldLen + s[2].oldLen
  {
    hide SectionScript, ScriptOf, SectionEdits, EditsOf, OldLen;
    ThreeScripts(s);
    assert s[..2][..1] == s[..1] && s[..2][1] == s[1];
    OneSection(s[..1]);
    LastSection(s[..2]);
    LastSection(s);
  }

  lemma ThreeScripts(s: ChangeSet)
    requires |s| == 3
    ensures ScriptOf(s) == SectionScript(s[0], SectionScript(s[1], SectionScript(s[2], End)))
  {
    hide SectionScript;
    assert s[1..][1..] == s[2..] && s[2..][1..] == [];
    assert ScriptOf(s[2..]) == SectionScript(s[2], End);
    assert ScriptOf(s[1..]) == SectionScript(s[1], ScriptOf(s[2..]));
  }

  /** The scripts of the two edits. */
  lemma CounterexampleScripts()
    ensures ScriptOf(INNER) == Keep(Put([], 2, Drop(Drop(Keep(End)))))
    ensures ScriptOf(HALF) == Keep(Put([], 1, Drop(Keep(Keep(End)))))
    ensures ScriptOf(INNER_AFTER_HALF) == Keep(Put([], 1, Drop(Keep(End))))
    ensures ScriptOf(HALF_AFTER_INNER) == Keep(Keep(End))
  {
    ThreeSections(INNER);
    ThreeSections(HALF);
    ThreeSections(INNER_AFTER_HALF);
    OneSection(HALF_AFTER_INNER);
    var last: Script<Unit> := Keep(End);
    assert Keeps(1, End) == last && Keeps(2, End) == Keep(last);
    assert Drops(1, last) == Drop(last) && Drops(1, Keep(last)) == Drop(Keep(last));
    assert Drops(2, last) == Drop(Drops(1, last));
  }

  /** The two edits map over each other. */
  lemma CounterexampleIsMapped()
    ensures IsMapped(INNER_AFTER_HALF, INNER, HALF, true) && IsMapped(HALF_AFTER_INNER, HALF, INNER, false)
  {
    CounterexampleScripts();
    CounterexampleMaps(ScriptOf(INNER), ScriptOf(HALF));
    ThreeSections(INNER_AFTER_HALF);
    OneSection(HALF_AFTER_INNER);
    assert EditsOf(INNER_AFTER_HALF) == [Retain, Remove, Retain];
    assert EditsOf(HALF_AFTER_INNER) == [Retain, Retain];
  }

  lemma StoredRun(s: ChangeSet, doc: Text)
    requires OldLen(s) == |doc|
    ensures Span(ScriptOf(s)) == |doc| && Stored(s, doc) == Repaired(Run(ScriptOf(s), doc))
  {
    RunIsApplied(s, doc);
  }

  lemma CounterexampleStored()
    ensures OldLen(HALF) == OldLen(INNER) == |TWO_FACES|
    ensures Stored(HALF, TWO_FACES) == [REPLACEMENT, 0xD83D, 0xDE00]
    ensures Stored(INNER, TWO_FACES) == [0xD83D, 0xDE00]
  {
    hide ScriptOf, SectionScript, SectionEdits, OldLen, EditsOf, Stored, Run, Applied;
    CounterexampleScripts();
    ThreeSections(HALF);
    ThreeSections(INNER);
    StoredRun(HALF, TWO_FACES);
    StoredRun(INNER, TWO_FACES);
    CounterexampleRuns(ScriptOf(INNER), ScriptOf(HALF));
  }

  /** Yet the stored texts differ: two U+FFFD in one order, a new pair in the other. */
  lemma StoredDiverges()
    ensures IsMapped(INNER_AFTER_HALF, INNER, HALF, true) && IsMapped(HALF_AFTER_INNER, HALF, INNER, false)
    ensures OldLen(HALF) == OldLen(INNER) == |TWO_FACES|
    ensures OldLen(INNER_AFTER_HALF) == |Stored(HALF, TWO_FACES)|
    ensures OldLen(HALF_AFTER_INNER) == |Stored(INNER, TWO_FACES)|
    ensures Stored(INNER_AFTER_HALF, Stored(HALF, TWO_FACES)) == [REPLACEMENT, REPLACEMENT]
    ensures Stored(HALF_AFTER_INNER, Stored(INNER, TWO_FACES)) == [0xD83D, 0xDE00]
  {
    hide Applied, ScriptOf, SectionScript, SectionEdits, IsMapped, OldLen, EditsOf, Repaired, Stored, Run;
    CounterexampleIsMapped();
    CounterexampleStored();
    CounterexampleScripts();
    ThreeSections(INNER_AFTER_HALF);
    OneSection(HALF_AFTER_INNER);
    var first, second := Stored(HALF, TWO_FACES), Stored(INNER, TWO_FACES);
    StoredRun(INNER_AFTER_HALF, first);
    StoredRun(HALF_AFTER_INNER, second);
    CounterexampleSecondRuns(ScriptOf(INNER_AFTER_HALF), ScriptOf(HALF_AFTER_INNER), first, second);
    RepairedPairs();
  }

  lemma RepairedPairs()
    ensures Repaired([REPLACEMENT, 0xDE00]) == [REPLACEMENT, REPLACEMENT]
    ensures Repaired([0xD83D, 0xDE00]) == [0xD83D, 0xDE00]
  {
  }

  lemma CounterexampleSecondRuns(inner: Script<Unit>, half: Script<Unit>, first: Text, second: Text)
    requires inner == Keep(Put([], 1, Drop(Keep(End)))) && half == Keep(Keep(End))
    requires |first| == 3 && |second| == 2
    ensures Run(inner, first) == [first[0], first[2]]
    ensures Run(half, second) == second
  {
    assert first[1..][1..] == first[2..] && first[2..][1..] == [] && second[1..][1..] == [];
    assert Run(inner.rest.rest.rest, first[2..]) == first[2..];
    assert Run(half.rest, second[1..]) == second[1..];
  }

  lemma OneSection(s: ChangeSet)
    requires |s| == 1
    ensures ScriptOf(s) == SectionScript(s[0], End) && EditsOf(s) == SectionEdits(s[0]) && OldLen(s) == s[0].oldLen
  {
    assert s[1..] == [] && s[..0] == [];
    assert [] + SectionEdits(s[0]) == SectionEdits(s[0]);
  }

  lemma CounterexampleMaps(inner: Script<Unit>, half: Script<Unit>)
    requires inner == Keep(Put([], 2, Drop(Drop(Keep(End))))) && half == Keep(Put([], 1, Drop(Keep(Keep(End)))))
    ensures Mapped(inner, half, true) == [Retain, Remove, Retain]
    ensures Mapped(half, inner, false) == [Retain, Retain]
  {
    var put, other := inner.rest, half.rest;
    var a, b := put.rest, other.rest;
    assert Mapped(a.rest.rest, b.rest.rest, true) == [Retain] == Mapped(b.rest.rest, a.rest.rest, false);
    assert Mapped(a.rest, b.rest, true) == [Remove, Retain];
    assert Mapped(a, b, true) == [Remove, Retain];
    assert Mapped(put, b, true) == [Remove, Retain];
    assert Mapped(put, other, true) == [Remove, Retain];
    assert Mapped(b.rest, a.rest, false) == [Retain];
    assert Mapped(b, a, false) == [Retain];
    assert Mapped(b, put, false) == [Retain];
    assert Mapped(other, put, false) == [Retain];
  }

  lemma CounterexampleRuns(inner: Script<Unit>, half: Script<Unit>)
    requires inner == Keep(Put([], 2, Drop(Drop(Keep(End))))) && half == Keep(Put([], 1, Drop(Keep(Keep(End)))))
    ensures Run(half, TWO_FACES) == [0xD83D, 0xD83D, 0xDE00]
    ensures Run(inner, TWO_FACES) == [0xD83D, 0xDE00]
  {
    var rest, last := TWO_FACES[1..], TWO_FACES[3..];
    assert rest[1..] == TWO_FACES[2..] && rest[2..] == last && TWO_FACES[2..][1..] == last && last[1..] == [];
    assert Run(inner.rest.rest.rest.rest, last) == last;
    assert Run(half.rest.rest.rest, TWO_FACES[2..]) == TWO_FACES[2..] by {
      assert Run(half.rest.rest.rest.rest, last) == last;
    }
  }
}
