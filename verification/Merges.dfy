/**
  What becomes of two concurrent edits: which units their merge contains and in
  which order they stand, for all change sets, without reference to how one is
  mapped over the other.
*/
module Merges {
  import opened Scripts
  import opened Utf16
  import opened ChangeSets
  import opened Mapping
  import opened Convergence

  datatype Origin = FromDocument | FromFirst | FromSecond

  /** The offset in the common document of a unit, or of an insertion that replaces `width` units from there. */
  datatype Place = Place(origin: Origin, offset: nat, width: int)

  datatype Placed<T> = Placed(unit: T, place: Place)

  /**
    The order of a merge: by offset; at one offset inserted text before the
    unit that stands there, the narrower replacement first, and on equal widths
    the first side's.
  */
  predicate Precedes(p: Place, q: Place) {
    || p.offset < q.offset
    || (p.offset == q.offset && !p.origin.FromDocument? &&
        (q.origin.FromDocument? || p.width < q.width ||
         (p.width == q.width && p.origin.FromFirst? && q.origin.FromSecond?)))
  }

  ghost predicate InOrder<T(!new)>(placed: seq<Placed<T>>) {
    forall i, j :: 0 <= i < j < |placed| ==> !Precedes(placed[j].place, placed[i].place)
  }

  ghost function Units<T>(placed: seq<Placed<T>>): (r: seq<T>)
    ensures |r| == |placed|
  {
    seq(|placed|, i requires 0 <= i < |placed| => placed[i].unit)
  }

  /** The units of one origin, in order. */
  ghost function From<T>(placed: seq<Placed<T>>, origin: Origin): seq<Placed<T>> {
    if placed == [] then []
    else (if placed[0].place.origin == origin then [placed[0]] else []) + From(placed[1..], origin)
  }

  ghost function PutAt<T>(text: seq<T>, place: Place): (r: seq<Placed<T>>)
    ensures |r| == |text|
  {
    seq(|text|, i requires 0 <= i < |text| => Placed(text[i], place))
  }

  // ----- What two change sets contribute -----

  ghost function Flags(n: nat, flag: bool): (r: seq<bool>)
    ensures |r| == n
  {
    seq(n, _ => flag)
  }

  /** Which units of the old document lie in unchanged sections. */
  ghost function KeptUnits(s: ChangeSet): (r: seq<bool>)
    ensures |r| == OldLen(s)
  {
    if s == [] then []
    else
      EditsOfCons(s);
      EditsSpan(s[1..]);
      Flags(s[0].oldLen, s[0].newLen < 0) + KeptUnits(s[1..])
  }

  /** Every text a change set inserts, each unit with its place. */
  ghost function Insertions(s: ChangeSet, origin: Origin, at: nat): seq<Placed<Unit>> {
    if s == [] then []
    else PutAt(s[0].insert, Place(origin, at, s[0].oldLen)) + Insertions(s[1..], origin, at + s[0].oldLen)
  }

  /** The document units that both sides keep, with their places. */
  ghost function KeptByBoth<T>(doc: seq<T>, first: seq<bool>, second: seq<bool>, at: nat): seq<Placed<T>>
    requires |doc| == |first| == |second|
  {
    if doc == [] then []
    else
      (if first[0] && second[0] then [Placed(doc[0], Place(FromDocument, at, 0))] else [])
      + KeptByBoth(doc[1..], first[1..], second[1..], at + 1)
  }

  /**
    A text in which every unit has its place: exactly the document units in
    unchanged sections of both sides and exactly the texts each side inserts,
    all in the order of their places.
  */
  ghost predicate Attributes(placed: seq<Placed<Unit>>, a: ChangeSet, b: ChangeSet, doc: Text, text: Text)
    requires OldLen(a) == OldLen(b) == |doc|
  {
    && Units(placed) == text
    && From(placed, FromDocument) == KeptByBoth(doc, KeptUnits(a), KeptUnits(b), 0)
    && From(placed, FromFirst) == Insertions(a, FromFirst, 0)
    && From(placed, FromSecond) == Insertions(b, FromSecond, 0)
    && InOrder(placed)
  }

  // ----- The merge of two scripts, unit by unit -----

  ghost function PlacedMerge<T>(a: Script<T>, b: Script<T>, doc: seq<T>, at: nat): seq<Placed<T>>
    requires Span(a) == Span(b) == |doc|
    decreases Size(a) + Size(b)
  {
    if a.Put? && GoesFirst(a, b, true) then
      PutAt(a.text, Place(FromFirst, at, a.width)) + PlacedMerge(a.rest, b, doc, at)
    else if b.Put? then PutAt(b.text, Place(FromSecond, at, b.width)) + PlacedMerge(a, b.rest, doc, at)
    else if a.End? then []
    else
      (if a.Keep? && b.Keep? then [Placed(doc[0], Place(FromDocument, at, 0))] else [])
      + PlacedMerge(a.rest, b.rest, doc[1..], at + 1)
  }

  ghost function ScriptInsertions<T>(s: Script<T>, origin: Origin, at: nat): seq<Placed<T>> {
    match s
    case End => []
    case Keep(rest) => ScriptInsertions(rest, origin, at + 1)
    case Drop(rest) => ScriptInsertions(rest, origin, at + 1)
    case Put(text, width, rest) => PutAt(text, Place(origin, at, width)) + ScriptInsertions(rest, origin, at)
  }

  ghost function Survivors<T>(s: Script<T>): (r: seq<bool>)
    ensures |r| == Span(s)
  {
    match s
    case End => []
    case Keep(rest) => [true] + Survivors(rest)
    case Drop(rest) => [false] + Survivors(rest)
    case Put(_, _, rest) => Survivors(rest)
  }

  /** Insertions at one offset by ascending width, as the sections of a change set yield them. */
  ghost predicate Ascending<T>(s: Script<T>) {
    match s
    case End => true
    case Keep(rest) => Ascending(rest)
    case Drop(rest) => Ascending(rest)
    case Put(_, width, rest) => (rest.Put? ==> width <= rest.width) && Ascending(rest)
  }

  lemma UnitsConcat<T>(p: seq<Placed<T>>, q: seq<Placed<T>>)
    ensures Units(p + q) == Units(p) + Units(q)
  {
  }

  lemma {:induction false} FromConcat<T>(p: seq<Placed<T>>, q: seq<Placed<T>>, origin: Origin)
    ensures From(p + q, origin) == From(p, origin) + From(q, origin)
    decreases |p|
  {
    if p == [] {
      assert p + q == q;
    } else {
      FromConcat(p[1..], q, origin);
      assert (p + q)[1..] == p[1..] + q;
      Associative(if p[0].place.origin == origin then [p[0]] else [], From(p[1..], origin), From(q, origin));
    }
  }

  lemma {:induction false} FromPut<T>(text: seq<T>, place: Place, origin: Origin)
    ensures From(PutAt(text, place), origin) == if place.origin == origin then PutAt(text, place) else []
    decreases |text|
  {
    if text != [] {
      FromPut(text[1..], place, origin);
      assert PutAt(text, place)[1..] == PutAt(text[1..], place);
      assert PutAt(text, place) == [PutAt(text, place)[0]] + PutAt(text[1..], place);
    }
  }

  lemma PutFirst<T>(text: seq<T>, place: Place, rest: seq<Placed<T>>)
    ensures Units(PutAt(text, place) + rest) == text + Units(rest)
    ensures forall origin ::
      From(PutAt(text, place) + rest, origin) ==
      (if place.origin == origin then PutAt(text, place) else []) + From(rest, origin)
  {
    UnitsConcat(PutAt(text, place), rest);
    assert Units(PutAt(text, place)) == text;
    forall origin
      ensures From(PutAt(text, place) + rest, origin) ==
        (if place.origin == origin then PutAt(text, place) else []) + From(rest, origin)
    {
      FromConcat(PutAt(text, place), rest, origin);
      FromPut(text, place, origin);
    }
  }

  /** The merge contains what both keep and what each inserts. */
  lemma {:induction false} MergeContents<T>(a: Script<T>, b: Script<T>, doc: seq<T>, at: nat)
    requires Span(a) == Span(b) == |doc|
    ensures
      var placed := PlacedMerge(a, b, doc, at);
      && Units(placed) == Merge(a, b, doc)
      && From(placed, FromDocument) == KeptByBoth(doc, Survivors(a), Survivors(b), at)
      && From(placed, FromFirst) == ScriptInsertions(a, FromFirst, at)
      && From(placed, FromSecond) == ScriptInsertions(b, FromSecond, at)
    decreases Size(a) + Size(b)
  {
    if a.Put? && GoesFirst(a, b, true) {
      MergeContents(a.rest, b, doc, at);
      PutFirst(a.text, Place(FromFirst, at, a.width), PlacedMerge(a.rest, b, doc, at));
    } else if b.Put? {
      MergeContents(a, b.rest, doc, at);
      PutFirst(b.text, Place(FromSecond, at, b.width), PlacedMerge(a, b.rest, doc, at));
    } else if !a.End? {
      MergeContents(a.rest, b.rest, doc[1..], at + 1);
      var place, rest := Place(FromDocument, at, 0), PlacedMerge(a.rest, b.rest, doc[1..], at + 1);
      if a.Keep? && b.Keep? {
        assert PutAt([doc[0]], place) == [Placed(doc[0], place)];
        PutFirst([doc[0]], place, rest);
      } else {
        assert [] + rest == rest;
      }
    }
  }

  /** Nothing in a merge lies before its start, and at its start nothing is narrower than what comes next. */
  ghost predicate After<T>(p: Place, a: Script<T>, b: Script<T>, at: nat) {
    && at <= p.offset
    && (p.offset == at && p.origin.FromFirst? ==> a.Put? && a.width <= p.width)
    && (p.offset == at && p.origin.FromSecond? ==> b.Put? && b.width <= p.width)
  }

  ghost predicate AllAfter<T(!new)>(placed: seq<Placed<T>>, a: Script<T>, b: Script<T>, at: nat) {
    forall i :: 0 <= i < |placed| ==> After(placed[i].place, a, b, at)
  }

  lemma PutInOrder<T(!new)>(text: seq<T>, place: Place, rest: seq<Placed<T>>)
    requires InOrder(rest) && forall i :: 0 <= i < |rest| ==> !Precedes(rest[i].place, place)
    ensures InOrder(PutAt(text, place) + rest)
  {
    var all := PutAt(text, place) + rest;
    forall i, j | 0 <= i < j < |all|
      ensures !Precedes(all[j].place, all[i].place)
    {
      if |text| <= i {
        assert all[i] == rest[i - |text|] && all[j] == rest[j - |text|];
      }
    }
  }

  lemma {:induction false} MergeInOrder<T(!new)>(a: Script<T>, b: Script<T>, doc: seq<T>, at: nat)
    requires Span(a) == Span(b) == |doc| && Ascending(a) && Ascending(b)
    ensures InOrder(PlacedMerge(a, b, doc, at)) && AllAfter(PlacedMerge(a, b, doc, at), a, b, at)
    decreases Size(a) + Size(b)
  {
    if a.Put? && GoesFirst(a, b, true) {
      MergeInOrder(a.rest, b, doc, at);
      PutInOrder(a.text, Place(FromFirst, at, a.width), PlacedMerge(a.rest, b, doc, at));
    } else if b.Put? {
      MergeInOrder(a, b.rest, doc, at);
      PutInOrder(b.text, Place(FromSecond, at, b.width), PlacedMerge(a, b.rest, doc, at));
    } else if !a.End? {
      MergeInOrder(a.rest, b.rest, doc[1..], at + 1);
      var place := Place(FromDocument, at, 0);
      assert PutAt([doc[0]], place) == [Placed(doc[0], place)];
      PutInOrder([doc[0]], place, PlacedMerge(a.rest, b.rest, doc[1..], at + 1));
    }
  }

  // ----- The scripts of change sets -----

  lemma {:induction false} KeepsContribute<T>(n: nat, rest: Script<T>, origin: Origin, at: nat)
    ensures Survivors(Keeps(n, rest)) == Flags(n, true) + Survivors(rest)
    ensures ScriptInsertions(Keeps(n, rest), origin, at) == ScriptInsertions(rest, origin, at + n)
    ensures Ascending(Keeps(n, rest)) == Ascending(rest)
    decreases n
  {
    if n > 0 {
      KeepsContribute(n - 1, rest, origin, at + 1);
      assert Flags(n, true) == [true] + Flags(n - 1, true);
    }
  }

  lemma {:induction false} DropsContribute<T>(n: nat, rest: Script<T>, origin: Origin, at: nat)
    ensures Survivors(Drops(n, rest)) == Flags(n, false) + Survivors(rest)
    ensures ScriptInsertions(Drops(n, rest), origin, at) == ScriptInsertions(rest, origin, at + n)
    ensures Ascending(Drops(n, rest)) == Ascending(rest)
    decreases n
  {
    if n > 0 {
      DropsContribute(n - 1, rest, origin, at + 1);
      assert Flags(n, false) == [false] + Flags(n - 1, false);
    }
  }

  lemma {:induction false} SectionsContribute(s: ChangeSet, origin: Origin, at: nat)
    ensures ScriptInsertions(ScriptOf(s), origin, at) == Insertions(s, origin, at)
    ensures Survivors(ScriptOf(s)) == KeptUnits(s) && Ascending(ScriptOf(s))
    decreases |s|
  {
    if s != [] {
      var first, rest := s[0], ScriptOf(s[1..]);
      SectionsContribute(s[1..], origin, at + first.oldLen);
      KeepsContribute(first.oldLen, rest, origin, at);
      DropsContribute(first.oldLen, rest, origin, at);
      assert PutAt<Unit>([], Place(origin, at, first.oldLen)) == [];
      ScriptFacts(s[1..]);
    }
  }

  // ----- The merge of two change sets -----

  /**
    What the merge of two change sets contains and in which order, for all
    change sets and documents.
  */
  lemma MergedContents(a: ChangeSet, b: ChangeSet, doc: Text)
    requires OldLen(a) == OldLen(b) == |doc|
    ensures exists placed :: Attributes(placed, a, b, doc, Merged(a, b, doc))
  {
    ScriptFacts(a);
    ScriptFacts(b);
    SectionsContribute(a, FromFirst, 0);
    SectionsContribute(b, FromSecond, 0);
    MergeContents(ScriptOf(a), ScriptOf(b), doc, 0);
    MergeInOrder(ScriptOf(a), ScriptOf(b), doc, 0);
    assert Attributes(PlacedMerge(ScriptOf(a), ScriptOf(b), doc, 0), a, b, doc, Merged(a, b, doc));
  }

  /** Two units of different origin have one order only. */
  lemma OneOrder(p: Place, q: Place)
    requires p.origin != q.origin
    ensures Precedes(p, q) <==> !Precedes(q, p)
  {
  }

  /** The first unit of an origin comes first among all of it. */
  lemma {:induction false} HeadOfOrigin<T(!new)>(placed: seq<Placed<T>>, origin: Origin)
    requires From(placed, origin) != []
    ensures exists i :: 0 <= i < |placed| && placed[i] == From(placed, origin)[0]
    decreases |placed|
  {
    if placed[0].place.origin == origin {
      assert placed[0] == From(placed, origin)[0];
    } else {
      HeadOfOrigin(placed[1..], origin);
      var i :| 0 <= i < |placed[1..]| && placed[1..][i] == From(placed[1..], origin)[0];
      assert placed[i + 1] == From(placed, origin)[0];
    }
  }

  lemma HasOrigin<T>(placed: seq<Placed<T>>)
    requires placed != []
    ensures From(placed, placed[0].place.origin) != []
  {
  }

  lemma SameHead<T(!new)>(p: seq<Placed<T>>, q: seq<Placed<T>>)
    requires InOrder(p) && InOrder(q) && p != [] && q != []
    requires forall origin :: From(p, origin) == From(q, origin)
    ensures p[0] == q[0]
  {
    HasOrigin(p);
    HasOrigin(q);
    var first, second := p[0].place.origin, q[0].place.origin;
    HeadOfOrigin(q, first);
    HeadOfOrigin(p, second);
    var i :| 0 <= i < |q| && q[i] == From(q, first)[0];
    var j :| 0 <= j < |p| && p[j] == From(p, second)[0];
    assert From(p, first)[0] == p[0] && From(q, second)[0] == q[0];
    assert q[i] == p[0] && p[j] == q[0];
    assert i > 0 ==> !Precedes(q[i].place, q[0].place);
    assert j > 0 ==> !Precedes(p[j].place, p[0].place);
    if first != second {
      OneOrder(p[0].place, q[0].place);
    }
  }

  /** Contributions that are in order determine the whole. */
  lemma {:induction false} OnlyOneMerge<T(!new)>(p: seq<Placed<T>>, q: seq<Placed<T>>)
    requires InOrder(p) && InOrder(q) && forall origin :: From(p, origin) == From(q, origin)
    ensures p == q
    decreases |p|
  {
    if q != [] {
      HasOrigin(q);
    }
    if p != [] {
      HasOrigin(p);
      SameHead(p, q);
      forall origin
        ensures From(p[1..], origin) == From(q[1..], origin)
      {
        TailOfOrigin(p, origin);
        TailOfOrigin(q, origin);
      }
      OnlyOneMerge(p[1..], q[1..]);
    }
  }

  lemma TailOfOrigin<T>(placed: seq<Placed<T>>, origin: Origin)
    requires placed != []
    ensures From(placed[1..], origin) ==
      if placed[0].place.origin == origin then From(placed, origin)[1..] else From(placed, origin)
  {
    assert [] + From(placed[1..], origin) == From(placed[1..], origin);
  }

  /** And no other text has these contents in this order. */
  lemma MergedOnly(a: ChangeSet, b: ChangeSet, doc: Text, placed: seq<Placed<Unit>>, text: Text)
    requires OldLen(a) == OldLen(b) == |doc| && Attributes(placed, a, b, doc, text)
    ensures text == Merged(a, b, doc)
  {
    MergedContents(a, b, doc);
    var other :| Attributes(other, a, b, doc, Merged(a, b, doc));
    hide *;
    SameContents(a, b, doc, placed, text, other, Merged(a, b, doc));
  }

  lemma SameContents(
      a: ChangeSet, b: ChangeSet, doc: Text, placed: seq<Placed<Unit>>, text: Text, other: seq<Placed<Unit>>,
      otherText: Text)
    requires OldLen(a) == OldLen(b) == |doc|
    requires Attributes(placed, a, b, doc, text) && Attributes(other, a, b, doc, otherText)
    ensures text == otherText
  {
    hide KeptByBoth, KeptUnits, Insertions, InOrder, From, OldLen;
    forall origin
      ensures From(placed, origin) == From(other, origin)
    {
      if !origin.FromDocument? && !origin.FromFirst? {
        assert origin == FromSecond;
      }
    }
    OnlyOneMerge(placed, other);
  }

  /**
    Applying one change set mapped over another: the text that results is the
    one that contains exactly what both keep and what each inserts in the order
    of places, the mapped side first on ties if it maps before.
  */
  lemma MappedContents(mapped: ChangeSet, a: ChangeSet, b: ChangeSet, before: bool, doc: Text, text: Text)
    requires OldLen(a) == OldLen(b) == |doc| && IsMapped(mapped, a, b, before)
    ensures OldLen(mapped) == |Applied(b, doc)|
    ensures text == Applied(mapped, Applied(b, doc)) <==>
      exists placed :: if before then Attributes(placed, a, b, doc, text) else Attributes(placed, b, a, doc, text)
  {
    if before {
      FirstMappedApplied(mapped, a, b, doc);
      MergedContents(a, b, doc);
      if placed :| Attributes(placed, a, b, doc, text) {
        MergedOnly(a, b, doc, placed, text);
      }
    } else {
      SecondMappedApplied(mapped, b, a, doc);
      MergedContents(b, a, doc);
      if placed :| Attributes(placed, b, a, doc, text) {
        MergedOnly(b, a, doc, placed, text);
      }
    }
  }

  // ----- Two replacements at one offset -----

  lemma UnchangedScript(n: nat, rest: ChangeSet)
    ensures ScriptOf(Unchanged(n) + rest) == Keeps(n, ScriptOf(rest))
  {
    if n == 0 {
      assert Unchanged(n) + rest == rest;
    } else {
      assert (Unchanged(n) + rest)[1..] == rest;
    }
  }

  lemma TextScript(n: nat, text: Text, rest: nat)
    ensures ScriptOf([Section(n, |text|, text)] + Unchanged(rest)) == Put(text, n, Rest(n, rest))
  {
    var s: ChangeSet := [Section(n, |text|, text)] + Unchanged(rest);
    assert s[1..] == Unchanged(rest) == Unchanged(rest) + [];
    UnchangedScript(rest, []);
  }

  lemma ReplacedRight(p: nat, n: nat, text: Text, length: nat)
    requires p + n <= length
    ensures Replaced(p, p + n, text, length) ==
      Unchanged(p) + ([Section(n, |text|, text)] + Unchanged(length - p - n))
  {
  }

  lemma ReplacingScript(p: nat, n: nat, text: Text, length: nat)
    requires p + n <= length
    ensures ScriptOf(Replaced(p, p + n, text, length)) == Keeps(p, Put(text, n, Rest(n, length - p - n)))
    ensures OldLen(Replaced(p, p + n, text, length)) == length
  {
    ReplacedRight(p, n, text, length);
    UnchangedScript(p, [Section(n, |text|, text)] + Unchanged(length - p - n));
    hide ScriptOf, OldLen, Unchanged, Keeps, Rest, Replaced;
    TextScript(n, text, length - p - n);
    ScriptFacts(Replaced(p, p + n, text, length));
    ReplacingSpan<Unit>(p, n, text, length - p - n);
  }

  lemma ReplacingSpan<T>(p: nat, n: nat, text: seq<T>, rest: nat)
    ensures Span(Keeps(p, Put(text, n, Rest(n, rest)))) == p + n + rest
  {
    KeepsFacts(p, Put(text, n, Rest(n, rest)));
    RestSteps<T>(n, rest);
  }

  lemma {:induction false} MergeKeeps<T>(n: nat, a: Script<T>, b: Script<T>, doc: seq<T>)
    requires Span(a) == Span(b) == |doc| - n
    ensures Span(Keeps(n, a)) == Span(Keeps(n, b)) == |doc|
    ensures Merge(Keeps(n, a), Keeps(n, b), doc) == doc[..n] + Merge(a, b, doc[n..])
    decreases n
  {
    KeepsFacts(n, a);
    KeepsFacts(n, b);
    if n == 0 {
      assert doc[0..] == doc && doc[..0] + Merge(a, b, doc) == Merge(a, b, doc);
    } else {
      MergeKeeps(n - 1, a, b, doc[1..]);
      OneFurther(doc, n);
      assert Merge(Keeps(n, a), Keeps(n, b), doc) == [doc[0]] + Merge(Keeps(n - 1, a), Keeps(n - 1, b), doc[1..]);
      hide Merge, Keeps, Span;
      Associative([doc[0]], doc[1..][..n - 1], Merge(a, b, doc[n..]));
    }
  }

  /** Behind the inserted texts, what both leave is what the longer replacement leaves. */
  lemma {:induction false} MergeTails<T>(n: nat, m: nat, doc: seq<T>)
    requires n <= |doc| && m <= |doc|
    ensures
      var a, b := Rest<T>(n, |doc| - n), Rest<T>(m, |doc| - m);
      && Span(a) == Span(b) == |doc|
      && Merge(a, b, doc) == doc[if n < m then m else n..]
    decreases |doc|
  {
    hide *;
    RestSteps<T>(n, |doc| - n);
    RestSteps<T>(m, |doc| - m);
    var a, b := Rest<T>(n, |doc| - n), Rest<T>(m, |doc| - m);
    if doc == [] {
      NothingMerges(a, b, doc);
    } else {
      var n', m' := if n == 0 then 0 else n - 1, if m == 0 then 0 else m - 1;
      PlainStep(a, b, doc);
      MergeTails(n', m', doc[1..]);
      if n == 0 && m == 0 {
        assert [doc[0]] + doc[1..] == doc;
      } else {
        assert doc[1..][if n' < m' then m' else n'..] == doc[if n < m then m else n..];
      }
    }
  }

  lemma NothingMerges<T>(a: Script<T>, b: Script<T>, doc: seq<T>)
    requires a.End? && b.End? && doc == []
    ensures Span(a) == Span(b) == 0 && Merge(a, b, doc) == []
  {
  }

  /** Without insertions a merge goes unit by unit. */
  lemma PlainStep<T>(a: Script<T>, b: Script<T>, doc: seq<T>)
    requires Span(a) == Span(b) == |doc| > 0 && !a.Put? && !b.Put?
    ensures !a.End? && !b.End? && Span(a.rest) == Span(b.rest) == |doc| - 1
    ensures Merge(a, b, doc) ==
      if a.Keep? && b.Keep? then [doc[0]] + Merge(a.rest, b.rest, doc[1..]) else Merge(a.rest, b.rest, doc[1..])
  {
    var rest := Merge(a.rest, b.rest, doc[1..]);
    assert [] + rest == rest;
  }

  /** `n` units are dropped and `k` more kept. */
  ghost function Rest<T>(n: nat, k: nat): Script<T> {
    Drops(n, Keeps(k, End))
  }

  lemma RestSteps<T>(n: nat, k: nat)
    ensures Span(Rest<T>(n, k)) == n + k
    ensures Rest<T>(n, k) == if n > 0 then Drop(Rest(n - 1, k)) else if k > 0 then Keep(Rest(0, k - 1)) else End
    ensures !Rest<T>(n, k).Put?
  {
    KeepsFacts<T>(k, End);
    DropsFacts<T>(n, Keeps(k, End));
  }

  /**
    Two replacements at one offset, one mapped over the other and applied after
    it: both texts stand there, the one that replaces fewer units first, and of
    two equally wide ones the mapped one first if and only if it maps before.
  */
  lemma Colliding(mapped: ChangeSet, doc: Text, p: nat, n: nat, t: Text, m: nat, u: Text, before: bool)
    requires p + n <= |doc| && p + m <= |doc|
    requires IsMapped(mapped, Replaced(p, p + n, t, |doc|), Replaced(p, p + m, u, |doc|), before)
    ensures OldLen(Replaced(p, p + m, u, |doc|)) == |doc|
    ensures
      var text := Applied(Replaced(p, p + m, u, |doc|), doc);
      && OldLen(mapped) == |text|
      && Applied(mapped, text) ==
         doc[..p] + (if n < m || (n == m && before) then t + u else u + t) + doc[p + if n < m then m else n..]
  {
    hide *;
    var a, b := Replaced(p, p + n, t, |doc|), Replaced(p, p + m, u, |doc|);
    ReplacingScript(p, n, t, |doc|);
    ReplacingScript(p, m, u, |doc|);
    if before {
      FirstMappedApplied(mapped, a, b, doc);
      MergeReplacing(doc, p, n, t, m, u);
    } else {
      SecondMappedApplied(mapped, b, a, doc);
      MergeReplacing(doc, p, m, u, n, t);
    }
  }

  lemma MergeReplacing(doc: Text, p: nat, n: nat, t: Text, m: nat, u: Text)
    requires p + n <= |doc| && p + m <= |doc|
    ensures OldLen(Replaced(p, p + n, t, |doc|)) == OldLen(Replaced(p, p + m, u, |doc|)) == |doc|
    ensures Merged(Replaced(p, p + n, t, |doc|), Replaced(p, p + m, u, |doc|), doc) ==
      doc[..p] + (if n <= m then t + u else u + t) + doc[p + if n < m then m else n..]
  {
    hide Rest, OldLen, Replaced, ScriptOf, Merge, Keeps;
    ReplacingScript(p, n, t, |doc|);
    ReplacingScript(p, m, u, |doc|);
    MergeAt(doc, p, n, t, m, u);
  }

  lemma MergeAt<T>(doc: seq<T>, p: nat, n: nat, t: seq<T>, m: nat, u: seq<T>)
    requires p + n <= |doc| && p + m <= |doc|
    ensures
      var a, b := Keeps(p, Put(t, n, Rest(n, |doc| - p - n))), Keeps(p, Put(u, m, Rest(m, |doc| - p - m)));
      && Span(a) == Span(b) == |doc|
      && Merge(a, b, doc) == doc[..p] + (if n <= m then t + u else u + t) + doc[p + if n < m then m else n..]
  {
    hide *;
    var rest := doc[p..];
    var x, y := Rest<T>(n, |rest| - n), Rest<T>(m, |rest| - m);
    RestSteps<T>(n, |rest| - n);
    RestSteps<T>(m, |rest| - m);
    MergeTails(n, m, rest);
    PutsMerge(t, n, x, u, m, y, rest);
    MergeKeeps(p, Put(t, n, x), Put(u, m, y), doc);
    var tail := rest[if n < m then m else n..];
    assert tail == doc[p + if n < m then m else n..];
    Associative(doc[..p], if n <= m then t + u else u + t, tail);
  }

  lemma PutsMerge<T>(t: seq<T>, n: nat, x: Script<T>, u: seq<T>, m: nat, y: Script<T>, doc: seq<T>)
    requires Span(x) == Span(y) == |doc| && !x.Put? && !y.Put?
    ensures Span(Put(t, n, x)) == Span(Put(u, m, y)) == |doc|
    ensures Merge(Put(t, n, x), Put(u, m, y), doc) == (if n <= m then t + u else u + t) + Merge(x, y, doc)
  {
    if n <= m {
      assert Merge(x, Put(u, m, y), doc) == u + Merge(x, y, doc);
      Associative(t, u, Merge(x, y, doc));
    } else {
      assert Merge(Put(t, n, x), y, doc) == t + Merge(x, y, doc);
      Associative(u, t, Merge(x, y, doc));
    }
  }
}
