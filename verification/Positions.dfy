/**
  Mapping positions and selections through a change set.
*/
module Positions {
  import opened Scripts
  import opened Utf16
  import opened ChangeSets
  import opened Surrogates
  import opened Histories

  // ----- Where the units of the new document come from -----

  /** An old unit, or a unit inserted in place of the old units from `from` up to `to`. */
  datatype Source = OldUnit(at: nat) | NewText(from: nat, to: nat, unit: Unit)

  ghost function SectionSources(section: Section, at: nat): (r: seq<Source>)
    requires WellFormedSection(section)
    ensures |r| == if section.newLen < 0 then section.oldLen else section.newLen
  {
    if section.newLen < 0 then seq(section.oldLen, i requires 0 <= i < section.oldLen => OldUnit(at + i))
    else
      seq(section.newLen, i requires 0 <= i < section.newLen =>
        NewText(at, at + section.oldLen, section.insert[i]))
  }

  /** The source of every unit of the new document, for a change set whose first section starts at `at`. */
  ghost function Sources(s: ChangeSet, at: nat): seq<Source> {
    if s == [] then [] else SectionSources(s[0], at) + Sources(s[1..], at + s[0].oldLen)
  }

  ghost function SourceUnit(source: Source, doc: Text): Unit
    requires source.OldUnit? ==> source.at < |doc|
  {
    match source
    case OldUnit(at) => doc[at]
    case NewText(_, _, unit) => unit
  }

  /** Whether a unit belongs before a position; text inserted around it does on the right side only. */
  ghost predicate Before(source: Source, p: nat, assoc: int) {
    match source
    case OldUnit(at) => at < p
    case NewText(from, to, _) => if assoc < 0 then from < p && to <= p else from < p || to <= p
  }

  /** A position of the new document that has exactly the units before it that belong there. */
  ghost predicate Splits(sources: seq<Source>, position: int, p: nat, assoc: int) {
    && 0 <= position <= |sources|
    && forall i :: 0 <= i < |sources| ==> (i < position <==> Before(sources[i], p, assoc))
  }

  // ----- Mapping positions -----

  /** Where a position of the old document lies in the new one; `assoc < 0` sticks to the left of insertions. */
  ghost function Position(s: ChangeSet, p: nat, assoc: int): int
    decreases |s|
  {
    if s == [] then 0
    else
      var first, rest := s[0], s[1..];
      if first.newLen < 0 then
        if first.oldLen > p then p else first.oldLen + Position(rest, p - first.oldLen, assoc)
      else if first.oldLen > p || (first.oldLen == p && assoc < 0 && first.oldLen == 0) then
        if p == 0 || assoc < 0 then 0 else first.newLen
      else first.newLen + Position(rest, p - first.oldLen, assoc)
  }

  /** The position loop; positions outside the old document are refused. */
  method MapPos(changes: ChangeSet, position: int, assoc: int) returns (r: Result<int>)
    ensures r.Ok? <==> 0 <= position <= OldLen(changes)
    ensures r.Ok? ==> r.value == Position(changes, position, assoc) && 0 <= r.value <= NewLen(changes)
    ensures r.Ok? ==> Splits(Sources(changes, 0), r.value, position, assoc)
  {
    hide Splits, Sources, NewLen;
    if position < 0 || position > OldLen(changes) {
      return Err;
    }
    PositionBounds(changes, position, assoc);
    PositionSplits(changes, position, assoc, 0);
    var positionA, positionB := 0, 0;
    for index := 0 to |changes|
      invariant 0 <= positionA <= position
      invariant positionB + Position(changes[index..], position - positionA, assoc) ==
                Position(changes, position, assoc)
    {
      var section := changes[index];
      assert changes[index..][1..] == changes[index + 1..];
      var endA := positionA + section.oldLen;
      if section.newLen < 0 {
        if endA > position {
          return Ok(positionB + position - positionA);
        }
        positionB := positionB + section.oldLen;
      } else {
        if endA > position || (endA == position && assoc < 0 && section.oldLen == 0) {
          if position == positionA || assoc < 0 {
            return Ok(positionB);
          }
          return Ok(positionB + section.newLen);
        }
        positionB := positionB + section.newLen;
      }
      positionA := endA;
    }
    r := Ok(positionB);
  }

  lemma {:induction false} NewLenCons(s: ChangeSet)
    requires s != []
    ensures NewLen(s) == (if s[0].newLen >= 0 then s[0].newLen else s[0].oldLen) + NewLen(s[1..])
    decreases |s|
  {
    if |s| == 1 {
      assert s[..0] == [] && s[1..] == [];
    } else {
      var init := s[..|s| - 1];
      NewLenCons(init);
      assert init[1..] == s[1..][..|s| - 2];
    }
  }

  lemma LengthsOfNone(s: ChangeSet)
    ensures s == [] ==> OldLen(s) == NewLen(s) == 0
  {
  }

  /** Positions stay inside the new document. */
  lemma {:induction false} PositionBounds(s: ChangeSet, p: nat, assoc: int)
    requires p <= OldLen(s)
    ensures 0 <= Position(s, p, assoc) <= NewLen(s)
    decreases |s|
  {
    hide EditsOf, OldLen, NewLen;
    LengthsOfNone(s);
    if s != [] {
      EditsOfCons(s);
      NewLenCons(s);
      EditsSpan(s[1..]);
      if s[0].oldLen <= p {
        PositionBounds(s[1..], p - s[0].oldLen, assoc);
      }
    }
  }

  lemma SplitsNone(p: nat, assoc: int)
    ensures Splits([], 0, p, assoc)
  {
  }

  lemma SplitsFurther(first: seq<Source>, rest: seq<Source>, position: int, p: nat, assoc: int)
    requires Splits(rest, position, p, assoc)
    requires forall i :: 0 <= i < |first| ==> Before(first[i], p, assoc)
    ensures Splits(first + rest, |first| + position, p, assoc)
  {
  }

  lemma SplitsHere(first: seq<Source>, rest: seq<Source>, position: int, p: nat, assoc: int)
    requires Splits(first, position, p, assoc)
    requires forall i :: 0 <= i < |rest| ==> !Before(rest[i], p, assoc)
    ensures Splits(first + rest, position, p, assoc)
  {
  }

  /** Nothing that comes from behind a position belongs before it. */
  lemma {:induction false} SourcesBehind(s: ChangeSet, at: nat, p: nat, assoc: int)
    requires p < at || (p == at && assoc < 0)
    ensures forall i :: 0 <= i < |Sources(s, at)| ==> !Before(Sources(s, at)[i], p, assoc)
    decreases |s|
  {
    if s != [] {
      SourcesBehind(s[1..], at + s[0].oldLen, p, assoc);
    }
  }

  /** A position behind a section, or at its end unless it sticks to the left of an insertion there. */
  ghost predicate IsBehind(section: Section, p: nat, assoc: int) {
    section.oldLen < p || (section.oldLen == p && !(section.newLen >= 0 && assoc < 0 && section.oldLen == 0))
  }

  lemma SectionBefore(section: Section, at: nat, p: nat, assoc: int)
    requires WellFormedSection(section) && IsBehind(section, p, assoc)
    ensures forall i :: 0 <= i < |SectionSources(section, at)| ==>
      Before(SectionSources(section, at)[i], at + p, assoc)
  {
  }

  /** The part of a section that belongs before a position at or inside it. */
  ghost function PartBefore(section: Section, p: nat, assoc: int): int {
    if section.newLen < 0 then p else if p == 0 || assoc < 0 then 0 else section.newLen
  }

  lemma PositionStep(s: ChangeSet, p: nat, assoc: int)
    ensures s == [] ==> Position(s, p, assoc) == 0
    ensures s != [] && IsBehind(s[0], p, assoc) ==>
      && s[0].oldLen <= p
      && Position(s, p, assoc) == |SectionSources(s[0], 0)| + Position(s[1..], p - s[0].oldLen, assoc)
    ensures s != [] && !IsBehind(s[0], p, assoc) ==>
      Position(s, p, assoc) == PartBefore(s[0], p, assoc) && (p < s[0].oldLen || (p == s[0].oldLen && assoc < 0))
  {
  }

  lemma SectionSplits(section: Section, at: nat, p: nat, assoc: int)
    requires WellFormedSection(section) && !IsBehind(section, p, assoc)
    ensures Splits(SectionSources(section, at), PartBefore(section, p, assoc), at + p, assoc)
  {
  }

  /**
    The mapped position has exactly the units before it that stem from old units
    before the position or were inserted before it.
  */
  lemma {:induction false} PositionSplits(s: ChangeSet, p: nat, assoc: int, at: nat)
    requires p <= OldLen(s)
    ensures Splits(Sources(s, at), Position(s, p, assoc), at + p, assoc)
    decreases |s|
  {
    hide OldLen, Splits, SectionSources, Before, Position, IsBehind, PartBefore;
    LengthsOfNone(s);
    PositionStep(s, p, assoc);
    if s == [] {
      SplitsNone(at + p, assoc);
    } else {
      EditsOfCons(s);
      var first, rest := s[0], s[1..];
      var here, behind := SectionSources(first, at), Sources(rest, at + first.oldLen);
      if IsBehind(first, p, assoc) {
        PositionSplits(rest, p - first.oldLen, assoc, at + first.oldLen);
        SectionBefore(first, at, p, assoc);
        SplitsFurther(here, behind, Position(rest, p - first.oldLen, assoc), at + p, assoc);
      } else {
        SectionSplits(first, at, p, assoc);
        SourcesBehind(rest, at + first.oldLen, at + p, assoc);
        SplitsHere(here, behind, PartBefore(first, p, assoc), at + p, assoc);
      }
    }
  }

  /** Mapping keeps the order of positions. */
  lemma {:induction false} PositionMonotone(s: ChangeSet, p: nat, q: nat, assoc: int)
    requires p <= q <= OldLen(s)
    ensures Position(s, p, assoc) <= Position(s, q, assoc)
    decreases |s|
  {
    if s != [] {
      EditsOfCons(s);
      if s[0].oldLen <= p {
        PositionMonotone(s[1..], p - s[0].oldLen, q - s[0].oldLen, assoc);
        PositionBounds(s[1..], q - s[0].oldLen, assoc);
      } else if s[0].oldLen <= q {
        PositionBounds(s[1..], q - s[0].oldLen, assoc);
      }
    }
  }

  /** Sticking to the left never lands further right than sticking to the right. */
  lemma {:induction false} PositionSides(s: ChangeSet, p: nat)
    requires p <= OldLen(s)
    ensures Position(s, p, -1) <= Position(s, p, 1)
    decreases |s|
  {
    if s != [] {
      EditsOfCons(s);
      if s[0].oldLen <= p {
        PositionSides(s[1..], p - s[0].oldLen);
        PositionBounds(s[1..], p - s[0].oldLen, 1);
      }
    }
  }

  /** Unit `p` lies in an unchanged section. */
  ghost predicate InUnchanged(s: ChangeSet, p: nat)
    decreases |s|
  {
    s != [] && if p < s[0].oldLen then s[0].newLen < 0 else InUnchanged(s[1..], p - s[0].oldLen)
  }

  lemma AppliedFirst(s: ChangeSet, doc: Text)
    requires s != [] && OldLen(s) == |doc|
    ensures
      var first, rest := s[0], s[1..];
      && first.oldLen <= |doc| && OldLen(rest) == |doc| - first.oldLen
      && Applied(s, doc) == (if first.newLen < 0
        then doc[..first.oldLen] else first.insert) + Applied(rest, doc[first.oldLen..])
  {
    hide Play, EditsOf, OldLen, EditSpan, SectionEdits;
    var first, rest := s[0], s[1..];
    EditsSpan(s);
    EditsSpan(rest);
    EditsOfCons(s);
    var head, tail := doc[..first.oldLen], doc[first.oldLen..];
    PlaySection(first, head);
    PlayConcat(SectionEdits(first), EditsOf(rest), head, tail);
    assert head + tail == doc;
  }

  /** Every retained unit stands, in the new document, where its position maps to. */
  lemma {:induction false} RetainedUnit(s: ChangeSet, doc: Text, p: nat)
    requires OldLen(s) == |doc| && p < |doc| && InUnchanged(s, p)
    ensures 0 <= Position(s, p, 1) < |Applied(s, doc)|
    ensures Applied(s, doc)[Position(s, p, 1)] == doc[p]
    decreases |s|
  {
    hide Applied, OldLen;
    AppliedFirst(s, doc);
    if s[0].oldLen <= p {
      RetainedUnit(s[1..], doc[s[0].oldLen..], p - s[0].oldLen);
    }
  }

  /** In the stored text a retained unit stands there too, or its repair if it lost the other half of its pair. */
  lemma RetainedStored(s: ChangeSet, doc: Text, p: nat)
    requires OldLen(s) == |doc| && p < |doc| && InUnchanged(s, p)
    ensures 0 <= Position(s, p, 1) < |Stored(s, doc)|
    ensures Stored(s, doc)[Position(s, p, 1)] ==
      if Lone(Applied(s, doc), Position(s, p, 1)) then REPLACEMENT else doc[p]
  {
    RetainedUnit(s, doc, p);
  }

  /** The units of the new document are those that its sources say. */
  lemma {:induction false} SourcesOfApplied(s: ChangeSet, doc: Text, at: nat)
    requires at <= |doc| && OldLen(s) == |doc| - at
    ensures |Sources(s, at)| == |Applied(s, doc[at..])|
    ensures forall i :: 0 <= i < |Sources(s, at)| ==>
      && (Sources(s, at)[i].OldUnit? ==> Sources(s, at)[i].at < |doc|)
      && Applied(s, doc[at..])[i] == SourceUnit(Sources(s, at)[i], doc)
    decreases |s|
  {
    hide Applied, OldLen;
    if s == [] {
      AppliedNone(s);
    } else {
      AppliedFirst(s, doc[at..]);
      var next := at + s[0].oldLen;
      assert doc[at..][s[0].oldLen..] == doc[next..];
      SourcesOfApplied(s[1..], doc, next);
    }
  }

  lemma AppliedNone(s: ChangeSet)
    requires s == []
    ensures OldLen(s) == 0 && Applied(s, []) == []
  {
  }

  /** Text inserted at a position, or in place of a range around it. */
  ghost predicate InsertedAround(source: Source, p: nat) {
    source.NewText? && (source.from < p < source.to || source.from == p == source.to)
  }

  /** The two sides of a position are apart by exactly the text inserted there. */
  lemma SidesApart(s: ChangeSet, p: nat, i: nat)
    requires p <= OldLen(s) && i < |Sources(s, 0)|
    ensures Position(s, p, -1) <= i < Position(s, p, 1) <==> InsertedAround(Sources(s, 0)[i], p)
  {
    PositionSplits(s, p, -1, 0);
    PositionSplits(s, p, 1, 0);
    RangesProper(s, 0, i);
  }

  lemma {:induction false} RangesProper(s: ChangeSet, at: nat, i: nat)
    requires i < |Sources(s, at)|
    ensures Sources(s, at)[i].NewText? ==> at <= Sources(s, at)[i].from <= Sources(s, at)[i].to
    decreases |s|
  {
    var here := SectionSources(s[0], at);
    if |here| <= i {
      RangesProper(s[1..], at + s[0].oldLen, i - |here|);
    }
  }

  lemma LeftOfAll(s: ChangeSet)
    ensures Position(s, 0, -1) == 0
  {
    assert s != [] ==> WellFormedSection(s[0]);
  }

  /** Behind a retained unit, the left side is right behind that unit. */
  lemma LeftBehindRetained(s: ChangeSet, doc: Text, p: nat)
    requires OldLen(s) == |doc| && p < |doc| && InUnchanged(s, p)
    ensures 0 < Position(s, p + 1, -1) == Position(s, p, 1) + 1 <= |Applied(s, doc)|
    ensures Applied(s, doc)[Position(s, p + 1, -1) - 1] == doc[p]
  {
    RetainedUnit(s, doc, p);
    NextToRetained(s, p);
  }

  lemma {:induction false} NextToRetained(s: ChangeSet, p: nat)
    requires InUnchanged(s, p)
    ensures Position(s, p + 1, -1) == Position(s, p, 1) + 1
    decreases |s|
  {
    if p < s[0].oldLen {
      LeftOfAll(s[1..]);
    } else {
      NextToRetained(s[1..], p - s[0].oldLen);
    }
  }

  // ----- Selections -----

  datatype Selection = Selection(anchor: int, head: int) {
    ghost predicate Within(length: int) {
      0 <= anchor <= length && 0 <= head <= length
    }
  }

  /** A range shrinks to what is left of it; a caret sticks to the side it is given. */
  ghost function MappedRange(selection: Selection, changes: ChangeSet, caret: int): Selection
    requires selection.anchor >= 0 && selection.head >= 0
  {
    if selection.anchor == selection.head then
      Selection(Position(changes, selection.head, caret), Position(changes, selection.head, caret))
    else if selection.anchor < selection.head then
      Selection(Position(changes, selection.anchor, 1), Position(changes, selection.head, -1))
    else
      Selection(Position(changes, selection.anchor, -1), Position(changes, selection.head, 1))
  }

  /** What stays selected: retained units of the selection, and text that replaced or was put between some of them. */
  ghost predicate Selected(source: Source, low: nat, high: nat) {
    match source
    case OldUnit(at) => low <= at < high
    case NewText(from, to, _) => low <= from && low < to && from < high && to <= high
  }

  /**
    A mapped selection, either way round: its lower end stays behind what was
    inserted there and its upper end before it, so that it covers exactly what
    is left of the selected text and what came to stand inside it.
  */
  lemma SelectionKeeps(selection: Selection, s: ChangeSet, caret: int)
    requires selection.Within(OldLen(s))
    ensures
      var r, sources := MappedRange(selection, s, caret), Sources(s, 0);
      var low, high := selection.anchor, selection.head;
      && (low < high ==>
            && Splits(sources, r.anchor, low, 1) && Splits(sources, r.head, high, -1)
            && forall i :: 0 <= i < |sources| ==> (r.anchor <= i < r.head <==> Selected(sources[i], low, high)))
      && (high < low ==>
            && Splits(sources, r.anchor, low, -1) && Splits(sources, r.head, high, 1)
            && forall i :: 0 <= i < |sources| ==> (r.head <= i < r.anchor <==> Selected(sources[i], high, low)))
      && (low == high ==> r.anchor == r.head && Splits(sources, r.head, high, caret))
  {
    hide Position, Sources, OldLen;
    PositionSplits(s, selection.anchor, 1, 0);
    PositionSplits(s, selection.anchor, -1, 0);
    PositionSplits(s, selection.head, 1, 0);
    PositionSplits(s, selection.head, -1, 0);
    PositionSplits(s, selection.head, caret, 0);
  }

  /** Maps a selection through one change set; a caret sticks to the left. */
  method MapRange(selection: Selection, changes: ChangeSet) returns (r: Result<Selection>)
    ensures r.Ok? <==> selection.Within(OldLen(changes))
    ensures r.Ok? ==> r.value == MappedRange(selection, changes, -1) && r.value.Within(NewLen(changes))
  {
    if selection.anchor == selection.head {
      var caret := MapPos(changes, selection.anchor, -1);
      return if caret.Ok? then Ok(Selection(caret.value, caret.value)) else Err;
    }
    var low, high := selection.anchor, selection.head;
    if high < low {
      low, high := high, low;
    }
    var from := MapPos(changes, low, 1);
    if from.Err? {
      return Err;
    }
    var to := MapPos(changes, high, -1);
    if to.Err? {
      return Err;
    }
    if selection.anchor <= selection.head {
      return Ok(Selection(from.value, to.value));
    }
    return Ok(Selection(to.value, from.value));
  }

  /** As the room maps a participant's selection: a caret sticks to the right. */
  method MapSelection(selection: Selection, changes: ChangeSet) returns (r: Result<Selection>)
    ensures r.Ok? <==> selection.Within(OldLen(changes))
    ensures r.Ok? ==> r.value == MappedRange(selection, changes, 1) && r.value.Within(NewLen(changes))
  {
    if selection.anchor == selection.head {
      var caret := MapPos(changes, selection.head, 1);
      return if caret.Ok? then Ok(Selection(caret.value, caret.value)) else Err;
    }
    r := MapRange(selection, changes);
  }

  /** Each selection is the one before it mapped through one edit. */
  ghost predicate LeadsThrough(selections: seq<Selection>, edits: seq<Entry>) {
    && |selections| == |edits| + 1
    && forall i :: 0 <= i < |edits| ==> FollowedBy(selections[i], edits[i], selections[i + 1])
  }

  ghost predicate FollowedBy(selection: Selection, edit: Entry, next: Selection) {
    selection.Within(OldLen(edit.changes)) && next == MappedRange(selection, edit.changes, 1)
  }

  /**
    Places a selection that was made for some revision of a document. It is
    accepted exactly when that revision is retained and the selection was inside
    its text; it is then mapped through every later edit into the current text.
  */
  method PlaceSelection(d: Document, revision: int, selection: Selection) returns (r: Result<Selection>)
    requires Coherent(d)
    ensures r.Ok? <==> d.compacted <= revision <= d.revision && selection.Within(LengthAt(d, revision))
    ensures r.Ok? ==>
      && r.value.Within(|d.content|)
      && exists path :: LeadsThrough(path, After(d, revision)) && path[0] == selection && path[|path| - 1] == r.value
  {
    if revision < d.compacted || revision > d.revision {
      return Err;
    }
    var current := selection;
    ghost var start := revision - d.compacted;
    ghost var path := [selection];
    for index := 0 to |d.history|
      invariant |path| == (if index <= start then 0 else index - start) + 1
      invariant path[0] == selection && path[|path| - 1] == current
      invariant forall i :: 0 <= i < |path| - 1 ==> FollowedBy(path[i], d.history[start + i], path[i + 1])
      invariant index <= start ==> current == selection
      invariant index > start ==> selection.Within(LengthAt(d, revision))
      invariant index > start ==>
        current.Within(if index < |d.history| then d.history[index].beforeLen else |d.content|)
    {
      assert EntryFits(d.history, index, d.compacted, |d.content|);
      var accepted := d.history[index];
      if accepted.revision > revision {
        var mapped := MapSelection(current, accepted.changes);
        if mapped.Err? {
          return Err;
        }
        path := path + [mapped.value];
        current := mapped.value;
      }
    }
    if current.anchor < 0 || current.head < 0 || current.anchor > |d.content| || current.head > |d.content| {
      return Err;
    }
    assert LeadsThrough(path, After(d, revision));
    r := Ok(current);
  }
}
