/**
  Applying a change set and mapping it over a concurrent one, as the server
  does it: two mutable section iterators, a result grown in place, and a marker
  for the last section whose text has been emitted.
*/
module Mapping {
  import opened Scripts
  import opened Utf16
  import opened ChangeSets

  // ----- Applying -----

  /** Retained stretches and inserted texts, one after another. */
  method Concatenated(changes: ChangeSet, document: Text) returns (output: Text)
    requires OldLen(changes) == |document|
    ensures output == Applied(changes, document)
  {
    hide Applied, OldLen;
    output := [];
    var position := 0;
    AppliedNothing(changes);
    for index := 0 to |changes|
      invariant 0 <= position == OldLen(changes[..index]) <= |document|
      invariant output == Applied(changes[..index], document[..position])
    {
      var section := changes[index];
      OldLenPrefix(changes, index + 1);
      AppliedFurther(changes, index, document);
      var end := position + section.oldLen;
      if section.newLen >= 0 {
        output := output + section.insert;
      } else {
        output := output + document[position..end];
      }
      position := end;
    }
    assert changes[..|changes|] == changes && document[..|document|] == document;
  }

  lemma AppliedNothing(changes: ChangeSet)
    ensures OldLen(changes[..0]) == 0 && Applied(changes[..0], []) == []
  {
  }

  /** One more section, applied to the units behind those before it. */
  lemma AppliedFurther(changes: ChangeSet, index: nat, document: Text)
    requires index < |changes| && OldLen(changes[..index + 1]) <= |document|
    ensures 0 <= OldLen(changes[..index])
    ensures
      var position, section := OldLen(changes[..index]), changes[index];
      var end := position + section.oldLen;
      && OldLen(changes[..index + 1]) == end
      && Applied(changes[..index + 1], document[..end]) == Applied(changes[..index], document[..position])
         + (if section.newLen >= 0 then section.insert else document[position..end])
  {
    var longer := changes[..index + 1];
    assert longer[..index] == changes[..index];
    EditsSpan(longer);
    EditsSpan(changes[..index]);
    LastSection(longer);
    var end := OldLen(longer);
    AppliedLast(longer, document[..end]);
    assert document[..end][..OldLen(changes[..index])] == document[..OldLen(changes[..index])];
  }

  /**
    The stored document after a change set, or an error when it was made for
    another length. The loop's own bound checks cannot fail once lengths agree.
  */
  method Apply(changes: ChangeSet, document: Text) returns (r: Result<Text>)
    ensures r == if OldLen(changes) == |document| then Ok(Repaired(Applied(changes, document))) else Err
  {
    if OldLen(changes) != |document| {
      return Err;
    }
    var output := Concatenated(changes, document);
    r := Ok(Repaired(output));
  }

  lemma {:induction false} OldLenPrefix(s: ChangeSet, k: nat)
    requires k <= |s|
    ensures 0 <= OldLen(s[..k]) <= OldLen(s)
    decreases |s|
  {
    EditsSpan(s[..k]);
    if k < |s| {
      OldLenPrefix(s[..|s| - 1], k);
      assert s[..|s| - 1][..k] == s[..k];
    } else {
      assert s[..k] == s;
    }
  }

  // ----- The section iterator -----

  const DONE := -2

  /** What is left of a list of sections whose current section is partly consumed. */
  ghost function RestOf(
      sections: ChangeSet, index: nat, remaining: nat, ins: int, offset: nat, pending: bool): Script<Unit>
    requires index <= |sections| && (ins >= 0 ==> index > 0)
  {
    var tail := ScriptOf(sections[index..]);
    if ins == DONE then End
    else if ins < 0 then Keeps(remaining, tail)
    else if pending then
      Put(sections[index - 1].insert, if offset == 0 then remaining else -1, Drops(remaining, tail))
    else Drops(remaining, tail)
  }

  class SectionIter {
    const sections: ChangeSet
    var index: nat
    var remaining: nat
    var ins: int
    var offset: nat

    ghost predicate Valid()
      reads this
    {
      && index <= |sections|
      && (ins == DONE ==> index == |sections| && remaining == 0 && offset == 0)
      && (ins != DONE ==>
            && index > 0
            && ins == sections[index - 1].newLen
            && remaining + offset == sections[index - 1].oldLen
            && (ins < 0 ==> remaining > 0)
            && (offset > 0 ==> remaining > 0))
    }

    /** The unconsumed part; `pending` says whether the current text is still to be emitted. */
    ghost function Rest(pending: bool): Script<Unit>
      requires Valid()
      reads this
    {
      RestOf(sections, index, remaining, ins, offset, pending)
    }

    ghost function Tail(): Script<Unit>
      requires Valid()
      reads this
    {
      ScriptOf(sections[index..])
    }

    constructor (changes: ChangeSet)
      ensures Valid() && sections == changes
      ensures Rest(true) == ScriptOf(changes)
      ensures ins >= 0 ==> offset == 0
    {
      sections := changes;
      index := 0;
      remaining, ins, offset := 0, DONE, 0;
      new;
      if index < |sections| {
        var section := sections[index];
        index := index + 1;
        remaining, ins, offset := section.oldLen, section.newLen, 0;
      }
    }

    method Next()
      requires Valid()
      modifies this
      ensures Valid() && offset == 0
      ensures Rest(true) == old(Tail())
      ensures if old(index) < |sections|
        then ins != DONE && index == old(index) + 1 else ins == DONE && index == old(index)
    {
      if index >= |sections| {
        remaining, ins, offset := 0, DONE, 0;
        return;
      }
      var section := sections[index];
      assert sections[index..][1..] == sections[index + 1..];
      index := index + 1;
      remaining, ins, offset := section.oldLen, section.newLen, 0;
    }

    method Forward(length: nat)
      requires Valid() && length <= remaining && ins != DONE
      modifies this
      ensures Valid()
      ensures length == old(remaining) ==>
        && offset == 0
        && Rest(true) == old(Tail())
        && (if old(index) < |sections|
          then ins != DONE && index == old(index) + 1 else ins == DONE && index == old(index))
      ensures length < old(remaining) ==>
        && remaining == old(remaining) - length && offset == old(offset) + length
        && index == old(index) && ins == old(ins)
      ensures old(ins) == -1 ==> Rest(true) == Keeps(old(remaining) - length, old(Tail()))
    {
      if length == remaining {
        Next();
        return;
      }
      remaining := remaining - length;
      offset := offset + length;
    }
  }

  // ----- The growing result -----

  class ResultSet {
    var sections: ChangeSet

    constructor ()
      ensures sections == []
    {
      sections := [];
    }

    /** Appends a section, joining it to the last one where that reads the same. */
    method AddSection(oldLength: nat, newLength: int, insert: Text)
      requires newLength >= -1
      requires newLength < 0 ==> insert == []
      requires newLength >= 0 ==> newLength == |insert|
      modifies this
      ensures EditsOf(sections) == old(EditsOf(sections)) + Emitted(oldLength, newLength, insert)
    {
      hide EditsOf;
      if oldLength == 0 && newLength <= 0 {
        assert Emitted(oldLength, newLength, insert) == [];
        return;
      }
      var last := |sections| - 1;
      if last >= 0 && newLength <= 0 && newLength == sections[last].newLen {
        var joined := sections[last].(oldLen := sections[last].oldLen + oldLength);
        ReplacedLast(sections, joined, oldLength, newLength, insert);
        sections := sections[last := joined];
        return;
      }
      if last >= 0 && oldLength == 0 && sections[last].oldLen == 0 {
        var joined := Section(0, sections[last].newLen + newLength, sections[last].insert + insert);
        ReplacedLast(sections, joined, oldLength, newLength, insert);
        sections := sections[last := joined];
        return;
      }
      var added := Section(oldLength, newLength, insert);
      AppendedLast(sections, added);
      sections := sections + [added];
    }
  }

  /** A section joined from two reads as the two in turn. */
  lemma JoinedSection(last: Section, joined: Section, more: nat, newLen: int, text: Text)
    requires WellFormedSection(last) && WellFormedSection(joined)
    requires
      || (joined.newLen == last.newLen == newLen <= 0 && joined.oldLen == last.oldLen + more && text == [])
      || (joined.oldLen == last.oldLen == more == 0 && last.newLen >= 0 && newLen >= 0
        && joined.insert == last.insert + text)
    ensures SectionEdits(joined) == SectionEdits(last) + Emitted(more, newLen, text)
  {
    if joined.newLen < 0 {
      assert Retains<Unit>(joined.oldLen) == Retains<Unit>(last.oldLen) + Retains<Unit>(more);
    } else {
      assert Adds(joined.insert) == Adds(last.insert) + Adds(text);
      assert Removes<Unit>(joined.oldLen) == Removes<Unit>(last.oldLen) + Removes<Unit>(more);
    }
  }

  lemma AppendedLast(s: ChangeSet, added: Section)
    requires WellFormedSection(added)
    ensures WellFormedSections(s + [added])
    ensures EditsOf(s + [added]) == EditsOf(s) + SectionEdits(added)
  {
    assert (s + [added])[..|s|] == s;
  }

  lemma ReplacedLast(s: ChangeSet, joined: Section, more: nat, newLen: int, text: Text)
    requires s != [] && WellFormedSection(joined)
    requires
      var last := s[|s| - 1];
      || (joined.newLen == last.newLen == newLen <= 0 && joined.oldLen == last.oldLen + more && text == [])
      || (joined.oldLen == last.oldLen == more == 0 && last.newLen >= 0 && newLen >= 0
        && joined.insert == last.insert + text)
    ensures WellFormedSections(s[|s| - 1 := joined])
    ensures EditsOf(s[|s| - 1 := joined]) == EditsOf(s) + Emitted(more, newLen, text)
  {
    var init, last := s[..|s| - 1], s[|s| - 1];
    JoinedSection(last, joined, more, newLen, text);
    assert s[|s| - 1 := joined][..|s| - 1] == init;
    Associative(EditsOf(init), SectionEdits(last), Emitted(more, newLen, text));
  }

  // ----- Mapping -----

  /**
    What every step of the mapping keeps: the edits emitted so far, followed by
    the edits of the two unconsumed rests, are the edits of the whole mapping.
  */
  ghost predicate Emits(x: Script<Unit>, y: Script<Unit>, out: ChangeSet, before: bool, goal: seq<Edit<Unit>>) {
    Span(x) == Span(y) && EditsOf(out) + Mapped(x, y, before) == goal
  }

  /** `r` has the edits of `changes` rewritten to apply after `other`. */
  ghost predicate IsMapped(r: ChangeSet, changes: ChangeSet, other: ChangeSet, before: bool) {
    && Span(ScriptOf(changes)) == Span(ScriptOf(other))
    && EditsOf(r) == Mapped(ScriptOf(changes), ScriptOf(other), before)
  }

  /** `x` is what is left of the mapped side; its current text is pending until `inserted` reaches it. */
  ghost predicate OursAt(a: SectionIter, inserted: int, x: Script<Unit>)
    reads a
  {
    && a.Valid() && inserted <= a.index
    && (a.ins >= 0 && inserted == a.index ==> a.remaining > 0)
    && a.Rest(inserted < a.index) == x
  }

  /** `y` is what is left of the other side, whose changed sections are consumed whole. */
  ghost predicate TheirsAt(b: SectionIter, y: Script<Unit>)
    reads b
  {
    && b.Valid() && (b.ins >= 0 ==> b.offset == 0)
    && b.Rest(true) == y
  }

  lemma UnchangedStep(
      n: nat, x: Script<Unit>, y: Script<Unit>, out: ChangeSet, grown: ChangeSet, before: bool, goal: seq<Edit<Unit>>)
    requires Emits(Keeps(n, x), Keeps(n, y), out, before, goal)
    requires EditsOf(grown) == EditsOf(out) + Emitted(n, -1, [])
    ensures Emits(x, y, grown, before, goal)
    ensures Size(Keeps(n, x)) == n + Size(x) && Size(Keeps(n, y)) == n + Size(y)
  {
    KeepsFacts(n, x);
    KeepsFacts(n, y);
    MappedKeepKeep(n, x, y, before);
    Associative(EditsOf(out), Retains(n), Mapped(x, y, before));
  }

  /** The other side's text comes first: it is kept, and nothing of `x` is consumed. */
  lemma OtherTextStep(
      x: Script<Unit>, text: Text, width: nat, y: Script<Unit>, out: ChangeSet, grown: ChangeSet, before: bool,
      goal: seq<Edit<Unit>>)
    requires Emits(x, Put(text, width, y), out, before, goal)
    requires !(x.Put? && GoesFirst(x, Put(text, width, y), before))
    requires EditsOf(grown) == EditsOf(out) + Emitted(|text|, -1, [])
    ensures Emits(x, y, grown, before, goal)
  {
    Associative(EditsOf(out), Retains(|text|), Mapped(x, y, before));
  }

  /** Units the other side drops are consumed silently. */
  lemma DroppedStep(n: nat, x: Script<Unit>, y: Script<Unit>, out: ChangeSet, before: bool, goal: seq<Edit<Unit>>)
    requires Emits(Keeps(n, x), Drops(n, y), out, before, goal) || Emits(Drops(n, x), Drops(n, y), out, before, goal)
    ensures Emits(x, y, out, before, goal)
    ensures Size(Keeps(n, x)) == Size(Drops(n, x)) == n + Size(x) && Size(Drops(n, y)) == n + Size(y)
  {
    KeepsFacts(n, x);
    DropsFacts(n, x);
    DropsFacts(n, y);
    MappedUnderDrops(n, x, y, before);
  }

  /** Our own text comes first: it is emitted. */
  lemma OwnTextStep(
      text: Text, width: int, x: Script<Unit>, y: Script<Unit>, out: ChangeSet, grown: ChangeSet, before: bool,
      goal: seq<Edit<Unit>>)
    requires Emits(Put(text, width, x), y, out, before, goal)
    requires GoesFirst(Put(text, width, x), y, before)
    requires EditsOf(grown) == EditsOf(out) + Adds(text)
    ensures Emits(x, y, grown, before, goal)
  {
    Associative(EditsOf(out), Adds(text), Mapped(x, y, before));
  }

  /** A text whose section reaches past the units dropped here may as well be emitted after them. */
  lemma DelayedTextStep(
      n: nat, text: Text, width: int, x: Script<Unit>, y: Script<Unit>, out: ChangeSet, before: bool,
      goal: seq<Edit<Unit>>)
    requires n > 0 && Widths(y)
    requires Emits(Put(text, width, Drops(n, x)), Drops(n, y), out, before, goal)
    ensures Emits(Put(text, -1, x), y, out, before, goal)
    ensures Size(Drops(n, x)) == n + Size(x) && Size(Drops(n, y)) == n + Size(y)
  {
    DropsFacts(n, x);
    DropsFacts(n, y);
    MappedUnderDrops(n, x, y, before);
    hide Mapped, EditsOf, Adds, Size, Span;
    assert Drops(n, y).Drop?;
    hide Drops;
    OwnFirst(text, width, Drops(n, x), Drops(n, y), before);
    NarrowFirst(text, x, y, before);
    OwnFirst(text, -1, x, y, before);
  }

  lemma NarrowFirst(text: Text, x: Script<Unit>, y: Script<Unit>, before: bool)
    requires Widths(y)
    ensures GoesFirst(Put(text, -1, x), y, before)
  {
  }

  lemma OwnFirst(text: Text, width: int, x: Script<Unit>, y: Script<Unit>, before: bool)
    requires Span(x) == Span(y) && GoesFirst(Put(text, width, x), y, before)
    ensures Mapped(Put(text, width, x), y, before) == Adds(text) + Mapped(x, y, before)
  {
  }

  /** A stretch both sides leave unchanged. */
  method MapUnchanged(a: SectionIter, b: SectionIter, result: ResultSet, inserted: int, before: bool,
                      ghost x0: Script<Unit>, ghost y0: Script<Unit>, ghost goal: seq<Edit<Unit>>)
      returns (ghost x: Script<Unit>, ghost y: Script<Unit>)
    requires a != b && OursAt(a, inserted, x0) && TheirsAt(b, y0)
    requires Emits(x0, y0, result.sections, before, goal)
    requires a.ins == -1 && b.ins == -1
    modifies a, b, result
    ensures OursAt(a, inserted, x) && TheirsAt(b, y)
    ensures Emits(x, y, result.sections, before, goal)
    ensures Size(x) + Size(y) < Size(x0) + Size(y0)
  {
    hide Mapped, EditsOf, Emits;
    var length := if a.remaining < b.remaining then a.remaining else b.remaining;
    x, y := Keeps(a.remaining - length, a.Tail()), Keeps(b.remaining - length, b.Tail());
    ghost var out := result.sections;
    KeepsSplit(length, a.remaining - length, a.Tail());
    KeepsSplit(length, b.remaining - length, b.Tail());
    result.AddSection(length, -1, []);
    UnchangedStep(length, x, y, out, result.sections, before, goal);
    a.Forward(length);
    b.Forward(length);
  }

  /** One round of the inner loop: our units under a stretch the other side drops. */
  method MapDroppedPiece(a: SectionIter, result: ResultSet, inserted0: int, length: nat, before: bool,
                         ghost x0: Script<Unit>, ghost tail: Script<Unit>, ghost goal: seq<Edit<Unit>>)
      returns (inserted: int, left: nat, ghost x: Script<Unit>)
    requires OursAt(a, inserted0, x0)
    requires Emits(x0, Drops(length, tail), result.sections, before, goal)
    requires length > 0 && Widths(tail)
    modifies a, result
    ensures OursAt(a, inserted, x)
    ensures Emits(x, Drops(left, tail), result.sections, before, goal)
    ensures Size(x) + left < Size(x0) + length
  {
    inserted := inserted0;
    DropsFacts(length, tail);
    var piece := if a.remaining < length then a.remaining else length;
    left := length - piece;
    if a.ins >= 0 && inserted < a.index && a.remaining <= piece {
      x := MapDroppedText(a, result, inserted, length, left, before, x0, tail, goal);
      inserted := a.index;
    } else {
      x := RestAfter(a, inserted < a.index, piece);
      SilentPiece(a, inserted < a.index, length, piece, left, result.sections, before, x0, tail, goal);
    }
    a.Forward(piece);
  }

  /** What is left of our side after `piece` units when no text is emitted. */
  ghost function RestAfter(a: SectionIter, pending: bool, piece: nat): Script<Unit>
    requires a.Valid() && piece <= a.remaining
    reads a
  {
    var left := a.remaining - piece;
    if a.ins < 0 then Keeps(left, a.Tail())
    else if pending then Put(a.sections[a.index - 1].insert, -1, Drops(left, a.Tail()))
    else Drops(left, a.Tail())
  }

  lemma DelayedPiece(
      length: nat, text: Text, width: int, x: Script<Unit>, tail: Script<Unit>, out: ChangeSet, before: bool,
      goal: seq<Edit<Unit>>)
    requires length > 0 && Widths(tail)
    requires Emits(Put(text, width, Drops(length, x)), Drops(length, tail), out, before, goal)
    ensures Emits(Put(text, -1, x), Drops(0, tail), out, before, goal)
    ensures Size(Put(text, -1, x)) < Size(Put(text, width, Drops(length, x)))
  {
    DelayedTextStep(length, text, width, x, tail, out, before, goal);
    assert Drops(0, tail) == tail;
  }

  lemma SilentPiece(a: SectionIter, pending: bool, length: nat, piece: nat, left: nat, out: ChangeSet, before: bool,
                    x0: Script<Unit>, tail: Script<Unit>, goal: seq<Edit<Unit>>)
    requires a.Valid() && a.ins != DONE && a.Rest(pending) == x0
    requires Emits(x0, Drops(length, tail), out, before, goal)
    requires piece == (if a.remaining < length then a.remaining else length) > 0 && Widths(tail)
    requires left == length - piece
    requires a.ins >= 0 && pending ==> piece < a.remaining
    ensures Emits(RestAfter(a, pending, piece), Drops(left, tail), out, before, goal)
    ensures Size(RestAfter(a, pending, piece)) < Size(x0)
  {
    var ours, rest, x := a.Tail(), a.remaining - piece, RestAfter(a, pending, piece);
    DropsSplit(piece, left, tail);
    if a.ins < 0 {
      KeepsSplit(piece, rest, ours);
      assert x0 == Keeps(piece, x);
      DroppedStep(piece, x, Drops(left, tail), out, before, goal);
    } else {
      DropsSplit(piece, rest, ours);
      if pending {
        assert x0 == Put(x.text, x0.width, Drops(length, Drops(rest, ours)));
        DelayedPiece(length, x.text, x0.width, Drops(rest, ours), tail, out, before, goal);
      } else {
        assert x0 == Drops(piece, x);
        DroppedStep(piece, x, Drops(left, tail), out, before, goal);
      }
    }
  }

  /** Our section lies wholly under the dropped stretch: its text is emitted now. */
  method MapDroppedText(a: SectionIter, result: ResultSet, inserted: int, length: nat, left: nat, before: bool,
                        ghost x0: Script<Unit>, ghost tail: Script<Unit>, ghost goal: seq<Edit<Unit>>)
      returns (ghost x: Script<Unit>)
    requires OursAt(a, inserted, x0)
    requires Emits(x0, Drops(length, tail), result.sections, before, goal)
    requires a.ins >= 0 && inserted < a.index && length > 0 && left == length - a.remaining
    modifies result
    ensures x == a.Tail()
    ensures Emits(x, Drops(left, tail), result.sections, before, goal)
    ensures Size(x) + a.remaining < Size(x0)
  {
    ghost var out, text := result.sections, a.sections[a.index - 1].insert;
    x := a.Tail();
    DropsSplit(a.remaining, left, tail);
    result.AddSection(0, a.ins, a.sections[a.index - 1].insert);
    assert Emitted(0, a.ins, text) == Adds(text);
    OwnTextStep(text, x0.width, Drops(a.remaining, x), Drops(length, tail), out, result.sections, before, goal);
    DroppedStep(a.remaining, x, Drops(left, tail), result.sections, before, goal);
  }

  /** A changed section of the other side whose text comes before ours. */
  method MapOverChange(a: SectionIter, b: SectionIter, result: ResultSet, inserted0: int, before: bool,
                       ghost x0: Script<Unit>, ghost y0: Script<Unit>, ghost goal: seq<Edit<Unit>>)
      returns (inserted: int, ghost x: Script<Unit>, ghost y: Script<Unit>)
    requires a != b && OursAt(a, inserted0, x0) && TheirsAt(b, y0)
    requires Emits(x0, y0, result.sections, before, goal)
    requires b.ins >= 0
    requires a.ins < 0 || inserted0 == a.index
      || (a.offset == 0 && (b.remaining < a.remaining || (b.remaining == a.remaining && !before)))
    modifies a, b, result
    ensures OursAt(a, inserted, x) && TheirsAt(b, y)
    ensures Emits(x, y, result.sections, before, goal)
    ensures Size(x) + Size(y) < Size(x0) + Size(y0)
  {
    ghost var out := result.sections;
    y := b.Tail();
    ScriptFacts(b.sections[b.index..]);
    DropsFacts(b.remaining, y);
    result.AddSection(b.ins, -1, []);
    OtherTextStep(x0, y0.text, b.remaining, Drops(b.remaining, y), out, result.sections, before, goal);
    inserted, x := MapDropped(a, result, inserted0, b.remaining, before, x0, y, goal);
    b.Next();
  }

  /** Our side under the `width` units the other side drops. */
  method MapDropped(a: SectionIter, result: ResultSet, inserted0: int, width: nat, before: bool,
                    ghost x0: Script<Unit>, ghost tail: Script<Unit>, ghost goal: seq<Edit<Unit>>)
      returns (inserted: int, ghost x: Script<Unit>)
    requires OursAt(a, inserted0, x0)
    requires Emits(x0, Drops(width, tail), result.sections, before, goal)
    requires Widths(tail)
    modifies a, result
    ensures OursAt(a, inserted, x)
    ensures Emits(x, tail, result.sections, before, goal)
    ensures Size(x) <= Size(x0) + width
  {
    inserted, x := inserted0, x0;
    var length := width;
    while length > 0
      invariant OursAt(a, inserted, x)
      invariant Emits(x, Drops(length, tail), result.sections, before, goal)
      invariant Size(x) + length <= Size(x0) + width
      decreases Size(x) + length
    {
      inserted, length, x := MapDroppedPiece(a, result, inserted, length, before, x, tail, goal);
    }
  }

  /** Our dropped units over units the other side keeps are still removed. */
  lemma RemovedStep(
      n: nat, x: Script<Unit>, y: Script<Unit>, soFar: seq<Edit<Unit>>, before: bool, goal: seq<Edit<Unit>>)
    requires Span(Drops(n, x)) == Span(Keeps(n, y))
    requires soFar + Mapped(Drops(n, x), Keeps(n, y), before) == goal
    ensures Span(x) == Span(y)
    ensures (soFar + Removes(n)) + Mapped(x, y, before) == goal
    ensures Size(Keeps(n, y)) == n + Size(y)
  {
    DropsFacts(n, x);
    KeepsFacts(n, y);
    MappedDropKeep(n, x, y, before);
    Associative(soFar, Removes(n), Mapped(x, y, before));
  }

  /** A pure deletion of the other side inside our dropped units leaves no trace. */
  lemma BothDroppedStep(n: nat, x: Script<Unit>, y: Script<Unit>, before: bool)
    requires Span(Drops(n, x)) == Span(Put([], n, Drops(n, y))) && x.Drop?
    ensures Span(x) == Span(y)
    ensures Mapped(Drops(n, x), Put([], n, Drops(n, y)), before) == Mapped(x, y, before)
  {
    DropsFacts(n, x);
    DropsFacts(n, y);
    MappedUnderDrops(n, x, y, before);
    assert Retains<Unit>(0) + Mapped(x, y, before) == Mapped(x, y, before);
  }

  /** What the inner loop over our own replaced units keeps; `soFar` ends with our pending text. */
  ghost predicate Removing(
      soFar: seq<Edit<Unit>>, length: nat, left: nat, ours: Script<Unit>, y: Script<Unit>, before: bool,
      goal: seq<Edit<Unit>>) {
    && Span(Drops(left, ours)) == Span(y)
    && (soFar + Removes(length)) + Mapped(Drops(left, ours), y, before) == goal
  }

  /** Our replaced units over a kept stretch of the other side. */
  lemma RemovingKept(
      soFar: seq<Edit<Unit>>, length: nat, left: nat, piece: nat, ours: Script<Unit>, y: Script<Unit>, before: bool,
      goal: seq<Edit<Unit>>)
    requires piece <= left && Removing(soFar, length, left, ours, Keeps(piece, y), before, goal)
    ensures Removing(soFar, length + piece, left - piece, ours, y, before, goal)
    ensures Size(Keeps(piece, y)) == piece + Size(y)
  {
    DropsSplit(piece, left - piece, ours);
    RemovedStep(piece, Drops(left - piece, ours), y, soFar + Removes(length), before, goal);
    Associative(soFar, Removes(length), Removes(piece));
    assert Removes<Unit>(length) + Removes<Unit>(piece) == Removes<Unit>(length + piece);
  }

  /** Our replaced units over a pure deletion of the other side. */
  lemma RemovingDropped(
      soFar: seq<Edit<Unit>>, length: nat, left: nat, n: nat, ours: Script<Unit>, y: Script<Unit>, before: bool,
      goal: seq<Edit<Unit>>)
    requires n < left && Removing(soFar, length, left, ours, Put([], n, Drops(n, y)), before, goal)
    ensures Removing(soFar, length, left - n, ours, y, before, goal)
    ensures Size(y) < Size(Put([], n, Drops(n, y)))
  {
    DropsSplit(n, left - n, ours);
    BothDroppedStep(n, Drops(left - n, ours), y, before);
    DropsFacts(n, y);
  }

  /** One round of the inner loop over our replaced units; `more` is false at a text of the other side. */
  method MapReplacedPiece(b: SectionIter, length0: nat, left0: nat, before: bool, ghost soFar: seq<Edit<Unit>>,
                          ghost ours: Script<Unit>, ghost y0: Script<Unit>, ghost goal: seq<Edit<Unit>>)
      returns (length: nat, left: nat, more: bool, ghost y: Script<Unit>)
    requires TheirsAt(b, y0) && left0 > 0 && Removing(soFar, length0, left0, ours, y0, before, goal)
    modifies b
    ensures TheirsAt(b, y) && left <= left0 && Removing(soFar, length, left, ours, y, before, goal)
    ensures if more then Size(y) < Size(y0) && (left < left0 || old(b.ins) == 0) else y == y0 && old(b.ins) != -1
  {
    hide Removing;
    DropsFacts(left0, ours);
    if b.ins == -1 {
      var piece := if left0 < b.remaining then left0 else b.remaining;
      y := Keeps(b.remaining - piece, b.Tail());
      KeepsSplit(piece, b.remaining - piece, b.Tail());
      assert y0 == Keeps(piece, y);
      RemovingKept(soFar, length0, left0, piece, ours, y, before, goal);
      length, left, more := length0 + piece, left0 - piece, true;
      b.Forward(piece);
    } else if b.ins == 0 && b.remaining < left0 {
      y := b.Tail();
      RemovingDropped(soFar, length0, left0, b.remaining, ours, y, before, goal);
      length, left, more := length0, left0 - b.remaining, true;
      b.Next();
    } else {
      length, left, more, y := length0, left0, false, y0;
    }
  }

  /** The other side under our replaced units, up to the first text it inserts there. */
  method MapReplaced(b: SectionIter, width: nat, before: bool, ghost soFar: seq<Edit<Unit>>,
                     ghost ours: Script<Unit>, ghost y0: Script<Unit>, ghost goal: seq<Edit<Unit>>)
      returns (length: nat, left: nat, ghost y: Script<Unit>)
    requires TheirsAt(b, y0) && Removing(soFar, 0, width, ours, y0, before, goal)
    modifies b
    ensures TheirsAt(b, y) && left <= width && Removing(soFar, length, left, ours, y, before, goal)
    ensures Size(y) <= Size(y0) && (width > 0 && old(b.ins) == -1 ==> left < width && Size(y) < Size(y0))
  {
    length, left, y := 0, width, y0;
    var more := true;
    while left > 0 && more
      invariant TheirsAt(b, y) && left <= width && Removing(soFar, length, left, ours, y, before, goal)
      invariant (left == width && more && b.ins == old(b.ins) && y == y0)
        || (Size(y) <= Size(y0) && old(b.ins) != -1)
        || (Size(y) < Size(y0) && left < width)
      decreases Size(y), more
    {
      length, left, more, y := MapReplacedPiece(b, length, left, before, soFar, ours, y, goal);
    }
  }

  /** Our changed section goes into the result, down to `left` units the other side still has to reach. */
  method EmitOwnChange(a: SectionIter, b: SectionIter, result: ResultSet, inserted: int, before: bool,
                       ghost x0: Script<Unit>, ghost y0: Script<Unit>, ghost goal: seq<Edit<Unit>>)
      returns (left: nat, ghost y: Script<Unit>)
    requires a != b && OursAt(a, inserted, x0) && TheirsAt(b, y0)
    requires Emits(x0, y0, result.sections, before, goal)
    requires a.ins >= 0
    requires b.ins < 0 || (inserted < a.index &&
        (a.offset > 0 || a.remaining < b.remaining || (a.remaining == b.remaining && before)))
    modifies b, result
    ensures TheirsAt(b, y) && left <= a.remaining
    ensures Emits(Drops(left, a.Tail()), y, result.sections, before, goal)
    ensures Size(Drops(left, a.Tail())) + Size(y) < Size(x0) + Size(y0)
  {
    ghost var ours := a.Tail();
    var text: Text := if inserted < a.index then a.sections[a.index - 1].insert else [];
    ghost var out, soFar := result.sections, EditsOf(result.sections) + Adds(text);
    ScriptFacts(b.sections[b.index..]);
    OwnTextOut(text, a.remaining, inserted < a.index, ours, x0, y0, out, before, goal);
    var length;
    length, left, y := MapReplaced(b, a.remaining, before, soFar, ours, y0, goal);
    result.AddSection(length, |text|, text);
    Associative(EditsOf(out), Adds(text), Removes(length));
    DropsFacts(a.remaining, ours);
    DropsFacts(left, ours);
  }

  /** One of our changed sections whose text comes first, or whose text is already out. */
  method MapOwnChange(a: SectionIter, b: SectionIter, result: ResultSet, inserted0: int, before: bool,
                      ghost x0: Script<Unit>, ghost y0: Script<Unit>, ghost goal: seq<Edit<Unit>>)
      returns (inserted: int, ghost x: Script<Unit>, ghost y: Script<Unit>)
    requires a != b && OursAt(a, inserted0, x0) && TheirsAt(b, y0)
    requires Emits(x0, y0, result.sections, before, goal)
    requires a.ins >= 0
    requires b.ins < 0 || (inserted0 < a.index &&
        (a.offset > 0 || a.remaining < b.remaining || (a.remaining == b.remaining && before)))
    modifies a, b, result
    ensures OursAt(a, inserted, x) && TheirsAt(b, y)
    ensures Emits(x, y, result.sections, before, goal)
    ensures Size(x) + Size(y) < Size(x0) + Size(y0)
  {
    var left;
    left, y := EmitOwnChange(a, b, result, inserted0, before, x0, y0, goal);
    x := Drops(left, a.Tail());
    inserted := a.index;
    a.Forward(a.remaining - left);
  }

  /** Our text, if it is still to come, goes in front of everything else. */
  lemma OwnTextOut(
      text: Text, width: nat, pending: bool, ours: Script<Unit>, x: Script<Unit>, y: Script<Unit>, out: ChangeSet,
      before: bool, goal: seq<Edit<Unit>>)
    requires Emits(x, y, out, before, goal)
    requires if pending then x.Put? && x.text == text && x.rest == Drops(width, ours) && GoesFirst(x, y, before)
             else text == [] && x == Drops(width, ours)
    ensures Removing(EditsOf(out) + Adds(text), 0, width, ours, y, before, goal)
  {
    var soFar := EditsOf(out) + Adds(text);
    assert soFar + Removes(0) == soFar;
    if pending {
      OwnFirst(text, x.width, x.rest, y, before);
      Associative(EditsOf(out), Adds(text), Mapped(x.rest, y, before));
    } else {
      assert soFar == EditsOf(out);
    }
  }

  datatype Outcome = Continue | Finished | Mismatch

  /** One turn of the mapping loop. Lengths that agree at the start never turn out to mismatch. */
  method MapStep(a: SectionIter, b: SectionIter, result: ResultSet, inserted0: int, before: bool,
                 ghost x0: Script<Unit>, ghost y0: Script<Unit>, ghost goal: seq<Edit<Unit>>)
      returns (outcome: Outcome, inserted: int, ghost x: Script<Unit>, ghost y: Script<Unit>)
    requires a != b && OursAt(a, inserted0, x0) && TheirsAt(b, y0)
    requires Emits(x0, y0, result.sections, before, goal)
    modifies a, b, result
    ensures outcome != Mismatch
    ensures outcome == Finished ==> EditsOf(result.sections) == goal
    ensures outcome == Continue ==>
      && OursAt(a, inserted, x) && TheirsAt(b, y)
      && Emits(x, y, result.sections, before, goal)
      && Size(x) + Size(y) < Size(x0) + Size(y0)
  {
    inserted, x, y := inserted0, x0, y0;
    RestSpan(a, inserted < a.index);
    RestSpan(b, true);
    if (a.ins == DONE && b.remaining > 0) || (b.ins == DONE && a.remaining > 0) {
      outcome := Mismatch;
    } else if a.ins == -1 && b.ins == -1 {
      outcome := Continue;
      x, y := MapUnchanged(a, b, result, inserted, before, x, y, goal);
    } else if b.ins >= 0 && (a.ins < 0 || inserted == a.index
        || (a.offset == 0 && (b.remaining < a.remaining || (b.remaining == a.remaining && !before)))) {
      outcome := Continue;
      inserted, x, y := MapOverChange(a, b, result, inserted, before, x, y, goal);
    } else if a.ins >= 0 {
      outcome := Continue;
      inserted, x, y := MapOwnChange(a, b, result, inserted, before, x, y, goal);
    } else if a.ins == DONE && b.ins == DONE {
      assert EditsOf(result.sections) + [] == goal;
      outcome := Finished;
    } else {
      outcome := Mismatch;
    }
  }

  /**
    `changes` rewritten to apply after `other`. Whenever both start from
    documents of one length the mapping succeeds, and its edits are those of the
    canonical walk over the two scripts.
  */
  method Map(changes: ChangeSet, other: ChangeSet, before: bool) returns (r: Result<ChangeSet>)
    ensures OldLen(changes) != OldLen(other) ==> r.Err?
    ensures OldLen(changes) == OldLen(other) ==> r.Ok? && IsMapped(r.value, changes, other, before)
  {
    if OldLen(changes) != OldLen(other) {
      return Err;
    }
    ScriptFacts(changes);
    ScriptFacts(other);
    ghost var goal := Mapped(ScriptOf(changes), ScriptOf(other), before);
    var a := new SectionIter(changes);
    var b := new SectionIter(other);
    var result := new ResultSet();
    var inserted, outcome := -1, Continue;
    ghost var x, y := ScriptOf(changes), ScriptOf(other);
    assert EditsOf(result.sections) + goal == goal;
    while outcome == Continue
      invariant a != b && fresh(a) && fresh(b) && fresh(result)
      invariant outcome != Mismatch
      invariant outcome == Continue ==>
        OursAt(a, inserted, x) && TheirsAt(b, y) && Emits(x, y, result.sections, before, goal)
      invariant outcome == Finished ==> EditsOf(result.sections) == goal
      decreases outcome == Continue, Size(x) + Size(y)
    {
      outcome, inserted, x, y := MapStep(a, b, result, inserted, before, x, y, goal);
    }
    r := if outcome == Finished then Ok(result.sections) else Err;
  }

  /** The rest of an iterator spans the current section and all later ones. */
  lemma RestSpan(a: SectionIter, pending: bool)
    requires a.Valid()
    ensures Span(a.Rest(pending)) == a.remaining + OldLen(a.sections[a.index..])
  {
    ScriptFacts(a.sections[a.index..]);
    KeepsFacts(a.remaining, a.Tail());
    DropsFacts(a.remaining, a.Tail());
  }
}
