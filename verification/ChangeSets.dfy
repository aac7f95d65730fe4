/**
  CodeMirror change sets as the server represents them: a list of sections over
  UTF-16 offsets, applied to a document and mapped over one another.
*/
module ChangeSets {
  import opened Scripts
  import opened Utf16

  datatype Result<+T> = Ok(value: T) | Err

  /** `newLen == -1` marks an unchanged section; otherwise `insert` replaces `oldLen` units. */
  datatype Section = Section(oldLen: int, newLen: int, insert: Text)

  /** What the parser produces and every operation keeps. */
  predicate WellFormedSection(s: Section) {
    && s.oldLen >= 0
    && s.newLen >= -1
    && (s.newLen == -1 ==> s.oldLen > 0 && s.insert == [])
    && (s.newLen >= 0 ==> s.newLen == |s.insert|)
  }

  predicate WellFormedSections(s: seq<Section>) {
    forall i :: 0 <= i < |s| ==> WellFormedSection(s[i])
  }

  type ChangeSet = s: seq<Section> | WellFormedSections(s)

  function OldLen(s: seq<Section>): int {
    if s == [] then 0 else OldLen(s[..|s| - 1]) + s[|s| - 1].oldLen
  }

  function NewLen(s: seq<Section>): int {
    if s == [] then 0
    else
      var last := s[|s| - 1];
      NewLen(s[..|s| - 1]) + (if last.newLen >= 0 then last.newLen else last.oldLen)
  }

  // ----- Change sets with one replaced range -----

  function Unchanged(length: nat): (r: ChangeSet)
    ensures OldLen(r) == NewLen(r) == length
  {
    if length == 0 then [] else
      var r := [Section(length, -1, [])];
      assert r[..0] == [];
      r
  }

  /** One replaced range. */
  function Replaced(start: nat, end: nat, insert: Text, length: nat): (r: ChangeSet)
    requires start <= end <= length
  {
    Unchanged(start) + [Section(end - start, |insert|, insert)] + Unchanged(length - end)
  }

  // ----- Meaning -----

  /** The edits of one section with the given lengths and text. */
  ghost function Emitted(oldLen: nat, newLen: int, insert: Text): seq<Edit<Unit>> {
    if newLen < 0 then Retains(oldLen) else Adds(insert) + Removes(oldLen)
  }

  ghost function SectionEdits(s: Section): seq<Edit<Unit>>
    requires WellFormedSection(s)
  {
    Emitted(s.oldLen, s.newLen, s.insert)
  }

  ghost function EditsOf(s: ChangeSet): seq<Edit<Unit>> {
    if s == [] then [] else EditsOf(s[..|s| - 1]) + SectionEdits(s[|s| - 1])
  }

  ghost function SectionScript(s: Section, rest: Script<Unit>): Script<Unit>
    requires WellFormedSection(s)
  {
    if s.newLen < 0 then Keeps(s.oldLen, rest) else Put(s.insert, s.oldLen, Drops(s.oldLen, rest))
  }

  ghost function ScriptOf(s: ChangeSet): Script<Unit> {
    if s == [] then End else SectionScript(s[0], ScriptOf(s[1..]))
  }

  /** The code units a change set makes of a document. */
  ghost function Applied(s: ChangeSet, doc: Text): Text
    requires OldLen(s) == |doc|
  {
    EditsSpan(s);
    Play(EditsOf(s), doc)
  }

  lemma SectionEditsSpan(s: Section)
    requires WellFormedSection(s)
    ensures EditSpan(SectionEdits(s)) == s.oldLen
  {
    var units: Text := seq(s.oldLen, _ => REPLACEMENT);
    if s.newLen < 0 {
      PlayRetains<Unit>(units);
    } else {
      PlayAdds<Unit>(s.insert);
      PlayRemoves<Unit>(units);
      EditSpanConcat<Unit>(Adds(s.insert), Removes(s.oldLen));
    }
  }

  lemma {:induction false} EditsSpan(s: ChangeSet)
    ensures OldLen(s) >= 0 && NewLen(s) >= 0
    ensures EditSpan(EditsOf(s)) == OldLen(s)
    decreases |s|
  {
    if s != [] {
      var init := s[..|s| - 1];
      EditsSpan(init);
      SectionEditsSpan(s[|s| - 1]);
      EditSpanConcat(EditsOf(init), SectionEdits(s[|s| - 1]));
    }
  }

  /** One section applied to the units it covers. */
  lemma PlaySection(s: Section, doc: Text)
    requires WellFormedSection(s) && |doc| == s.oldLen
    ensures EditSpan(SectionEdits(s)) == |doc|
    ensures Play(SectionEdits(s), doc) == if s.newLen < 0 then doc else s.insert
  {
    if s.newLen < 0 {
      PlayRetains(doc);
    } else {
      PlayRemoves(doc);
      PlayAfterAdds(s.insert, Removes(|doc|), doc);
    }
  }

  lemma {:induction false} AppliedLength(s: ChangeSet, doc: Text)
    requires OldLen(s) == |doc|
    ensures |Applied(s, doc)| == NewLen(s)
    decreases |s|
  {
    EditsSpan(s);
    if s != [] {
      var init, last := s[..|s| - 1], s[|s| - 1];
      EditsSpan(init);
      var cut := OldLen(init);
      AppliedLength(init, doc[..cut]);
      PlaySection(last, doc[cut..]);
      PlayConcat(EditsOf(init), SectionEdits(last), doc[..cut], doc[cut..]);
      assert doc[..cut] + doc[cut..] == doc;
    }
  }

  lemma LastSection(s: ChangeSet)
    requires s != []
    ensures EditsOf(s) == EditsOf(s[..|s| - 1]) + SectionEdits(s[|s| - 1])
    ensures OldLen(s) == OldLen(s[..|s| - 1]) + s[|s| - 1].oldLen
  {
  }

  /** The last section applied to the units behind those before it. */
  lemma AppliedLast(changes: ChangeSet, doc: Text)
    requires changes != [] && OldLen(changes) == |doc|
    ensures
      var init, last := changes[..|changes| - 1], changes[|changes| - 1];
      && 0 <= OldLen(init) <= |doc|
      && Applied(changes, doc) ==
         Applied(init, doc[..OldLen(init)]) + (if last.newLen < 0 then doc[OldLen(init)..] else last.insert)
  {
    var init, last := changes[..|changes| - 1], changes[|changes| - 1];
    EditsSpan(changes);
    EditsSpan(init);
    var cut := OldLen(init);
    PlaySection(last, doc[cut..]);
    PlayConcat(EditsOf(init), SectionEdits(last), doc[..cut], doc[cut..]);
    assert doc[..cut] + doc[cut..] == doc;
  }

  lemma {:induction false} EditsOfCons(s: ChangeSet)
    requires s != []
    ensures EditsOf(s) == SectionEdits(s[0]) + EditsOf(s[1..])
    ensures OldLen(s) == s[0].oldLen + OldLen(s[1..])
    decreases |s|
  {
    hide SectionEdits;
    if |s| == 1 {
      assert EditsOf(s[..0]) == [] && EditsOf(s[1..]) == [];
      assert EditsOf(s) == SectionEdits(s[0]);
    } else {
      var init := s[..|s| - 1];
      EditsOfCons(init);
      assert init[1..] == s[1..][..|s| - 2];
      assert s[1..][|s| - 2] == s[|s| - 1];
      assert EditsOf(s[1..]) == EditsOf(init[1..]) + SectionEdits(s[|s| - 1]);
      Associative(SectionEdits(s[0]), EditsOf(init[1..]), SectionEdits(s[|s| - 1]));
    }
  }

  lemma {:induction false} ScriptFacts(s: ChangeSet)
    ensures Span(ScriptOf(s)) == OldLen(s)
    ensures Widths(ScriptOf(s))
    decreases |s|
  {
    if s != [] {
      ScriptFacts(s[1..]);
      EditsOfCons(s);
      KeepsFacts(s[0].oldLen, ScriptOf(s[1..]));
      DropsFacts(s[0].oldLen, ScriptOf(s[1..]));
    }
  }

  /** The two readings of a change set agree. */
  lemma {:induction false} RunIsApplied(s: ChangeSet, doc: Text)
    requires OldLen(s) == |doc|
    ensures Span(ScriptOf(s)) == |doc|
    ensures Run(ScriptOf(s), doc) == Applied(s, doc)
    decreases |s|
  {
    ScriptFacts(s);
    EditsSpan(s);
    if s != [] {
      var first, rest := s[0], s[1..];
      EditsOfCons(s);
      EditsSpan(rest);
      ScriptFacts(rest);
      var head, tail := doc[..first.oldLen], doc[first.oldLen..];
      RunIsApplied(rest, tail);
      RunKeeps(first.oldLen, ScriptOf(rest), doc);
      RunDrops(first.oldLen, ScriptOf(rest), doc);
      PlaySection(first, head);
      PlayConcat(SectionEdits(first), EditsOf(rest), head, tail);
      assert head + tail == doc;
    }
  }
}
