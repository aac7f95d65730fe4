/**
  The persisted form of a change set: a JSON array in which a number is an
  unchanged stretch and an array is a replaced length followed by the inserted
  text, split at newlines. The model starts from values already lexed.
*/
module Encoding {
  import opened Utf16
  import opened ChangeSets

  datatype Json = Integer(n: int) | Fraction | Str(text: Text) | Null | Bool | Object | Array(items: seq<Json>)

  // ----- Lines -----

  /** A text split at its newlines; the empty text is one empty line. */
  function Lines(t: Text): (lines: seq<Text>)
    ensures lines != []
  {
    if t == [] then [[]]
    else
      var rest := Lines(t[1..]);
      if t[0] == NEWLINE then [[]] + rest else [[t[0]] + rest[0]] + rest[1..]
  }

  function Joined(lines: seq<Text>): Text {
    if lines == [] then []
    else if |lines| == 1 then lines[0]
    else lines[0] + [NEWLINE] + Joined(lines[1..])
  }

  lemma {:induction false} JoinedLines(t: Text)
    ensures Joined(Lines(t)) == t
    decreases |t|
  {
    if t != [] {
      var rest := Lines(t[1..]);
      JoinedLines(t[1..]);
      if t[0] == NEWLINE {
        assert ([[]] + rest)[1..] == rest;
      } else {
        var lines := [[t[0]] + rest[0]] + rest[1..];
        assert lines[1..] == rest[1..];
        if |rest| > 1 {
          assert Joined(lines) == [t[0]] + rest[0] + [NEWLINE] + Joined(rest[1..]);
        }
      }
    }
  }

  /** No line holds a newline: together with `JoinedLines` this determines the lines. */
  lemma {:induction false} LinesSplit(t: Text, i: nat)
    requires i < |Lines(t)|
    ensures NEWLINE !in Lines(t)[i]
    decreases |t|
  {
    if t != [] {
      var rest := Lines(t[1..]);
      if t[0] == NEWLINE {
        if i > 0 {
          LinesSplit(t[1..], i - 1);
        }
      } else {
        LinesSplit(t[1..], i);
        assert i == 0 ==> Lines(t)[i] == [t[0]] + rest[0];
      }
    }
  }

  // ----- Encoding -----

  function EncodedLines(lines: seq<Text>): (r: seq<Json>)
    ensures |r| == |lines|
  {
    seq(|lines|, i requires 0 <= i < |lines| => Str(lines[i]))
  }

  function EncodedSection(s: Section): Json {
    if s.newLen < 0 then Integer(s.oldLen)
    else Array([Integer(s.oldLen)] + EncodedLines(Lines(s.insert)))
  }

  method Encode(changes: ChangeSet) returns (parts: seq<Json>)
    ensures |parts| == |changes|
    ensures forall i :: 0 <= i < |changes| ==> parts[i] == EncodedSection(changes[i])
  {
    parts := [];
    for index := 0 to |changes|
      invariant |parts| == index
      invariant forall i :: 0 <= i < index ==> parts[i] == EncodedSection(changes[i])
    {
      var section := changes[index];
      if section.newLen < 0 {
        parts := parts + [Integer(section.oldLen)];
        continue;
      }
      var values, lines := [Integer(section.oldLen)], Lines(section.insert);
      for line := 0 to |lines|
        invariant values == [Integer(section.oldLen)] + EncodedLines(lines[..line])
      {
        assert lines[..line + 1][..line] == lines[..line];
        assert EncodedLines(lines[..line + 1]) == EncodedLines(lines[..line]) + [Str(lines[line])];
        values := values + [Str(lines[line])];
      }
      assert lines[..|lines|] == lines;
      parts := parts + [Array(values)];
    }
  }

  // ----- Parsing -----

  function ParsedLength(value: Json): Result<int> {
    if value.Integer? && value.n >= 0 then Ok(value.n) else Err
  }

  /** A line is a string; a null decodes to the empty string. */
  function ParsedLine(value: Json): Result<Text> {
    match value
    case Str(text) => Ok(text)
    case Null => Ok([])
    case _ => Err
  }

  function ParsedLines(values: seq<Json>): Result<seq<Text>> {
    if values == [] then Ok([])
    else
      var init, last := ParsedLines(values[..|values| - 1]), ParsedLine(values[|values| - 1]);
      if init.Ok? && last.Ok? then Ok(init.value + [last.value]) else Err
  }

  /** The sections one part contributes: none for an empty unchanged stretch. */
  function ParsedPart(part: Json): (r: Result<ChangeSet>) {
    if !part.Array? then
      var length := ParsedLength(part);
      if length.Err? then Err
      else if length.value > 0 then Ok([Section(length.value, -1, [])]) else Ok([])
    else if part.items == [] then Err
    else
      var oldLen, lines := ParsedLength(part.items[0]), ParsedLines(part.items[1..]);
      if oldLen.Err? || lines.Err? then Err
      else
        var insert := Joined(lines.value);
        Ok([Section(oldLen.value, |insert|, insert)])
  }

  function Parsed(parts: seq<Json>): (r: Result<ChangeSet>) {
    if parts == [] then Ok([])
    else
      var init, last := Parsed(parts[..|parts| - 1]), ParsedPart(parts[|parts| - 1]);
      if init.Ok? && last.Ok? then Ok(init.value + last.value) else Err
  }

  method Parse(parts: seq<Json>) returns (r: Result<ChangeSet>)
    ensures r == Parsed(parts)
  {
    var sections: ChangeSet := [];
    for index := 0 to |parts|
      invariant Parsed(parts[..index]) == Ok(sections)
    {
      var part := parts[index];
      assert parts[..index + 1][..index] == parts[..index];
      if !part.Array? {
        var length := ParsedLength(part);
        if length.Err? {
          ParsedFails(parts, index);
          return Err;
        }
        if length.value > 0 {
          sections := sections + [Section(length.value, -1, [])];
        } else {
          assert sections + [] == sections;
        }
        continue;
      }
      if part.items == [] {
        ParsedFails(parts, index);
        return Err;
      }
      var oldLen := ParsedLength(part.items[0]);
      if oldLen.Err? {
        ParsedFails(parts, index);
        return Err;
      }
      var values := part.items[1..];
      var lines: seq<Text> := [];
      for line := 0 to |values|
        invariant ParsedLines(values[..line]) == Ok(lines)
      {
        assert values[..line + 1][..line] == values[..line];
        var text := ParsedLine(values[line]);
        if text.Err? {
          ParsedLinesFail(values, line);
          ParsedFails(parts, index);
          return Err;
        }
        lines := lines + [text.value];
      }
      assert values[..|values|] == values;
      var insert := Joined(lines);
      sections := sections + [Section(oldLen.value, |insert|, insert)];
    }
    assert parts[..|parts|] == parts;
    r := Ok(sections);
  }

  lemma {:induction false} ParsedFails(parts: seq<Json>, index: nat)
    requires index < |parts| && ParsedPart(parts[index]).Err?
    ensures Parsed(parts).Err?
    decreases |parts|
  {
    if index < |parts| - 1 {
      ParsedFails(parts[..|parts| - 1], index);
    }
  }

  lemma {:induction false} ParsedLinesFail(values: seq<Json>, index: nat)
    requires index < |values| && ParsedLine(values[index]).Err?
    ensures ParsedLines(values).Err?
    decreases |values|
  {
    if index < |values| - 1 {
      ParsedLinesFail(values[..|values| - 1], index);
    }
  }

  // ----- Round trip -----

  lemma {:induction false} ParsedEncodedLines(lines: seq<Text>)
    ensures ParsedLines(EncodedLines(lines)) == Ok(lines)
    decreases |lines|
  {
    if lines != [] {
      var init := lines[..|lines| - 1];
      ParsedEncodedLines(init);
      assert EncodedLines(lines)[..|lines| - 1] == EncodedLines(init);
      assert lines == init + [lines[|lines| - 1]];
    }
  }

  lemma ParsedEncodedSection(s: Section)
    requires WellFormedSection(s)
    ensures ParsedPart(EncodedSection(s)) == Ok([s])
  {
    if s.newLen >= 0 {
      JoinedLines(s.insert);
      ParsedEncodedLines(Lines(s.insert));
      var items := [Integer(s.oldLen)] + EncodedLines(Lines(s.insert));
      assert items[1..] == EncodedLines(Lines(s.insert));
    }
  }

  /** Reading back what was written yields the same change set. */
  lemma {:induction false} RoundTrip(changes: ChangeSet, parts: seq<Json>)
    requires |parts| == |changes|
    requires forall i :: 0 <= i < |changes| ==> parts[i] == EncodedSection(changes[i])
    ensures Parsed(parts) == Ok(changes)
    decreases |changes|
  {
    if changes != [] {
      var last := |changes| - 1;
      RoundTrip(changes[..last], parts[..last]);
      ParsedEncodedSection(changes[last]);
      assert changes == changes[..last] + [changes[last]];
    }
  }

  // ----- What parses -----

  /** A length is a whole number that is not negative. */
  predicate IsLength(value: Json) {
    value.Integer? && value.n >= 0
  }

  /** A length alone, or an array of a length and lines. */
  predicate IsPart(part: Json) {
    || IsLength(part)
    || (part.Array? && part.items != [] && IsLength(part.items[0]) &&
        forall i :: 1 <= i < |part.items| ==> part.items[i].Str? || part.items[i].Null?)
  }

  function LengthOf(part: Json): int
    requires IsPart(part)
  {
    if part.Array? then part.items[0].n else part.n
  }

  ghost predicate AllParts(parts: seq<Json>) {
    forall i :: 0 <= i < |parts| ==> IsPart(parts[i])
  }

  ghost function LengthsOf(parts: seq<Json>): int
    requires AllParts(parts)
  {
    if parts == [] then 0 else LengthsOf(parts[..|parts| - 1]) + LengthOf(parts[|parts| - 1])
  }

  lemma AllPartsLast(parts: seq<Json>)
    requires parts != []
    ensures AllParts(parts) <==> AllParts(parts[..|parts| - 1]) && IsPart(parts[|parts| - 1])
  {
    var init := parts[..|parts| - 1];
    assert forall i :: 0 <= i < |init| ==> parts[i] == init[i];
  }

  /** A missing line is an empty one. */
  function LineTexts(values: seq<Json>): (r: seq<Text>)
    ensures |r| == |values|
  {
    seq(|values|, i requires 0 <= i < |values| => if values[i].Str? then values[i].text else [])
  }

  lemma {:induction false} LinesParse(values: seq<Json>)
    ensures ParsedLines(values).Ok? <==> forall i :: 0 <= i < |values| ==> values[i].Str? || values[i].Null?
    ensures ParsedLines(values).Ok? ==> ParsedLines(values).value == LineTexts(values)
    decreases |values|
  {
    if values != [] {
      LinesParse(values[..|values| - 1]);
    }
  }

  lemma PartParses(part: Json)
    ensures ParsedPart(part).Ok? <==> IsPart(part)
    ensures IsPart(part) ==> OldLen(ParsedPart(part).value) == LengthOf(part)
    ensures IsPart(part) && part.Array? ==>
      var text := Joined(LineTexts(part.items[1..]));
      ParsedPart(part).value == [Section(part.items[0].n, |text|, text)]
    ensures IsPart(part) && !part.Array? ==>
      ParsedPart(part).value == if part.n == 0 then [] else [Section(part.n, -1, [])]
  {
    if part.Array? && part.items != [] {
      LinesParse(part.items[1..]);
      assert forall i :: 1 <= i < |part.items| ==> part.items[i] == part.items[1..][i - 1];
    }
  }

  lemma {:induction false} OldLenConcat(s: ChangeSet, t: ChangeSet)
    ensures OldLen(s + t) == OldLen(s) + OldLen(t)
    decreases |t|
  {
    if t == [] {
      assert s + t == s;
    } else {
      var init := t[..|t| - 1];
      OldLenConcat(s, init);
      assert (s + t)[..|s + t| - 1] == s + init;
    }
  }

  /** Exactly lists of such parts parse, whoever wrote them, and the lengths add up to the length of the document. */
  lemma {:induction false} ParsesExactly(parts: seq<Json>)
    ensures Parsed(parts).Ok? <==> AllParts(parts)
    ensures AllParts(parts) ==> OldLen(Parsed(parts).value) == LengthsOf(parts)
    decreases |parts|
  {
    if parts == [] {
      assert AllParts(parts) && Parsed(parts) == Ok([]);
    } else {
      hide ParsedPart, IsPart, AllParts, OldLen;
      var init, last := parts[..|parts| - 1], parts[|parts| - 1];
      ParsesExactly(init);
      PartParses(last);
      AllPartsLast(parts);
      if AllParts(parts) {
        OldLenConcat(Parsed(init).value, ParsedPart(last).value);
        assert Parsed(parts).value == Parsed(init).value + ParsedPart(last).value;
      }
    }
  }
}
