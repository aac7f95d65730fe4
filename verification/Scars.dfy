/**
  The browser applies accepted edits to raw code units while the server repairs
  its text after each of them. A unit that the server repaired is a scar: the
  two texts differ there until an edit deletes it.
*/
module Scars {
  import opened Utf16
  import opened ChangeSets
  import opened Surrogates
  import opened Replay

  /** The text of a receiver who applies the edits to raw units, starting from the same text. */
  ghost function Received(changes: seq<ChangeSet>, texts: seq<Text>): (r: Text)
    requires Edited(texts, changes)
    ensures |r| == |texts[|changes|]|
    decreases |changes|
  {
    if changes == [] then texts[0]
    else
      var n := |changes| - 1;
      var before := Received(changes[..n], EditedPrefix(texts, changes, n));
      assert StoredStep(changes[n], texts[n], texts[n + 1]);
      AppliedLength(changes[n], before);
      AppliedLength(changes[n], texts[n]);
      Applied(changes[n], before)
  }

  ghost function EditedPrefix(texts: seq<Text>, changes: seq<ChangeSet>, n: nat): (r: seq<Text>)
    requires Edited(texts, changes) && n <= |changes|
    ensures Edited(r, changes[..n]) && r == texts[..n + 1]
  {
    assert forall i :: 0 <= i < n ==> StoredStep(changes[i], texts[i], texts[i + 1]);
    texts[..n + 1]
  }

  /** Marks carried along with the units an edit keeps; inserted units are unmarked. */
  ghost function Carried(changes: ChangeSet, marks: seq<bool>): (r: seq<bool>)
    requires OldLen(changes) == |marks|
    ensures |r| == NewLen(changes)
    decreases |changes|
  {
    if changes == [] then []
    else
      var init, last := changes[..|changes| - 1], changes[|changes| - 1];
      EditsSpan(init);
      var cut := OldLen(init);
      Carried(init, marks[..cut]) + (if last.newLen < 0 then marks[cut..] else seq(last.newLen, _ => false))
  }

  /** The scars after one more edit: those of units it keeps, and those its repair makes. */
  ghost function NextScars(changes: ChangeSet, scars: seq<bool>, text: Text): (r: seq<bool>)
    requires OldLen(changes) == |scars| == |text|
    ensures |r| == NewLen(changes)
  {
    AppliedLength(changes, text);
    var raw, older := Applied(changes, text), Carried(changes, scars);
    seq(|raw|, i requires 0 <= i < |raw| => older[i] || Lone(raw, i))
  }

  /** The units of the newest text that some edit's repair replaced and no later edit deleted. */
  ghost function ScarsOf(changes: seq<ChangeSet>, texts: seq<Text>): (r: seq<bool>)
    requires Edited(texts, changes)
    ensures |r| == |texts[|changes|]|
    decreases |changes|
  {
    if changes == [] then seq(|texts[0]|, _ => false)
    else
      var n := |changes| - 1;
      assert StoredStep(changes[n], texts[n], texts[n + 1]);
      AppliedLength(changes[n], texts[n]);
      NextScars(changes[n], ScarsOf(changes[..n], EditedPrefix(texts, changes, n)), texts[n])
  }

  ghost predicate Healed(scars: seq<bool>) {
    forall i :: 0 <= i < |scars| ==> !scars[i]
  }

  /** Scars are where the stored text has U+FFFD and the received one a surrogate; elsewhere the two agree. */
  ghost predicate Marks(marks: seq<bool>, received: Text, stored: Text) {
    && |marks| == |received| == |stored|
    && forall i :: 0 <= i < |marks| ==>
      if marks[i] then IsSurrogate(received[i]) && stored[i] == REPLACEMENT else received[i] == stored[i]
  }

  lemma {:induction false} CarriedMarks(changes: ChangeSet, marks: seq<bool>, received: Text, stored: Text)
    requires Marks(marks, received, stored) && OldLen(changes) == |marks|
    ensures Marks(Carried(changes, marks), Applied(changes, received), Applied(changes, stored))
    decreases |changes|
  {
    AppliedLength(changes, received);
    AppliedLength(changes, stored);
    if changes != [] {
      var init := changes[..|changes| - 1];
      AppliedLast(changes, received);
      AppliedLast(changes, stored);
      var cut := OldLen(init);
      CarriedMarks(init, marks[..cut], received[..cut], stored[..cut]);
    }
  }

  /** One more edit, applied raw on one side and repaired on the other, keeps the scars exact. */
  lemma NextMarks(changes: ChangeSet, scars: seq<bool>, received: Text, stored: Text)
    requires Marks(scars, received, stored) && OldLen(changes) == |scars|
    ensures Marks(NextScars(changes, scars, stored), Applied(changes, received), Stored(changes, stored))
  {
    CarriedMarks(changes, scars, received, stored);
  }

  /** Texts marked by scars are equal exactly when there is none. */
  lemma MarksExactly(scars: seq<bool>, received: Text, stored: Text)
    requires Marks(scars, received, stored)
    ensures received == stored <==> Healed(scars)
  {
    if received == stored {
      forall i | 0 <= i < |scars|
        ensures !scars[i]
      {
        assert received[i] == stored[i];
      }
    }
  }

  lemma {:induction false} ScarsMark(changes: seq<ChangeSet>, texts: seq<Text>)
    requires Edited(texts, changes)
    ensures Marks(ScarsOf(changes, texts), Received(changes, texts), texts[|changes|])
    decreases |changes|
  {
    if changes != [] {
      var n := |changes| - 1;
      var init, before := changes[..n], EditedPrefix(texts, changes, n);
      assert StoredStep(changes[n], texts[n], texts[n + 1]);
      ScarsMark(init, before);
      NextMarks(changes[n], ScarsOf(init, before), Received(init, before), texts[n]);
    }
  }

  /** The receiver's text is the server's exactly when every scar has been deleted again. */
  lemma ReceivedExactly(changes: seq<ChangeSet>, texts: seq<Text>)
    requires Edited(texts, changes)
    ensures Received(changes, texts) == texts[|changes|] <==> Healed(ScarsOf(changes, texts))
  {
    ScarsMark(changes, texts);
    MarksExactly(ScarsOf(changes, texts), Received(changes, texts), texts[|changes|]);
  }

  /** Edits that never leave half of a surrogate pair behind make no scars. */
  lemma {:induction false} WholePairsHeal(changes: seq<ChangeSet>, texts: seq<Text>)
    requires Edited(texts, changes)
    requires forall i :: 0 <= i < |changes| ==> LeavesWhole(changes[i], texts[i])
    ensures Healed(ScarsOf(changes, texts))
    decreases |changes|
  {
    if changes != [] {
      var n := |changes| - 1;
      var init, before := changes[..n], EditedPrefix(texts, changes, n);
      WholePairsHeal(init, before);
      assert LeavesWhole(changes[n], texts[n]);
      assert StoredStep(changes[n], texts[n], texts[n + 1]);
      UnmarkedCarried(changes[n], ScarsOf(init, before));
      var raw := Applied(changes[n], texts[n]);
      AppliedLength(changes[n], texts[n]);
      var older := Carried(changes[n], ScarsOf(init, before));
      forall i | 0 <= i < |raw|
        ensures !ScarsOf(changes, texts)[i]
      {
        assert !Lone(raw, i) && !older[i];
      }
    }
  }

  ghost predicate LeavesWhole(changes: ChangeSet, text: Text) {
    OldLen(changes) == |text| && WellFormed(Applied(changes, text))
  }

  lemma {:induction false} UnmarkedCarried(changes: ChangeSet, marks: seq<bool>)
    requires OldLen(changes) == |marks| && Healed(marks)
    ensures Healed(Carried(changes, marks))
    decreases |changes|
  {
    if changes != [] {
      EditsSpan(changes[..|changes| - 1]);
      UnmarkedCarried(changes[..|changes| - 1], marks[..OldLen(changes[..|changes| - 1])]);
    }
  }

  /** Deleting half of a pair leaves a scar: the receiver keeps a lone surrogate where the server has U+FFFD. */
  lemma HalfLeavesScar()
    ensures OldLen(HALF) == |TWO_FACES|
    ensures Edited([TWO_FACES, Stored(HALF, TWO_FACES)], [HALF])
    ensures !Healed(ScarsOf([HALF], [TWO_FACES, Stored(HALF, TWO_FACES)]))
  {
    CounterexampleStored();
    var texts, changes := [TWO_FACES, Stored(HALF, TWO_FACES)], [HALF];
    assert changes[..0] == [];
    var scars, raw := ScarsOf(changes, texts), Applied(HALF, TWO_FACES);
    AppliedLength(HALF, TWO_FACES);
    CounterexampleScripts();
    RunIsApplied(HALF, TWO_FACES);
    assert raw[0] == 0xD83D;
    assert Repaired(raw)[0] == REPLACEMENT;
    assert Lone(raw, 0);
    assert scars[0];
  }
}
