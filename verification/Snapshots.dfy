/**
  Turning a fetched snapshot into updates the editor can take: one change set
  that replaces the differing middle, padded to the number of skipped revisions.
*/
module Snapshots {
  import opened Utf16
  import opened ChangeSets
  import opened Convergence

  const RETURN: Unit := 0x0D

  // ----- What CodeMirror makes of an inserted string -----

  /** CodeMirror reads an inserted string as lines: every line break becomes a newline. */
  function Normalised(text: Text): Text {
    if text == [] then []
    else if text[0] == RETURN
      then [NEWLINE] + Normalised(if |text| > 1 && text[1] == NEWLINE then text[2..] else text[1..])
    else [text[0]] + Normalised(text[1..])
  }

  ghost predicate ReturnFree(text: Text) {
    forall i :: 0 <= i < |text| ==> text[i] != RETURN
  }

  // ----- The diff -----

  /** The texts share `front` units at the front and, beyond them, `back` units at the back. */
  ghost predicate Shares(before: Text, after: Text, front: nat, back: nat) {
    && front + back <= |before| && front + back <= |after|
    && (forall i :: 0 <= i < front ==> before[i] == after[i])
    && (forall i :: 0 <= i < back ==> SameFromBack(before, after, i))
  }

  ghost predicate SameFromBack(before: Text, after: Text, i: nat) {
    i < |before| && i < |after| && before[|before| - 1 - i] == after[|after| - 1 - i]
  }

  /** Neither part could be longer. */
  ghost predicate SharesMost(before: Text, after: Text, front: nat, back: nat) {
    && Shares(before, after, front, back)
    && (front == |before| || front == |after| || before[front] != after[front])
    && (front + back == |before| || front + back == |after| || before[|before| - 1 - back] != after[|after| - 1 - back])
  }

  /** The part of `after` between its shared ends. */
  function Middle(after: Text, front: nat, back: nat): Text
    requires front + back <= |after|
  {
    after[front..|after| - back]
  }

  /** The one replaced range is the smallest: the shared ends are as long as they can be. */
  method DiffLiveDocuments(before: Text, after: Text) returns (changes: ChangeSet, ghost front: nat, ghost back: nat)
    ensures before == after ==> changes == Unchanged(|before|)
    ensures before != after ==>
      && SharesMost(before, after, front, back)
      && changes == Replaced(front, |before| - back, Normalised(Middle(after, front, back)), |before|)
  {
    hide Replaced, Unchanged, Normalised;
    if before == after {
      return Unchanged(|before|), 0, 0;
    }
    var prefix: nat := 0;
    var limit := if |before| < |after| then |before| else |after|;
    while prefix < limit && before[prefix] == after[prefix]
      invariant prefix <= limit
      invariant forall i :: 0 <= i < prefix ==> before[i] == after[i]
    {
      prefix := prefix + 1;
    }
    var suffix: nat := 0;
    while suffix < |before| - prefix && suffix < |after| - prefix
      && before[|before| - suffix - 1] == after[|after| - suffix - 1]
      invariant Shares(before, after, prefix, suffix)
    {
      suffix := suffix + 1;
    }
    front, back := prefix, suffix;
    changes := Replaced(prefix, |before| - suffix, Normalised(after[prefix..|after| - suffix]), |before|);
  }

  // ----- What the diff does -----

  lemma AppliedUnchanged(doc: Text)
    ensures Applied(Unchanged(|doc|), doc) == doc
  {
    var changes := Unchanged(|doc|);
    if doc != [] {
      AppliedLast(changes, doc);
      assert changes[..0] == [] && doc[..0] == [] && Applied([], []) == [];
    }
  }

  /** Keeping the rest of a text. */
  lemma AppliedThenUnchanged(first: ChangeSet, doc: Text, cut: nat)
    requires cut <= |doc| && OldLen(first) == cut
    ensures OldLen(first + Unchanged(|doc| - cut)) == |doc|
    ensures Applied(first + Unchanged(|doc| - cut), doc) == Applied(first, doc[..cut]) + doc[cut..]
  {
    var rest := Unchanged(|doc| - cut);
    var all := first + rest;
    if rest == [] {
      assert all == first && doc[..cut] == doc && doc[cut..] == [];
    } else {
      assert all[..|all| - 1] == first;
      AppliedLast(all, doc);
    }
  }

  lemma AppliedReplaced(doc: Text, start: nat, end: nat, insert: Text)
    requires start <= end <= |doc|
    ensures OldLen(Replaced(start, end, insert, |doc|)) == |doc|
    ensures Applied(Replaced(start, end, insert, |doc|), doc) == doc[..start] + insert + doc[end..]
  {
    var front := Unchanged(start);
    var replaced: ChangeSet := front + [Section(end - start, |insert|, insert)];
    assert replaced[..|replaced| - 1] == front && OldLen(replaced) == end;
    AppliedLast(replaced, doc[..end]);
    assert doc[..end][..start] == doc[..start];
    AppliedUnchanged(doc[..start]);
    AppliedThenUnchanged(replaced, doc, end);
  }

  lemma {:induction false} NormalisedKeeps(text: Text)
    ensures Normalised(text) == text <==> ReturnFree(text)
    ensures |Normalised(text)| <= |text|
    decreases |text|
  {
    if text != [] {
      NormalisedKeeps(text[1..]);
      if text[0] == RETURN {
        NormalisedKeeps(if |text| > 1 && text[1] == NEWLINE then text[2..] else text[1..]);
        assert Normalised(text)[0] == NEWLINE;
      } else {
        assert Normalised(text)[1..] == Normalised(text[1..]);
        assert ReturnFree(text) <==> ReturnFree(text[1..]) by {
          assert forall i :: 1 <= i < |text| ==> text[i] == text[1..][i - 1];
        }
      }
    }
  }

  /** Replacing the middle by another text. */
  lemma SharedEnds(before: Text, after: Text, front: nat, back: nat)
    requires Shares(before, after, front, back)
    ensures before[..front] == after[..front]
    ensures before[|before| - back..] == after[|after| - back..]
  {
    var b, a := before[|before| - back..], after[|after| - back..];
    forall i | 0 <= i < back
      ensures b[i] == a[i]
    {
      assert SameFromBack(before, after, back - 1 - i);
    }
  }

  lemma Sandwich(front: Text, middle: Text, other: Text, back: Text)
    ensures front + middle + back == front + other + back <==> middle == other
  {
    if front + middle + back == front + other + back {
      assert |middle| == |other|;
      assert middle == (front + middle + back)[|front|..|front| + |middle|];
      assert other == (front + other + back)[|front|..|front| + |other|];
    }
  }

  /** Applying the diff gives `after` exactly when the part that differs holds no carriage return. */
  lemma DiffExactly(before: Text, after: Text, front: nat, back: nat)
    requires Shares(before, after, front, back)
    ensures
      var changes := Replaced(front, |before| - back, Normalised(Middle(after, front, back)), |before|);
      && OldLen(changes) == |before|
      && (Applied(changes, before) == after <==> ReturnFree(Middle(after, front, back)))
  {
    hide Applied, OldLen, Normalised;
    var middle := Middle(after, front, back);
    AppliedReplaced(before, front, |before| - back, Normalised(middle));
    NormalisedKeeps(middle);
    SharedEnds(before, after, front, back);
    assert after == after[..front] + middle + after[|after| - back..];
    Sandwich(after[..front], Normalised(middle), middle, after[|after| - back..]);
  }

  /** A text without carriage returns has no other middles. */
  lemma MiddleReturnFree(after: Text, front: nat, back: nat)
    requires ReturnFree(after) && front + back <= |after|
    ensures ReturnFree(Middle(after, front, back))
  {
  }

  /** A text with a carriage return that the diff does not reproduce. */
  lemma ReturnIsLost()
    ensures Shares([], [RETURN], 0, 0)
    ensures
      var changes := Replaced(0, 0, Normalised(Middle([RETURN], 0, 0)), 0);
      OldLen(changes) == 0 && Applied(changes, []) != [RETURN]
  {
    DiffExactly([], [RETURN], 0, 0);
    assert Middle([RETURN], 0, 0)[0] == RETURN;
  }

  // ----- Padding to the skipped revisions -----

  ghost predicate Padding(update: ChangeSet, length: int) {
    length >= 0 && update == Unchanged(length)
  }

  /** The snapshot's change, then nothing, once per revision the snapshot is ahead. */
  method LiveSnapshotUpdates(changes: ChangeSet, revision: int, current: int) returns (updates: seq<ChangeSet>)
    ensures |updates| == if revision > current then revision - current else 0
    ensures updates != [] ==> updates[0] == changes && forall i :: 1 <= i < |updates| ==>
      Padding(updates[i], NewLen(changes))
  {
    EditsSpan(changes);
    var count := revision - current;
    if count <= 0 {
      return [];
    }
    updates := [changes];
    for index := 1 to count
      invariant |updates| == index && updates[0] == changes
      invariant forall i :: 1 <= i < index ==> Padding(updates[i], NewLen(changes))
    {
      updates := updates + [Unchanged(NewLen(changes))];
    }
  }

  lemma {:induction false} PaddingDoesNothing(updates: seq<ChangeSet>, doc: Text)
    requires forall i :: 0 <= i < |updates| ==> Padding(updates[i], |doc|)
    ensures Chained(updates, |doc|) && Replayed(updates, doc) == doc
    decreases |updates|
  {
    if updates != [] {
      assert Padding(updates[0], |doc|);
      AppliedUnchanged(doc);
      PaddingDoesNothing(updates[1..], doc);
    }
  }

  /** The updates apply one after another, with the snapshot change's own effect. */
  lemma UpdatesCompose(updates: seq<ChangeSet>, changes: ChangeSet, doc: Text)
    requires OldLen(changes) == |doc| && updates != [] && updates[0] == changes
    requires forall i :: 1 <= i < |updates| ==> Padding(updates[i], NewLen(changes))
    ensures Chained(updates, |doc|) && Replayed(updates, doc) == Applied(changes, doc)
  {
    AppliedLength(changes, doc);
    PaddingDoesNothing(updates[1..], Applied(changes, doc));
  }

  /** A snapshot some revisions ahead takes the client's text to the snapshot's text in that many updates. */
  method SnapshotUpdates(before: Text, after: Text, revision: int, current: int) returns (updates: seq<ChangeSet>)
    requires ReturnFree(after)
    ensures |updates| == if revision > current then revision - current else 0
    ensures revision > current ==> Chained(updates, |before|) && Replayed(updates, before) == after
  {
    var changes, front, back := DiffLiveDocuments(before, after);
    assert OldLen(changes) == |before| && Applied(changes, before) == after by {
      if before == after {
        AppliedUnchanged(before);
      } else {
        MiddleReturnFree(after, front, back);
        DiffExactly(before, after, front, back);
      }
    }
    updates := LiveSnapshotUpdates(changes, revision, current);
    if updates != [] {
      UpdatesCompose(updates, changes, before);
    }
  }
}
