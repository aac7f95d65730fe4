/**
  The author of a stale edit: the server rebases the edit over what it accepted
  meanwhile, the author maps what it receives over the edit, and both end with
  the same text.
*/
module Authors {
  import opened Utf16
  import opened ChangeSets
  import opened Mapping
  import opened Convergence
  import opened Surrogates
  import opened Histories
  import opened Replay
  import opened Authority
  import opened Rooms
  import opened Scars
  import opened Reconnection

  lemma {:induction false} ReplayedLast(history: seq<ChangeSet>, last: ChangeSet, doc: Text)
    requires Chained(history, |doc|) && OldLen(last) == |Replayed(history, doc)|
    ensures Chained(history + [last], |doc|)
    ensures Replayed(history + [last], doc) == Applied(last, Replayed(history, doc))
    decreases |history|
  {
    if history == [] {
      assert [last][1..] == [] && [] + [last] == [last];
      AppliedLength(last, doc);
    } else {
      var rest := history[1..];
      AppliedLength(history[0], doc);
      ReplayedLast(rest, last, Applied(history[0], doc));
      assert (history + [last])[1..] == rest + [last];
    }
  }

  /** Replaying edits from the front is receiving them one after another. */
  lemma {:induction false} ReplayedIsReceived(changes: seq<ChangeSet>, texts: seq<Text>)
    requires Edited(texts, changes)
    ensures Chained(changes, |texts[0]|) && Replayed(changes, texts[0]) == Received(changes, texts)
    decreases |changes|
  {
    if changes != [] {
      var n := |changes| - 1;
      var before := EditedPrefix(texts, changes, n);
      ReplayedIsReceived(changes[..n], before);
      assert StoredStep(changes[n], texts[n], texts[n + 1]);
      ReplayedLast(changes[..n], changes[n], texts[0]);
      assert changes[..n] + [changes[n]] == changes;
    }
  }

  /** The server's texts from a revision on, through one more edit. */
  ghost function TextsThrough(d: Document, trail: Trail, base: int, changes: ChangeSet): (r: seq<Text>)
    requires Retained(d, trail, base) && OldLen(changes) == |d.content|
    ensures Edited(r, Sent(d, base) + [changes]) && r[0] == trail.At(base) && r[|r| - 1] == Stored(changes, d.content)
  {
    var texts, sent := TextsFrom(d, trail, base), Sent(d, base);
    EditedFurther(texts, sent, changes);
    texts + [Stored(changes, d.content)]
  }

  lemma EditedFurther(texts: seq<Text>, sent: seq<ChangeSet>, changes: ChangeSet)
    requires Edited(texts, sent) && OldLen(changes) == |texts[|sent|]|
    ensures Edited(texts + [Stored(changes, texts[|sent|])], sent + [changes])
  {
    hide Stored, OldLen;
    var more, longer := sent + [changes], texts + [Stored(changes, texts[|sent|])];
    forall i | 0 <= i < |more|
      ensures StoredStep(more[i], longer[i], longer[i + 1])
    {
      assert i < |sent| ==> StoredStep(sent[i], texts[i], texts[i + 1]);
    }
  }

  /**
    The author of a stale edit, who applied it at once and then each edit
    accepted meanwhile mapped over it, has the text that the server stores for
    the rebased edit if and only if no repair since the base revision, the
    rebased edit's own included, left a scar.
  */
  lemma AuthorConverges(d: Document, trail: Trail, base: int, chain: seq<ChangeSet>, echoes: seq<ChangeSet>)
    requires Retained(d, trail, base)
    requires RebaseChain(chain, Sent(d, base)) && Echoes(echoes, chain, Sent(d, base))
    requires OldLen(chain[0]) == |trail.At(base)|
    ensures
      var rebased := chain[|chain| - 1];
      && OldLen(rebased) == |d.content| && Chained(echoes, |Applied(chain[0], trail.At(base))|)
      && (Stored(rebased, d.content) == Replayed(echoes, Applied(chain[0], trail.At(base)))
          <==> Healed(ScarsOf(Sent(d, base) + [rebased], TextsThrough(d, trail, base, rebased))))
  {
    hide Coherent, ScarsOf, Replayed, Chained, Applied, Healed, Stored;
    var sent, texts, rebased := Sent(d, base), TextsFrom(d, trail, base), chain[|chain| - 1];
    ReplayedIsReceived(sent, texts);
    RebaseConverges(trail.At(base), sent, chain, echoes);
    var longer := TextsThrough(d, trail, base, rebased);
    assert (sent + [rebased])[..|sent|] == sent && EditedPrefix(longer, sent + [rebased], |sent|) == texts;
    ReceivedExactly(sent + [rebased], longer);
  }

  /**
    Every edit the room accepts is rebased so: its author ends with the room's
    text, or with one that differs in scars only.
  */
  lemma AcceptedConverges(
      s: State, op: DocumentOperation, changes: ChangeSet, limits: Limits) returns (chain: seq<ChangeSet>)
    requires Valid(s, limits) && EditedBy(s, op, changes)
    ensures
      var d, trail := s.documents[op.documentId], s.trails[op.documentId];
      && Retained(d, trail, op.baseVersion) && OldLen(op.changes) == |trail.At(op.baseVersion)|
      && RebaseChain(chain, Sent(d, op.baseVersion)) && chain[0] == op.changes && chain[|chain| - 1] == changes
      && forall echoes :: Echoes(echoes, chain, Sent(d, op.baseVersion)) ==>
           && Chained(echoes, |Applied(op.changes, trail.At(op.baseVersion))|)
           && (Stored(changes, d.content) == Replayed(echoes, Applied(op.changes, trail.At(op.baseVersion)))
               <==> Healed(ScarsOf(Sent(d, op.baseVersion) + [changes], TextsThrough(d, trail, op.baseVersion,
                 changes))))
  {
    hide Valid, Coherent, ScarsOf, Replayed, Chained, Applied, Healed, Stored, TextsThrough, OldLen, RebaseChain,
         Echoes;
    var d, trail, base := s.documents[op.documentId], s.trails[op.documentId], op.baseVersion;
    var accepted := Sent(d, base);
    chain := AcceptedChain(s, op, changes);
    BaseLength(s, op, changes, chain, limits);
    forall echoes | Echoes(echoes, chain, accepted)
      ensures Chained(echoes, |Applied(op.changes, trail.At(base))|)
      ensures Stored(changes, d.content) == Replayed(echoes, Applied(op.changes, trail.At(base)))
        <==> Healed(ScarsOf(accepted + [changes], TextsThrough(d, trail, base, changes)))
    {
      AuthorConverges(d, trail, base, chain, echoes);
    }
  }

  /** The chain of rebased forms of an accepted edit. */
  lemma AcceptedChain(s: State, op: DocumentOperation, changes: ChangeSet) returns (chain: seq<ChangeSet>)
    requires EditedBy(s, op, changes)
    ensures
      var accepted := Sent(s.documents[op.documentId], op.baseVersion);
      && RebaseChain(chain, accepted) && |chain| == |accepted| + 1
      && chain[0] == op.changes && chain[|chain| - 1] == changes
  {
    hide Coherent, OldLen;
    var accepted := Sent(s.documents[op.documentId], op.baseVersion);
    chain :| RebaseChain(chain, accepted) && chain[0] == op.changes && chain[|accepted|] == changes;
  }

  /** An accepted edit was made for the text of its base revision. */
  lemma BaseLength(s: State, op: DocumentOperation, changes: ChangeSet, chain: seq<ChangeSet>, limits: Limits)
    requires Valid(s, limits) && EditedBy(s, op, changes)
    requires RebaseChain(chain, Sent(s.documents[op.documentId], op.baseVersion)) && chain[0] == op.changes
    requires chain[|chain| - 1] == changes
    ensures Retained(s.documents[op.documentId], s.trails[op.documentId], op.baseVersion)
    ensures OldLen(op.changes) == |s.trails[op.documentId].At(op.baseVersion)|
  {
    hide MetadataFits, ViewsFit, LedgerFits, Structured;
    assert DocumentFits(s.documents, s.trails, limits, op.documentId);
    var d, trail := s.documents[op.documentId], s.trails[op.documentId];
    var accepted, texts := Sent(d, op.baseVersion), TextsFrom(d, trail, op.baseVersion);
    if accepted != [] {
      assert StoredStep(accepted[0], texts[0], texts[1]);
      assert IsMapped(chain[1], chain[0], accepted[0], false);
      ScriptFacts(chain[0]);
      ScriptFacts(accepted[0]);
    }
  }
}
