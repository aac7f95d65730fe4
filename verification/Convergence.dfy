/**
  Concurrent edits converge: whichever side is applied first, mapping the other
  over it leads to one canonical merge, for single edits and for whole ladders
  of rebased edits. Repairing lone surrogates after every application, as the
  server does, keeps this exactly under a condition on surrogate pairs.
*/
module Convergence {
  import opened Scripts
  import opened Utf16
  import opened ChangeSets
  import opened Mapping

  /** The canonical merge of two change sets made for one document. */
  ghost function Merged(a: ChangeSet, b: ChangeSet, doc: Text): Text
    requires OldLen(a) == OldLen(b) == |doc|
  {
    ScriptFacts(a);
    ScriptFacts(b);
    Merge(ScriptOf(a), ScriptOf(b), doc)
  }

  /** A mapped change set always fits the other's output. */
  lemma MappedFits(mapped: ChangeSet, a: ChangeSet, b: ChangeSet, before: bool)
    requires IsMapped(mapped, a, b, before)
    ensures OldLen(mapped) == NewLen(b)
  {
    ScriptFacts(a);
    ScriptFacts(b);
    EditsSpan(mapped);
    EditsSpan(b);
    var doc := seq(OldLen(b), _ => NEWLINE);
    if before {
      FirstMappedIsMerge(ScriptOf(a), ScriptOf(b), doc);
    } else {
      SecondMappedIsMerge(ScriptOf(b), ScriptOf(a), doc);
    }
    RunIsApplied(b, doc);
    AppliedLength(b, doc);
  }

  lemma FirstMappedApplied(mapped: ChangeSet, a: ChangeSet, b: ChangeSet, doc: Text)
    requires OldLen(b) == |doc| && IsMapped(mapped, a, b, true)
    ensures OldLen(a) == |doc| && OldLen(mapped) == |Applied(b, doc)|
    ensures Applied(mapped, Applied(b, doc)) == Merged(a, b, doc)
  {
    ScriptFacts(a);
    ScriptFacts(b);
    EditsSpan(mapped);
    RunIsApplied(b, doc);
    FirstMappedIsMerge(ScriptOf(a), ScriptOf(b), doc);
  }

  lemma SecondMappedApplied(mapped: ChangeSet, a: ChangeSet, b: ChangeSet, doc: Text)
    requires OldLen(a) == |doc| && IsMapped(mapped, b, a, false)
    ensures OldLen(b) == |doc| && OldLen(mapped) == |Applied(a, doc)|
    ensures Applied(mapped, Applied(a, doc)) == Merged(a, b, doc)
  {
    ScriptFacts(a);
    ScriptFacts(b);
    EditsSpan(mapped);
    RunIsApplied(a, doc);
    SecondMappedIsMerge(ScriptOf(a), ScriptOf(b), doc);
  }

  /** Both orders of two concurrent edits give the canonical merge. */
  lemma Converges(a: ChangeSet, b: ChangeSet, aAfterB: ChangeSet, bAfterA: ChangeSet, doc: Text)
    requires OldLen(a) == OldLen(b) == |doc|
    requires IsMapped(aAfterB, a, b, true) && IsMapped(bAfterA, b, a, false)
    ensures OldLen(aAfterB) == |Applied(b, doc)| && OldLen(bAfterA) == |Applied(a, doc)|
    ensures Applied(aAfterB, Applied(b, doc)) == Applied(bAfterA, Applied(a, doc)) == Merged(a, b, doc)
  {
    FirstMappedApplied(aAfterB, a, b, doc);
    SecondMappedApplied(bAfterA, a, b, doc);
  }

  // ----- Ladders -----

  /** Each change set of a list applies to what its predecessors produce. */
  ghost predicate Chained(history: seq<ChangeSet>, length: int) {
    history == [] || (OldLen(history[0]) == length && Chained(history[1..], NewLen(history[0])))
  }

  ghost function Replayed(history: seq<ChangeSet>, doc: Text): Text
    requires Chained(history, |doc|)
    decreases |history|
  {
    if history == [] then doc
    else
      AppliedLength(history[0], doc);
      Replayed(history[1..], Applied(history[0], doc))
  }

  /** `chain[i + 1]` is `chain[i]` rebased over `history[i]`, as the authority rebases a stale edit. */
  ghost predicate RebaseChain(chain: seq<ChangeSet>, history: seq<ChangeSet>) {
    |chain| == |history| + 1
    && forall i :: 0 <= i < |history| ==> IsMapped(chain[i + 1], chain[i], history[i], false)
  }

  /** `echoes[i]` is `history[i]` as seen by the author of the stale edit, whose text already holds that edit. */
  ghost predicate Echoes(echoes: seq<ChangeSet>, chain: seq<ChangeSet>, history: seq<ChangeSet>) {
    |chain| == |history| + 1 && |echoes| == |history|
    && forall i :: 0 <= i < |history| ==> IsMapped(echoes[i], history[i], chain[i], true)
  }

  /**
    A stale edit rebased over any number of accepted edits: the authority's text
    after accepting it equals the text of an author who applied it at once and
    then received every accepted edit mapped over it.
  */
  lemma {:induction false} RebaseConverges(
      doc: Text, history: seq<ChangeSet>, chain: seq<ChangeSet>, echoes: seq<ChangeSet>)
    requires Chained(history, |doc|) && RebaseChain(chain, history) && Echoes(echoes, chain, history)
    requires OldLen(chain[0]) == |doc|
    ensures OldLen(chain[|history|]) == |Replayed(history, doc)|
    ensures Chained(echoes, |Applied(chain[0], doc)|)
    ensures Applied(chain[|history|], Replayed(history, doc)) == Replayed(echoes, Applied(chain[0], doc))
    decreases |history|
  {
    if history != [] {
      var accepted, edit := history[0], chain[0];
      Converges(accepted, edit, echoes[0], chain[1], doc);
      AppliedLength(accepted, doc);
      AppliedLength(echoes[0], Applied(edit, doc));
      RebaseConverges(Applied(accepted, doc), history[1..], chain[1..], echoes[1..]);
    }
  }
}
