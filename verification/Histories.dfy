/**
  One document of a room: its current text and the retained accepted edits that
  lead to it, oldest first. The history serves two readers: a stale operation is
  rebased over its tail, and a reconnecting client is sent its tail.
*/
module Histories {
  import opened Utf16
  import opened ChangeSets
  import opened Mapping
  import opened Convergence

  /** An accepted edit. `beforeLen` is the length of the text it was applied to. */
  datatype Entry = Entry(
    operationId: string, clientId: string, revision: int, baseVersion: int,
    beforeLen: int, bytes: nat, changes: ChangeSet)

  datatype Document = Document(
    name: string, language: string, content: Text, revision: int,
    history: seq<Entry>, historyBytes: int, compacted: int)

  ghost function Bytes(history: seq<Entry>): nat {
    if history == [] then 0 else history[0].bytes + Bytes(history[1..])
  }

  ghost function ChangesOf(history: seq<Entry>): (r: seq<ChangeSet>)
    ensures |r| == |history|
  {
    seq(|history|, i requires 0 <= i < |history| => history[i].changes)
  }

  /** Entry `i` makes revision `base + i + 1`, and its lengths chain to the next entry, or to `length`. */
  ghost predicate EntryFits(history: seq<Entry>, i: nat, base: int, length: int)
    requires i < |history|
  {
    && history[i].revision == base + i + 1
    && history[i].baseVersion == base + i
    && OldLen(history[i].changes) == history[i].beforeLen
    && NewLen(history[i].changes) == if i + 1 < |history| then history[i + 1].beforeLen else length
  }

  ghost predicate Consecutive(history: seq<Entry>, base: int, length: int) {
    forall i :: 0 <= i < |history| ==> EntryFits(history, i, base, length)
  }

  /** The history is exactly revisions `compacted + 1` to the current one, and the byte counter is its sum. */
  ghost predicate Coherent(d: Document) {
    && 0 <= d.compacted
    && d.revision == d.compacted + |d.history|
    && Consecutive(d.history, d.compacted, |d.content|)
    && d.historyBytes == Bytes(d.history)
  }

  ghost predicate Bounded(d: Document, maxRows: int, maxBytes: int) {
    |d.history| <= maxRows && d.historyBytes <= maxBytes
  }

  /** The retained edits after revision `version`. */
  ghost function After(d: Document, version: int): seq<Entry>
    requires Coherent(d) && d.compacted <= version <= d.revision
  {
    d.history[version - d.compacted..]
  }

  /** The length of the text at a retained revision. */
  ghost function LengthAt(d: Document, version: int): int
    requires Coherent(d) && d.compacted <= version <= d.revision
  {
    if version == d.revision then |d.content| else d.history[version - d.compacted].beforeLen
  }

  /** Looks up that length; every retained revision has one. */
  method FindLength(d: Document, version: int) returns (length: int, found: bool)
    requires Coherent(d)
    ensures found <==> d.compacted <= version <= d.revision
    ensures found ==> length == LengthAt(d, version)
  {
    if version == d.revision {
      return |d.content|, true;
    }
    for index := 0 to |d.history|
      invariant version < d.compacted || version >= d.compacted + index
    {
      assert EntryFits(d.history, index, d.compacted, |d.content|);
      if d.history[index].baseVersion == version {
        return d.history[index].beforeLen, true;
      }
    }
    length, found := 0, false;
  }

  // ----- Rebasing -----

  lemma ConsecutiveSuffix(history: seq<Entry>, k: nat, base: int, length: int)
    requires k <= |history| && Consecutive(history, base, length)
    ensures Consecutive(history[k..], base + k, length)
  {
    var suffix, start := history[k..], base + k;
    forall i | 0 <= i < |suffix|
      ensures EntryFits(suffix, i, start, length)
    {
      assert EntryFits(history, k + i, base, length);
    }
  }

  lemma {:induction false} ConsecutiveIsChained(history: seq<Entry>, base: int, length: int)
    requires history != [] && Consecutive(history, base, length)
    ensures Chained(ChangesOf(history), history[0].beforeLen)
    decreases |history|
  {
    var changes := ChangesOf(history);
    assert EntryFits(history, 0, base, length);
    if |history| > 1 {
      var rest := history[1..];
      ConsecutiveSuffix(history, 1, base, length);
      ConsecutiveIsChained(rest, base + 1, length);
      assert changes[1..] == ChangesOf(rest);
    } else {
      assert changes[1..] == [];
    }
  }

  /** `r` is `changes` rebased over the list of accepted change sets, one after another. */
  ghost predicate Rebased(changes: ChangeSet, accepted: seq<ChangeSet>, r: ChangeSet) {
    exists chain :: RebaseChain(chain, accepted) && chain[0] == changes && chain[|accepted|] == r
  }

  /**
    The rebase loop. An operation made for the length of a retained revision
    can always be rebased to the current revision.
  */
  method Rebase(d: Document, changes: ChangeSet, version: int) returns (r: Result<ChangeSet>)
    requires Coherent(d) && d.compacted <= version <= d.revision
    requires OldLen(changes) == LengthAt(d, version)
    ensures r.Ok? && OldLen(r.value) == |d.content|
    ensures Rebased(changes, ChangesOf(After(d, version)), r.value)
  {
    hide IsMapped, OldLen, NewLen;
    var current := changes;
    ghost var start := version - d.compacted;
    ghost var chain := [changes];
    ghost var passed := 0;
    for index := 0 to |d.history|
      invariant passed == if index <= start then 0 else index - start
      invariant |chain| == passed + 1 && chain[0] == changes && chain[passed] == current
      invariant forall i :: 0 <= i < passed ==> IsMapped(chain[i + 1], chain[i], d.history[start + i].changes, false)
      invariant OldLen(current) == if start + passed < |d.history|
        then d.history[start + passed].beforeLen else |d.content|
    {
      var accepted := d.history[index];
      assert EntryFits(d.history, index, d.compacted, |d.content|);
      if accepted.revision > version {
        var mapped := Map(current, accepted.changes, false);
        if mapped.Err? {
          return Err;
        }
        MappedFits(mapped.value, current, accepted.changes, false);
        current := mapped.value;
        chain, passed := chain + [current], passed + 1;
      }
    }
    ghost var accepted := ChangesOf(After(d, version));
    assert RebaseChain(chain, accepted) by {
      assert |accepted| == passed;
    }
    r := Ok(current);
  }

  // ----- Pruning -----

  lemma BytesTail(history: seq<Entry>)
    requires history != []
    ensures Bytes(history) == history[0].bytes + Bytes(history[1..])
  {
  }

  lemma {:induction false} BytesConcat(history: seq<Entry>, more: seq<Entry>)
    ensures Bytes(history + more) == Bytes(history) + Bytes(more)
    decreases |history|
  {
    if history == [] {
      assert history + more == more;
    } else {
      BytesConcat(history[1..], more);
      assert (history + more)[1..] == history[1..] + more;
    }
  }

  /** Drops the oldest edits until the history fits, and no more; what stays is still exactly the newest revisions. */
  method PruneHistory(d: Document, maxRows: nat, maxBytes: nat) returns (r: Document)
    requires d.revision >= 0 && d.historyBytes == Bytes(d.history)
    requires Consecutive(d.history, d.revision - |d.history|, |d.content|) && |d.history| <= d.revision
    ensures Coherent(r) && Bounded(r, maxRows, maxBytes)
    ensures r == d.(history := r.history, historyBytes := r.historyBytes, compacted := r.compacted)
    ensures |r.history| <= |d.history| && r.history == d.history[|d.history| - |r.history|..]
    ensures Bounded(d, maxRows, maxBytes) ==> r.history == d.history
    ensures |r.history| < |d.history| ==>
      |r.history| + 1 > maxRows || Bytes(d.history[|d.history| - |r.history| - 1..]) > maxBytes
  {
    var history, bytes := d.history, d.historyBytes;
    ghost var dropped := 0;
    assert d.history[0..] == d.history;
    while |history| > maxRows || bytes > maxBytes
      invariant 0 <= dropped <= |d.history| && history == d.history[dropped..]
      invariant bytes == Bytes(history)
      invariant Bounded(d, maxRows, maxBytes) ==> dropped == 0
      invariant dropped > 0 ==> |history| + 1 > maxRows || Bytes(d.history[dropped - 1..]) > maxBytes
      decreases |history|
    {
      if |history| == 0 {
        break;
      }
      BytesTail(history);
      assert d.history[dropped..] == history;
      bytes := bytes - history[0].bytes;
      history := history[1..];
      dropped := dropped + 1;
    }
    var compacted := if |history| > 0 then history[0].baseVersion else d.revision;
    r := d.(history := history, historyBytes := bytes, compacted := compacted);
    ConsecutiveSuffix(d.history, dropped, d.revision - |d.history|, |d.content|);
    if |history| > 0 {
      assert EntryFits(history, 0, d.revision - |history|, |d.content|);
    }
  }

  // ----- The next revision -----

  /** The document after accepting `changes` as its next revision, before any pruning. */
  ghost function Extended(d: Document, entry: Entry, content: Text): Document {
    d.(content := content, revision := d.revision + 1, history := d.history + [entry],
      historyBytes := d.historyBytes + entry.bytes)
  }

  lemma ExtendedCoherent(d: Document, entry: Entry, content: Text)
    requires Coherent(d)
    requires OldLen(entry.changes) == entry.beforeLen == |d.content| && NewLen(entry.changes) == |content|
    requires entry.revision == d.revision + 1 && entry.baseVersion == d.revision
    ensures Coherent(Extended(d, entry, content))
  {
    BytesConcat(d.history, [entry]);
    assert Bytes([entry]) == entry.bytes;
    var e := Extended(d, entry, content);
    forall i | 0 <= i < |e.history|
      ensures EntryFits(e.history, i, d.compacted, |content|)
    {
      if i < |d.history| {
        assert EntryFits(d.history, i, d.compacted, |d.content|);
      }
    }
  }
}
