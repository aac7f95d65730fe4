/**
  Loading a document from its snapshot row and the persisted log that follows
  it, through the persisted encoding.
*/
module Replay {
  import opened Utf16
  import opened ChangeSets
  import opened Mapping
  import opened Surrogates
  import opened Encoding
  import opened Histories

  /** A persisted change: its revision, its payload and the payload's size. */
  datatype LogRow = LogRow(revision: int, parts: seq<Json>, bytes: nat)

  /** `texts` are the stored texts that `changes` lead through, as live editing keeps them. */
  ghost predicate Edited(texts: seq<Text>, changes: seq<ChangeSet>) {
    |texts| == |changes| + 1
    && forall i :: 0 <= i < |changes| ==> StoredStep(changes[i], texts[i], texts[i + 1])
  }

  ghost predicate StoredStep(changes: ChangeSet, before: Text, after: Text) {
    OldLen(changes) == |before| && Stored(changes, before) == after
  }

  /** `log` persists `changes` as the revisions after `base`. */
  ghost predicate Persisted(log: seq<LogRow>, changes: seq<ChangeSet>, base: int) {
    |log| == |changes|
    && forall i :: 0 <= i < |log| ==> PersistedRow(log[i], changes[i], base + i + 1)
  }

  ghost predicate PersistedRow(row: LogRow, changes: ChangeSet, revision: int) {
    row.revision == revision && |row.parts| == |changes|
    && forall i :: 0 <= i < |changes| ==> row.parts[i] == EncodedSection(changes[i])
  }

  /** The log persists exactly what live editing accepted between the snapshot and `target`. */
  ghost predicate LiveLog(
      snapshot: Document, target: int, log: seq<LogRow>, texts: seq<Text>, changes: seq<ChangeSet>) {
    && Edited(texts, changes) && texts[0] == snapshot.content
    && Persisted(log, changes, snapshot.revision)
    && target == snapshot.revision + |changes|
  }

  /** The retained entries are the newest of the log. */
  ghost predicate NewestOf(history: seq<Entry>, changes: seq<ChangeSet>) {
    |history| <= |changes| && ChangesOf(history) == changes[|changes| - |history|..]
  }

  /** One persisted change applied to the loaded document. */
  method ApplyPersisted(d: Document, row: LogRow, maxRows: nat, maxBytes: nat) returns (r: Result<Document>)
    requires Coherent(d)
    ensures r.Ok? ==>
      && row.revision == d.revision + 1 == r.value.revision
      && Coherent(r.value) && Bounded(r.value, maxRows, maxBytes)
      && r.value.name == d.name && r.value.language == d.language
    ensures row.revision == d.revision + 1 ==>
      Parsed(row.parts).Ok? && OldLen(Parsed(row.parts).value) == |d.content| ==>
      var changes := Parsed(row.parts).value;
      && r.Ok?
      && r.value.content == Stored(changes, d.content)
      && (r.value.history == [] || (|r.value.history| <= |d.history| + 1
           && ChangesOf(r.value.history) == (ChangesOf(d.history) + [changes])[|d.history| + 1 - |r.value.history|..]))
  {
    hide Parsed, Applied, ChangesOf;
    var parsed := Parse(row.parts);
    if parsed.Err? {
      return Err;
    }
    var changes := parsed.value;
    if row.revision != d.revision + 1 {
      return Err;
    }
    var applied := Apply(changes, d.content);
    if applied.Err? {
      return Err;
    }
    AppliedLength(changes, d.content);
    var entry := Entry("", "", row.revision, d.revision, |d.content|, row.bytes, changes);
    ExtendedCoherent(d, entry, applied.value);
    var extended := d.(
      content := applied.value, revision := row.revision,
      history := d.history + [entry], historyBytes := d.historyBytes + row.bytes);
    var pruned := PruneHistory(extended, maxRows, maxBytes);
    NewestChanges(d.history, entry, pruned.history);
    r := Ok(pruned);
  }

  lemma NewestChanges(history: seq<Entry>, entry: Entry, kept: seq<Entry>)
    requires |kept| <= |history| + 1 && kept == (history + [entry])[|history| + 1 - |kept|..]
    ensures ChangesOf(kept) == (ChangesOf(history) + [entry.changes])[|history| + 1 - |kept|..]
  {
    assert ChangesOf(history + [entry]) == ChangesOf(history) + [entry.changes];
  }

  /**
    Replays a log on a snapshot row, up to the revision the row declares. A log
    that persists what live editing accepted rebuilds the live text, the current
    revision and a coherent history made of the newest changes; any other log
    either fails or still leaves a coherent document at the declared revision.
  */
  method ReplayDocument(snapshot: Document, target: int, log: seq<LogRow>, maxRows: nat, maxBytes: nat,
                        ghost texts: seq<Text>, ghost changes: seq<ChangeSet>)
      returns (r: Result<Document>)
    requires snapshot.history == [] && snapshot.historyBytes == 0 && snapshot.compacted == snapshot.revision >= 0
    ensures r.Ok? ==>
      && r.value.revision == target && Coherent(r.value) && Bounded(r.value, maxRows, maxBytes)
      && r.value.name == snapshot.name && r.value.language == snapshot.language
    ensures LiveLog(snapshot, target, log, texts, changes) ==>
      && r.Ok?
      && r.value.content == texts[|changes|]
      && NewestOf(r.value.history, changes)
  {
    var d := snapshot;
    ghost var live := LiveLog(snapshot, target, log, texts, changes);
    for index := 0 to |log|
      invariant Coherent(d) && Bounded(d, maxRows, maxBytes) && d.revision == snapshot.revision + index
      invariant d.name == snapshot.name && d.language == snapshot.language
      invariant live ==> d.content == texts[index] && NewestOf(d.history, changes[..index])
    {
      if live {
        assert PersistedRow(log[index], changes[index], snapshot.revision + index + 1);
        assert StoredStep(changes[index], texts[index], texts[index + 1]);
        RoundTrip(changes[index], log[index].parts);
        assert changes[..index + 1] == changes[..index] + [changes[index]];
      }
      ghost var before := d;
      var applied := ApplyPersisted(d, log[index], maxRows, maxBytes);
      if applied.Err? {
        return Err;
      }
      d := applied.value;
      if live {
        NewestGrows(before.history, d.history, changes[..index], changes[index]);
      }
    }
    if live {
      assert changes[..|log|] == changes;
    }
    if d.revision != target {
      return Err;
    }
    r := Ok(d);
  }

  lemma NewestGrows(before: seq<Entry>, after: seq<Entry>, changes: seq<ChangeSet>, last: ChangeSet)
    requires NewestOf(before, changes)
    requires after == [] || (|after| <= |before| + 1
      && ChangesOf(after) == (ChangesOf(before) + [last])[|before| + 1 - |after|..])
    ensures NewestOf(after, changes + [last])
  {
  }
}
