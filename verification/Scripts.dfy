/**
  Edit scripts: the meaning of a change set, unit by unit.

  A `Script` walks a document from left to right. `Keep` and `Drop` consume one
  unit each; `Put` inserts a text in front of the units that follow and
  remembers how many units its section replaces (`width`), because the mapping
  of one change set over another orders insertions at one offset by that width.

  Everything is generic in the unit type `T`: no definition looks at a unit.
*/
module Scripts {

  datatype Script<T> =
    | End
    | Keep(rest: Script<T>)
    | Drop(rest: Script<T>)
    | Put(text: seq<T>, width: int, rest: Script<T>)

  /** One effect on a document, with insertions split into single units. */
  datatype Edit<T> = Retain | Remove | Add(unit: T)

  /** How many document units a script consumes. */
  ghost function Span<T>(s: Script<T>): nat {
    match s
    case End => 0
    case Keep(rest) => 1 + Span(rest)
    case Drop(rest) => 1 + Span(rest)
    case Put(_, _, rest) => Span(rest)
  }

  ghost function Size<T>(s: Script<T>): nat {
    match s
    case End => 0
    case Keep(rest) => 1 + Size(rest)
    case Drop(rest) => 1 + Size(rest)
    case Put(_, _, rest) => 1 + Size(rest)
  }

  /** The document a script produces. */
  ghost function Run<T>(s: Script<T>, doc: seq<T>): (r: seq<T>)
    requires Span(s) == |doc|
    decreases s
  {
    match s
    case End => []
    case Keep(rest) => [doc[0]] + Run(rest, doc[1..])
    case Drop(rest) => Run(rest, doc[1..])
    case Put(text, _, rest) => text + Run(rest, doc)
  }

  ghost function EditSpan<T>(e: seq<Edit<T>>): nat {
    if e == [] then 0 else (if e[0].Add? then 0 else 1) + EditSpan(e[1..])
  }

  /** The document an edit sequence produces. */
  ghost function Play<T>(e: seq<Edit<T>>, doc: seq<T>): (r: seq<T>)
    requires EditSpan(e) == |doc|
    decreases |e|
  {
    if e == [] then []
    else match e[0]
      case Retain => [doc[0]] + Play(e[1..], doc[1..])
      case Remove => Play(e[1..], doc[1..])
      case Add(unit) => [unit] + Play(e[1..], doc)
  }

  ghost function Adds<T>(text: seq<T>): (e: seq<Edit<T>>)
    ensures |e| == |text|
  {
    seq(|text|, i requires 0 <= i < |text| => Add(text[i]))
  }

  ghost function Retains<T>(n: nat): (e: seq<Edit<T>>)
    ensures |e| == n
  {
    seq(n, _ => Retain)
  }

  ghost function Removes<T>(n: nat): (e: seq<Edit<T>>)
    ensures |e| == n
  {
    seq(n, _ => Remove)
  }

  /** `n` kept units in front of a script. */
  ghost function Keeps<T>(n: nat, s: Script<T>): Script<T> {
    if n == 0 then s else Keep(Keeps(n - 1, s))
  }

  /** `n` dropped units in front of a script. */
  ghost function Drops<T>(n: nat, s: Script<T>): Script<T> {
    if n == 0 then s else Drop(Drops(n - 1, s))
  }

  /** Widths of replaced ranges are never negative in a change set's script. */
  ghost predicate Widths<T>(s: Script<T>) {
    match s
    case End => true
    case Keep(rest) => Widths(rest)
    case Drop(rest) => Widths(rest)
    case Put(_, width, rest) => width >= 0 && Widths(rest)
  }

  /**
    The order of two insertions at one offset: the narrower replacement first,
    and on equal widths the one favoured by `tie`.
  */
  ghost predicate GoesFirst<T>(a: Script<T>, b: Script<T>, tie: bool)
    requires a.Put?
  {
    !b.Put? || a.width < b.width || (a.width == b.width && tie)
  }

  /**
    The canonical merge of two concurrent scripts: a unit survives when both
    keep it, every inserted text appears once, and texts inserted at one offset
    are ordered by width with `a` first on ties.
  */
  ghost function Merge<T>(a: Script<T>, b: Script<T>, doc: seq<T>): (r: seq<T>)
    requires Span(a) == Span(b) == |doc|
    decreases Size(a) + Size(b)
  {
    if a.Put? && GoesFirst(a, b, true) then a.text + Merge(a.rest, b, doc)
    else if b.Put? then b.text + Merge(a, b.rest, doc)
    else if a.End? then []
    else (if a.Keep? && b.Keep? then [doc[0]] else []) + Merge(a.rest, b.rest, doc[1..])
  }

  /**
    The edits of `a` rewritten to apply after `b`: text put in by `b` is kept,
    units dropped by `b` are no longer there, and `a`'s own effects remain.
  */
  ghost function Mapped<T>(a: Script<T>, b: Script<T>, before: bool): (e: seq<Edit<T>>)
    requires Span(a) == Span(b)
    decreases Size(a) + Size(b)
  {
    if a.Put? && GoesFirst(a, b, before) then Adds(a.text) + Mapped(a.rest, b, before)
    else if b.Put? then Retains(|b.text|) + Mapped(a, b.rest, before)
    else if a.End? then []
    else
      (if b.Drop? then [] else if a.Keep? then [Retain] else [Remove])
      + Mapped(a.rest, b.rest, before)
  }

  // ----- Edit sequences -----

  lemma Associative<T>(e: seq<T>, f: seq<T>, g: seq<T>)
    ensures (e + f) + g == e + (f + g)
  {
  }

  lemma {:induction false} EditSpanConcat<T>(e: seq<Edit<T>>, f: seq<Edit<T>>)
    ensures EditSpan(e + f) == EditSpan(e) + EditSpan(f)
  {
    if e == [] {
      assert e + f == f;
    } else {
      EditSpanConcat(e[1..], f);
      assert (e + f)[1..] == e[1..] + f;
    }
  }

  lemma {:induction false} PlayConcat<T>(e: seq<Edit<T>>, f: seq<Edit<T>>, c: seq<T>, d: seq<T>)
    requires EditSpan(e) == |c| && EditSpan(f) == |d|
    ensures EditSpan(e + f) == |c + d|
    ensures Play(e + f, c + d) == Play(e, c) + Play(f, d)
    decreases |e|
  {
    EditSpanConcat(e, f);
    if e == [] {
      assert e + f == f && c + d == d;
    } else {
      TailOfSum(e, f);
      if e[0].Add? {
        PlayConcat(e[1..], f, c, d);
        Associative([e[0].unit], Play(e[1..], c), Play(f, d));
      } else {
        TailOfSum(c, d);
        PlayConcat(e[1..], f, c[1..], d);
        Associative([c[0]], Play(e[1..], c[1..]), Play(f, d));
      }
    }
  }

  lemma TailOfSum<T>(e: seq<T>, f: seq<T>)
    requires e != []
    ensures (e + f)[0] == e[0] && (e + f)[1..] == e[1..] + f
  {
  }

  lemma {:induction false} PlayAdds<T>(text: seq<T>)
    ensures EditSpan(Adds(text)) == 0
    ensures Play(Adds(text), []) == text
    decreases |text|
  {
    if text != [] {
      PlayAdds(text[1..]);
      assert Adds(text)[1..] == Adds(text[1..]);
    }
  }

  lemma {:induction false} PlayRetains<T>(doc: seq<T>)
    ensures EditSpan<T>(Retains(|doc|)) == |doc|
    ensures Play(Retains(|doc|), doc) == doc
    decreases |doc|
  {
    if doc != [] {
      PlayRetains(doc[1..]);
      assert Retains<T>(|doc|)[1..] == Retains<T>(|doc[1..]|);
    }
  }

  lemma {:induction false} PlayRemoves<T>(doc: seq<T>)
    ensures EditSpan<T>(Removes(|doc|)) == |doc|
    ensures Play(Removes(|doc|), doc) == []
    decreases |doc|
  {
    if doc != [] {
      PlayRemoves(doc[1..]);
      assert Removes<T>(|doc|)[1..] == Removes<T>(|doc[1..]|);
    }
  }

  lemma PlayAfterAdds<T>(text: seq<T>, e: seq<Edit<T>>, doc: seq<T>)
    requires EditSpan(e) == |doc|
    ensures EditSpan(Adds(text) + e) == |doc|
    ensures Play(Adds(text) + e, doc) == text + Play(e, doc)
  {
    PlayAdds(text);
    PlayConcat(Adds(text), e, [], doc);
    assert [] + doc == doc;
  }

  lemma PlayAfterRetains<T>(text: seq<T>, e: seq<Edit<T>>, doc: seq<T>)
    requires EditSpan(e) == |doc|
    ensures EditSpan(Retains(|text|) + e) == |text + doc|
    ensures Play(Retains(|text|) + e, text + doc) == text + Play(e, doc)
  {
    PlayRetains(text);
    PlayConcat(Retains(|text|), e, text, doc);
  }

  lemma PlayAfterOne<T>(one: Edit<T>, e: seq<Edit<T>>, u: T, doc: seq<T>)
    requires EditSpan(e) == |doc| && !one.Add?
    ensures EditSpan([one] + e) == |[u] + doc|
    ensures Play([one] + e, [u] + doc) == (if one.Retain? then [u] else []) + Play(e, doc)
  {
    assert ([one] + e)[1..] == e;
    assert ([u] + doc)[1..] == doc;
  }

  // ----- Convergence -----

  /** Playing `a` mapped over `b` on `b`'s output is the canonical merge. */
  lemma {:induction false} FirstMappedIsMerge<T>(a: Script<T>, b: Script<T>, doc: seq<T>)
    requires Span(a) == Span(b) == |doc|
    ensures EditSpan(Mapped(a, b, true)) == |Run(b, doc)|
    ensures Play(Mapped(a, b, true), Run(b, doc)) == Merge(a, b, doc)
    decreases Size(a) + Size(b)
  {
    if a.Put? && GoesFirst(a, b, true) {
      FirstMappedIsMerge(a.rest, b, doc);
      PlayAfterAdds(a.text, Mapped(a.rest, b, true), Run(b, doc));
    } else if b.Put? {
      FirstMappedIsMerge(a, b.rest, doc);
      PlayAfterRetains(b.text, Mapped(a, b.rest, true), Run(b.rest, doc));
    } else if !a.End? {
      FirstMappedIsMerge(a.rest, b.rest, doc[1..]);
      var rest := Mapped(a.rest, b.rest, true);
      if b.Drop? {
        assert [] + rest == rest;
      } else {
        PlayAfterOne(if a.Keep? then Retain else Remove, rest, doc[0], Run(b.rest, doc[1..]));
      }
    }
  }

  /** Playing `b` mapped over `a` on `a`'s output is the same canonical merge. */
  lemma {:induction false} SecondMappedIsMerge<T>(a: Script<T>, b: Script<T>, doc: seq<T>)
    requires Span(a) == Span(b) == |doc|
    ensures EditSpan(Mapped(b, a, false)) == |Run(a, doc)|
    ensures Play(Mapped(b, a, false), Run(a, doc)) == Merge(a, b, doc)
    decreases Size(a) + Size(b)
  {
    if a.Put? && GoesFirst(a, b, true) {
      SecondMappedIsMerge(a.rest, b, doc);
      PlayAfterRetains(a.text, Mapped(b, a.rest, false), Run(a.rest, doc));
    } else if b.Put? {
      SecondMappedIsMerge(a, b.rest, doc);
      PlayAfterAdds(b.text, Mapped(b.rest, a, false), Run(a, doc));
    } else if !a.End? {
      SecondMappedIsMerge(a.rest, b.rest, doc[1..]);
      var rest := Mapped(b.rest, a.rest, false);
      if a.Drop? {
        assert [] + rest == rest;
      } else {
        PlayAfterOne(if b.Keep? then Retain else Remove, rest, doc[0], Run(a.rest, doc[1..]));
      }
    }
  }

  // ----- Runs of equal steps -----

  lemma {:induction false} KeepsFacts<T>(n: nat, s: Script<T>)
    ensures Span(Keeps(n, s)) == n + Span(s)
    ensures Size(Keeps(n, s)) == n + Size(s)
    ensures Widths(Keeps(n, s)) == Widths(s)
    decreases n
  {
    if n > 0 {
      KeepsFacts(n - 1, s);
    }
  }

  lemma {:induction false} DropsFacts<T>(n: nat, s: Script<T>)
    ensures Span(Drops(n, s)) == n + Span(s)
    ensures Size(Drops(n, s)) == n + Size(s)
    ensures Widths(Drops(n, s)) == Widths(s)
    decreases n
  {
    if n > 0 {
      DropsFacts(n - 1, s);
    }
  }

  lemma {:induction false} KeepsSplit<T>(m: nat, n: nat, s: Script<T>)
    ensures Keeps(m + n, s) == Keeps(m, Keeps(n, s))
    decreases m
  {
    if m > 0 {
      KeepsSplit(m - 1, n, s);
    }
  }

  lemma {:induction false} DropsSplit<T>(m: nat, n: nat, s: Script<T>)
    ensures Drops(m + n, s) == Drops(m, Drops(n, s))
    decreases m
  {
    if m > 0 {
      DropsSplit(m - 1, n, s);
    }
  }

  lemma OneFurther<T>(doc: seq<T>, n: nat)
    requires 0 < n <= |doc|
    ensures doc[1..][n - 1..] == doc[n..]
    ensures [doc[0]] + doc[1..][..n - 1] == doc[..n]
  {
  }

  lemma {:induction false} RunKeeps<T>(n: nat, rest: Script<T>, doc: seq<T>)
    requires Span(rest) + n == |doc|
    ensures Span(Keeps(n, rest)) == |doc|
    ensures Run(Keeps(n, rest), doc) == doc[..n] + Run(rest, doc[n..])
    decreases n
  {
    KeepsFacts(n, rest);
    if n == 0 {
      assert doc[0..] == doc && doc[..0] == [];
    } else {
      RunKeeps(n - 1, rest, doc[1..]);
      OneFurther(doc, n);
      assert Run(Keeps(n, rest), doc) == [doc[0]] + Run(Keeps(n - 1, rest), doc[1..]);
      hide Run, Keeps, Span;
      Associative([doc[0]], doc[1..][..n - 1], Run(rest, doc[n..]));
    }
  }

  lemma {:induction false} RunDrops<T>(n: nat, rest: Script<T>, doc: seq<T>)
    requires Span(rest) + n == |doc|
    ensures Span(Drops(n, rest)) == |doc|
    ensures Run(Drops(n, rest), doc) == Run(rest, doc[n..])
    decreases n
  {
    DropsFacts(n, rest);
    if n == 0 {
      assert doc[0..] == doc;
    } else {
      RunDrops(n - 1, rest, doc[1..]);
      assert doc[1..][n - 1..] == doc[n..];
    }
  }

  lemma {:induction false} MappedKeepKeep<T>(n: nat, a: Script<T>, b: Script<T>, before: bool)
    requires Span(a) == Span(b)
    ensures Span(Keeps(n, a)) == Span(Keeps(n, b))
    ensures Mapped(Keeps(n, a), Keeps(n, b), before) == Retains(n) + Mapped(a, b, before)
    decreases n
  {
    KeepsFacts(n, a);
    KeepsFacts(n, b);
    if n == 0 {
      assert Retains(0) + Mapped(a, b, before) == Mapped(a, b, before);
    } else {
      MappedKeepKeep(n - 1, a, b, before);
      var rest := Mapped(a, b, before);
      assert Mapped(Keeps(n, a), Keeps(n, b), before) == [Retain] + Mapped(Keeps(n - 1, a), Keeps(n - 1, b), before);
      hide Mapped, Keeps, Span;
      assert [Retain] + Retains<T>(n - 1) == Retains(n);
      Associative([Retain], Retains(n - 1), rest);
    }
  }

  lemma {:induction false} MappedDropKeep<T>(n: nat, a: Script<T>, b: Script<T>, before: bool)
    requires Span(a) == Span(b)
    ensures Span(Drops(n, a)) == Span(Keeps(n, b))
    ensures Mapped(Drops(n, a), Keeps(n, b), before) == Removes(n) + Mapped(a, b, before)
    decreases n
  {
    DropsFacts(n, a);
    KeepsFacts(n, b);
    if n == 0 {
      assert Removes(0) + Mapped(a, b, before) == Mapped(a, b, before);
    } else {
      MappedDropKeep(n - 1, a, b, before);
      var rest := Mapped(a, b, before);
      assert Mapped(Drops(n, a), Keeps(n, b), before) == [Remove] + Mapped(Drops(n - 1, a), Keeps(n - 1, b), before);
      hide Mapped, Keeps, Drops, Span;
      assert [Remove] + Removes<T>(n - 1) == Removes(n);
      Associative([Remove], Removes(n - 1), rest);
    }
  }

  /** Units dropped by `b` leave no trace in `a`'s mapped edits. */
  lemma {:induction false} MappedUnderDrops<T>(n: nat, a: Script<T>, b: Script<T>, before: bool)
    requires Span(a) == Span(b)
    ensures Span(Keeps(n, a)) == Span(Drops(n, a)) == Span(Drops(n, b))
    ensures Mapped(Keeps(n, a), Drops(n, b), before) == Mapped(a, b, before)
    ensures Mapped(Drops(n, a), Drops(n, b), before) == Mapped(a, b, before)
    decreases n
  {
    KeepsFacts(n, a);
    DropsFacts(n, a);
    DropsFacts(n, b);
    if n > 0 {
      MappedUnderDrops(n - 1, a, b, before);
      assert [] + Mapped(a, b, before) == Mapped(a, b, before);
    }
  }
}
