/** Lists without repeated elements, as the tab order of a room is one. */
module Sequences {

  ghost predicate NoDuplicates<T(!new)>(s: seq<T>) {
    forall i, j :: 0 <= i < j < |s| ==> s[i] != s[j]
  }

  ghost function Elements<T>(s: seq<T>): set<T> {
    set x | x in s
  }

  /** The list without the first occurrence of `x`. */
  function Without<T(==)>(s: seq<T>, x: T): seq<T> {
    if s == [] then [] else if s[0] == x then s[1..] else [s[0]] + Without(s[1..], x)
  }

  lemma {:induction false} WithoutFacts<T(!new)>(s: seq<T>, x: T)
    requires NoDuplicates(s)
    ensures NoDuplicates(Without(s, x))
    ensures forall y :: y in Without(s, x) <==> y in s && y != x
    ensures |Without(s, x)| == if x in s then |s| - 1 else |s|
    decreases |s|
  {
    if s != [] {
      var rest := s[1..];
      assert forall y :: y in s <==> y == s[0] || y in rest;
      WithoutFacts(rest, x);
      if s[0] != x {
        var w := Without(rest, x);
        assert s[0] !in w;
      }
    }
  }

  /** Cutting out the first occurrence, found at `i`. */
  lemma {:induction false} WithoutAt<T(!new)>(s: seq<T>, i: nat, x: T)
    requires i < |s| && s[i] == x && x !in s[..i]
    ensures Without(s, x) == s[..i] + s[i + 1..]
    decreases i
  {
    if i > 0 {
      assert s[0] in s[..i];
      assert forall y :: y in s[1..][..i - 1] ==> y in s[..i];
      WithoutAt(s[1..], i - 1, x);
      assert [s[0]] + (s[1..][..i - 1] + s[1..][i..]) == s[..i] + s[i + 1..];
    }
  }

  lemma {:induction false} WithoutAbsent<T(!new)>(s: seq<T>, x: T)
    requires x !in s
    ensures Without(s, x) == s
    decreases |s|
  {
    if s != [] {
      WithoutAbsent(s[1..], x);
    }
  }

  /** The index of an element. */
  ghost function IndexIn<T(!new)>(s: seq<T>, x: T): (i: nat)
    requires x in s
    ensures i < |s| && s[i] == x
  {
    var i :| 0 <= i < |s| && s[i] == x; i
  }

  lemma ElementsSize<T(!new)>(s: seq<T>)
    requires NoDuplicates(s)
    ensures |Elements(s)| == |s|
    decreases |s|
  {
    if s != [] {
      var rest := s[1..];
      ElementsSize(rest);
      assert Elements(s) == {s[0]} + Elements(rest);
      assert s[0] !in rest;
    } else {
      assert Elements(s) == {};
    }
  }

  /** Pigeonhole: a list without repetitions, as long as a set and inside it, covers the set. */
  lemma Covers<T(!new)>(s: seq<T>, all: set<T>)
    requires NoDuplicates(s) && |s| == |all|
    requires forall x :: x in s ==> x in all
    ensures Elements(s) == all
  {
    ElementsSize(s);
    SubsetOfEqualSize(Elements(s), all);
  }

  lemma SubsetOfEqualSize<T>(a: set<T>, b: set<T>)
    requires a <= b && |a| == |b|
    ensures a == b
  {
    assert b == a + (b - a);
    assert |b - a| == 0;
  }

  // ----- Sums over a list -----

  ghost function Sum<T>(s: seq<T>, weight: map<T, nat>): nat
    requires forall x :: x in s ==> x in weight
  {
    if s == [] then 0 else weight[s[0]] + Sum(s[1..], weight)
  }

  lemma {:induction false} SumAppend<T>(s: seq<T>, t: seq<T>, weight: map<T, nat>)
    requires forall x :: x in s + t ==> x in weight
    ensures (forall x :: x in s ==> x in weight) && (forall x :: x in t ==> x in weight)
    ensures Sum(s + t, weight) == Sum(s, weight) + Sum(t, weight)
    decreases |s|
  {
    assert forall x :: x in s ==> x in s + t;
    assert forall x :: x in t ==> x in s + t;
    if s == [] {
      assert s + t == t;
    } else {
      assert (s + t)[1..] == s[1..] + t;
      SumAppend(s[1..], t, weight);
    }
  }

  /** Removing an element removes its weight. */
  lemma {:induction false} SumWithout<T(!new)>(s: seq<T>, x: T, weight: map<T, nat>)
    requires x in s && forall y :: y in s ==> y in weight
    ensures forall y :: y in Without(s, x) ==> y in weight
    ensures Sum(s, weight) == weight[x] + Sum(Without(s, x), weight)
    decreases |s|
  {
    if s[0] == x {
      assert forall y :: y in s[1..] ==> y in s;
    } else {
      SumWithout(s[1..], x, weight);
      var w := [s[0]] + Without(s[1..], x);
      assert w[1..] == Without(s[1..], x);
      forall y | y in w
        ensures y in weight
      {
      }
    }
  }

  /** The sum does not depend on the order. */
  lemma {:induction false} SumPermuted<T(!new)>(s: seq<T>, t: seq<T>, weight: map<T, nat>)
    requires NoDuplicates(s) && NoDuplicates(t) && Elements(s) == Elements(t)
    requires forall x :: x in s ==> x in weight
    ensures forall x :: x in t ==> x in weight
    ensures Sum(s, weight) == Sum(t, weight)
    decreases |s|
  {
    assert forall x :: x in t ==> x in Elements(t);
    assert forall x :: x in s ==> x in Elements(s);
    if s == [] {
      ElementsSize(t);
      assert Elements(s) == {};
    } else {
      var x, rest := s[0], s[1..];
      assert x in Elements(s);
      assert x in t;
      WithoutFacts(t, x);
      assert x !in rest;
      assert Elements(rest) == Elements(Without(t, x)) by {
        assert forall y :: y in rest <==> y in s && y != x;
      }
      SumWithout(t, x, weight);
      SumPermuted(rest, Without(t, x), weight);
    }
  }

  /** Weights outside the list do not matter; one changed weight changes the sum by the difference. */
  lemma {:induction false} SumUpdated<T(!new)>(s: seq<T>, weight: map<T, nat>, x: T, w: nat)
    requires NoDuplicates(s) && forall y :: y in s ==> y in weight
    ensures forall y :: y in s ==> y in weight[x := w]
    ensures x !in s ==> Sum(s, weight[x := w]) == Sum(s, weight)
    ensures x in s ==> Sum(s, weight[x := w]) + weight[x] == Sum(s, weight) + w
    decreases |s|
  {
    if s != [] {
      var rest := s[1..];
      assert forall y :: y in s <==> y == s[0] || y in rest;
      assert s[0] !in rest;
      SumUpdated(rest, weight, x, w);
    }
  }
}
