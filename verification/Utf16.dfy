/**
  Texts as sequences of UTF-16 code units (section 2 of RFC 2781), the unit in
  which every position and length of a change set is measured.
*/
module Utf16 {

  type Unit = u: int | 0 <= u < 0x10000

  type Text = seq<Unit>

  const REPLACEMENT: Unit := 0xFFFD
  const NEWLINE: Unit := 0x0A

  predicate IsHigh(u: Unit) { 0xD800 <= u < 0xDC00 }

  predicate IsLow(u: Unit) { 0xDC00 <= u < 0xE000 }

  predicate IsSurrogate(u: Unit) { 0xD800 <= u < 0xE000 }

  /** Unit `i` is half of a surrogate pair of `s`. */
  predicate Paired(s: Text, i: nat)
    requires i < |s|
  {
    || (IsHigh(s[i]) && i + 1 < |s| && IsLow(s[i + 1]))
    || (IsLow(s[i]) && i > 0 && IsHigh(s[i - 1]))
  }

  /** A surrogate of `s` outside any pair. */
  predicate Lone(s: Text, i: nat)
    requires i < |s|
  {
    IsSurrogate(s[i]) && !Paired(s, i)
  }

  /** No lone surrogate: the texts a Go string can hold. */
  ghost predicate WellFormed(s: Text) {
    forall i :: 0 <= i < |s| ==> !Lone(s, i)
  }

  /** Decoding to Go's runes and encoding again: each lone surrogate becomes U+FFFD. */
  function Repaired(s: Text): (r: Text)
    ensures |r| == |s|
  {
    seq(|s|, i requires 0 <= i < |s| => if Lone(s, i) then REPLACEMENT else s[i])
  }

  /** Repairing changes nothing exactly on well-formed texts, and always yields one. */
  lemma RepairedIsWellFormed(s: Text)
    ensures WellFormed(Repaired(s))
    ensures Repaired(s) == s <==> WellFormed(s)
  {
    var r := Repaired(s);
    forall i | 0 <= i < |r|
      ensures !Lone(r, i)
    {
      if !Lone(s, i) && IsHigh(s[i]) {
        assert Paired(s, i + 1);
      }
      if !Lone(s, i) && IsLow(s[i]) {
        assert Paired(s, i - 1);
      }
    }
    if r == s {
      forall i | 0 <= i < |s|
        ensures !Lone(s, i)
      {
        assert r[i] == s[i];
      }
    }
  }

  /** Bytes of a unit in UTF-8; the halves of a surrogate pair share the four bytes of their character. */
  function UnitBytes(u: Unit): nat {
    if u < 0x80 then 1 else if u < 0x800 || IsSurrogate(u) then 2 else 3
  }

  /** Bytes of a well-formed text in UTF-8. */
  function Utf8Bytes(s: Text): nat {
    if s == [] then 0 else UnitBytes(s[0]) + Utf8Bytes(s[1..])
  }
}
