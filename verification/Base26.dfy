/**
 Device name suffixes (lib/vdsm/common/base26.py): bijective base 26 over the
 letters a to z.
 */
module Base26 {
  import opened Options

  function Letter(k: nat): char
    requires k < 26
  {
    ('a' as int + k) as char
  }

  predicate IsLetter(c: char) { 'a' <= c <= 'z' }

  predicate IsName(s: string) { forall i :: 0 <= i < |s| ==> IsLetter(s[i]) }

  function Digit(c: char): int { c as int - 'a' as int + 1 }

  function Pow26(n: nat): nat { if n == 0 then 1 else 26 * Pow26(n - 1) }

  /** The number a name stands for, most significant letter first; the empty name stands for 0. */
  function Value(s: string): int {
    if s == [] then 0 else 26 * Value(s[..|s| - 1]) + Digit(s[|s| - 1])
  }

  function Encode(i: nat): string {
    (if i < 26 then [] else Encode(i / 26 - 1)) + [Letter(i % 26)]
  }

  // ------------------------------------------------------------------ the loops

  lemma EncodeLast(i: nat, value: string)
    ensures Encode(i) + value == (if i < 26 then [] else Encode(i / 26 - 1)) + ([Letter(i % 26)] + value)
  {
  }

  /** A negative index is a ValueError. */
  method EncodeIndex(index: int) returns (r: Option<string>)
    ensures r == if index < 0 then None else Some(Encode(index))
  {
    if index < 0 {
      return None;
    }
    hide Encode;
    var value, i := "", index;
    assert Encode(index) == Encode(index) + value;
    while i >= 0
      invariant -1 <= i
      invariant Encode(index) == (if i >= 0 then Encode(i) else []) + value
      decreases i + 1
    {
      EncodeLast(i, value);
      value := [Letter(i % 26)] + value;
      i := i / 26 - 1;
    }
    assert [] + value == value;
    return Some(value);
  }

  lemma {:induction false} ValuePrepend(c: char, s: string)
    ensures Value([c] + s) == Digit(c) * Pow26(|s|) + Value(s)
  {
    if s == [] {
      assert [c] + s == [c] && [c][..0] == [];
    } else {
      var n := |s| - 1;
      ValuePrepend(c, s[..n]);
      assert ([c] + s)[..|s|] == [c] + s[..n];
      assert 26 * (Digit(c) * Pow26(n)) == Digit(c) * (26 * Pow26(n));
    }
  }

  /** A character outside a to z is a ValueError; the empty name gives -1. */
  method DecodeName(value: string) returns (r: Option<int>)
    ensures r == if IsName(value) then Some(Value(value) - 1) else None
  {
    var index, power, pos := 0, 1, |value|;
    while pos > 0
      invariant 0 <= pos <= |value|
      invariant IsName(value[pos..])
      invariant power == Pow26(|value| - pos)
      invariant index == Value(value[pos..])
    {
      pos := pos - 1;
      var val := value[pos] as int - 'a' as int + 1;
      if val < 1 || val > 26 {
        return None;
      }
      assert value[pos..] == [value[pos]] + value[pos + 1..];
      ValuePrepend(value[pos], value[pos + 1..]);
      index := index + val * power;
      power := 26 * power;
    }
    assert value[0..] == value;
    return Some(index - 1);
  }

  // ---------------------------------------------------------------- the bijection

  lemma {:induction false} DecodeEncode(i: nat)
    ensures IsName(Encode(i)) && Encode(i) != [] && Value(Encode(i)) - 1 == i
  {
    var head := if i < 26 then [] else Encode(i / 26 - 1);
    if i >= 26 {
      DecodeEncode(i / 26 - 1);
    }
    assert Encode(i)[..|Encode(i)| - 1] == head;
    assert Encode(i)[|Encode(i)| - 1] == Letter(i % 26);
    assert Value(head) == i / 26;
  }

  lemma {:induction false} ValuePositive(s: string)
    requires IsName(s) && s != []
    ensures Value(s) >= 1
  {
    if |s| > 1 {
      ValuePositive(s[..|s| - 1]);
    }
  }

  lemma ValueSplit(s: string)
    requires s != []
    ensures var n := |s| - 1; Value(s) == 26 * Value(s[..n]) + Digit(s[n]) && s == s[..n] + [s[n]]
  {
  }

  lemma EncodeSplit(i: nat)
    ensures i < 26 ==> Encode(i) == [Letter(i)]
    ensures i >= 26 ==> Encode(i) == Encode(i / 26 - 1) + [Letter(i % 26)]
  {
  }

  /** The division and the remainder undo one more letter. */
  lemma OneLetterMore(head: int, c: char)
    requires IsLetter(c) && head >= 0
    ensures var i := 26 * head + Digit(c) - 1;
            0 <= i && i / 26 == head && Letter(i % 26) == c
  {
    var k := Digit(c) - 1;
    assert (26 * head + k) / 26 == head && (26 * head + k) % 26 == k;
  }

  lemma {:induction false} EncodeDecode(s: string)
    requires IsName(s) && s != []
    ensures Value(s) >= 1 && Encode(Value(s) - 1) == s
  {
    hide Value, Encode, Digit, Letter;
    var n := |s| - 1;
    ValuePositive(s);
    ValueSplit(s);
    if n == 0 {
      EmptyValue(s[..0]);
    } else {
      ValuePositive(s[..n]);
      EncodeDecode(s[..n]);
    }
    var head := Value(s[..n]);
    OneLetterMore(head, s[n]);
    EncodeSplit(Value(s) - 1);
  }

  lemma EmptyValue(s: string)
    requires s == []
    ensures Value(s) == 0
  {
  }

  // ---------------------------------------------------------------------- order

  /** The kernel's order of names: shorter first, then letter by letter. */
  predicate Before(s: string, t: string)
    decreases |s|
  {
    |s| < |t| || (|s| == |t| && s != [] &&
                  (Before(s[..|s| - 1], t[..|s| - 1]) || (s[..|s| - 1] == t[..|s| - 1] && s[|s| - 1] < t[|s| - 1])))
  }

  lemma {:induction false} ValueBounds(s: string)
    requires IsName(s)
    ensures Pow26(|s|) - 1 <= 25 * Value(s) <= 26 * (Pow26(|s|) - 1)
  {
    if s != [] {
      ValueBounds(s[..|s| - 1]);
    }
  }

  lemma {:induction false} PowGrows(m: nat, n: nat)
    requires m <= n
    ensures Pow26(m) <= Pow26(n) && 1 <= Pow26(m)
  {
    if m < n {
      PowGrows(m, n - 1);
    } else if m > 0 {
      PowGrows(m - 1, m - 1);
    }
  }

  lemma {:induction false} BeforeIsLess(s: string, t: string)
    requires IsName(s) && IsName(t) && Before(s, t)
    ensures Value(s) < Value(t)
    decreases |s|
  {
    if |s| < |t| {
      ValueBounds(s);
      ValueBounds(t);
      PowGrows(|s| + 1, |t|);
    } else if Before(s[..|s| - 1], t[..|s| - 1]) {
      BeforeIsLess(s[..|s| - 1], t[..|s| - 1]);
    }
  }

  lemma {:induction false} SomeOrder(s: string, t: string)
    requires s != t
    ensures Before(s, t) || Before(t, s)
    decreases |s|
  {
    if |s| == |t| {
      var n := |s| - 1;
      assert s == s[..n] + [s[n]] && t == t[..n] + [t[n]];
      if s[..n] != t[..n] {
        SomeOrder(s[..n], t[..n]);
      }
    }
  }

  /** Numbering follows the order of names. */
  lemma {:induction false} EncodeKeepsOrder(i: nat, j: nat)
    ensures i < j <==> Before(Encode(i), Encode(j))
  {
    DecodeEncode(i);
    DecodeEncode(j);
    if Before(Encode(i), Encode(j)) {
      BeforeIsLess(Encode(i), Encode(j));
    } else if i < j {
      SomeOrder(Encode(i), Encode(j));
      BeforeIsLess(Encode(j), Encode(i));
    }
  }
}
