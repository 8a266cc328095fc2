/** Numbers of variable and of fixed width, and length-prefixed strings. */
module Varints {
  import opened Coding
  import opened Octets
  import opened Options

  const TWO_32: nat := 0x1_0000_0000
  const TWO_64: nat := 0x1_0000_0000_0000_0000

  /** The low seven bits, and the bit that says that more follow. */
  function More(v: nat): (b: bv8)
    ensures Value(b) == v % 128 + 128
  {
    Byte(v % 128 + 128)
  }

  /** Seven bits a byte, low bits first; the high bit says that more follow. */
  function Varint(v: nat): (r: Bytes)
    ensures r != []
  {
    if v < 128 then [Byte(v)] else [More(v)] + Varint(v / 128)
  }

  function Pow128(n: nat): (p: nat)
    ensures p > 0
  {
    if n == 0 then 1 else 128 * Pow128(n - 1)
  }

  /** A number read from the front of the input, and how many bytes it took. */
  datatype Read = Read(value: nat, used: nat)

  /** The number at the front, of at most `max` bytes. */
  function ReadVarint(input: Bytes, max: nat): (r: Option<Read>)
    ensures r.Some? ==> 1 <= r.value.used <= |input| && r.value.used <= max
  {
    if input == [] || max == 0 then None
    else if Value(input[0]) < 128 then Some(Read(Value(input[0]), 1))
    else
      match ReadVarint(input[1..], max - 1)
      case None => None
      case Some(rest) => Some(Read(Value(input[0]) - 128 + 128 * rest.value, rest.used + 1))
  }

  lemma {:induction false} SomeWords()
    ensures Varint(TWO_32 - 1) == [255, 255, 255, 255, 15]
    ensures Varint(0) == [0] && Varint(2) == [2]
  {
    hide Varint;
    AllOnes(4294967295);
    AllOnes(33554431);
    AllOnes(262143);
    AllOnes(2047);
    OneByte(15, 15);
    OneByte(0, 0);
    OneByte(2, 2);
  }

  lemma {:induction false} OneByte(v: nat, b: bv8)
    requires v < 128 && Value(b) == v
    ensures Varint(v) == [b]
  {
    ByteInvertsValue(b);
  }

  lemma {:induction false} AllOnes(v: nat)
    requires v >= 128 && v % 128 == 127
    ensures Varint(v) == [255] + Varint(v / 128)
  {
    assert Value(255) == 255;
    ByteInvertsValue(255);
  }

  lemma {:induction false} VarintFits(v: nat, max: nat)
    requires v < Pow128(max) && max > 0
    ensures |Varint(v)| <= max
  {
    if v >= 128 {
      assert Pow128(max) == 128 * Pow128(max - 1) && (max == 1 ==> Pow128(max) == 128);
      VarintFits(v / 128, max - 1);
    }
  }

  /** Reading a number that fits gives it back, whatever follows it. */
  lemma {:induction false} ReadInvertsVarint(v: nat, rest: Bytes, max: nat)
    requires |Varint(v)| <= max
    ensures ReadVarint(Varint(v) + rest, max) == Some(Read(v, |Varint(v)|))
  {
    hide Byte, Value, More;
    var all := Varint(v) + rest;
    if v < 128 {
      assert all[0] == Byte(v);
    } else {
      assert all[0] == More(v);
      assert all[1..] == Varint(v / 128) + rest;
      ReadInvertsVarint(v / 128, rest, max - 1);
    }
  }

  /** A 32-bit number takes at most five bytes, a 64-bit number at most ten. */
  lemma {:induction false} VarintWidths(v: nat)
    ensures v < TWO_32 ==> |Varint(v)| <= 5
    ensures v < TWO_64 ==> |Varint(v)| <= 10
  {
    hide Varint;
    assert Pow128(3) == 0x20_0000;
    assert Pow128(5) == 0x8_0000_0000;
    assert Pow128(8) == Pow128(5) * 0x20_0000;
    assert Pow128(10) == 0x8_0000_0000 * 0x8_0000_0000;
    if v < TWO_32 {
      VarintFits(v, 5);
    }
    if v < TWO_64 {
      VarintFits(v, 10);
    }
  }

  // ----- The encoders and decoders

  lemma {:induction false} Unroll(v: nat)
    ensures Varint(v) == if v < 128 then [Byte(v)] else [More(v)] + Varint(v / 128)
  {
    hide Byte, Value, More;
  }

  lemma {:induction false} Shifts(v: nat)
    ensures v / 0x80 / 128 == v / 0x4000 && v / 0x4000 / 128 == v / 0x20_0000 && v / 0x20_0000 / 128 == v / 0x1000_0000
  {
  }

  method EncodeVarint32(v: nat) returns (r: Bytes)
    requires v < TWO_32
    ensures r == Varint(v)
  {
    hide Byte, Value, Varint, More;
    Shifts(v);
    Unroll(v);
    var v1, v2, v3, v4 := v / 0x80, v / 0x4000, v / 0x20_0000, v / 0x1000_0000;
    if v < 0x80 {
      r := [Byte(v)];
    } else if v < 0x4000 {
      Unroll(v1);
      r := [More(v)] + [Byte(v1)];
    } else if v < 0x20_0000 {
      Unroll(v1);
      Unroll(v2);
      r := [More(v)] + ([More(v1)] + [Byte(v2)]);
    } else if v < 0x1000_0000 {
      Unroll(v1);
      Unroll(v2);
      Unroll(v3);
      r := [More(v)] + ([More(v1)] + ([More(v2)] + [Byte(v3)]));
    } else {
      Unroll(v1);
      Unroll(v2);
      Unroll(v3);
      Unroll(v4);
      r := [More(v)] + ([More(v1)] + ([More(v2)] + ([More(v3)] + [Byte(v4)])));
    }
  }

  method EncodeVarint64(v: nat) returns (r: Bytes)
    requires v < TWO_64
    ensures r == Varint(v)
  {
    hide Byte, Value, More;
    r := [];
    var left := v;
    while left >= 128
      invariant r + Varint(left) == Varint(v)
    {
      assert r + Varint(left) == r + [More(left)] + Varint(left / 128);
      r := r + [More(left)];
      left := left / 128;
    }
    r := r + [Byte(left)];
  }

  /** The low digits, the high ones shifted into place above them. */
  function Folded(result: nat, shift: nat, digits: nat): nat {
    result + shift * digits
  }

  /** What of a number fits a width. */
  function Cut(v: nat, width: nat): nat
    requires width > 0
  {
    v % width
  }

  /** After i bytes: what they make together with the number that the rest makes is the number of the whole. */
  predicate Resumes(input: Bytes, max: nat, i: nat, result: nat, shift: nat)
    requires i <= |input| && i <= max
  {
    match ReadVarint(input[i..], max - i)
    case None => ReadVarint(input, max) == None
    case Some(x) => ReadVarint(input, max) == Some(Read(Folded(result, shift, x.value), i + x.used))
  }

  lemma {:induction false} ResumesAfter(input: Bytes, max: nat, i: nat, result: nat, shift: nat)
    requires i < |input| && i < max && Resumes(input, max, i, result, shift)
    ensures var byte := Value(input[i]);
      if byte < 128 then ReadVarint(input, max) == Some(Read(Folded(result, shift, byte), i + 1))
      else Resumes(input, max, i + 1, Folded(result, shift, byte - 128), shift * 128)
  {
    hide Value;
    var byte := Value(input[i]);
    assert input[i..][1..] == input[i + 1..] && input[i..][0] == input[i];
    if byte >= 128 {
      var next := ReadVarint(input[i + 1..], max - i - 1);
      if next.Some? {
        Regroup(result, shift, byte - 128, next.value.value);
      }
    }
  }

  lemma {:induction false} Regroup(result: nat, shift: nat, low: nat, high: nat)
    ensures Folded(result, shift, low + 128 * high) == Folded(Folded(result, shift, low), shift * 128, high)
  {
  }

  /** Folds the bytes in from the low end; what does not fit the width is cut off. */
  method GetVarint(input: Bytes, max: nat, width: nat) returns (r: Option<Read>)
    requires width > 0
    ensures r == match ReadVarint(input, max) case None => None case Some(x) => Some(Read(Cut(x.value, width), x.used))
  {
    hide Value, Resumes, Folded, Cut, ReadVarint;
    var result: nat, shift: nat, i := 0, 1, 0;
    assert Resumes(input, max, 0, 0, 1) by {
      FromTheStart(input, max);
    }
    while i < max && i < |input|
      invariant i <= max && i <= |input| && Resumes(input, max, i, result, shift)
    {
      var byte := Value(input[i]);
      ResumesAfter(input, max, i, result, shift);
      i := i + 1;
      if byte >= 128 {
        result := Folded(result, shift, byte - 128);
        shift := shift * 128;
      } else {
        result := Folded(result, shift, byte);
        return Some(Read(Cut(result, width), i));
      }
    }
    Exhausted(input, max, i, result, shift);
    return None;
  }

  lemma {:induction false} FromTheStart(input: Bytes, max: nat)
    ensures Resumes(input, max, 0, 0, 1)
  {
    assert input[0..] == input;
  }

  lemma {:induction false} Exhausted(input: Bytes, max: nat, i: nat, result: nat, shift: nat)
    requires i <= |input| && i <= max && Resumes(input, max, i, result, shift) && (i == max || i == |input|)
    ensures ReadVarint(input, max) == None
  {
  }

  // ----- Length-prefixed strings

  /** The length goes into 32 bits, whatever the string. */
  function Prefixed(s: Bytes): (r: Bytes)
    ensures r != []
  {
    Varint(|s| % TWO_32) + s
  }

  /** A string taken from the front of the input, and what is left. */
  datatype Taken = Taken(slice: Bytes, rest: Bytes)

  function ReadPrefixed(input: Bytes): (r: Option<Taken>)
    ensures r.Some? ==> |r.value.slice| + |r.value.rest| < |input|
  {
    match ReadVarint(input, 5)
    case None => None
    case Some(x) =>
      var end := x.used + x.value % TWO_32;
      if |input| < end then None else Some(Taken(input[x.used..end], input[end..]))
  }

  lemma {:induction false} ReadInvertsPrefixed(s: Bytes, rest: Bytes)
    requires |s| < TWO_32
    ensures ReadPrefixed(Prefixed(s) + rest) == Some(Taken(s, rest))
  {
    hide Varint, ReadVarint;
    var n := Varint(|s|);
    VarintWidths(|s|);
    ReadInvertsVarint(|s|, s + rest, 5);
    var all := Prefixed(s) + rest;
    assert all == n + (s + rest);
    assert all[|n|..|n| + |s|] == s && all[|n| + |s|..] == rest;
  }

  method GetLengthPrefixedSlice(input: Bytes) returns (r: Option<Taken>)
    ensures r == ReadPrefixed(input)
  {
    hide ReadVarint;
    var length := GetVarint(input, 5, TWO_32);
    if length.Some? && |input| - length.value.used >= length.value.value {
      var end := length.value.used + length.value.value;
      return Some(Taken(input[length.value.used..end], input[end..]));
    }
    return None;
  }

  // ----- Fixed-width numbers, little end first

  function Fixed(v: nat, width: nat): (r: Bytes)
    ensures |r| == width
  {
    if width == 0 then [] else [Byte(v % 256)] + Fixed(v / 256, width - 1)
  }

  function FixedValue(b: Bytes, width: nat): nat
    requires width <= |b|
  {
    if width == 0 then 0 else Value(b[0]) + 256 * FixedValue(b[1..], width - 1)
  }

  function Pow256(n: nat): (p: nat)
    ensures p > 0
  {
    if n == 0 then 1 else 256 * Pow256(n - 1)
  }

  lemma {:induction false} FixedValueInvertsFixed(v: nat, width: nat, rest: Bytes)
    requires v < Pow256(width)
    ensures FixedValue(Fixed(v, width) + rest, width) == v
  {
    hide Byte, Value;
    if width > 0 {
      var all := Fixed(v, width) + rest;
      assert all[0] == Byte(v % 256) && all[1..] == Fixed(v / 256, width - 1) + rest;
      FixedValueInvertsFixed(v / 256, width - 1, rest);
    }
  }

  lemma {:induction false} FixedWidths()
    ensures Pow256(4) == TWO_32 && Pow256(8) == TWO_64
  {
    assert Pow256(4) == TWO_32;
    assert Pow256(8) == TWO_64;
  }

  // ----- Arrays of 32-bit numbers

  function Words(r: seq<nat>): (b: Bytes)
    ensures |b| == 4 * |r|
  {
    if r == [] then [] else Words(r[..|r| - 1]) + Fixed(r[|r| - 1], 4)
  }

  lemma {:induction false} WordAt(r: seq<nat>, i: nat, rest: Bytes)
    requires i < |r| && forall x | x in r :: x < TWO_32
    ensures FixedValue((Words(r) + rest)[4 * i..], 4) == r[i]
    decreases |r|
  {
    hide Fixed, FixedValue, Pow256;
    var n := |r| - 1;
    var last := Fixed(r[n], 4);
    assert Words(r) + rest == Words(r[..n]) + (last + rest);
    assert r[n] in r && forall x | x in r[..n] :: x in r;
    if i < n {
      WordAt(r[..n], i, last + rest);
    } else {
      FixedWidths();
      FixedValueInvertsFixed(r[n], 4, rest);
      assert (Words(r[..n]) + (last + rest))[4 * n..] == last + rest;
    }
  }
}
