/** CRC32C (section 12.1 of RFC 3720): the striped loop computes the bit-serial checksum. */
module Crc32c {
  const POLYNOMIAL: bv32 := 0x82f63b78    // bit-reflected
  const ALL_ONES: bv32 := 0xffff_ffff
  const MASK_DELTA: bv32 := 0xa282ead8

  function Xor(x: bv32, y: bv32): bv32 {
    x ^ y
  }

  lemma {:induction false} RawXorLaws(x: bv32, y: bv32, z: bv32)
    ensures x ^ y == y ^ x && (x ^ y) ^ z == x ^ (y ^ z) && (x ^ y) ^ y == x && 0 ^ x == x && x ^ 0 == x
  {
  }

  lemma {:induction false} XorLaws(x: bv32, y: bv32, z: bv32)
    ensures Xor(x, y) == Xor(y, x)
    ensures Xor(Xor(x, y), z) == Xor(x, Xor(y, z))
    ensures Xor(Xor(x, y), y) == x
    ensures Xor(0, x) == x && Xor(x, 0) == x
  {
    RawXorLaws(x, y, z);
    assert Xor(x, y) == x ^ y && Xor(y, z) == y ^ z;
  }

  // ----- The bit-serial definition

  /** One bit leaves the register; if it is set, the polynomial is subtracted. */
  function Bit(x: bv32): bv32 {
    if x & 1 == 1 then (x >> 1) ^ POLYNOMIAL else x >> 1
  }

  function Bits(n: nat, x: bv32): bv32 {
    if n == 0 then x else Bits(n - 1, Bit(x))
  }

  /** The register after the bytes of `data`, eight bit steps each. */
  function Register(l: bv32, data: seq<bv8>): bv32 {
    if data == [] then l else Bits(8, Xor(Register(l, data[..|data| - 1]), data[|data| - 1] as bv32))
  }

  /** The checksum of A + data when crc is the checksum of A. */
  function Checksum(crc: bv32, data: seq<bv8>): bv32 {
    Xor(Register(Xor(crc, ALL_ONES), data), ALL_ONES)
  }

  lemma {:induction false} RegisterAppend(l: bv32, a: seq<bv8>, b: seq<bv8>)
    ensures Register(l, a + b) == Register(Register(l, a), b)
  {
    hide Xor, Bits;
    if b == [] {
      assert a + b == a;
    } else {
      var last := |b| - 1;
      assert (a + b)[..|a + b| - 1] == a + b[..last];
      RegisterAppend(l, a, b[..last]);
    }
  }

  /** Extending the checksum of A over B gives the checksum of A + B. */
  lemma {:induction false} ExtendIsConcatenation(a: seq<bv8>, b: seq<bv8>)
    ensures Checksum(Checksum(0, a), b) == Checksum(0, a + b)
  {
    hide Register, Xor;
    XorLaws(ALL_ONES, 0, 0);
    XorLaws(Register(ALL_ONES, a), ALL_ONES, 0);
    RegisterAppend(ALL_ONES, a, b);
  }

  // ----- The register is linear

  lemma {:induction false} XorOfHalves(x: bv32, y: bv32)
    ensures (x ^ y) >> 1 == (x >> 1) ^ (y >> 1) && (x ^ y) & 1 == (x & 1) ^ (y & 1)
    ensures x & 1 == 0 || x & 1 == 1
  {
  }

  lemma {:induction false} XorRearranged(x: bv32, y: bv32, p: bv32)
    ensures (x ^ p) ^ y == (x ^ y) ^ p && x ^ (y ^ p) == (x ^ y) ^ p && (x ^ p) ^ (y ^ p) == x ^ y
  {
  }

  lemma {:induction false} BitIsLinear(x: bv32, y: bv32)
    ensures Bit(Xor(x, y)) == Xor(Bit(x), Bit(y))
  {
    XorOfHalves(x, y);
    XorOfHalves(y, x);
    XorRearranged(x >> 1, y >> 1, POLYNOMIAL);
    if x & 1 == 0 {
      assert Bit(x) == x >> 1;
    }
  }

  lemma {:induction false} BitsIsLinear(n: nat, x: bv32, y: bv32)
    ensures Bits(n, Xor(x, y)) == Xor(Bits(n, x), Bits(n, y))
  {
    hide Xor, Bit;
    if n > 0 {
      BitIsLinear(x, y);
      BitsIsLinear(n - 1, Bit(x), Bit(y));
    }
  }

  lemma {:induction false} BitsAdd(n: nat, m: nat, x: bv32)
    ensures Bits(n + m, x) == Bits(m, Bits(n, x))
  {
    hide Bit;
    if n > 0 {
      BitsAdd(n - 1, m, Bit(x));
    }
  }

  function Half(n: nat, x: bv32): bv32 {
    if n == 0 then x else Half(n - 1, x >> 1)
  }

  predicate Zeros(n: nat, x: bv32) {
    n == 0 || (x & 1 == 0 && Zeros(n - 1, x >> 1))
  }

  lemma {:induction false} ZerosShiftOut(n: nat, x: bv32)
    requires Zeros(n, x)
    ensures Bits(n, x) == Half(n, x)
  {
    if n > 0 {
      ZerosShiftOut(n - 1, x >> 1);
    }
  }

  lemma {:induction false} EightShifts(h: bv32)
    ensures (((((((h >> 1) >> 1) >> 1) >> 1) >> 1) >> 1) >> 1) >> 1 == h >> 8
  {
  }

  lemma {:induction false} EightZeros(h: bv32)
    requires h & 0xff == 0
    ensures h & 1 == 0 && (h >> 1) & 1 == 0 && ((h >> 1) >> 1) & 1 == 0 && (((h >> 1) >> 1) >> 1) & 1 == 0
    ensures ((((h >> 1) >> 1) >> 1) >> 1) & 1 == 0 && (((((h >> 1) >> 1) >> 1) >> 1) >> 1) & 1 == 0
    ensures ((((((h >> 1) >> 1) >> 1) >> 1) >> 1) >> 1) & 1 == 0 && (((((((h >> 1) >> 1) >> 1) >> 1) >> 1) >> 1) >> 1) & 1 == 0
  {
  }

  /** A byte of zeros at the bottom just shifts out. */
  lemma {:induction false} ShiftsOut(h: bv32)
    requires h & 0xff == 0
    ensures Bits(8, h) == h >> 8
  {
    hide Bits, Zeros, Half;
    EightZeros(h);
    EightShifts(h);
    var h1 := h >> 1;
    var h2 := h1 >> 1;
    var h3 := h2 >> 1;
    var h4 := h3 >> 1;
    var h5 := h4 >> 1;
    var h6 := h5 >> 1;
    var h7 := h6 >> 1;
    NoZeros(h7 >> 1);
    MoreZeros(1, h7);
    MoreZeros(2, h6);
    MoreZeros(3, h5);
    MoreZeros(4, h4);
    MoreZeros(5, h3);
    MoreZeros(6, h2);
    MoreZeros(7, h1);
    MoreZeros(8, h);
    ZerosShiftOut(8, h);
  }

  lemma {:induction false} NoZeros(x: bv32)
    ensures Zeros(0, x) && Half(0, x) == x
  {
  }

  lemma {:induction false} MoreZeros(n: nat, x: bv32)
    requires n > 0
    ensures x & 1 == 0 && Zeros(n - 1, x >> 1) ==> Zeros(n, x)
    ensures Half(n, x) == Half(n - 1, x >> 1)
  {
  }

  // ----- The tables

  function ByteTable(b: bv8): bv32 {
    Bits(8, b as bv32)
  }

  lemma {:induction false} LowByteSplits(x: bv32)
    ensures x == ((x & 0xff) as bv8 as bv32) ^ (x & 0xffff_ff00) && (x & 0xffff_ff00) & 0xff == 0
    ensures (x & 0xffff_ff00) >> 8 == x >> 8
  {
  }

  function LowByte(x: bv32): bv8 {
    (x & 0xff) as bv8
  }

  /** A table lookup and a shift advance the register by one byte. */
  lemma {:induction false} TableStep(x: bv32)
    ensures Xor(ByteTable(LowByte(x)), x >> 8) == Bits(8, x)
  {
    LowByteSplits(x);
    var low, high := LowByte(x) as bv32, x & 0xffff_ff00;
    assert x == Xor(low, high);
    BitsIsLinear(8, low, high);
    ShiftsOut(high);
  }

  /** The code's lookup index: the register's low byte combined with the data byte. */
  lemma {:induction false} IndexOfByte(l: bv32, b: bv8)
    ensures LowByte(l) ^ b == LowByte(Xor(l, b as bv32)) && l >> 8 == Xor(l, b as bv32) >> 8
  {
  }

  lemma {:induction false} ByteStep(l: bv32, b: bv8)
    ensures Xor(ByteTable(LowByte(l) ^ b), l >> 8) == Bits(8, Xor(l, b as bv32))
  {
    hide Xor, ByteTable, Bits, LowByte;
    IndexOfByte(l, b);
    TableStep(Xor(l, b as bv32));
  }

  // ----- Words

  /** A little-endian word. */
  function Word(b0: bv8, b1: bv8, b2: bv8, b3: bv8): bv32 {
    (b0 as bv32) | ((b1 as bv32) << 8) | ((b2 as bv32) << 16) | ((b3 as bv32) << 24)
  }

  /** A byte further up enters the register as if it came later. */
  lemma {:induction false} LaterByte(x: bv32, b: bv32)
    requires b & 0xff == 0
    ensures Bits(8, Xor(x, b)) == Xor(Bits(8, x), b >> 8)
  {
    hide Xor, Bits;
    BitsIsLinear(8, x, b);
    ShiftsOut(b);
  }

  function Upper(b1: bv8, b2: bv8, b3: bv8): bv32 {
    ((b1 as bv32) << 8) | ((b2 as bv32) << 16) | ((b3 as bv32) << 24)
  }

  lemma {:induction false} WordSplits(b0: bv8, b1: bv8, b2: bv8, b3: bv8)
    ensures Word(b0, b1, b2, b3) == Xor(b0 as bv32, Upper(b1, b2, b3))
    ensures Upper(b1, b2, b3) & 0xff == 0 && Upper(b1, b2, b3) >> 8 == Word(b1, b2, b3, 0)
    ensures Word(0, 0, 0, 0) == 0
  {
  }

  lemma {:induction false} WordShift(l: bv32, b0: bv8, b1: bv8, b2: bv8, b3: bv8)
    ensures Bits(8, Xor(l, Word(b0, b1, b2, b3))) == Xor(Bits(8, Xor(l, b0 as bv32)), Word(b1, b2, b3, 0))
  {
    hide Xor, Bits, Word, Upper;
    WordSplits(b0, b1, b2, b3);
    XorLaws(l, b0 as bv32, Upper(b1, b2, b3));
    LaterByte(Xor(l, b0 as bv32), Upper(b1, b2, b3));
  }

  lemma {:induction false} RegisterOne(l: bv32, data: seq<bv8>, b: bv8)
    ensures Register(l, data + [b]) == Bits(8, Xor(Register(l, data), b as bv32))
  {
    hide Xor, Bits;
    assert (data + [b])[..|data|] == data;
  }

  /** Four bytes enter the register as one word. */
  lemma {:induction false} RegisterWord(l: bv32, b0: bv8, b1: bv8, b2: bv8, b3: bv8)
    ensures Register(l, [b0, b1, b2, b3]) == Bits(32, Xor(l, Word(b0, b1, b2, b3)))
  {
    hide Xor, Bits, Word, Register;
    RegisterNone(l);
    RegisterOne(l, [], b0);
    RegisterOne(l, [b0], b1);
    RegisterOne(l, [b0, b1], b2);
    RegisterOne(l, [b0, b1, b2], b3);
    assert [] + [b0] == [b0] && [b0] + [b1] == [b0, b1] && [b0, b1] + [b2] == [b0, b1, b2] && [b0, b1, b2] + [b3] == [b0, b1, b2, b3];
    var r1, r2, r3 := Register(l, [b0]), Register(l, [b0, b1]), Register(l, [b0, b1, b2]);
    WordShift(l, b0, b1, b2, b3);
    WordShift(r1, b1, b2, b3, 0);
    WordShift(r2, b2, b3, 0, 0);
    WordShift(r3, b3, 0, 0, 0);
    WordSplits(0, 0, 0, 0);
    XorLaws(Register(l, [b0, b1, b2, b3]), 0, 0);
    var x := Xor(l, Word(b0, b1, b2, b3));
    BitsAdd(8, 24, x);
    BitsAdd(8, 16, Bits(8, x));
    BitsAdd(8, 8, Bits(8, Bits(8, x)));
  }

  lemma {:induction false} RegisterNone(l: bv32)
    ensures Register(l, []) == l
  {
  }

  // ----- Four lanes

  /** The register that four lanes stand for: each word follows the one before it. */
  function Combine(c0: bv32, c1: bv32, c2: bv32, c3: bv32): bv32 {
    Bits(32, Xor(Bits(32, Xor(Bits(32, Xor(Bits(32, c0), c1)), c2)), c3))
  }

  lemma {:induction false} CombineSpreads(c0: bv32, c1: bv32, c2: bv32, c3: bv32)
    ensures Combine(c0, c1, c2, c3) == Xor(Bits(128, c0), Xor(Bits(96, c1), Xor(Bits(64, c2), Bits(32, c3))))
  {
    hide Xor, Bits;
    var r1 := Bits(32, c0);
    var r2 := Bits(32, Xor(r1, c1));
    BitsIsLinear(32, r1, c1);
    BitsAdd(32, 32, c0);
    assert r2 == Xor(Bits(64, c0), Bits(32, c1));
    var r3 := Bits(32, Xor(r2, c2));
    BitsIsLinear(32, r2, c2);
    BitsIsLinear(32, Bits(64, c0), Bits(32, c1));
    BitsAdd(64, 32, c0);
    BitsAdd(32, 32, c1);
    assert r3 == Xor(Xor(Bits(96, c0), Bits(64, c1)), Bits(32, c2));
    BitsIsLinear(32, r3, c3);
    BitsIsLinear(32, Xor(Bits(96, c0), Bits(64, c1)), Bits(32, c2));
    BitsIsLinear(32, Bits(96, c0), Bits(64, c1));
    BitsAdd(96, 32, c0);
    BitsAdd(64, 32, c1);
    BitsAdd(32, 32, c2);
    XorLaws(Bits(128, c0), Bits(96, c1), Bits(64, c2));
    XorLaws(Bits(128, c0), Xor(Bits(96, c1), Bits(64, c2)), Bits(32, c3));
    XorLaws(Bits(96, c1), Bits(64, c2), Bits(32, c3));
  }

  /** Folding the next word into the oldest lane, which thereby becomes the youngest. */
  lemma {:induction false} RotateLanes(c0: bv32, c1: bv32, c2: bv32, c3: bv32, w: bv32)
    ensures Combine(c1, c2, c3, Xor(w, Bits(128, c0))) == Bits(32, Xor(Combine(c0, c1, c2, c3), w))
  {
    hide Xor, Bits, Combine;
    var rest := Xor(Bits(96, c1), Xor(Bits(64, c2), Bits(32, c3)));
    var a := Bits(128, c0);
    CombineSpreads(c0, c1, c2, c3);
    CombineSpreads(c1, c2, c3, Xor(w, a));
    BitsIsLinear(32, w, a);
    // The right-hand side, spread
    BitsIsLinear(32, Xor(a, rest), w);
    BitsIsLinear(32, a, rest);
    BitsIsLinear(32, Bits(96, c1), Xor(Bits(64, c2), Bits(32, c3)));
    BitsIsLinear(32, Bits(64, c2), Bits(32, c3));
    BitsAdd(96, 32, c1);
    BitsAdd(64, 32, c2);
    BitsAdd(32, 32, c3);
    Regroup(Bits(32, a), Bits(128, c1), Bits(96, c2), Bits(64, c3), Bits(32, w));
  }

  lemma {:induction false} Regroup(a: bv32, x: bv32, y: bv32, z: bv32, w: bv32)
    ensures Xor(Xor(a, Xor(x, Xor(y, z))), w) == Xor(x, Xor(y, Xor(z, Xor(w, a))))
  {
    hide Xor;
    XorLaws(a, Xor(x, Xor(y, z)), w);
    XorLaws(Xor(x, Xor(y, z)), a, w);
    XorLaws(Xor(x, Xor(y, z)), w, a);
    XorLaws(w, a, 0);
    XorLaws(x, Xor(y, z), Xor(w, a));
    XorLaws(y, z, Xor(w, a));
  }

  /** Four table lookups advance a lane by four words. */
  function StrideLookup(c: bv32): bv32 {
    Xor(Xor(Xor(StrideTable3(LowByte(c)), StrideTable2(LowByte(c >> 8))), StrideTable1(LowByte(c >> 16))), StrideTable0(LowByte(c >> 24)))
  }

  function StrideTable3(b: bv8): bv32 {
    Bits(128, b as bv32)
  }

  function StrideTable2(b: bv8): bv32 {
    Bits(128, (b as bv32) << 8)
  }

  function StrideTable1(b: bv8): bv32 {
    Bits(128, (b as bv32) << 16)
  }

  function StrideTable0(b: bv8): bv32 {
    Bits(128, (b as bv32) << 24)
  }

  lemma {:induction false} BytesOfWord(c: bv32)
    ensures c == Xor(Xor(Xor(LowByte(c) as bv32, (LowByte(c >> 8) as bv32) << 8), (LowByte(c >> 16) as bv32) << 16), (LowByte(c >> 24) as bv32) << 24)
  {
  }

  lemma {:induction false} StrideLookupAdvances(c: bv32)
    ensures StrideLookup(c) == Bits(128, c)
  {
    hide Xor, Bits, LowByte;
    var b0, b1, b2, b3 := LowByte(c) as bv32, (LowByte(c >> 8) as bv32) << 8, (LowByte(c >> 16) as bv32) << 16, (LowByte(c >> 24) as bv32) << 24;
    BytesOfWord(c);
    BitsIsLinear(128, b0, b1);
    BitsIsLinear(128, Xor(b0, b1), b2);
    BitsIsLinear(128, Xor(Xor(b0, b1), b2), b3);
  }

  // ----- The loop

  function ReadWord(data: seq<bv8>, p: nat): bv32
    requires p + 4 <= |data|
  {
    Word(data[p], data[p + 1], data[p + 2], data[p + 3])
  }

  lemma {:induction false} NextWord(l: bv32, data: seq<bv8>, p: nat)
    requires p + 4 <= |data|
    ensures Register(l, data[..p + 4]) == Bits(32, Xor(Register(l, data[..p]), ReadWord(data, p)))
  {
    hide Xor, Bits, Word, Register;
    assert data[..p + 4] == data[..p] + [data[p], data[p + 1], data[p + 2], data[p + 3]];
    RegisterAppend(l, data[..p], [data[p], data[p + 1], data[p + 2], data[p + 3]]);
    RegisterWord(Register(l, data[..p]), data[p], data[p + 1], data[p + 2], data[p + 3]);
  }

  /** One byte at a time up to `end`. */
  method StepBytes(l: bv32, data: seq<bv8>, from: nat, end: nat, ghost start: bv32) returns (r: bv32)
    requires from <= end <= |data| && l == Register(start, data[..from])
    ensures r == Register(start, data[..end])
  {
    hide Xor, Bits, Register;
    r := l;
    var p := from;
    while p < end
      invariant from <= p <= end && r == Register(start, data[..p])
    {
      assert data[..p + 1] == data[..p] + [data[p]];
      RegisterOne(start, data[..p], data[p]);
      ByteStep(r, data[p]);
      r := Xor(ByteTable(LowByte(r) ^ data[p]), r >> 8);
      p := p + 1;
    }
  }

  /** Folds the next word into a lane. */
  method StepLane(c: bv32, w: bv32) returns (r: bv32)
    ensures r == Xor(w, Bits(128, c))
  {
    hide Xor, Bits;
    StrideLookupAdvances(c);
    r := Xor(w, StrideLookup(c));
  }

  /** Four byte steps over a word that is already loaded. */
  method StepWord(l: bv32, w: bv32) returns (r: bv32)
    ensures r == Bits(32, Xor(l, w))
  {
    hide Xor, Bits, ByteTable, LowByte;
    r := Xor(w, l);
    XorLaws(w, l, 0);
    BitsZero(r);
    for i := 0 to 4
      invariant r == Bits(8 * i, Xor(l, w))
    {
      TableStepReversed(r);
      BitsAdd(8 * i, 8, Xor(l, w));
      r := Xor(r >> 8, ByteTable(LowByte(r)));
    }
  }

  lemma {:induction false} TableStepReversed(x: bv32)
    ensures Xor(x >> 8, ByteTable(LowByte(x))) == Bits(8, x)
  {
    hide Xor, Bits, ByteTable, LowByte;
    TableStep(x);
    XorLaws(x >> 8, ByteTable(LowByte(x)), 0);
  }

  lemma {:induction false} BitsZero(x: bv32)
    ensures Bits(0, x) == x
  {
  }

  /** First address from `address` on that is a multiple of four, as a distance. */
  function RoundUp(address: nat): nat {
    (address + 3) / 4 * 4 - address
  }

  /** Four lanes over the words from p on, as long as there are any. */
  method StepStrides(l: bv32, data: seq<bv8>, from: nat, ghost start: bv32) returns (r: bv32, p: nat)
    requires from + 16 <= |data| && l == Register(start, data[..from])
    ensures from <= p <= |data| && r == Register(start, data[..p]) && |data| - p < 4
  {
    hide Xor, Bits, Register, Word, Combine;
    var c0, c1, c2, c3 := Xor(ReadWord(data, from), l), ReadWord(data, from + 4), ReadWord(data, from + 8), ReadWord(data, from + 12);
    FirstLanes(start, data, from);
    p := from + 16;
    while |data| - p >= 16
      invariant from <= p <= |data| && Combine(c0, c1, c2, c3) == Register(start, data[..p])
    {
      FourLanes(start, data, p, c0, c1, c2, c3);
      c0 := StepLane(c0, ReadWord(data, p));
      c1 := StepLane(c1, ReadWord(data, p + 4));
      c2 := StepLane(c2, ReadWord(data, p + 8));
      c3 := StepLane(c3, ReadWord(data, p + 12));
      p := p + 16;
    }
    while |data| - p >= 4
      invariant from <= p <= |data| && Combine(c0, c1, c2, c3) == Register(start, data[..p])
    {
      NextWord(start, data, p);
      RotateLanes(c0, c1, c2, c3, ReadWord(data, p));
      c0 := StepLane(c0, ReadWord(data, p));
      var tmp := c0;
      c0, c1, c2, c3 := c1, c2, c3, tmp;
      p := p + 4;
    }
    r := StepWord(0, c0);
    XorLaws(c0, 0, 0);
    r := StepWord(r, c1);
    r := StepWord(r, c2);
    r := StepWord(r, c3);
    CombineIs(c0, c1, c2, c3);
  }

  lemma {:induction false} CombineIs(c0: bv32, c1: bv32, c2: bv32, c3: bv32)
    ensures Combine(c0, c1, c2, c3) == Bits(32, Xor(Bits(32, Xor(Bits(32, Xor(Bits(32, c0), c1)), c2)), c3))
  {
  }

  lemma {:induction false} FirstLanes(start: bv32, data: seq<bv8>, p: nat)
    requires p + 16 <= |data|
    ensures Combine(Xor(ReadWord(data, p), Register(start, data[..p])), ReadWord(data, p + 4), ReadWord(data, p + 8), ReadWord(data, p + 12))
      == Register(start, data[..p + 16])
  {
    hide Xor, Bits, Register, Word;
    NextWord(start, data, p);
    NextWord(start, data, p + 4);
    NextWord(start, data, p + 8);
    NextWord(start, data, p + 12);
    XorLaws(Register(start, data[..p]), ReadWord(data, p), 0);
  }

  lemma {:induction false} FourLanes(start: bv32, data: seq<bv8>, p: nat, c0: bv32, c1: bv32, c2: bv32, c3: bv32)
    requires p + 16 <= |data| && Combine(c0, c1, c2, c3) == Register(start, data[..p])
    ensures Combine(Xor(ReadWord(data, p), Bits(128, c0)), Xor(ReadWord(data, p + 4), Bits(128, c1)),
                    Xor(ReadWord(data, p + 8), Bits(128, c2)), Xor(ReadWord(data, p + 12), Bits(128, c3)))
      == Register(start, data[..p + 16])
  {
    hide Xor, Bits, Register, Word, Combine;
    var w0, w1, w2, w3 := ReadWord(data, p), ReadWord(data, p + 4), ReadWord(data, p + 8), ReadWord(data, p + 12);
    NextWord(start, data, p);
    RotateLanes(c0, c1, c2, c3, w0);
    var d0 := Xor(w0, Bits(128, c0));
    NextWord(start, data, p + 4);
    RotateLanes(c1, c2, c3, d0, w1);
    var d1 := Xor(w1, Bits(128, c1));
    NextWord(start, data, p + 8);
    RotateLanes(c2, c3, d0, d1, w2);
    NextWord(start, data, p + 12);
    RotateLanes(c3, d0, d1, Xor(w2, Bits(128, c2)), w3);
  }

  /** The portable Extend: whatever the length and the alignment, it is the bit-serial checksum. */
  method Extend(crc: bv32, data: seq<bv8>, address: nat) returns (r: bv32)
    ensures r == Checksum(crc, data)
  {
    hide Xor, Bits, Register;
    var l := Xor(crc, ALL_ONES);
    var p := 0;
    RegisterNone(l);
    ghost var start := l;
    assert data[..0] == [];
    var x := RoundUp(address);
    if x <= |data| {
      l := StepBytes(l, data, 0, x, start);
      p := x;
    }
    if |data| - p >= 16 {
      l, p := StepStrides(l, data, p, start);
    }
    l := StepBytes(l, data, p, |data|, start);
    assert data[..|data|] == data;
    r := Xor(l, ALL_ONES);
  }

  // ----- Masking

  function Mask(crc: bv32): bv32 {
    ((crc >> 15) | (crc << 17)) + MASK_DELTA
  }

  function Unmask(masked: bv32): bv32 {
    var rot := masked - MASK_DELTA;
    (rot >> 17) | (rot << 15)
  }

  lemma {:induction false} UnmaskInvertsMask(crc: bv32)
    ensures Unmask(Mask(crc)) == crc && Mask(Unmask(crc)) == crc
  {
  }

  // ----- Known checksums

  function EightBits(x: bv32): bv32 {
    Bit(Bit(Bit(Bit(Bit(Bit(Bit(Bit(x))))))))
  }

  lemma {:induction false} EightBitsAre(x: bv32)
    ensures Bits(8, x) == EightBits(x)
  {
    hide Bit;
    var y := Bit(Bit(Bit(Bit(x))));
    assert Bits(8, x) == Bits(7, Bit(x)) == Bits(6, Bit(Bit(x)));
    assert Bits(6, Bit(Bit(x))) == Bits(5, Bit(Bit(Bit(x)))) == Bits(4, y);
    assert Bits(4, y) == Bits(3, Bit(y)) == Bits(2, Bit(Bit(y)));
    assert Bits(2, Bit(Bit(y))) == Bits(1, Bit(Bit(Bit(y)))) == Bits(0, Bit(Bit(Bit(Bit(y)))));
  }

  /** The same byte n times. */
  function Same(n: nat, c: bv8): (r: seq<bv8>)
    ensures |r| == n
  {
    seq(n, _ => c)
  }

  function Fed(l: bv32, c: bv8): bv32 {
    EightBits(Xor(l, c as bv32))
  }

  lemma {:induction false} OneMoreByte(l: bv32, n: nat, c: bv8)
    ensures Register(l, Same(n + 1, c)) == Fed(Register(l, Same(n, c)), c)
  {
    hide Bits, EightBits, Xor;
    var more := Same(n + 1, c);
    assert more[..|more| - 1] == Same(n, c) && more[|more| - 1] == c;
    EightBitsAre(Xor(Register(l, Same(n, c)), c as bv32));
  }

  lemma {:induction false} NoBytes(l: bv32, c: bv8)
    ensures Register(l, Same(0, c)) == l
  {
    assert Same(0, c) == [];
  }

  lemma {:induction false} FourMoreBytes(l: bv32, n: nat, c: bv8)
    ensures Register(l, Same(n + 4, c)) == Fed(Fed(Fed(Fed(Register(l, Same(n, c)), c), c), c), c)
  {
    hide Register, Fed;
    OneMoreByte(l, n, c);
    OneMoreByte(l, n + 1, c);
    OneMoreByte(l, n + 2, c);
    OneMoreByte(l, n + 3, c);
  }

  lemma {:induction false} EightZeros8()
    ensures Fed(Fed(Fed(Fed(0xffff_ffff, 0), 0), 0), 0) == 0xb798_b438
    ensures Fed(Fed(Fed(Fed(0xb798_b438, 0), 0), 0), 0) == 0x73d7_4d75
  {
    assert Fed(0xffff_ffff, 0) == 0xad82_acae;
    assert Fed(0xad82_acae, 0) == 0x0e9e_882d;
    assert Fed(0x0e9e_882d, 0) == 0x9f9b_5c85;
    assert Fed(0x9f9b_5c85, 0) == 0xb798_b438;
    assert Fed(0xb798_b438, 0) == 0xba8d_89ca;
    assert Fed(0xba8d_89ca, 0) == 0xa8d5_8375;
    assert Fed(0xa8d5_8375, 0) == 0x44c1_9592;
    assert Fed(0x44c1_9592, 0) == 0x73d7_4d75;
  }

  lemma {:induction false} EightZeros16()
    ensures Fed(Fed(Fed(Fed(0x73d7_4d75, 0), 0), 0), 0) == 0xd49f_4aa2
    ensures Fed(Fed(Fed(Fed(0xd49f_4aa2, 0), 0), 0), 0) == 0xbd8f_6515
  {
    assert Fed(0x73d7_4d75, 0) == 0x441a_975c;
    assert Fed(0x441a_975c, 0) == 0x1c22_0f94;
    assert Fed(0x1c22_0f94, 0) == 0x552e_4907;
    assert Fed(0x552e_4907, 0) == 0xd49f_4aa2;
    assert Fed(0xd49f_4aa2, 0) == 0x43a4_5a1b;
    assert Fed(0x43a4_5a1b, 0) == 0x8994_c80e;
    assert Fed(0x8994_c80e, 0) == 0xacf1_2bef;
    assert Fed(0xacf1_2bef, 0) == 0xbd8f_6515;
  }

  lemma {:induction false} EightZeros24()
    ensures Fed(Fed(Fed(Fed(0xbd8f_6515, 0), 0), 0), 0) == 0x433a_a9c1
    ensures Fed(Fed(Fed(Fed(0x433a_a9c1, 0), 0), 0), 0) == 0x7b04_1311
  {
    assert Fed(0xbd8f_6515, 0) == 0x2512_5c16;
    assert Fed(0x2512_5c16, 0) == 0x36da_32db;
    assert Fed(0x36da_32db, 0) == 0x4a6c_90a2;
    assert Fed(0x4a6c_90a2, 0) == 0x433a_a9c1;
    assert Fed(0x433a_a9c1, 0) == 0x31a5_9f6e;
    assert Fed(0x31a5_9f6e, 0) == 0xcd8f_89da;
    assert Fed(0xcd8f_89da, 0) == 0xb8fc_461a;
    assert Fed(0xb8fc_461a, 0) == 0x7b04_1311;
  }

  lemma {:induction false} EightZeros32()
    ensures Fed(Fed(Fed(Fed(0x7b04_1311, 0), 0), 0), 0) == 0x0836_3896
    ensures Fed(Fed(Fed(Fed(0x0836_3896, 0), 0), 0), 0) == 0x756e_c955
  {
    assert Fed(0x7b04_1311, 0) == 0xe24e_407f;
    assert Fed(0xe24e_407f, 0) == 0x2f69_2669;
    assert Fed(0x2f69_2669, 0) == 0x195b_2188;
    assert Fed(0x195b_2188, 0) == 0x0836_3896;
    assert Fed(0x0836_3896, 0) == 0xb401_2dc7;
    assert Fed(0xb401_2dc7, 0) == 0x17f3_4302;
    assert Fed(0x17f3_4302, 0) == 0xe12c_83b4;
    assert Fed(0xe12c_83b4, 0) == 0x756e_c955;
  }

  /** From section B.4 of RFC 3720: 32 bytes of 0x00. */
  lemma {:induction false} ChecksumOfZeros()
    ensures Checksum(0, seq(32, _ => 0)) == 0x8a91_36aa
  {
    hide Register, Fed;
    assert Same(32, 0) == seq(32, _ => 0);
    NoBytes(0xffff_ffff, 0);
    FourMoreBytes(0xffff_ffff, 0, 0);
    FourMoreBytes(0xffff_ffff, 4, 0);
    FourMoreBytes(0xffff_ffff, 8, 0);
    FourMoreBytes(0xffff_ffff, 12, 0);
    FourMoreBytes(0xffff_ffff, 16, 0);
    FourMoreBytes(0xffff_ffff, 20, 0);
    FourMoreBytes(0xffff_ffff, 24, 0);
    FourMoreBytes(0xffff_ffff, 28, 0);
    EightZeros8();
    EightZeros16();
    EightZeros24();
    EightZeros32();
  }

  lemma {:induction false} EightOnes8()
    ensures Fed(Fed(Fed(Fed(0xffff_ffff, 0xff), 0xff), 0xff), 0xff) == 0x0000_0000
    ensures Fed(Fed(Fed(Fed(0x0000_0000, 0xff), 0xff), 0xff), 0xff) == 0xb798_b438
  {
    assert Fed(0xffff_ffff, 0xff) == 0x00ff_ffff;
    assert Fed(0x00ff_ffff, 0xff) == 0x0000_ffff;
    assert Fed(0x0000_ffff, 0xff) == 0x0000_00ff;
    assert Fed(0x0000_00ff, 0xff) == 0x0000_0000;
    assert Fed(0x0000_0000, 0xff) == 0xad7d_5351;
    assert Fed(0xad7d_5351, 0xff) == 0x0e9e_77d2;
    assert Fed(0x0e9e_77d2, 0xff) == 0x9f9b_5c7a;
    assert Fed(0x9f9b_5c7a, 0xff) == 0xb798_b438;
  }

  lemma {:induction false} EightOnes16()
    ensures Fed(Fed(Fed(Fed(0xb798_b438, 0xff), 0xff), 0xff), 0xff) == 0xc44f_f94d
    ensures Fed(Fed(Fed(Fed(0xc44f_f94d, 0xff), 0xff), 0xff), 0xff) == 0x10d0_b3ef
  {
    assert Fed(0xb798_b438, 0xff) == 0x17f0_da9b;
    assert Fed(0x17f0_da9b, 0xff) == 0xa64b_f4a7;
    assert Fed(0xa64b_f4a7, 0xff) == 0xdb5a_c9e8;
    assert Fed(0xdb5a_c9e8, 0xff) == 0xc44f_f94d;
    assert Fed(0xc44f_f94d, 0xff) == 0x53ea_4dc7;
    assert Fed(0x53ea_4dc7, 0xff) == 0xba69_fb33;
    assert Fed(0xba69_fb33, 0xff) == 0x8e74_80ef;
    assert Fed(0x8e74_80ef, 0xff) == 0x10d0_b3ef;
  }

  lemma {:induction false} EightOnes24()
    ensures Fed(Fed(Fed(Fed(0x10d0_b3ef, 0xff), 0xff), 0xff), 0xff) == 0xad5f_d6fa
    ensures Fed(Fed(Fed(Fed(0xad5f_d6fa, 0xff), 0xff), 0xff), 0xff) == 0xee65_7f3b
  {
    assert Fed(0x10d0_b3ef, 0xff) == 0x104e_17dc;
    assert Fed(0x104e_17dc, 0xff) == 0x33fd_333d;
    assert Fed(0x33fd_333d, 0xff) == 0x2285_ab00;
    assert Fed(0x2285_ab00, 0xff) == 0xad5f_d6fa;
    assert Fed(0xad5f_d6fa, 0xff) == 0x355c_4bca;
    assert Fed(0x355c_4bca, 0xff) == 0x0527_01e6;
    assert Fed(0x0527_01e6, 0xff) == 0x68e9_3ba2;
    assert Fed(0x68e9_3ba2, 0xff) == 0xee65_7f3b;
  }

  lemma {:induction false} EightOnes32()
    ensures Fed(Fed(Fed(Fed(0xee65_7f3b, 0xff), 0xff), 0xff), 0xff) == 0x9561_6c2a
    ensures Fed(Fed(Fed(Fed(0x9561_6c2a, 0xff), 0xff), 0xff), 0xff) == 0x9d57_54bc
  {
    assert Fed(0xee65_7f3b, 0xff) == 0x04f9_d4a4;
    assert Fed(0x04f9_d4a4, 0xff) == 0xc8a8_883c;
    assert Fed(0xc8a8_883c, 0xff) == 0xd015_7db8;
    assert Fed(0xd015_7db8, 0xff) == 0x9561_6c2a;
    assert Fed(0x9561_6c2a, 0xff) == 0xe6b7_94db;
    assert Fed(0xe6b7_94db, 0xff) == 0xe7c1_ae55;
    assert Fed(0xe7c1_ae55, 0xff) == 0xc94e_5c30;
    assert Fed(0xc94e_5c30, 0xff) == 0x9d57_54bc;
  }

  /** From section B.4 of RFC 3720: 32 bytes of 0xff. */
  lemma {:induction false} ChecksumOfOnes()
    ensures Checksum(0, seq(32, _ => 0xff)) == 0x62a8_ab43
  {
    hide Register, Fed;
    assert Same(32, 0xff) == seq(32, _ => 0xff);
    NoBytes(0xffff_ffff, 0xff);
    FourMoreBytes(0xffff_ffff, 0, 0xff);
    FourMoreBytes(0xffff_ffff, 4, 0xff);
    FourMoreBytes(0xffff_ffff, 8, 0xff);
    FourMoreBytes(0xffff_ffff, 12, 0xff);
    FourMoreBytes(0xffff_ffff, 16, 0xff);
    FourMoreBytes(0xffff_ffff, 20, 0xff);
    FourMoreBytes(0xffff_ffff, 24, 0xff);
    FourMoreBytes(0xffff_ffff, 28, 0xff);
    EightOnes8();
    EightOnes16();
    EightOnes24();
    EightOnes32();
  }
}
