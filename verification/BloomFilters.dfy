/** Bloom filters: bits probed by double hashing. */
module BloomFilters {
  import opened Coding
  import opened Octets

  // ----- Bits

  function BitMask(i: nat): bv8
    requires i < 8
  {
    1 << i
  }

  predicate Has(b: bv8, i: nat)
    requires i < 8
  {
    b & BitMask(i) != 0
  }

  function With(b: bv8, i: nat): bv8
    requires i < 8
  {
    b | BitMask(i)
  }

  predicate BitSet(bits: Bytes, pos: nat)
    requires pos < 8 * |bits|
  {
    Has(bits[pos / 8], pos % 8)
  }

  lemma {:induction false} WithHas(b: bv8, i: nat, j: nat)
    requires i < 8 && j < 8
    ensures Has(With(b, i), j) <==> i == j || Has(b, j)
  {
    MaskIs(i);
    MaskIs(j);
  }

  lemma {:induction false} MaskIs(i: nat)
    requires i < 8
    ensures BitMask(i) == [1, 2, 4, 8, 16, 32, 64, 128][i]
  {
    if
    case i == 0 =>
    case i == 1 =>
    case i == 2 =>
    case i == 3 =>
    case i == 4 =>
    case i == 5 =>
    case i == 6 =>
    case i == 7 =>
  }

  /** Setting a bit sets that one and leaves the others. */
  lemma {:induction false} SetOne(bits: Bytes, pos: nat, q: nat)
    requires pos < 8 * |bits| && q < 8 * |bits|
    ensures BitSet(bits[pos / 8 := With(bits[pos / 8], pos % 8)], q) <==> q == pos || BitSet(bits, q)
  {
    hide Has, With;
    WithHas(bits[pos / 8], pos % 8, q % 8);
  }

  // ----- Hashing

  const HASH_SEED: bv32 := 0xbc9f1d34
  const HASH_FACTOR: bv32 := 0xc6a4a793

  function HashWords(h: bv32, data: Bytes): bv32
    decreases |data|
  {
    if |data| < 4 then h
    else
      var a := (h + DecodeFixed32(data)) * HASH_FACTOR;
      HashWords(a ^ (a >> 16), data[4..])
  }

  function HashTail(h: bv32, data: Bytes): bv32
    requires |data| < 4
  {
    if data == [] then h
    else
      var a := h + (if |data| == 3 then (data[2] as bv32) << 16 else 0);
      var b := a + (if |data| >= 2 then (data[1] as bv32) << 8 else 0);
      var c := (b + (data[0] as bv32)) * HASH_FACTOR;
      c ^ (c >> 24)
  }

  /** The hash that filters are built on. */
  function BloomHash(key: Bytes): bv32
    requires |key| < 0x1_0000_0000
  {
    HashTail(HashWords(HASH_SEED ^ ((|key| as bv32) * HASH_FACTOR), key), key[|key| - |key| % 4..])
  }

  function Delta(h: bv32): bv32 {
    (h >> 17) | (h << 15)
  }

  function Advance(h: bv32, delta: bv32): bv32 {
    h + delta
  }

  function Number(h: bv32): nat {
    h as nat
  }

  function Remainder(n: nat, d: nat): (r: nat)
    requires d > 0
    ensures r < d
  {
    n % d
  }

  function Position(h: bv32, bits: nat): (p: nat)
    requires bits > 0
    ensures p < bits
  {
    Remainder(Number(h), bits)
  }

  /** The hash value of probe j. */
  function ProbeHash(h: bv32, delta: bv32, j: nat): bv32 {
    if j == 0 then h else Advance(ProbeHash(h, delta, j - 1), delta)
  }

  function Probe(key: Bytes, j: nat, bits: nat): (p: nat)
    requires |key| < 0x1_0000_0000 && bits > 0
    ensures p < bits
  {
    Position(ProbeHash(BloomHash(key), Delta(BloomHash(key)), j), bits)
  }

  // ----- What a filter says

  predicate Hashable(keys: seq<Bytes>) {
    forall key | key in keys :: |key| < 0x1_0000_0000
  }

  /** All probes of the key hit set bits. */
  predicate AllProbesHit(key: Bytes, bits: Bytes, k: nat)
    requires |key| < 0x1_0000_0000 && bits != []
  {
    forall j | 0 <= j < k :: BitSet(bits, Probe(key, j, 8 * |bits|))
  }

  /** The answer of a filter: it is too short to say yes, or of another kind, or all probes hit. */
  predicate Matches(key: Bytes, filter: Bytes)
    requires |key| < 0x1_0000_0000
  {
    var n := |filter|;
    n >= 2 && (Value(filter[n - 1]) > 30 || AllProbesHit(key, filter[..n - 1], Value(filter[n - 1])))
  }

  ghost predicate Probed(keys: seq<Bytes>, k: nat, bits: nat, pos: nat)
    requires Hashable(keys) && bits > 0
  {
    exists i, j :: 0 <= i < |keys| && 0 <= j < k && Probe(keys[i], j, bits) == pos
  }

  ghost predicate SetWhereProbed(keys: seq<Bytes>, k: nat, bits: Bytes)
    requires Hashable(keys) && bits != []
  {
    forall pos: nat | pos < 8 * |bits| :: BitSet(bits, pos) <==> Probed(keys, k, 8 * |bits|, pos)
  }

  /** The filter's bits are those that its keys probe, no more and no less. */
  ghost predicate FilterOf(keys: seq<Bytes>, k: nat, filter: Bytes)
    requires Hashable(keys)
  {
    && |filter| >= 9 && k <= 30 && Value(filter[|filter| - 1]) == k
    && SetWhereProbed(keys, k, filter[..|filter| - 1])
  }

  /** No false negatives: a filter says yes for each of its keys. */
  lemma {:induction false} FilterMatchesItsKeys(keys: seq<Bytes>, k: nat, filter: Bytes, i: nat)
    requires Hashable(keys) && FilterOf(keys, k, filter) && i < |keys|
    ensures Matches(keys[i], filter)
  {
    hide BitSet, Probe, Value;
    var bits := filter[..|filter| - 1];
    assert keys[i] in keys;
    forall j | 0 <= j < k ensures BitSet(bits, Probe(keys[i], j, 8 * |bits|)) {
      assert Probed(keys, k, 8 * |bits|, Probe(keys[i], j, 8 * |bits|));
    }
  }

  method KeyMayMatch(key: Bytes, filter: Bytes) returns (r: bool)
    requires |key| < 0x1_0000_0000
    ensures r <==> Matches(key, filter)
  {
    hide Has, BloomHash, Delta, Advance, Position, Value;
    var len := |filter|;
    if len < 2 {
      return false;
    }
    var bits := (len - 1) * 8;
    var k := Value(filter[len - 1]);
    if k > 30 {
      return true;
    }
    var h := BloomHash(key);
    var delta := Delta(h);
    ghost var h0 := h;
    var j := 0;
    while j < k
      invariant j <= k && h == ProbeHash(h0, delta, j)
      invariant forall i | 0 <= i < j :: BitSet(filter[..len - 1], Probe(key, i, bits))
    {
      var bitpos := Position(h, bits);
      ProbeIs(key, j, bits);
      assert BitSet(filter[..len - 1], bitpos) <==> Has(filter[bitpos / 8], bitpos % 8);
      assert filter[..len - 1][bitpos / 8] == filter[bitpos / 8];
      if !Has(filter[bitpos / 8], bitpos % 8) {
        return false;
      }
      h := Advance(h, delta);
      j := j + 1;
    }
    return true;
  }

  /** Bits of the first n keys and of the first m probes of the next. */
  ghost predicate ProbedSoFar(keys: seq<Bytes>, k: nat, n: nat, m: nat, bits: nat, pos: nat)
    requires Hashable(keys) && bits > 0 && n <= |keys|
  {
    || (exists i, j :: 0 <= i < n && 0 <= j < k && Probe(keys[i], j, bits) == pos)
    || (n < |keys| && exists j :: 0 <= j < m && Probe(keys[n], j, bits) == pos)
  }

  ghost predicate SetSoFar(keys: seq<Bytes>, k: nat, n: nat, m: nat, bits: Bytes)
    requires Hashable(keys) && bits != [] && n <= |keys|
  {
    forall pos: nat | pos < 8 * |bits| :: BitSet(bits, pos) <==> ProbedSoFar(keys, k, n, m, 8 * |bits|, pos)
  }

  lemma {:induction false} OneMoreProbe(keys: seq<Bytes>, k: nat, n: nat, m: nat, bits: Bytes, at: nat)
    requires Hashable(keys) && bits != [] && n < |keys| && SetSoFar(keys, k, n, m, bits)
    requires keys[n] in keys && at == Probe(keys[n], m, 8 * |bits|)
    ensures SetSoFar(keys, k, n, m + 1, bits[at / 8 := With(bits[at / 8], at % 8)])
  {
    hide BitSet, Probe, With;
    var bits' := bits[at / 8 := With(bits[at / 8], at % 8)];
    forall pos: nat | pos < 8 * |bits'| ensures BitSet(bits', pos) <==> ProbedSoFar(keys, k, n, m + 1, 8 * |bits'|, pos) {
      SetOne(bits, at, pos);
      assert ProbedSoFar(keys, k, n, m, 8 * |bits|, pos) <==> BitSet(bits, pos);
    }
  }

  lemma {:induction false} NextKey(keys: seq<Bytes>, k: nat, n: nat, bits: Bytes)
    requires Hashable(keys) && bits != [] && n < |keys| && SetSoFar(keys, k, n, k, bits)
    ensures SetSoFar(keys, k, n + 1, 0, bits)
  {
    hide BitSet, Probe;
    forall pos: nat | pos < 8 * |bits| ensures BitSet(bits, pos) <==> ProbedSoFar(keys, k, n + 1, 0, 8 * |bits|, pos) {
      assert BitSet(bits, pos) <==> ProbedSoFar(keys, k, n, k, 8 * |bits|, pos);
    }
  }

  lemma {:induction false} AllProbed(keys: seq<Bytes>, k: nat, bits: Bytes)
    requires Hashable(keys) && bits != [] && SetSoFar(keys, k, |keys|, 0, bits)
    ensures SetWhereProbed(keys, k, bits)
  {
    hide BitSet, Probe;
    forall pos: nat | pos < 8 * |bits| ensures BitSet(bits, pos) <==> Probed(keys, k, 8 * |bits|, pos) {
      assert BitSet(bits, pos) <==> ProbedSoFar(keys, k, |keys|, 0, 8 * |bits|, pos);
    }
  }

  lemma {:induction false} NothingProbed(keys: seq<Bytes>, k: nat, bits: Bytes)
    requires Hashable(keys) && bits != [] && forall i | 0 <= i < |bits| :: bits[i] == 0
    ensures SetSoFar(keys, k, 0, 0, bits)
  {
    forall pos: nat | pos < 8 * |bits| ensures !BitSet(bits, pos) {
      ZeroHasNone(pos % 8);
    }
  }

  lemma {:induction false} ZeroHasNone(i: nat)
    requires i < 8
    ensures !Has(0, i)
  {
  }

  /** Appends a filter for the keys: as many bits as are wanted for each, at least 64, in whole bytes. */
  /** The bits asked for, at least 64, up to the next full byte. */
  predicate SizedFor(asked: nat, bits: int) {
    asked <= bits && 64 <= bits && (bits < asked + 8 || bits == 64)
  }

  method FilterBytes(asked: nat) returns (bytes: nat)
    ensures bytes >= 8 && SizedFor(asked, 8 * bytes)
  {
    var bits := asked;
    if bits < 64 {
      bits := 64;
    }
    bytes := (bits + 7) / 8;
  }

  /** Sets the bits that the keys probe. */
  method ProbeAll(keys: seq<Bytes>, k: nat, bytes: nat) returns (cells: array<bv8>)
    requires Hashable(keys) && bytes > 0
    ensures fresh(cells) && cells.Length == bytes && SetWhereProbed(keys, k, cells[..])
  {
    hide With, Probe, BitSet, BloomHash, Delta, Advance, Position, SetSoFar;
    cells := new bv8[bytes](_ => 0);
    NothingProbed(keys, k, cells[..]);
    for i := 0 to |keys|
      invariant SetSoFar(keys, k, i, 0, cells[..])
    {
      assert keys[i] in keys;
      var h := BloomHash(keys[i]);
      var delta := Delta(h);
      ghost var h0 := h;
      for j := 0 to k
        invariant h == ProbeHash(h0, delta, j) && SetSoFar(keys, k, i, j, cells[..])
      {
        var bitpos := Position(h, 8 * bytes);
        ProbeIs(keys[i], j, 8 * bytes);
        OneMoreProbe(keys, k, i, j, cells[..], bitpos);
        ghost var before := cells[..];
        cells[bitpos / 8] := With(cells[bitpos / 8], bitpos % 8);
        assert cells[..] == before[bitpos / 8 := With(before[bitpos / 8], bitpos % 8)];
        h := Advance(h, delta);
      }
      NextKey(keys, k, i, cells[..]);
    }
    AllProbed(keys, k, cells[..]);
  }

  lemma {:induction false} FilterIs(keys: seq<Bytes>, k: nat, bits: Bytes, asked: nat, last: bv8)
    requires Hashable(keys) && k <= 30 && |bits| >= 8 && SetWhereProbed(keys, k, bits) && SizedFor(asked, 8 * |bits|) && last == Byte(k)
    ensures FilterOf(keys, k, bits + [last]) && SizedFor(asked, 8 * (|bits + [last]| - 1))
  {
    hide SetWhereProbed, SizedFor;
    assert (bits + [last])[..|bits|] == bits;
  }

  method CreateFilter(keys: seq<Bytes>, bitsPerKey: nat, k: nat, dst: Bytes) returns (r: Bytes)
    requires Hashable(keys) && 1 <= k <= 30
    ensures exists f :: r == dst + f && FilterOf(keys, k, f) && SizedFor(|keys| * bitsPerKey, 8 * (|f| - 1))
  {
    hide FilterOf, SetWhereProbed, SizedFor, Byte, Value;
    var bytes := FilterBytes(|keys| * bitsPerKey);
    var cells := ProbeAll(keys, k, bytes);
    var last := Byte(k);
    FilterIs(keys, k, cells[..], |keys| * bitsPerKey, last);
    r := dst + cells[..];
    r := r + [last];
    assert r == dst + (cells[..] + [last]);
  }

  lemma {:induction false} ProbeIs(key: Bytes, j: nat, bits: nat)
    requires |key| < 0x1_0000_0000 && bits > 0
    ensures Probe(key, j, bits) == Position(ProbeHash(BloomHash(key), Delta(BloomHash(key)), j), bits)
  {
  }
}
