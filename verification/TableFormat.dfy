/** What a table file is made of: blocks with trailers, handles that point to them, and the footer. */
module TableFormat {
  import opened Coding
  import opened Options
  import opened Varints
  import opened Crc32c

  const TRAILER_SIZE: nat := 5
  const NO_COMPRESSION: bv8 := 0
  const MAX_HANDLE: nat := 20
  const FOOTER_SIZE: nat := 48
  const MAGIC_LOW: nat := 0x8b80fb57
  const MAGIC_HIGH: nat := 0xdb477524

  // ----- Handles

  datatype BlockHandle = BlockHandle(offset: nat, size: nat)

  predicate ValidHandle(h: BlockHandle) {
    h.offset < TWO_64 && h.size < TWO_64
  }

  function EncodeHandle(h: BlockHandle): (r: Bytes)
    ensures |r| >= 2
  {
    Varint(h.offset) + Varint(h.size)
  }

  /** A handle read from the front of the input, and how many bytes it took. */
  datatype HandleRead = HandleRead(handle: BlockHandle, used: nat)

  function DecodeHandle(input: Bytes): (r: Option<HandleRead>)
    ensures r.Some? ==> r.value.used <= |input|
  {
    match ReadVarint(input, 10)
    case None => None
    case Some(a) =>
      match ReadVarint(input[a.used..], 10)
      case None => None
      case Some(b) => Some(HandleRead(BlockHandle(Cut(a.value, TWO_64), Cut(b.value, TWO_64)), a.used + b.used))
  }

  lemma {:induction false} DecodeInvertsHandle(h: BlockHandle, rest: Bytes)
    requires ValidHandle(h)
    ensures DecodeHandle(EncodeHandle(h) + rest) == Some(HandleRead(h, |EncodeHandle(h)|)) && |EncodeHandle(h)| <= MAX_HANDLE
  {
    hide Varint, ReadVarint;
    VarintWidths(h.offset);
    VarintWidths(h.size);
    var a, b := Varint(h.offset), Varint(h.size);
    ReadInvertsVarint(h.offset, b + rest, 10);
    ReadInvertsVarint(h.size, rest, 10);
    assert EncodeHandle(h) + rest == a + (b + rest);
    assert (a + (b + rest))[|a|..] == b + rest;
  }

  method EncodeTo(h: BlockHandle) returns (r: Bytes)
    requires ValidHandle(h)
    ensures r == EncodeHandle(h)
  {
    hide Varint;
    var a := EncodeVarint64(h.offset);
    var b := EncodeVarint64(h.size);
    r := a + b;
  }

  method DecodeFrom(input: Bytes) returns (r: Option<HandleRead>)
    ensures r == DecodeHandle(input)
  {
    hide ReadVarint, Cut;
    var a := GetVarint(input, 10, TWO_64);
    if a.None? {
      return None;
    }
    var b := GetVarint(input[a.value.used..], 10, TWO_64);
    if b.None? {
      return None;
    }
    return Some(HandleRead(BlockHandle(a.value.value, b.value.value), a.value.used + b.value.used));
  }

  // ----- Stored blocks

  /** The type of a block's contents and the checksum of both. */
  function Trailer(contents: Bytes): (r: Bytes)
    ensures |r| == TRAILER_SIZE
  {
    [NO_COMPRESSION] + EncodeFixed32(Mask(Checksum(0, contents + [NO_COMPRESSION])))
  }

  ghost predicate Stored(file: Bytes, offset: nat, contents: Bytes) {
    && offset + |contents| + TRAILER_SIZE <= |file|
    && file[offset..offset + |contents|] == contents
    && file[offset + |contents|..offset + |contents| + TRAILER_SIZE] == Trailer(contents)
  }

  lemma {:induction false} StaysStored(file: Bytes, more: Bytes, offset: nat, contents: Bytes)
    requires Stored(file, offset, contents)
    ensures Stored(file + more, offset, contents)
  {
    hide Trailer;
    var a, b := offset + |contents|, offset + |contents| + TRAILER_SIZE;
    assert (file + more)[offset..a] == file[offset..a];
    assert (file + more)[a..b] == file[a..b];
  }

  lemma {:induction false} NowStored(file: Bytes, contents: Bytes)
    ensures Stored(file + contents + Trailer(contents), |file|, contents)
  {
    hide Trailer;
  }

  datatype BlockRead = Contents(data: Bytes) | Truncated | ChecksumMismatch | Compressed | BadType

  predicate FitsFile(file: Bytes, h: BlockHandle) {
    h.offset + h.size + TRAILER_SIZE <= |file|
  }

  /** The checksum in the trailer is the one of contents and type. */
  predicate ChecksumHolds(file: Bytes, h: BlockHandle)
    requires FitsFile(file, h)
  {
    var data := file[h.offset..h.offset + h.size + TRAILER_SIZE];
    Unmask(DecodeFixed32(data[h.size + 1..])) == Checksum(0, data[..h.size + 1])
  }

  /** Reads the block of a handle; foreign compression is not looked into. */
  method ReadBlock(file: Bytes, h: BlockHandle, verifyChecksums: bool) returns (r: BlockRead)
    ensures r.Contents? ==> h.offset + h.size <= |file| && r.data == file[h.offset..h.offset + h.size]
    ensures forall contents :: Stored(file, h.offset, contents) && |contents| == h.size ==> r == Contents(contents)
    ensures r == Truncated <==> !FitsFile(file, h)
    ensures FitsFile(file, h) ==>
      var kind := file[h.offset + h.size];
      && (r == ChecksumMismatch <==> verifyChecksums && !ChecksumHolds(file, h))
      && (r == Compressed <==> (verifyChecksums ==> ChecksumHolds(file, h)) && kind == 1)
      && (r == BadType <==> (verifyChecksums ==> ChecksumHolds(file, h)) && kind != NO_COMPRESSION && kind != 1)
  {
    hide Checksum, Mask, Unmask, EncodeFixed32, DecodeFixed32, Stored, Trailer;
    var n := h.size;
    if h.offset + n + TRAILER_SIZE > |file| {
      NotStored(file, h);
      return Truncated;
    }
    var data := file[h.offset..h.offset + n + TRAILER_SIZE];
    forall contents | Stored(file, h.offset, contents) && |contents| == h.size
      ensures data[..n] == contents && data[n] == NO_COMPRESSION
      ensures Unmask(DecodeFixed32(data[n + 1..])) == Checksum(0, data[..n + 1])
    {
      StoredReads(file, h, contents);
    }
    if verifyChecksums {
      var crc := Unmask(DecodeFixed32(data[n + 1..]));
      var actual := Extend(0, data[..n + 1], 0);
      if actual != crc {
        return ChecksumMismatch;
      }
    }
    assert data[..n] == file[h.offset..h.offset + n];
    if data[n] == NO_COMPRESSION {
      r := Contents(data[..n]);
    } else if data[n] == 1 {
      r := Compressed;
    } else {
      r := BadType;
    }
  }

  lemma {:induction false} NotStored(file: Bytes, h: BlockHandle)
    requires h.offset + h.size + TRAILER_SIZE > |file|
    ensures forall contents :: |contents| == h.size ==> !Stored(file, h.offset, contents)
  {
  }

  lemma {:induction false} StoredReads(file: Bytes, h: BlockHandle, contents: Bytes)
    requires Stored(file, h.offset, contents) && |contents| == h.size
    ensures var data, n := file[h.offset..h.offset + h.size + TRAILER_SIZE], h.size;
      && data[..n] == contents && data[n] == NO_COMPRESSION
      && Unmask(DecodeFixed32(data[n + 1..])) == Checksum(0, data[..n + 1])
  {
    hide Checksum, Mask, Unmask, EncodeFixed32, DecodeFixed32;
    var data, n := file[h.offset..h.offset + h.size + TRAILER_SIZE], h.size;
    var crc := Checksum(0, contents + [NO_COMPRESSION]);
    assert data == contents + Trailer(contents);
    assert data[..n + 1] == contents + [NO_COMPRESSION];
    assert data[n + 1..] == EncodeFixed32(Mask(crc)) + [];
    DecodeInvertsEncode(Mask(crc), []);
    UnmaskInvertsMask(crc);
  }

  // ----- The footer

  function Padded(b: Bytes, size: nat): (r: Bytes)
    requires |b| <= size
    ensures |r| == size
  {
    b + seq(size - |b|, _ => 0)
  }

  function EncodeFooter(meta: BlockHandle, index: BlockHandle): (r: Bytes)
    requires |EncodeHandle(meta) + EncodeHandle(index)| <= 2 * MAX_HANDLE
    ensures |r| == FOOTER_SIZE
  {
    Padded(EncodeHandle(meta) + EncodeHandle(index), 2 * MAX_HANDLE) + (Fixed(MAGIC_LOW, 4) + Fixed(MAGIC_HIGH, 4))
  }

  datatype Footer = Footer(meta: BlockHandle, index: BlockHandle) | BadMagic | BadHandle

  function DecodeFooter(input: Bytes): Footer
    requires |input| == FOOTER_SIZE
  {
    if FixedValue(input[FOOTER_SIZE - 8..], 4) != MAGIC_LOW || FixedValue(input[FOOTER_SIZE - 4..], 4) != MAGIC_HIGH then BadMagic
    else
      match DecodeHandle(input)
      case None => BadHandle
      case Some(meta) =>
        match DecodeHandle(input[meta.used..])
        case None => BadHandle
        case Some(index) => Footer(meta.handle, index.handle)
  }

  lemma {:induction false} DecodeInvertsFooter(meta: BlockHandle, index: BlockHandle)
    requires ValidHandle(meta) && ValidHandle(index)
    ensures |EncodeHandle(meta) + EncodeHandle(index)| <= 2 * MAX_HANDLE
    ensures DecodeFooter(EncodeFooter(meta, index)) == Footer(meta, index)
  {
    hide EncodeHandle, DecodeHandle, Fixed, FixedValue, Pow256;
    var a, b := EncodeHandle(meta), EncodeHandle(index);
    DecodeInvertsHandle(meta, []);
    DecodeInvertsHandle(index, []);
    var pad := seq(2 * MAX_HANDLE - |a + b|, _ => 0 as bv8);
    var low, high := Fixed(MAGIC_LOW, 4), Fixed(MAGIC_HIGH, 4);
    var footer := EncodeFooter(meta, index);
    var rest := pad + (low + high);
    assert footer == a + (b + rest);
    assert footer[|a|..] == b + rest;
    DecodeInvertsHandle(meta, b + rest);
    DecodeInvertsHandle(index, rest);
    FixedWidths();
    FixedValueInvertsFixed(MAGIC_LOW, 4, high);
    FixedValueInvertsFixed(MAGIC_HIGH, 4, []);
    assert footer[FOOTER_SIZE - 8..] == low + high;
    assert footer[FOOTER_SIZE - 4..] == high + [];
  }
}
