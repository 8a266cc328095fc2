/** Samples of the formats on disk, byte for byte. A round trip alone would not notice a changed tag. */
module KnownBytes {
  import opened Coding
  import opened Octets
  import opened Options
  import opened Varints
  import opened Crc32c
  import B = BloomFilters
  import C = Comparators
  import E = VersionEdits
  import L = LogFormat
  import M = MemTables
  import T = TableFormat
  import W = WriteBatches

  // ----- Numbers

  lemma {:induction false} SmallVarint(b: bv8)
    requires Value(b) < 128
    ensures Varint(Value(b)) == [b]
  {
    OneByte(Value(b), b);
  }

  lemma {:induction false} VarintSamples()
    ensures Varint(127) == [127] && Varint(128) == [128, 1] && Varint(300) == [172, 2]
  {
    hide Byte, Value;
    assert Value(127) == 127 && Value(128) == 128 && Value(172) == 172 && Value(1) == 1 && Value(2) == 2 by {
      SmallValues();
    }
    ByteInvertsValue(128);
    ByteInvertsValue(172);
    OneByte(127, 127);
    OneByte(1, 1);
    OneByte(2, 2);
    Unroll(128);
    Unroll(300);
    assert More(128) == 128 && More(300) == 172 by {
      ByteInvertsValue(More(128));
      ByteInvertsValue(More(300));
    }
  }

  lemma {:induction false} SmallValues()
    ensures Value(0) == 0 && Value(1) == 1 && Value(2) == 2 && Value(3) == 3 && Value(4) == 4 && Value(5) == 5 && Value(6) == 6
    ensures Value(7) == 7 && Value(8) == 8 && Value(9) == 9 && Value(57) == 57 && Value(100) == 100 && Value(127) == 127 && Value(128) == 128 && Value(172) == 172
  {
  }

  lemma {:induction false} FixedStep(v: nat, width: nat, b: bv8)
    requires width > 0 && v % 256 == Value(b)
    ensures Fixed(v, width) == [b] + Fixed(v / 256, width - 1)
  {
    ByteInvertsValue(b);
  }

  lemma {:induction false} FixedZero(width: nat)
    ensures forall i | 0 <= i < width :: Fixed(0, width)[i] == 0
  {
    if width > 0 {
      FixedZero(width - 1);
      FixedStep(0, width, 0);
    }
  }

  lemma {:induction false} SmallFixed(b: bv8, width: nat)
    requires width > 0
    ensures Fixed(Value(b), width)[0] == b && forall i | 0 < i < width :: Fixed(Value(b), width)[i] == 0
  {
    hide Value;
    FixedStep(Value(b), width, b);
    FixedZero(width - 1);
  }

  // ----- A batch

  /** Sequence 100, two writes: a value for one key and the deletion of another. */
  lemma {:induction false} BatchSample()
    ensures W.Rep(100, [W.Put([102], [98]), W.Delete([99])]) ==
      [100, 0, 0, 0, 0, 0, 0, 0, 2, 0, 0, 0, 1, 1, 102, 1, 98, 0, 1, 99]
  {
    hide Fixed, Varint, Byte, Value;
    SmallValues();
    SmallFixed(100, 8);
    SmallFixed(2, 4);
    OneByte(1, 1);
    ByteInvertsValue(0);
    ByteInvertsValue(1);
    var ops := [W.Put([102], [98]), W.Delete([99])];
    assert ops[1..] == [W.Delete([99])] && ops[1..][1..] == [];
    assert W.Records(ops) == W.Record(ops[0]) + W.Records(ops[1..]);
    assert W.Records(ops[1..]) == W.Record(W.Delete([99])) + W.Records([]);
  }

  // ----- An internal key

  /** The key of the value written for "a" at sequence 2; the largest sequence fills its seven bytes. */
  lemma {:induction false} InternalKeySample()
    ensures M.KeyBytes(M.Write([97], 2, true, [])) == [97, 1, 2, 0, 0, 0, 0, 0, 0]
    ensures M.KeyBytes(M.Write([97], 2, false, [])) == [97, 0, 2, 0, 0, 0, 0, 0, 0]
    ensures M.PackSequenceAndType(M.MAX_SEQUENCE, true) == 0xFFFF_FFFF_FFFF_FF01
  {
    hide Fixed, Byte, Value;
    SmallValues();
    FixedStep(513, 8, 1);
    FixedStep(512, 8, 0);
    SmallFixed(2, 7);
  }

  // ----- A version edit

  const SAMPLE: E.Edit := E.Edit(Some([97]), Some(3), Some(0), Some(9), Some(57), [(1, [98])], [(2, 7)], [(0, E.FileRecord(5, 300, [99], [100]))])

  lemma {:induction false} FieldSamples()
    ensures E.EncodeField(E.Comparator([97])) == [1, 1, 97]
    ensures E.EncodeField(E.Number(E.LOG_NUMBER, 3)) == [2, 3]
    ensures E.EncodeField(E.Number(E.PREV_LOG_NUMBER, 0)) == [9, 0]
    ensures E.EncodeField(E.Number(E.NEXT_FILE_NUMBER, 9)) == [3, 9]
    ensures E.EncodeField(E.Number(E.LAST_SEQUENCE, 57)) == [4, 57]
    ensures E.EncodeField(E.CompactPointer(1, [98])) == [5, 1, 1, 98]
    ensures E.EncodeField(E.DeletedFile(2, 7)) == [6, 2, 7]
    ensures E.EncodeField(E.NewFile(0, E.FileRecord(5, 300, [99], [100]))) == [7, 0, 5, 172, 2, 1, 99, 1, 100]
  {
    hide Varint, Value;
    SmallValues();
    VarintSamples();
    SmallVarint(0);
    SmallVarint(1);
    SmallVarint(2);
    SmallVarint(3);
    SmallVarint(4);
    SmallVarint(5);
    SmallVarint(6);
    SmallVarint(7);
    SmallVarint(9);
    SmallVarint(57);
  }

  /** An edit with one field of every kind. */
  lemma {:induction false} EditSample()
    ensures E.EncodeEdit(SAMPLE) ==
      [1, 1, 97, 2, 3, 9, 0, 3, 9, 4, 57, 5, 1, 1, 98, 6, 2, 7, 7, 0, 5, 172, 2, 1, 99, 1, 100]
  {
    hide E.EncodeField, E.EncodeFields, E.FieldsOf;
    FieldSamples();
    SampleFields();
    var fields := E.FieldsOf(SAMPLE);
    EncodeFour(fields[..4]);
    EncodeFour(fields[4..]);
    E.EncodeAppend(fields[..4], fields[4..]);
    assert fields[..4] + fields[4..] == fields;
  }

  lemma {:induction false} SampleFields()
    ensures E.FieldsOf(SAMPLE) == [
      E.Comparator([97]), E.Number(E.LOG_NUMBER, 3), E.Number(E.PREV_LOG_NUMBER, 0), E.Number(E.NEXT_FILE_NUMBER, 9),
      E.Number(E.LAST_SEQUENCE, 57), E.CompactPointer(1, [98]), E.DeletedFile(2, 7), E.NewFile(0, E.FileRecord(5, 300, [99], [100]))]
  {
  }

  /** Level 6 is the last one, tag 8 is not in use, and a field must be there whole. */
  lemma {:induction false} RefusedSamples()
    ensures E.ParseFields([6, 6, 1]) == E.Parsed([E.DeletedFile(6, 1)], true)
    ensures !E.ParseFields([6, 7, 1]).ok && !E.ParseFields([8, 1]).ok && !E.ParseFields([6, 6]).ok
  {
    hide E.ParseFields;
    LastLevel();
    NoSuchLevel();
    NoSuchTag();
    CutShort();
  }

  lemma {:induction false} LastLevel()
    ensures E.ParseFields([6, 6, 1]) == E.Parsed([E.DeletedFile(6, 1)], true)
  {
    hide Value, E.GetNumber;
    SmallValues();
    OneNumber(6, [6, 1]);
    OneNumber(6, [1]);
    OneNumber(1, []);
    NoNumber();
    assert [6 as bv8] + [6, 1] == [6, 6, 1] && [6 as bv8] + [1] == [6, 1] && [1 as bv8] + [] == [1];
    assert E.GetBody(6, [6, 1]) == E.Got(E.DeletedFile(6, 1), []);
    assert E.ParseFields([]) == E.Parsed([], true);
  }

  lemma {:induction false} NoSuchLevel()
    ensures !E.ParseFields([6, 7, 1]).ok
  {
    hide Value, E.GetNumber;
    SmallValues();
    OneNumber(6, [7, 1]);
    OneNumber(7, [1]);
    assert [6 as bv8] + [7, 1] == [6, 7, 1] && [7 as bv8] + [1] == [7, 1];
    assert E.GetBody(6, [7, 1]) == E.Bad;
  }

  lemma {:induction false} NoSuchTag()
    ensures !E.ParseFields([8, 1]).ok
  {
    hide Value, E.GetNumber;
    SmallValues();
    OneNumber(8, [1]);
    assert [8 as bv8] + [1] == [8, 1];
    assert E.GetBody(8, [1]) == E.Bad;
  }

  lemma {:induction false} CutShort()
    ensures !E.ParseFields([6, 6]).ok
  {
    hide Value, E.GetNumber;
    SmallValues();
    OneNumber(6, [6]);
    OneNumber(6, []);
    NoNumber();
    assert [6 as bv8] + [6] == [6, 6] && [6 as bv8] + [] == [6];
    assert E.GetBody(6, [6]) == E.Bad;
  }

  lemma {:induction false} NoNumber()
    ensures E.GetNumber([], 5, TWO_32).Bad? && E.GetNumber([], 10, TWO_64).Bad?
  {
  }

  lemma {:induction false} OneNumber(b: bv8, rest: Bytes)
    requires Value(b) < 128
    ensures E.GetNumber([b] + rest, 5, TWO_32) == E.Got(Value(b), rest)
    ensures E.GetNumber([b] + rest, 10, TWO_64) == E.Got(Value(b), rest)
  {
    SmallVarint(b);
    E.GetInvertsVarint(Value(b), 5, TWO_32, rest);
    E.GetInvertsVarint(Value(b), 10, TWO_64, rest);
  }

  lemma {:induction false} EncodeFour(fields: seq<E.Field>)
    requires |fields| == 4
    ensures E.EncodeFields(fields) ==
      E.EncodeField(fields[0]) + E.EncodeField(fields[1]) + E.EncodeField(fields[2]) + E.EncodeField(fields[3])
  {
    hide E.EncodeField;
    E.NoFields();
    E.OneMoreField(fields, 0);
    E.OneMoreField(fields, 1);
    E.OneMoreField(fields, 2);
    E.OneMoreField(fields, 3);
    assert fields[..0] == [] && fields[..4] == fields;
    assert [] + E.EncodeField(fields[0]) == E.EncodeField(fields[0]);
  }

  // ----- Log records

  /** Where a record of up to three blocks is cut, and how its fragments are marked. */
  lemma {:induction false} FragmentSamples(data: Bytes)
    ensures |data| <= 32761 ==> L.Fragments(0, data, true) == [L.Piece(1, data)]
    ensures 32761 < |data| <= 65522 ==> L.Fragments(0, data, true) == [L.Piece(2, data[..32761]), L.Piece(4, data[32761..])]
    ensures 65522 < |data| <= 98283 ==>
      L.Fragments(0, data, true) == [L.Piece(2, data[..32761]), L.Piece(3, data[32761..65522]), L.Piece(4, data[65522..])]
  {
    if 65522 < |data| <= 98283 {
      var rest := data[32761..];
      assert L.Fragments(32768, rest, false) == [L.Piece(3, rest[..32761])] + L.Fragments(32768, rest[32761..], false);
      assert rest[..32761] == data[32761..65522] && rest[32761..] == data[65522..];
    }
  }

  /** A log of one short record: masked checksum of kind and payload, length, kind, payload. */
  lemma {:induction false} LogSample()
    ensures L.Log([[97, 98, 99]]) == EncodeFixed32(Mask(Checksum(0, [1, 97, 98, 99]))) + [3, 0, 1, 97, 98, 99]
  {
    hide Checksum, Mask, EncodeFixed32, L.Fragments, L.Physical;
    var data: Bytes := [97, 98, 99];
    FragmentSamples(data);
    assert [[97, 98, 99]][1..] == [];
    var piece := L.Piece(1, data);
    assert L.AllFragments(0, [data]) == [piece];
    assert L.Layout(0, [piece]) == L.Physical(piece) by {
      L.LayoutStep(0, [piece]);
      L.NothingLaidOut(10);
    }
    PhysicalSample();
  }

  lemma {:induction false} PhysicalSample()
    ensures L.Physical(L.Piece(1, [97, 98, 99])) == EncodeFixed32(Mask(Checksum(0, [1, 97, 98, 99]))) + [3, 0, 1, 97, 98, 99]
  {
    hide Checksum, Mask, EncodeFixed32;
    assert [1 as bv8] + [97, 98, 99] == [1, 97, 98, 99];
  }

  lemma {:induction false} MaskSamples()
    ensures Mask(0) == 0xa282_ead8 && Mask(1) == 0xa284_ead8 && Mask(0x8000) == 0xa282_ead9
  {
  }

  // ----- Tables

  /** The last eight bytes of every table. */
  lemma {:induction false} FooterMagic(meta: T.BlockHandle, index: T.BlockHandle)
    requires |T.EncodeHandle(meta) + T.EncodeHandle(index)| <= 40
    ensures |T.EncodeFooter(meta, index)| == 48
    ensures T.EncodeFooter(meta, index)[40..] == [0x57, 0xfb, 0x80, 0x8b, 0x24, 0x75, 0x47, 0xdb]
  {
    hide T.EncodeHandle, T.Padded, Fixed, Value;
    MagicBytes();
  }

  /** A file is taken for a table only if it ends with all of them. */
  lemma {:induction false} OtherMagic(input: Bytes)
    requires |input| == 48
    ensures T.DecodeFooter(input).BadMagic? <==> input[40..] != [0x57, 0xfb, 0x80, 0x8b, 0x24, 0x75, 0x47, 0xdb]
  {
    hide T.DecodeHandle, Fixed, FixedValue, Value;
    MagicBytes();
    WordIs(input[40..], 0x8b80fb57);
    WordIs(input[44..], 0xdb477524);
    var magic: Bytes := [0x57, 0xfb, 0x80, 0x8b, 0x24, 0x75, 0x47, 0xdb];
    assert magic[..4] == [0x57, 0xfb, 0x80, 0x8b] && magic[4..] == [0x24, 0x75, 0x47, 0xdb];
    assert input[40..][..4] == input[40..44] && input[44..][..4] == input[40..][4..];
    assert input[40..] == input[40..][..4] + input[40..][4..] && magic == magic[..4] + magic[4..];
  }

  lemma {:induction false} WordIs(b: Bytes, v: nat)
    requires |b| >= 4 && v < TWO_32
    ensures FixedValue(b, 4) == v <==> b[..4] == Fixed(v, 4)
  {
    hide Value, Byte;
    FixedReads(b, 4);
    FixedValueInvertsFixed(v, 4, b[4..]);
    FixedWidths();
    assert b == b[..4] + b[4..];
  }

  lemma {:induction false} FixedReads(b: Bytes, width: nat)
    requires width <= |b|
    ensures Fixed(FixedValue(b, width), width) == b[..width]
  {
    hide Value, Byte;
    if width > 0 {
      FixedReads(b[1..], width - 1);
      FixedStep(FixedValue(b, width), width, b[0]);
      assert b[..width] == [b[0]] + b[1..][..width - 1];
    }
  }

  lemma {:induction false} MagicBytes()
    ensures Fixed(0x8b80fb57, 4) == [0x57, 0xfb, 0x80, 0x8b]
    ensures Fixed(0xdb477524, 4) == [0x24, 0x75, 0x47, 0xdb]
  {
    hide Fixed;
    FixedStep(0x8b80fb57, 4, 0x57);
    FixedStep(0x8b80fb, 3, 0xfb);
    FixedStep(0x8b80, 2, 0x80);
    FixedStep(0x8b, 1, 0x8b);
    FixedStep(0xdb477524, 4, 0x24);
    FixedStep(0xdb4775, 3, 0x75);
    FixedStep(0xdb47, 2, 0x47);
    FixedStep(0xdb, 1, 0xdb);
    FixedZero(0);
  }

  // ----- Hashes

  /** The hash of filters, for keys of zero to four bytes. */
  lemma {:induction false} HashSamples()
    ensures B.BloomHash([]) == 0xbc9f1d34
    ensures B.BloomHash([0x62]) == 0xef1345c4
    ensures B.BloomHash([0xc3, 0x97]) == 0x5b663814
    ensures B.BloomHash([0xe2, 0x99, 0xa5]) == 0x323c078f
    ensures B.BloomHash([0xe1, 0x80, 0xb9, 0x32]) == 0xed21633a
  {
    hide B.BloomHash, B.HashTail, B.HashWords;
    StartOfHash([]);
    StartOfHash([0x62]);
    StartOfHash([0xc3, 0x97]);
    StartOfHash([0xe2, 0x99, 0xa5]);
    StartOfHash([0xe1, 0x80, 0xb9, 0x32]);
    Tails();
    TailOfThree();
    WordsOfFour();
    HashOfShort([], 0xbc9f1d34, 0xbc9f1d34);
    HashOfShort([0x62], 0x7a3bbaa7, 0xef1345c4);
    HashOfShort([0xc3, 0x97], 0x31d65212, 0x5b663814);
    HashOfShort([0xe2, 0x99, 0xa5], 0xef72eb8d, 0x323c078f);
    HashOfFour([0xe1, 0x80, 0xb9, 0x32], 0xa60d8378, 0xed21633a);
  }

  lemma {:induction false} StartOfHash(key: Bytes)
    requires |key| < 5
    ensures B.HASH_SEED ^ ((|key| as bv32) * B.HASH_FACTOR) == [0xbc9f1d34, 0x7a3bbaa7, 0x31d65212, 0xef72eb8d, 0xa60d8378][|key|]
  {
    if
    case |key| == 0 =>
    case |key| == 1 =>
    case |key| == 2 =>
    case |key| == 3 =>
    case |key| == 4 =>
  }

  lemma {:induction false} HashOfShort(key: Bytes, h: bv32, r: bv32)
    requires |key| < 4 && h == B.HASH_SEED ^ ((|key| as bv32) * B.HASH_FACTOR) && B.HashTail(h, key) == r
    ensures B.BloomHash(key) == r
  {
    hide B.HashTail;
    assert key[|key| - |key| % 4..] == key;
  }

  lemma {:induction false} HashOfFour(key: Bytes, h: bv32, r: bv32)
    requires |key| == 4 && h == B.HASH_SEED ^ ((|key| as bv32) * B.HASH_FACTOR) && B.HashWords(h, key) == r
    ensures B.BloomHash(key) == r
  {
    hide B.HashWords, B.HashTail;
    NoTail(r);
    assert key[|key| - |key| % 4..] == [];
  }

  lemma {:induction false} NoTail(h: bv32)
    ensures B.HashTail(h, []) == h
  {
  }

  lemma {:induction false} Tails()
    ensures B.HashTail(0xbc9f1d34, []) == 0xbc9f1d34
    ensures B.HashTail(0x7a3bbaa7, [0x62]) == 0xef1345c4
    ensures B.HashTail(0x31d65212, [0xc3, 0x97]) == 0x5b663814
  {
  }

  lemma {:induction false} TailOfThree()
    ensures B.HashTail(0xef72eb8d, [0xe2, 0x99, 0xa5]) == 0x323c078f
  {
    var key: Bytes := [0xe2, 0x99, 0xa5];
    assert key[2] as bv32 == 0xa5 && key[1] as bv32 == 0x99 && key[0] as bv32 == 0xe2;
    assert ((0xa5 as bv32) << 16) == 0xa50000 && ((0x99 as bv32) << 8) == 0x9900;
  }

  lemma {:induction false} WordsOfFour()
    ensures B.HashWords(0xa60d8378, [0xe1, 0x80, 0xb9, 0x32]) == 0xed21633a
  {
    hide DecodeFixed32;
    var key: Bytes := [0xe1, 0x80, 0xb9, 0x32];
    WordSample();
    assert (0xa60d8378 + 0x32b980e1) * B.HASH_FACTOR == 0xed218e1b;
    assert key[4..] == [];
    assert B.HashWords(0xed21633a, []) == 0xed21633a;
  }

  lemma {:induction false} WordSample()
    ensures DecodeFixed32([0xe1, 0x80, 0xb9, 0x32]) == 0x32b980e1
  {
  }

  /** The step between two probes is the hash turned by 17 bits; probes wrap around at 32 bits and take the remainder. */
  lemma {:induction false} ProbeSamples()
    ensures B.Delta(1) == 0x8000 && B.Delta(0x2_0000) == 1 && B.Delta(0x8000_0000) == 0x4000
    ensures B.ProbeHash(1, 3, 1) == 4 && B.ProbeHash(1, 0xffff_ffff, 1) == 0
    ensures B.Position(100, 64) == 36
  {
  }
}
