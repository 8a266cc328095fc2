/** The log writer: fragments records over blocks. */
module LogWriter {
  import opened Coding
  import opened Crc32c
  import opened LogFormat

  class Writer {
    var dest: Bytes
    var blockOffset: nat
    ghost var records: seq<Bytes>    // what the file holds

    ghost predicate Ok()
      reads this
    {
      dest == Log(records) && SamePlace(blockOffset, EndOf(records))
    }

    /** A writer for a new file, or for one that already holds whole records. */
    constructor (contents: Bytes, ghost records: seq<Bytes>)
      requires contents == Log(records)
      ensures Ok() && this.records == records
    {
      hide Log, EndOf;
      dest, blockOffset, this.records := contents, |contents| % BLOCK_SIZE, records;
      LogLength(records);
    }

    /** The header carries the checksum of kind and payload, extended from the checksum of the kind alone. */
    lemma HeaderOf(kind: nat, payload: Bytes, crc: bv32)
      requires kind < 256 && |payload| < 65536 && crc == Checksum(0, [kind as bv8] + payload)
      ensures Header(kind, payload) == EncodeFixed32(Mask(crc)) + [(|payload| % 256) as bv8, (|payload| / 256) as bv8, kind as bv8]
    {
      hide Mask, EncodeFixed32, Checksum;
    }

    method EmitPhysicalRecord(kind: nat, payload: Bytes)
      requires FULL <= kind <= LAST && blockOffset + HEADER_SIZE + |payload| <= BLOCK_SIZE
      modifies this`dest, this`blockOffset
      ensures dest == old(dest) + Physical(Piece(kind, payload))
      ensures blockOffset == old(blockOffset) + HEADER_SIZE + |payload|
    {
      hide Mask, EncodeFixed32, Checksum, Header;
      var typeCrc := Extend(0, [kind as bv8], 0);
      var crc := Extend(typeCrc, payload, 0);
      ExtendIsConcatenation([kind as bv8], payload);
      var length := |payload|;
      var header := EncodeFixed32(Mask(crc)) + [(length % 256) as bv8, (length / 256) as bv8, kind as bv8];
      HeaderOf(kind, payload, crc);
      dest := dest + header;
      dest := dest + payload;
      blockOffset := blockOffset + HEADER_SIZE + length;
      assert old(dest) + header + payload == old(dest) + (header + payload);
    }

    method AddRecord(data: Bytes)
      requires Ok()
      modifies this
      ensures Ok() && records == old(records) + [data]
    {
      hide Layout, Fragments, OffsetAfter, Log, EndOf;
      FragmentsAtPlace(blockOffset, EndOf(records), data);
      LogOfOneMore(records, data);
      EmitFragments(data);
      records := records + [data];
    }

    method EmitFragments(data: Bytes)
      requires blockOffset <= BLOCK_SIZE
      modifies this`dest, this`blockOffset
      ensures dest == old(dest) + Layout(old(blockOffset), Fragments(old(blockOffset), data, true))
      ensures blockOffset == OffsetAfter(old(blockOffset), Fragments(old(blockOffset), data, true))
    {
      hide Physical, Pad, Layout, Fits, Fragments, OffsetAfter;
      NoPieces(blockOffset);
      ghost var goal := dest + Layout(blockOffset, Fragments(blockOffset, data, true));
      ghost var last := OffsetAfter(blockOffset, Fragments(blockOffset, data, true));
      var left := data;
      var begin, more := true, true;
      while more
        invariant blockOffset <= BLOCK_SIZE
        invariant more ==> dest + Layout(blockOffset, Fragments(blockOffset, left, begin)) == goal
        invariant more ==> OffsetAfter(blockOffset, Fragments(blockOffset, left, begin)) == last
        invariant !more ==> dest == goal && blockOffset == last
        decreases more, |left|, if BLOCK_SIZE - blockOffset == HEADER_SIZE then 1 else 0
      {
        NextFragment(dest, blockOffset, left, begin);
        ghost var was := blockOffset;
        var leftover := BLOCK_SIZE - blockOffset;
        if leftover < HEADER_SIZE {
          if leftover > 0 {
            dest := dest + seq(leftover, _ => 0);
          }
          blockOffset := 0;
        }
        assert blockOffset == Start(was);
        var avail := BLOCK_SIZE - blockOffset - HEADER_SIZE;
        var length := if |left| < avail then |left| else avail;
        var end := |left| == length;
        var kind := if begin && end then FULL else if begin then FIRST else if end then LAST else MIDDLE;
        PadIs(was);
        NoPieces(blockOffset + HEADER_SIZE + length);
        EmitPhysicalRecord(kind, left[..length]);
        left := left[length..];
        begin := false;
        more := left != [];
      }
    }
  }
}
