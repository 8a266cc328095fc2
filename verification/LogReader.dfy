/** The log reader: finds physical records in blocks and puts records together again. */
module LogReader {
  import opened Coding
  import opened Octets
  import opened Crc32c
  import opened LogFormat

  const END_OF_FILE: nat := 5
  const BAD_RECORD: nat := 6

  // ----- What follows a position in an intact log

  /** The bytes are the beginning of what the pieces look like from the offset on. */
  ghost predicate Continues(bytes: Bytes, off: nat, pieces: seq<Piece>) {
    Fits(off, pieces) && bytes <= Layout(off, pieces)
  }

  /** The bytes that the next piece takes, its padding included. */
  function Needed(off: nat, p: Piece): nat
    requires off <= BLOCK_SIZE
  {
    |Pad(off)| + HEADER_SIZE + |p.payload|
  }

  lemma {:induction false} PrefixDrops(a: Bytes, b: Bytes, front: Bytes, back: Bytes)
    requires a <= b && b == front + back && |front| <= |a|
    ensures a[..|front|] == front && a[|front|..] <= back
  {
    assert forall i | 0 <= i < |front| :: a[i] == b[i];
    assert forall i | |front| <= i < |a| :: a[i] == b[i] == back[i - |front|];
  }

  /** Dropping the padding before the next block. */
  lemma {:induction false} SkipPad(bytes: Bytes, off: nat, pieces: seq<Piece>)
    requires Continues(bytes, off, pieces) && BLOCK_SIZE - off < HEADER_SIZE && BLOCK_SIZE - off <= |bytes|
    ensures Continues(bytes[BLOCK_SIZE - off..], 0, pieces)
    ensures pieces != [] ==> Needed(0, pieces[0]) + (BLOCK_SIZE - off) == Needed(off, pieces[0])
    ensures pieces == [] ==> bytes == []
  {
    hide Physical;
    if pieces != [] {
      var tail := Layout(Start(off) + HEADER_SIZE + |pieces[0].payload|, pieces[1..]);
      assert Layout(off, pieces) == Pad(off) + (Physical(pieces[0]) + tail);
      assert Layout(0, pieces) == Physical(pieces[0]) + tail by {
        assert Pad(0) == [];
        assert [] + Physical(pieces[0]) == Physical(pieces[0]);
      }
      PrefixDrops(bytes, Layout(off, pieces), Pad(off), Physical(pieces[0]) + tail);
    }
  }

  /** The header of the next piece, and the piece itself once all of it is there. */
  lemma {:induction false} HeadOf(bytes: Bytes, off: nat, pieces: seq<Piece>)
    requires Continues(bytes, off, pieces) && BLOCK_SIZE - off >= HEADER_SIZE && |bytes| >= HEADER_SIZE
    ensures pieces != [] && ValidPiece(pieces[0]) && Needed(off, pieces[0]) == HEADER_SIZE + |pieces[0].payload|
    ensures off + HEADER_SIZE + |pieces[0].payload| <= BLOCK_SIZE
    ensures bytes[..HEADER_SIZE] == Header(pieces[0].kind, pieces[0].payload)
    ensures HEADER_SIZE + |pieces[0].payload| <= |bytes| ==>
      && bytes[HEADER_SIZE..HEADER_SIZE + |pieces[0].payload|] == pieces[0].payload
      && Continues(bytes[HEADER_SIZE + |pieces[0].payload|..], off + HEADER_SIZE + |pieces[0].payload|, pieces[1..])
  {
    hide Header;
    assert pieces != [];
    var p := pieces[0];
    var next := off + HEADER_SIZE + |p.payload|;
    var header, tail := Header(p.kind, p.payload), Layout(next, pieces[1..]);
    assert Pad(off) == [] && Start(off) == off;
    assert Layout(off, pieces) == header + (p.payload + tail);
    PrefixDrops(bytes, Layout(off, pieces), header, p.payload + tail);
    if HEADER_SIZE + |p.payload| <= |bytes| {
      PrefixDrops(bytes[HEADER_SIZE..], p.payload + tail, p.payload, tail);
      assert bytes[HEADER_SIZE..][..|p.payload|] == bytes[HEADER_SIZE..HEADER_SIZE + |p.payload|];
      assert bytes[HEADER_SIZE..][|p.payload|..] == bytes[HEADER_SIZE + |p.payload|..];
    }
  }

  lemma {:induction false} HeaderFields(kind: nat, payload: Bytes)
    requires kind < 256 && |payload| < 65536
    ensures var h := Header(kind, payload);
      h[4] as nat + h[5] as nat * 256 == |payload| && h[6] as nat == kind
  {
    hide Mask, Checksum, EncodeFixed32;
    var h := Header(kind, payload);
    assert h[4] == (|payload| % 256) as bv8 && h[5] == (|payload| / 256) as bv8 && h[6] == kind as bv8;
    ByteKeeps(|payload| % 256);
    ByteKeeps(|payload| / 256);
    ByteKeeps(kind);
  }

  lemma {:induction false} HeaderChecksum(kind: nat, payload: Bytes)
    requires kind < 256 && |payload| < 65536
    ensures Unmask(DecodeFixed32(Header(kind, payload))) == Checksum(0, [kind as bv8] + payload)
  {
    hide Mask, Unmask, Checksum, EncodeFixed32, DecodeFixed32;
    var crc := Checksum(0, [kind as bv8] + payload);
    var fields := [(|payload| % 256) as bv8, (|payload| / 256) as bv8, kind as bv8];
    assert Header(kind, payload) == EncodeFixed32(Mask(crc)) + fields;
    DecodeInvertsEncode(Mask(crc), fields);
    UnmaskInvertsMask(crc);
  }

  lemma {:induction false} SameHead(buffer: Bytes, rest: Bytes, p: Piece)
    requires ValidPiece(p) && HEADER_SIZE <= |buffer| && buffer <= rest && rest[..HEADER_SIZE] == Header(p.kind, p.payload)
    ensures buffer[4] as nat + buffer[5] as nat * 256 == |p.payload| && buffer[6] as nat == p.kind
  {
    hide Header;
    HeaderFields(p.kind, p.payload);
    var head := buffer[..HEADER_SIZE];
    assert head == rest[..HEADER_SIZE];
    assert head[4] == buffer[4] && head[5] == buffer[5] && head[6] == buffer[6];
  }

  // ----- The reader

  class Reader {
    const file: Bytes
    var filePos: nat          // how much of the file has been read into the buffer so far
    var buffer: Bytes
    var eof: bool             // the last read gave less than a block
    var reports: nat          // corruption reports

    // For a file that is a prefix of an intact log: what follows the position in that log.
    ghost const intact: bool
    ghost var off: nat
    ghost var pieces: seq<Piece>
    ghost var records: seq<Bytes>

    ghost function At(): nat
      reads this`filePos, this`buffer
    {
      if |buffer| <= filePos then filePos - |buffer| else 0
    }

    ghost predicate Ok()
      reads this`filePos, this`buffer, this`eof
    {
      && |buffer| <= filePos <= |file| && buffer == file[filePos - |buffer|..filePos]
      && |buffer| + At() % BLOCK_SIZE <= BLOCK_SIZE
      && if eof then filePos == |file| else filePos % BLOCK_SIZE == 0
    }

    /** The rest of an intact file is the beginning of the rest of the log. */
    ghost predicate Promise()
      requires At() <= |file|
      reads this`filePos, this`buffer, this`off, this`pieces
    {
      intact ==> SamePlace(off, At()) && Continues(file[At()..], off, pieces)
    }

    /** All of the next piece is there. */
    ghost predicate NextIsWhole()
      requires At() <= |file|
      reads this`filePos, this`buffer, this`off, this`pieces
    {
      off <= BLOCK_SIZE && pieces != [] && Needed(off, pieces[0]) <= |file| - At()
    }

    constructor (file: Bytes, ghost intact: bool, ghost records: seq<Bytes>)
      requires intact ==> file <= Log(records)
      ensures Ok() && Promise() && reports == 0 && At() == 0 && this.file == file && this.intact == intact
      ensures this.records == records && off == 0 && pieces == AllFragments(0, records)
    {
      this.file, filePos, buffer, eof, reports := file, 0, [], false, 0;
      this.intact, off, this.records := intact, 0, records;
      pieces := AllFragments(0, records);
      new;
      assert file[0..] == file;
    }

    /** The ghost offset moves past the padding to the start of the next block. */
    ghost method SkipPadding()
      requires Ok() && Promise() && |buffer| < HEADER_SIZE && !eof
      modifies this`off
      ensures intact ==> SamePlace(off, filePos) && Continues(file[filePos..], off, pieces)
      ensures intact ==> off == Start(old(off)) && filePos == At() + |Pad(old(off))|
      ensures intact && pieces != [] ==> off <= BLOCK_SIZE && (Needed(off, pieces[0]) <= |file| - filePos <==> old(NextIsWhole()))
    {
      AtBlockEnd();
      if intact && BLOCK_SIZE - off < HEADER_SIZE {
        SkipPad(file[At()..], off, pieces);
        assert file[At()..][BLOCK_SIZE - off..] == file[filePos..];
        off := 0;
      }
    }

    method ReadBlock()
      requires Ok() && !eof
      modifies this`filePos, this`buffer, this`eof
      ensures Ok() && At() == old(filePos) && (|buffer| >= HEADER_SIZE || eof)
    {
      var end := if filePos + BLOCK_SIZE <= |file| then filePos + BLOCK_SIZE else |file|;
      buffer, filePos, eof := file[filePos..end], end, end - filePos < BLOCK_SIZE;
    }

    /** Reads the next block when what is left of the current one is too short for a header. */
    method Refill()
      requires Ok() && Promise() && |buffer| < HEADER_SIZE && !eof
      modifies this`filePos, this`buffer, this`eof, this`off
      ensures Ok() && Promise() && pieces == old(pieces)
      ensures intact ==> NextIsWhole() == old(NextIsWhole())
      ensures At() >= old(At()) && (|buffer| >= HEADER_SIZE || eof)
      ensures intact ==> off == Start(old(off)) && At() == old(At()) + |Pad(old(off))|
    {
      hide Continues, Start, Pad, Needed;
      SkipPadding();
      ReadBlock();
    }

    lemma AtBlockEnd()
      requires Ok() && Promise() && |buffer| < HEADER_SIZE && !eof
      ensures intact && BLOCK_SIZE - off < HEADER_SIZE ==> BLOCK_SIZE - off == |buffer|
      ensures intact && BLOCK_SIZE - off >= HEADER_SIZE ==> |buffer| == 0
    {
    }

    /** What the header at the position says in an intact file. */
    lemma ParseIntact()
      requires Ok() && Promise() && intact && |buffer| >= HEADER_SIZE && BLOCK_SIZE - off >= HEADER_SIZE
      ensures pieces != [] && ValidPiece(pieces[0]) && Needed(off, pieces[0]) == HEADER_SIZE + |pieces[0].payload|
      ensures buffer[4] as nat + buffer[5] as nat * 256 == |pieces[0].payload| && buffer[6] as nat == pieces[0].kind
      ensures NextIsWhole() <==> HEADER_SIZE + |pieces[0].payload| <= |buffer|
      ensures !NextIsWhole() ==> eof
    {
      hide Header, Layout, Fits, Continues, ValidPiece, Needed;
      HeadOf(file[At()..], off, pieces);
      SameHead(buffer, file[At()..], pieces[0]);
    }

    lemma PayloadIntact(length: nat)
      requires Ok() && Promise() && intact && |buffer| >= HEADER_SIZE && BLOCK_SIZE - off >= HEADER_SIZE
      requires pieces != [] && length == |pieces[0].payload| && HEADER_SIZE + length <= |buffer| && length < 65536 && pieces[0].kind < 256
      ensures buffer[HEADER_SIZE..HEADER_SIZE + length] == pieces[0].payload
      ensures Unmask(DecodeFixed32(buffer)) == Checksum(0, buffer[6..HEADER_SIZE + length])
      ensures off + HEADER_SIZE + length <= BLOCK_SIZE
      ensures Continues(file[At() + HEADER_SIZE + length..], off + HEADER_SIZE + length, pieces[1..])
    {
      hide Header, Layout, Fits, DecodeFixed32, Checksum, Mask, Unmask;
      var rest, p := file[At()..], pieces[0];
      HeadOf(rest, off, pieces);
      HeaderChecksum(p.kind, p.payload);
      assert buffer == rest[..|buffer|];
      assert buffer[..HEADER_SIZE] == rest[..HEADER_SIZE] == Header(p.kind, p.payload);
      DecodeHead(buffer);
      KindByte(p.kind, p.payload);
      assert buffer[..HEADER_SIZE][6] == buffer[6];
      assert buffer[HEADER_SIZE..HEADER_SIZE + length] == rest[HEADER_SIZE..HEADER_SIZE + length];
      assert buffer[6..HEADER_SIZE + length] == [buffer[6]] + p.payload;
      assert rest[HEADER_SIZE + length..] == file[At() + HEADER_SIZE + length..];
    }

    /** Drops what is left of the buffer; without a report the file was cut short here. */
    method DropBuffer(corrupt: bool)
      requires Ok()
      modifies this`buffer, this`reports
      ensures Ok() && At() == filePos && buffer == [] && reports == old(reports) + (if corrupt then 1 else 0)
    {
      buffer := [];
      if corrupt {
        reports := reports + 1;
      }
    }

    /** Parses the record at the position, where there is room for a header. */
    method ParseRecord() returns (kind: nat, fragment: Bytes)
      requires Ok() && Promise() && |buffer| >= HEADER_SIZE && (intact ==> BLOCK_SIZE - off >= HEADER_SIZE)
      modifies this`buffer, this`reports, this`off, this`pieces
      ensures Ok() && (kind != END_OF_FILE ==> At() > old(At()))
      ensures intact && old(NextIsWhole()) ==>
        && kind == old(pieces)[0].kind && fragment == old(pieces)[0].payload && pieces == old(pieces)[1..]
        && Promise() && off == old(off) + HEADER_SIZE + |fragment| && At() == old(At()) + HEADER_SIZE + |fragment|
        && reports == old(reports)
      ensures intact && !old(NextIsWhole()) ==> kind == END_OF_FILE && reports == old(reports)
    {
      hide Continues, DecodeFixed32, Checksum, Mask, Unmask, Needed;
      if intact {
        ParseIntact();
      }
      var length := buffer[4] as nat + buffer[5] as nat * 256;
      kind, fragment := buffer[6] as nat, [];
      if HEADER_SIZE + length > |buffer| {
        var cut := eof;
        DropBuffer(!cut);
        return if cut then END_OF_FILE else BAD_RECORD, [];
      }
      if intact {
        PayloadIntact(length);
      }
      if kind == 0 && length == 0 {
        DropBuffer(false);
        return BAD_RECORD, [];
      }
      var expected := Unmask(DecodeFixed32(buffer));
      var actual := Extend(0, buffer[6..HEADER_SIZE + length], 0);
      if actual != expected {
        DropBuffer(true);
        return BAD_RECORD, [];
      }
      fragment := Consume(length);
    }

    /** Takes the record at the position out of the buffer. */
    method Consume(length: nat) returns (fragment: Bytes)
      requires Ok() && HEADER_SIZE + length <= |buffer|
      requires intact ==> SamePlace(off, At()) && off + HEADER_SIZE + length <= BLOCK_SIZE && pieces != []
      requires intact ==> Continues(file[At() + HEADER_SIZE + length..], off + HEADER_SIZE + length, pieces[1..])
      modifies this`buffer, this`off, this`pieces
      ensures Ok() && At() == old(At()) + HEADER_SIZE + length && fragment == old(buffer)[HEADER_SIZE..HEADER_SIZE + length]
      ensures Promise() && (intact ==> off == old(off) + HEADER_SIZE + length && pieces == old(pieces)[1..])
    {
      hide Continues;
      fragment := buffer[HEADER_SIZE..HEADER_SIZE + length];
      ghost var at := At();
      buffer := buffer[HEADER_SIZE + length..];
      if intact {
        PlaceMoves(off, at, HEADER_SIZE + length);
        off, pieces := off + HEADER_SIZE + length, pieces[1..];
      }
    }

    /** The ghost offset moves from the end of a block to the start of the next. */
    ghost method ToBlockStart()
      requires Ok() && Promise() && |buffer| >= HEADER_SIZE
      modifies this`off
      ensures Promise() && (intact ==> off == Start(old(off)) && BLOCK_SIZE - off >= HEADER_SIZE && |Pad(old(off))| == 0)
      ensures intact ==> NextIsWhole() == old(NextIsWhole())
    {
      if intact && BLOCK_SIZE - off < HEADER_SIZE {
        SkipPad(file[At()..], off, pieces);
        off := 0;
      }
    }

    /** The next physical record of the file, or END_OF_FILE, or BAD_RECORD. */
    method ReadPhysicalRecord() returns (kind: nat, fragment: Bytes)
      requires Ok() && Promise()
      modifies this`filePos, this`buffer, this`eof, this`reports, this`off, this`pieces
      ensures Ok() && (kind != END_OF_FILE ==> At() > old(At()))
      ensures intact && old(NextIsWhole()) ==>
        && kind == old(pieces)[0].kind && fragment == old(pieces)[0].payload && pieces == old(pieces)[1..]
        && Promise() && off == Start(old(off)) + HEADER_SIZE + |fragment| && At() == old(At()) + Needed(old(off), old(pieces)[0])
        && reports == old(reports)
      ensures intact && !old(NextIsWhole()) ==> kind == END_OF_FILE && reports == old(reports)
    {
      hide Continues, Start, Pad;
      if |buffer| < HEADER_SIZE && !eof {
        Refill();
      }
      if |buffer| < HEADER_SIZE {
        DropBuffer(false);
        return END_OF_FILE, [];
      }
      ToBlockStart();
      StartTwice(old(off));
      kind, fragment := ParseRecord();
    }

    // ----- Records

    /** The position is between two records. */
    ghost predicate Boundary()
      reads this`off, this`pieces, this`records
    {
      intact ==> BoundaryBefore(records)
    }

    /** All fragments of the next record are there. */
    ghost predicate RecordIsWhole()
      requires At() <= |file|
      reads this`filePos, this`buffer, this`off, this`records
    {
      off <= BLOCK_SIZE && records != [] && |Layout(off, Fragments(off, records[0], true))| <= |file| - At()
    }

    /** Within the next record, `left` of it is still to come, and it is whole or not. */
    ghost predicate Within(left: Bytes, begin: bool, whole: bool)
      requires At() <= |file|
      reads this`filePos, this`buffer, this`off, this`pieces, this`records
    {
      && off <= BLOCK_SIZE && records != []
      && var fragments := Fragments(off, left, begin);
         && pieces == fragments + AllFragments(OffsetAfter(off, fragments), records[1..])
         && (whole <==> |Layout(off, fragments)| <= |file| - At())
    }

    /** The next piece is the first fragment of what is left. */
    lemma NextOfRecord(left: Bytes, begin: bool, whole: bool)
      requires At() <= |file| && Within(left, begin, whole)
      ensures pieces != [] && pieces[0] == FirstPiece(off, left, begin)
      ensures var taken := Taken(off, left);
        var next := Start(off) + HEADER_SIZE + taken;
        var fragments := if taken == |left| then [] else Fragments(next, left[taken..], false);
        && next <= BLOCK_SIZE && Fits(next, fragments)
        && pieces[1..] == fragments + AllFragments(OffsetAfter(next, fragments), records[1..])
        && OffsetAfter(off, Fragments(off, left, begin)) == OffsetAfter(next, fragments)
        && |Layout(off, Fragments(off, left, begin))| == Needed(off, pieces[0]) + |Layout(next, fragments)|
        && (whole <==> Needed(off, pieces[0]) + |Layout(next, fragments)| <= |file| - At())
    {
      hide Fragments, AllFragments, Layout, OffsetAfter, Fits, Physical;
      NextFragment([], off, left, begin);
    }

    /** Where the record ends, in the file and in its block. */
    ghost function EndAt(left: Bytes, begin: bool): nat
      requires off <= BLOCK_SIZE
      reads this`filePos, this`buffer, this`off
    {
      At() + |Layout(off, Fragments(off, left, begin))|
    }

    ghost function EndOff(left: Bytes, begin: bool): nat
      requires off <= BLOCK_SIZE
      reads this`off
    {
      OffsetAfter(off, Fragments(off, left, begin))
    }

    /** Reads the next fragment; `after` is what is left of the record then. */
    method ReadFragment(ghost left: Bytes, ghost begin: bool, ghost whole: bool) returns (kind: nat, fragment: Bytes, ghost after: Bytes)
      requires Ok() && Promise()
      requires intact ==> if records == [] then pieces == [] else Within(left, begin, whole)
      modifies this`filePos, this`buffer, this`eof, this`reports, this`off, this`pieces
      ensures Ok() && (kind != END_OF_FILE ==> At() > old(At()))
      ensures intact ==> reports == old(reports) && (kind != END_OF_FILE ==> Promise() && records != [] && fragment + after == left)
      ensures At() <= |file| && (!intact ==> Promise()) && (intact && kind != END_OF_FILE ==> off <= BLOCK_SIZE)
      ensures intact && kind == END_OF_FILE ==> records == [] || !whole
      ensures intact && kind != END_OF_FILE && kind in {FULL, LAST} ==>
        && kind == KindOf(begin, true) && after == [] && whole && BoundaryBefore(records[1..])
        && off == old(EndOff(left, begin)) && At() == old(EndAt(left, begin))
      ensures intact && kind != END_OF_FILE && kind !in {FULL, LAST} ==>
        && kind == KindOf(begin, false) && Within(after, false, whole)
        && EndOff(after, false) == old(EndOff(left, begin)) && EndAt(after, false) == old(EndAt(left, begin))
    {
      hide Fragments, AllFragments, Layout, OffsetAfter, Fits, Continues, Physical, ValidPiece;
      after := [];
      ghost var had := intact && records != [];
      ghost var taken, next := 0, 0;
      if had {
        NextOfRecord(left, begin, whole);
        taken := Taken(off, left);
        next := Start(off) + HEADER_SIZE + taken;
        NoPieces(next);
        after := left[taken..];
      }
      kind, fragment := ReadPhysicalRecord();
      assert had && kind != END_OF_FILE ==> [] + AllFragments(next, records[1..]) == AllFragments(next, records[1..]);
    }

    ghost predicate BoundaryBefore(later: seq<Bytes>)
      reads this`off, this`pieces
    {
      off <= BLOCK_SIZE && pieces == AllFragments(off, later)
    }

    /**
     * The next record. Of an intact file it is the next record of the log if all of it is there;
     * otherwise the log ends here, without a report.
     */
    method ReadRecord() returns (ok: bool, record: Bytes)
      requires Ok() && Promise() && Boundary()
      modifies this`filePos, this`buffer, this`eof, this`reports, this`off, this`pieces, this`records
      ensures Ok() && (ok ==> At() > old(At()))
      ensures intact ==> ok == old(RecordIsWhole()) && reports == old(reports)
      ensures intact && ok ==> record == old(records)[0] && records == old(records)[1..] && Promise() && Boundary()
      ensures intact && ok ==> off == old(EndOff(records[0], true)) && At() == old(EndAt(records[0], true))
    {
      hide Ok, Promise, BoundaryBefore, Within, EndOff, EndAt, Layout, Fragments, AllFragments, OffsetAfter, Fits, Continues, At;
      PositionInFile();
      var scratch: Bytes := [];
      var inFragmentedRecord := false;
      ghost var left: Bytes := if records == [] then [] else records[0];
      ghost var begin, whole := true, RecordIsWhole();
      if intact {
        StartOfRecord(whole);
      }
      while true
        invariant Ok() && old(At()) <= At() <= |file| && Promise() && records == old(records) && (intact ==> reports == old(reports))
        invariant intact && records == [] ==> pieces == [] && !whole
        invariant intact && records != [] ==> Within(left, begin, whole) && scratch + left == records[0] && off <= BLOCK_SIZE
        invariant intact && records != [] ==> EndOff(left, begin) == old(EndOff(records[0], true)) && EndAt(left, begin) == old(EndAt(records[0], true))
        invariant intact ==> begin == !inFragmentedRecord && (begin ==> scratch == [])
        decreases |file| - At()
      {
        var kind, fragment;
        ghost var after;
        kind, fragment, after := ReadFragment(left, begin, whole);
        if kind == FULL {
          if inFragmentedRecord && scratch != [] {
            reports := reports + 1;
          }
          records := if records == [] then [] else records[1..];
          return true, fragment;
        } else if kind == FIRST {
          if inFragmentedRecord && scratch != [] {
            reports := reports + 1;
          }
          scratch, inFragmentedRecord := fragment, true;
        } else if kind == MIDDLE {
          if !inFragmentedRecord {
            reports := reports + 1;
          } else {
            scratch := scratch + fragment;
          }
        } else if kind == LAST {
          if !inFragmentedRecord {
            reports := reports + 1;
          } else {
            records := if records == [] then [] else records[1..];
            return true, scratch + fragment;
          }
        } else if kind == END_OF_FILE {
          return false, [];
        } else if kind == BAD_RECORD {
          if inFragmentedRecord {
            reports := reports + 1;
          }
          scratch, inFragmentedRecord := [], false;
        } else {
          reports := reports + 1;
          scratch, inFragmentedRecord := [], false;
        }
        left, begin := after, false;
      }
    }

    /**
     * Reads to the end. Of the beginning of an intact log these are exactly the records that lie in
     * the file as a whole, and nothing is reported.
     */
    method ReadAll() returns (list: seq<Bytes>)
      requires Ok() && Promise() && Boundary() && At() == 0 && off == 0 && reports == 0
      modifies this`filePos, this`buffer, this`eof, this`reports, this`off, this`pieces, this`records
      ensures intact ==> reports == 0 && |list| <= |old(records)| && list == old(records)[..|list|]
      ensures intact ==> |Log(list)| <= |file|
      ensures intact && |list| < |old(records)| ==> |Log(old(records)[..|list| + 1])| > |file|
    {
      hide Layout, Fragments, AllFragments, OffsetAfter, Fits, Continues, Log, EndOf;
      list := [];
      ghost var all := records;
      EmptyLog();
      var more := true;
      while more
        invariant Ok() && (intact ==> reports == 0)
        invariant intact ==> |list| <= |all| && list == all[..|list|] && |Log(list)| <= |file|
        invariant more ==> Promise() && Boundary()
        invariant intact && more ==> records == all[|list|..] && off == EndOf(list) && At() == |Log(list)|
        invariant intact && !more && |list| < |all| ==> |Log(all[..|list| + 1])| > |file|
        decreases more, |file| - At()
      {
        if intact && records != [] {
          LogOfOneMore(list, records[0]);
          assert all[..|list| + 1] == list + [all[|list|]];
        }
        var record;
        more, record := ReadRecord();
        if more {
          list := list + [record];
        }
      }
    }

    lemma PositionInFile()
      requires Ok()
      ensures At() <= |file|
    {
    }

    lemma StartOfRecord(whole: bool)
      requires Ok() && Promise() && Boundary() && intact && whole == RecordIsWhole()
      ensures records == [] ==> pieces == []
      ensures records != [] ==> Within(records[0], true, whole)
    {
    }
  }

  lemma {:induction false} PlaceMoves(off: nat, at: nat, k: nat)
    requires SamePlace(off, at) && off + k <= BLOCK_SIZE
    ensures SamePlace(off + k, at + k)
  {
  }

  lemma {:induction false} StartTwice(off: nat)
    ensures off <= BLOCK_SIZE ==> Start(Start(off)) == Start(off) && Pad(Start(off)) == []
  {
  }

  lemma {:induction false} EmptyLog()
    ensures Log([]) == [] && EndOf([]) == 0
  {
    assert AllFragments(0, []) == [];
    NoPieces(0);
  }

  lemma {:induction false} DecodeHead(b: Bytes)
    requires |b| >= HEADER_SIZE
    ensures DecodeFixed32(b[..HEADER_SIZE]) == DecodeFixed32(b)
  {
    assert b[..HEADER_SIZE][0] == b[0] && b[..HEADER_SIZE][1] == b[1] && b[..HEADER_SIZE][2] == b[2] && b[..HEADER_SIZE][3] == b[3];
  }

  lemma {:induction false} KindByte(kind: nat, payload: Bytes)
    requires kind < 256 && |payload| < 65536
    ensures Header(kind, payload)[6] == kind as bv8
  {
    hide Mask, Checksum, EncodeFixed32;
  }
}
