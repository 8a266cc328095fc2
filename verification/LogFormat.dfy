/** The log file format: records in fragments, fragments in blocks. */
module LogFormat {
  import opened Coding
  import opened Crc32c

  const BLOCK_SIZE: nat := 32768
  const HEADER_SIZE: nat := 7

  const FULL: nat := 1
  const FIRST: nat := 2
  const MIDDLE: nat := 3
  const LAST: nat := 4

  /** One physical record: a fragment of a logical record. */
  datatype Piece = Piece(kind: nat, payload: Bytes)

  ghost predicate ValidPiece(p: Piece) {
    FULL <= p.kind <= LAST && |p.payload| <= BLOCK_SIZE - HEADER_SIZE
  }

  function Header(kind: nat, payload: Bytes): (r: Bytes)
    requires kind < 256 && |payload| < 65536
    ensures |r| == HEADER_SIZE
  {
    EncodeFixed32(Mask(Checksum(0, [kind as bv8] + payload))) + [(|payload| % 256) as bv8, (|payload| / 256) as bv8, kind as bv8]
  }

  function Physical(p: Piece): (r: Bytes)
    requires ValidPiece(p)
    ensures |r| == HEADER_SIZE + |p.payload|
  {
    Header(p.kind, p.payload) + p.payload
  }

  // ----- Pieces in blocks

  /** A block offset that leaves no room for a header moves on to the next block. */
  function Start(off: nat): nat
    requires off <= BLOCK_SIZE
  {
    if BLOCK_SIZE - off < HEADER_SIZE then 0 else off
  }

  function Pad(off: nat): Bytes
    requires off <= BLOCK_SIZE
  {
    if BLOCK_SIZE - off < HEADER_SIZE then seq(BLOCK_SIZE - off, _ => 0) else []
  }

  /** Each piece fits in the block it starts in. */
  ghost predicate Fits(off: nat, pieces: seq<Piece>)
    decreases |pieces|
  {
    off <= BLOCK_SIZE && (pieces == [] ||
      (ValidPiece(pieces[0]) && Start(off) + HEADER_SIZE + |pieces[0].payload| <= BLOCK_SIZE
       && Fits(Start(off) + HEADER_SIZE + |pieces[0].payload|, pieces[1..])))
  }

  function OffsetAfter(off: nat, pieces: seq<Piece>): (r: nat)
    requires Fits(off, pieces)
    ensures r <= BLOCK_SIZE
    decreases |pieces|
  {
    if pieces == [] then off else OffsetAfter(Start(off) + HEADER_SIZE + |pieces[0].payload|, pieces[1..])
  }

  /** The bytes of the pieces, written from block offset `off` on. */
  function Layout(off: nat, pieces: seq<Piece>): Bytes
    requires Fits(off, pieces)
    decreases |pieces|
  {
    if pieces == [] then []
    else Pad(off) + Physical(pieces[0]) + Layout(Start(off) + HEADER_SIZE + |pieces[0].payload|, pieces[1..])
  }

  lemma {:induction false} NothingLaidOut(off: nat)
    requires Fits(off, [])
    ensures Layout(off, []) == []
  {
  }

  lemma {:induction false} LayoutStep(off: nat, pieces: seq<Piece>)
    requires pieces != [] && Fits(off, pieces)
    ensures Layout(off, pieces) == Pad(off) + Physical(pieces[0]) + Layout(Start(off) + HEADER_SIZE + |pieces[0].payload|, pieces[1..])
  {
    hide Physical, Pad;
  }

  lemma {:induction false} LayoutAppend(off: nat, a: seq<Piece>, b: seq<Piece>)
    requires Fits(off, a) && Fits(OffsetAfter(off, a), b)
    ensures Fits(off, a + b) && OffsetAfter(off, a + b) == OffsetAfter(OffsetAfter(off, a), b)
    ensures Layout(off, a + b) == Layout(off, a) + Layout(OffsetAfter(off, a), b)
    decreases |a|
  {
    hide Physical, Pad, ValidPiece, Start, Layout;
    NothingLaidOut(off);
    if a == [] {
      assert a + b == b;
    } else {
      LayoutStep(off, a);
      assert (a + b)[1..] == a[1..] + b && (a + b)[0] == a[0];
      var next := Start(off) + HEADER_SIZE + |a[0].payload|;
      LayoutAppend(next, a[1..], b);
      LayoutStep(off, a + b);
      var first, front, back := Pad(off) + Physical(a[0]), Layout(next, a[1..]), Layout(OffsetAfter(next, a[1..]), b);
      assert (first + front) + back == first + (front + back);
    }
  }

  /** The end of a block and the start of the next one are the same place. */
  lemma {:induction false} EndIsStart(pieces: seq<Piece>)
    requires Fits(0, pieces)
    ensures Fits(BLOCK_SIZE, pieces) && Layout(BLOCK_SIZE, pieces) == Layout(0, pieces)
    ensures pieces != [] ==> OffsetAfter(BLOCK_SIZE, pieces) == OffsetAfter(0, pieces)
  {
    assert Pad(BLOCK_SIZE) == [] && Pad(0) == [];
  }

  // ----- Records in pieces

  function KindOf(begin: bool, end: bool): nat {
    if begin && end then FULL else if begin then FIRST else if end then LAST else MIDDLE
  }

  /** The fragment that fits at the offset, and those that follow. */
  function Fragments(off: nat, data: Bytes, begin: bool): (r: seq<Piece>)
    requires off <= BLOCK_SIZE
    ensures r != [] && Fits(off, r)
    decreases |data|, if BLOCK_SIZE - off == HEADER_SIZE then 1 else 0
  {
    var avail := BLOCK_SIZE - Start(off) - HEADER_SIZE;
    if |data| <= avail then [Piece(KindOf(begin, true), data)]
    else [Piece(KindOf(begin, false), data[..avail])] + Fragments(Start(off) + HEADER_SIZE + avail, data[avail..], false)
  }

  function AllFragments(off: nat, records: seq<Bytes>): (r: seq<Piece>)
    requires off <= BLOCK_SIZE
    ensures Fits(off, r)
    decreases |records|
  {
    if records == [] then []
    else
      var first := Fragments(off, records[0], true);
      var rest := AllFragments(OffsetAfter(off, first), records[1..]);
      LayoutAppend(off, first, rest);
      first + rest
  }

  /** The log that holds the records. */
  function Log(records: seq<Bytes>): Bytes {
    Layout(0, AllFragments(0, records))
  }

  lemma {:induction false} AllFragmentsAppend(off: nat, a: seq<Bytes>, b: seq<Bytes>)
    requires off <= BLOCK_SIZE
    ensures AllFragments(off, a + b) == AllFragments(off, a) + AllFragments(OffsetAfter(off, AllFragments(off, a)), b)
    decreases |a|
  {
    hide Fragments, Fits, OffsetAfter;
    if a == [] {
      assert a + b == b;
      NoPieces(off);
    } else {
      var first := Fragments(off, a[0], true);
      assert (a + b)[1..] == a[1..] + b && (a + b)[0] == a[0];
      var mid := OffsetAfter(off, first);
      AllFragmentsAppend(mid, a[1..], b);
      LayoutAppend(off, first, AllFragments(mid, a[1..]));
    }
  }

  lemma {:induction false} NoPieces(off: nat)
    requires off <= BLOCK_SIZE
    ensures Fits(off, []) && OffsetAfter(off, []) == off && Layout(off, []) == []
  {
  }

  lemma {:induction false} PadIs(off: nat)
    requires off <= BLOCK_SIZE
    ensures Pad(off) == if BLOCK_SIZE - off < HEADER_SIZE then seq(BLOCK_SIZE - off, _ => 0) else []
  {
  }

  /** How much of the data the next fragment takes. */
  function Taken(off: nat, data: Bytes): (r: nat)
    requires off <= BLOCK_SIZE
    ensures r <= |data| && Start(off) + HEADER_SIZE + r <= BLOCK_SIZE
  {
    var avail := BLOCK_SIZE - Start(off) - HEADER_SIZE;
    if |data| < avail then |data| else avail
  }

  function FirstPiece(off: nat, data: Bytes, begin: bool): (p: Piece)
    requires off <= BLOCK_SIZE
    ensures ValidPiece(p)
  {
    Piece(KindOf(begin, |data| == Taken(off, data)), data[..Taken(off, data)])
  }

  lemma {:induction false} FirstAndRest(off: nat, data: Bytes, begin: bool)
    requires off <= BLOCK_SIZE
    ensures var taken := Taken(off, data);
      var next := Start(off) + HEADER_SIZE + taken;
      var rest := if |data| == taken then [] else Fragments(next, data[taken..], false);
      Fits(next, rest) && Fragments(off, data, begin) == [FirstPiece(off, data, begin)] + rest
  {
    hide ValidPiece, KindOf;
    var taken := Taken(off, data);
    if |data| == taken {
      assert data[..|data|] == data;
      NoPieces(Start(off) + HEADER_SIZE + taken);
    }
  }

  /** Writing the next fragment and then the rest is writing all fragments. */
  lemma {:induction false} NextFragment(dest: Bytes, off: nat, data: Bytes, begin: bool)
    requires off <= BLOCK_SIZE
    ensures var taken := Taken(off, data);
      var next := Start(off) + HEADER_SIZE + taken;
      var rest := if |data| == taken then [] else Fragments(next, data[taken..], false);
      && Fragments(off, data, begin) == [FirstPiece(off, data, begin)] + rest && Fits(next, rest)
      && OffsetAfter(off, Fragments(off, data, begin)) == OffsetAfter(next, rest)
      && dest + Layout(off, Fragments(off, data, begin)) == (dest + Pad(off)) + Physical(FirstPiece(off, data, begin)) + Layout(next, rest)
  {
    hide Physical, Pad, ValidPiece, KindOf, Fragments, Start;
    FirstAndRest(off, data, begin);
    var taken := Taken(off, data);
    var next := Start(off) + HEADER_SIZE + taken;
    var rest := if |data| == taken then [] else Fragments(next, data[taken..], false);
    LayoutOfFirst(off, FirstPiece(off, data, begin), next, rest);
  }

  lemma {:induction false} LayoutOfFirst(off: nat, p: Piece, next: nat, rest: seq<Piece>)
    requires off <= BLOCK_SIZE && ValidPiece(p) && next == Start(off) + HEADER_SIZE + |p.payload| <= BLOCK_SIZE && Fits(next, rest)
    ensures Fits(off, [p] + rest) && OffsetAfter(off, [p] + rest) == OffsetAfter(next, rest)
    ensures Layout(off, [p] + rest) == Pad(off) + Physical(p) + Layout(next, rest)
  {
    hide Physical, Pad;
    assert ([p] + rest)[0] == p && ([p] + rest)[1..] == rest;
  }

  // ----- One more record

  /** The block offset of a place in the file; the end of a block is the start of the next. */
  predicate SamePlace(offset: nat, place: nat) {
    offset <= BLOCK_SIZE && offset % BLOCK_SIZE == place % BLOCK_SIZE
  }

  lemma {:induction false} LayoutLength(off: nat, pieces: seq<Piece>)
    requires Fits(off, pieces)
    ensures (off + |Layout(off, pieces)|) % BLOCK_SIZE == OffsetAfter(off, pieces) % BLOCK_SIZE
    decreases |pieces|
  {
    hide Physical;
    if pieces != [] {
      LayoutLength(Start(off) + HEADER_SIZE + |pieces[0].payload|, pieces[1..]);
    }
  }

  lemma {:induction false} FragmentsAtPlace(a: nat, b: nat, data: Bytes)
    requires SamePlace(a, b) && b <= BLOCK_SIZE
    ensures Fragments(a, data, true) == Fragments(b, data, true)
    ensures Layout(a, Fragments(a, data, true)) == Layout(b, Fragments(b, data, true))
    ensures OffsetAfter(a, Fragments(a, data, true)) == OffsetAfter(b, Fragments(b, data, true))
  {
    hide Physical, Pad, Header, Layout, OffsetAfter, Fragments, Fits;
    if a != b {
      EndFragments(data);
      EndIsStart(Fragments(0, data, true));
      HasFragments(data);
    }
  }

  lemma {:induction false} EndFragments(data: Bytes)
    ensures Fragments(BLOCK_SIZE, data, true) == Fragments(0, data, true)
  {
  }

  lemma {:induction false} HasFragments(data: Bytes)
    ensures Fragments(0, data, true) != []
  {
  }

  lemma {:induction false} OneRecord(off: nat, data: Bytes)
    requires off <= BLOCK_SIZE
    ensures AllFragments(off, [data]) == Fragments(off, data, true)
  {
    hide Fragments, Fits, OffsetAfter;
    assert [data][1..] == [];
    assert AllFragments(OffsetAfter(off, Fragments(off, data, true)), []) == [];
  }

  /** Where a log ends. */
  ghost function EndOf(records: seq<Bytes>): (r: nat)
    ensures r <= BLOCK_SIZE
  {
    OffsetAfter(0, AllFragments(0, records))
  }

  lemma {:induction false} LogOfOneMore(records: seq<Bytes>, data: Bytes)
    ensures Log(records + [data]) == Log(records) + Layout(EndOf(records), Fragments(EndOf(records), data, true))
    ensures EndOf(records + [data]) == OffsetAfter(EndOf(records), Fragments(EndOf(records), data, true))
  {
    hide Fragments, Fits, OffsetAfter, Layout, AllFragments;
    AllFragmentsAppend(0, records, [data]);
    OneRecord(EndOf(records), data);
    LayoutAppend(0, AllFragments(0, records), Fragments(EndOf(records), data, true));
  }

  /** The offset of a reopened log follows from its length. */
  lemma {:induction false} LogLength(records: seq<Bytes>)
    ensures SamePlace(|Log(records)| % BLOCK_SIZE, EndOf(records))
  {
    hide Layout, AllFragments, OffsetAfter, Fits;
    LayoutLength(0, AllFragments(0, records));
  }
}
