/** Reads blocks: a cursor that rebuilds keys from what they share. */
module BlockIters {
  import opened Coding
  import opened Octets
  import opened Options
  import opened Varints
  import opened BlockFormat

  // ----- The head of an entry

  datatype Head = Head(shared: nat, nonShared: nat, valueLength: nat, used: nat)

  function ReadWord(input: Bytes): Option<Read> {
    match ReadVarint(input, 5)
    case None => None
    case Some(x) => Some(Read(Cut(x.value, TWO_32), x.used))
  }

  /** The key delta and the value that a head announces end within so many bytes. */
  predicate Inside(h: Head, length: nat) {
    h.used + h.nonShared + h.valueLength <= length
  }

  /**
   * Whether as many bytes are left as two lengths say together. Both sides of the comparison are
   * 32-bit numbers, so a sum that wraps around lets an entry pass that goes on past the input.
   */
  predicate Passes(left: nat, nonShared: nat, valueLength: nat) {
    Cut(left, TWO_32) >= Cut(nonShared + valueLength, TWO_32)
  }

  lemma {:induction false} PassesMeans(left: nat, nonShared: nat, valueLength: nat)
    requires left < TWO_32 && nonShared < TWO_32 && valueLength < TWO_32
    ensures nonShared + valueLength < TWO_32 ==> (Passes(left, nonShared, valueLength) <==> nonShared + valueLength <= left)
    ensures nonShared + valueLength >= TWO_32 ==> (Passes(left, nonShared, valueLength) <==> nonShared + valueLength - TWO_32 <= left)
  {
  }

  /** Three numbers, and after them as many bytes as the last two say together. */
  function ReadHead(input: Bytes): (r: Option<Head>)
    ensures r.Some? ==> 3 <= r.value.used <= |input|
  {
    var a := ReadWord(input);
    if a.None? then None
    else
      var b := ReadWord(input[a.value.used..]);
      if b.None? then None
      else
        var c := ReadWord(input[a.value.used + b.value.used..]);
        if c.None? then None
        else
          var used := a.value.used + b.value.used + c.value.used;
          if !Passes(|input| - used, b.value.value, c.value.value) then None
          else Some(Head(a.value.value, b.value.value, c.value.value, used))
  }

  lemma {:induction false} ReadWordInverts(v: nat, rest: Bytes)
    requires v < TWO_32
    ensures ReadWord(Varint(v) + rest) == Some(Read(v, |Varint(v)|))
  {
    hide Varint, ReadVarint;
    VarintWidths(v);
    ReadInvertsVarint(v, rest, 5);
  }

  lemma {:induction false} Peel(a: Bytes, b: Bytes, c: Bytes, tail: Bytes)
    ensures var input := a + (b + (c + tail));
      input[|a|..] == b + (c + tail) && input[|a| + |b|..] == c + tail && input[|a| + |b| + |c|..] == tail
  {
    var input := a + (b + (c + tail));
    assert input[|a| + |b|..] == input[|a|..][|b|..];
    assert input[|a| + |b| + |c|..] == input[|a| + |b|..][|c|..];
  }

  lemma {:induction false} Cuts(input: Bytes, used: nat, d: Bytes, e: Bytes, rest: Bytes)
    requires used <= |input| && input[used..] == d + (e + rest)
    ensures used + |d| + |e| <= |input|
    ensures input[used..used + |d|] == d && input[used + |d|..used + |d| + |e|] == e
  {
    assert input[used..used + |d|] == input[used..][..|d|];
    assert input[used + |d|..used + |d| + |e|] == input[used..][|d|..|d| + |e|];
  }

  /** The head of a chunk reads back, whatever follows the chunk. */
  lemma {:induction false} ReadHeadInverts(p: Pair, shared: nat, rest: Bytes)
    requires SmallPair(p) && shared <= |p.key| && |Chunk(p, shared) + rest| < TWO_32
    ensures var input := Chunk(p, shared) + rest;
      && ReadHead(input).Some?
      && var h := ReadHead(input).value;
         && h.shared == shared && h.nonShared == |p.key| - shared && h.valueLength == |p.value|
         && h.used + h.nonShared + h.valueLength == |Chunk(p, shared)|
         && input[h.used..h.used + h.nonShared] == p.key[shared..]
         && input[h.used + h.nonShared..h.used + h.nonShared + h.valueLength] == p.value
  {
    hide Varint, ReadWord, Passes;
    var a, b, c := Varint(shared), Varint(|p.key| - shared), Varint(|p.value|);
    var tail := p.key[shared..] + (p.value + rest);
    var input := Chunk(p, shared) + rest;
    assert input == a + (b + (c + tail));
    Peel(a, b, c, tail);
    ReadWordInverts(shared, b + (c + tail));
    ReadWordInverts(|p.key| - shared, c + tail);
    ReadWordInverts(|p.value|, tail);
    assert |p.key| - shared + |p.value| <= |tail| < TWO_32;
    PassesMeans(|tail|, |p.key| - shared, |p.value|);
    Cuts(input, |a| + |b| + |c|, p.key[shared..], p.value, rest);
  }

  lemma {:induction false} PassesIsCut(left: nat, nonShared: nat, valueLength: nat)
    requires left < TWO_32
    ensures Passes(left, nonShared, valueLength) <==> (nonShared + valueLength) % TWO_32 <= left
  {
  }

  /** An accepted entry ends inside its block if and only if its two lengths add up without wrapping around. */
  lemma {:induction false} AcceptedIsInside(input: Bytes)
    requires |input| < TWO_32 && ReadHead(input).Some?
    ensures Inside(ReadHead(input).value, |input|) <==> ReadHead(input).value.nonShared + ReadHead(input).value.valueLength < TWO_32
  {
    hide ReadVarint, Passes;
    var h := ReadHead(input).value;
    PassesMeans(|input| - h.used, h.nonShared, h.valueLength);
  }

  /** Every three numbers as a head: accepted if and only if the wrapped sum of the lengths fits. */
  lemma {:induction false} AcceptedByWrappedSum(shared: nat, nonShared: nat, valueLength: nat, rest: Bytes)
    requires shared < TWO_32 && nonShared < TWO_32 && valueLength < TWO_32
    requires |Varint(shared) + (Varint(nonShared) + (Varint(valueLength) + rest))| < TWO_32
    ensures var input := Varint(shared) + (Varint(nonShared) + (Varint(valueLength) + rest));
      && (ReadHead(input).Some? <==> (nonShared + valueLength) % TWO_32 <= |rest|)
      && (ReadHead(input).Some? ==> ReadHead(input).value == Head(shared, nonShared, valueLength, |input| - |rest|))
  {
    hide Varint, ReadWord, Passes;
    PassesIsCut(|rest|, nonShared, valueLength);
    var a, b, c := Varint(shared), Varint(nonShared), Varint(valueLength);
    Peel(a, b, c, rest);
    ReadWordInverts(shared, b + (c + rest));
    ReadWordInverts(nonShared, c + rest);
    ReadWordInverts(valueLength, rest);
  }

  /** Eight bytes that announce 2^32 + 1 more: the sum wraps to one and the entry is accepted. */
  lemma {:induction false} WrappedSumLeavesTheBlock(last: bv8)
    ensures var input := [0, 255, 255, 255, 255, 15, 2, last];
      ReadHead(input) == Some(Head(0, TWO_32 - 1, 2, 7)) && !Inside(ReadHead(input).value, |input|)
  {
    var a, b, c, rest := [0 as bv8], [255 as bv8, 255, 255, 255, 15], [2 as bv8], [last];
    hide Varint, ReadHead;
    SomeWords();
    assert (TWO_32 - 1 + 2) % TWO_32 == 1;
    assert [0, 255, 255, 255, 255, 15, 2, last] == a + (b + (c + rest));
    AcceptedByWrappedSum(0, TWO_32 - 1, 2, rest);
  }

  lemma {:induction false} ShortRead(input: Bytes, i: nat)
    requires i < |input| && Value(input[i]) < 128
    ensures ReadWord(input[i..]) == Some(Read(Value(input[i]), 1))
  {
    hide Value;
    assert input[i..][0] == input[i];
  }

  method GetWord(input: Bytes) returns (r: Option<Read>)
    ensures r == ReadWord(input)
  {
    r := GetVarint(input, 5, TWO_32);
  }

  /** The fast path for three numbers of one byte each gives what the general one would. */
  method DecodeEntry(input: Bytes) returns (r: Option<Head>)
    ensures r == ReadHead(input)
  {
    hide ReadWord, Value, Passes;
    if |input| < 3 {
      TooShort(input);
      return None;
    }
    var shared, nonShared, valueLength, used := Value(input[0]), Value(input[1]), Value(input[2]), 3;
    if shared < 128 && nonShared < 128 && valueLength < 128 {
      ShortRead(input, 0);
      ShortRead(input, 1);
      ShortRead(input, 2);
      assert input[0..] == input;
    } else {
      var a := GetWord(input);
      if a.None? {
        return None;
      }
      assert a.value.used <= |input| by {
        ReadWordUses(input);
      }
      var b := GetWord(input[a.value.used..]);
      if b.None? {
        return None;
      }
      ReadWordUses(input[a.value.used..]);
      var c := GetWord(input[a.value.used + b.value.used..]);
      if c.None? {
        return None;
      }
      ReadWordUses(input[a.value.used + b.value.used..]);
      shared, nonShared, valueLength := a.value.value, b.value.value, c.value.value;
      used := a.value.used + b.value.used + c.value.used;
    }
    if !Passes(|input| - used, nonShared, valueLength) {
      return None;
    }
    return Some(Head(shared, nonShared, valueLength, used));
  }

  lemma {:induction false} ReadWordUses(input: Bytes)
    ensures ReadWord(input).Some? ==> 1 <= ReadWord(input).value.used <= |input|
  {
  }

  lemma {:induction false} TooShort(input: Bytes)
    requires |input| < 3
    ensures ReadHead(input) == None
  {
    hide ReadWord;
    ReadWordUses(input);
    if a :| ReadWord(input) == Some(a) {
      ReadWordUses(input[a.used..]);
      if b :| ReadWord(input[a.used..]) == Some(b) {
        ReadWordUses(input[a.used + b.used..]);
      }
    }
  }

  // ----- The block and its cursor

  /** The block's fields, as its constructor finds them in the bytes. */
  datatype Opened = Opened(size: nat, restartOffset: nat, numRestarts: nat)

  function NumRestarts(data: Bytes): nat
    requires |data| >= 4
  {
    FixedValue(data[|data| - 4..], 4)
  }

  function Open(data: Bytes): (r: Opened)
    ensures r.size <= |data| && (r.size > 0 ==> r.restartOffset + 4 * (r.numRestarts + 1) == |data|)
  {
    if |data| < 4 then Opened(0, 0, 0)
    else
      var max := (|data| - 4) / 4;
      var n := NumRestarts(data);
      if n > max then Opened(0, 0, 0)
      else Opened(|data|, |data| - (1 + n) * 4, n)
  }

  /** Any bytes are taken for a block if and only if there is room for the restart array that their last word announces. */
  lemma {:induction false} OpenAccepts(data: Bytes)
    ensures Open(data).size == if |data| >= 4 && 4 * (FixedValue(data[|data| - 4..], 4) + 1) <= |data| then |data| else 0
    ensures Open(data).size > 0 ==> Open(data).numRestarts == FixedValue(data[|data| - 4..], 4)
  {
    hide FixedValue;
  }

  lemma {:induction false} OpenFinds(pairs: seq<Pair>, marks: seq<nat>)
    requires FitsBlock(pairs, marks)
    ensures var data := BlockOf(pairs, marks);
      Open(data) == Opened(|data|, Off(pairs, marks, |pairs|), |marks|)
  {
    hide Fixed, FixedValue, Pow256, Words, Data;
    var data := BlockOf(pairs, marks);
    FixedWidths();
    FixedValueInvertsFixed(|marks|, 4, []);
    assert data[|data| - 4..] == Fixed(|marks|, 4) + [];
  }

  /** The restart array gives the offsets of the marks. */
  lemma {:induction false} RestartPointIs(pairs: seq<Pair>, marks: seq<nat>, index: nat)
    requires FitsBlock(pairs, marks) && index < |marks|
    ensures var at := Off(pairs, marks, |pairs|) + 4 * index;
      && at + 4 <= |BlockOf(pairs, marks)|
      && FixedValue(BlockOf(pairs, marks)[at..], 4) == Off(pairs, marks, marks[index])
  {
    hide Fixed, FixedValue, Words, Data;
    var words, last := Words(Restarts(pairs, marks)), Fixed(|marks|, 4);
    forall x | x in Restarts(pairs, marks) ensures x < TWO_32 {
      var j :| 0 <= j < |marks| && x == Off(pairs, marks, marks[j]);
      OffGrows(pairs, marks, marks[j], |pairs|);
    }
    WordAt(Restarts(pairs, marks), index, last);
    var at := Off(pairs, marks, |pairs|) + 4 * index;
    assert BlockOf(pairs, marks)[at..] == (words + last)[4 * index..];
  }

  /** What the data holds from a pair's offset on: its chunk first. */
  lemma {:induction false} ChunkFirst(pairs: seq<Pair>, marks: seq<nat>, i: nat)
    requires FitsBlock(pairs, marks) && i < |pairs|
    ensures var off, limit, data, chunk := Off(pairs, marks, i), Off(pairs, marks, |pairs|), BlockOf(pairs, marks), ChunkAt(pairs, marks, i);
      && off < limit <= |data| && |chunk| <= limit - off && off + |chunk| == Off(pairs, marks, i + 1)
      && data[off..limit] == chunk + data[off + |chunk|..limit]
  {
    hide Data, Words, ChunkAt;
    var off, limit, data := Off(pairs, marks, i), Off(pairs, marks, |pairs|), BlockOf(pairs, marks);
    var chunk := ChunkAt(pairs, marks, i);
    SplitAt(pairs, marks, i);
    OffGrows(pairs, marks, i, i + 1);
    OffGrows(pairs, marks, i + 1, |pairs|);
    assert data[..limit] == Data(pairs, marks, |pairs|);
    assert data[off..off + |chunk|] == data[..limit][off..off + |chunk|] == chunk;
    assert data[off..limit] == data[off..off + |chunk|] + data[off + |chunk|..limit];
  }

  lemma {:induction false} SliceOfSlice(data: Bytes, off: nat, limit: nat, i: nat, j: nat)
    requires off <= limit <= |data| && i <= j <= limit - off
    ensures data[off..limit][i..j] == data[off + i..off + j]
  {
    assert forall k | 0 <= k < j - i :: data[off..limit][i..j][k] == data[off + i + k];
  }

  /** Decoding at the offset of a pair finds its chunk. */
  lemma {:induction false} EntryAt(pairs: seq<Pair>, marks: seq<nat>, i: nat)
    requires FitsBlock(pairs, marks) && i < |pairs|
    ensures var off, limit, data := Off(pairs, marks, i), Off(pairs, marks, |pairs|), BlockOf(pairs, marks);
      && off < limit <= |data| && ReadHead(data[off..limit]).Some?
      && var h := ReadHead(data[off..limit]).value;
         var at := off + h.used;
         && h.shared == ShareAt(pairs, marks, i) && h.nonShared == |pairs[i].key| - h.shared
         && at + h.nonShared + h.valueLength == Off(pairs, marks, i + 1) <= limit
         && data[at..at + h.nonShared] == pairs[i].key[h.shared..]
         && data[at + h.nonShared..at + h.nonShared + h.valueLength] == pairs[i].value
  {
    hide Off, BlockOf, Chunk, ReadHead, ShareAt;
    var off, limit, data, chunk := Off(pairs, marks, i), Off(pairs, marks, |pairs|), BlockOf(pairs, marks), ChunkAt(pairs, marks, i);
    ChunkFirst(pairs, marks, i);
    assert pairs[i] in pairs;
    assert |chunk + data[off + |chunk|..limit]| < TWO_32;
    ReadHeadInverts(pairs[i], ShareAt(pairs, marks, i), data[off + |chunk|..limit]);
    var h := ReadHead(data[off..limit]).value;
    SliceOfSlice(data, off, limit, h.used, h.used + h.nonShared);
    SliceOfSlice(data, off, limit, h.used + h.nonShared, |chunk|);
    assert h.used + h.nonShared + h.valueLength == |chunk|;
  }

  ghost predicate SeekableBy(pairs: seq<Pair>, less: (Bytes, Bytes) -> bool, target: Bytes) {
    forall i, j | 0 <= i < j < |pairs| :: less(pairs[j].key, target) ==> less(pairs[i].key, target)
  }

  class Iter {
    const less: (Bytes, Bytes) -> bool
    const data: Bytes
    const restarts: nat          // where the restart array starts
    const numRestarts: nat
    var current: nat             // offset of the current entry; at or past restarts when invalid
    var restartIndex: nat
    var key: Bytes
    var valueStart: nat
    var valueEnd: nat
    var corrupt: bool
    var overran: bool            // an accepted entry went on past the block: what the source does then is not defined

    // For a block as a builder made it: its pairs and restart points.
    ghost const intact: bool
    ghost const pairs: seq<Pair>
    ghost const marks: seq<nat>
    ghost var pos: nat           // number of the current pair; |pairs| when invalid

    ghost predicate Shape() {
      numRestarts > 0 && restarts + 4 * (numRestarts + 1) == |data| && (intact ==> Intact())
    }

    ghost predicate Intact() {
      && FitsBlock(pairs, marks) && data == BlockOf(pairs, marks)
      && restarts == Off(pairs, marks, |pairs|) && numRestarts == |marks|
    }

    /** The restart point at or before a pair, and the next one not before it. */
    ghost predicate InRegion(i: nat)
      reads this`restartIndex
    {
      restartIndex < |marks| && marks[restartIndex] <= i && (restartIndex + 1 < |marks| ==> i <= marks[restartIndex + 1])
    }

    ghost predicate At(i: nat)
      reads this`current, this`key, this`valueStart, this`valueEnd, this`restartIndex
    {
      && i < |pairs| && current == Off(pairs, marks, i) && key == pairs[i].key
      && valueEnd == Off(pairs, marks, i + 1) && valueStart <= valueEnd <= |data| && data[valueStart..valueEnd] == pairs[i].value
      && InRegion(i)
    }

    ghost predicate Ok()
      reads this
    {
      && Shape() && (current < restarts ==> restartIndex < numRestarts && valueStart <= valueEnd <= restarts)
      && (intact ==> !corrupt && !overran && (if current < restarts then At(pos) else pos == |pairs|))
    }

    /** The next entry to parse is pair i, and what its key shares is at hand. */
    ghost predicate Ready(i: nat)
      reads this`valueEnd, this`key, this`restartIndex
    {
      && i <= |pairs| && valueEnd == Off(pairs, marks, i) && restartIndex < |marks| && marks[restartIndex] <= i
      && (i < |pairs| ==> |key| >= ShareAt(pairs, marks, i) && key[..ShareAt(pairs, marks, i)] == pairs[i].key[..ShareAt(pairs, marks, i)])
    }

    constructor (less: (Bytes, Bytes) -> bool, data: Bytes, restarts: nat, numRestarts: nat,
        ghost intact: bool, ghost pairs: seq<Pair>, ghost marks: seq<nat>)
      requires Open(data) == Opened(|data|, restarts, numRestarts) && numRestarts > 0 && data != []
      requires intact ==> FitsBlock(pairs, marks) && data == BlockOf(pairs, marks)
      ensures Ok() && !Valid() && this.intact == intact && this.pairs == pairs && this.marks == marks
      ensures this.less == less && this.data == data && !corrupt && !overran
    {
      hide Data, Words, BlockOf;
      if intact {
        OpenFinds(pairs, marks);
      }
      this.less, this.data, this.restarts, this.numRestarts := less, data, restarts, numRestarts;
      this.intact, this.pairs, this.marks := intact, pairs, marks;
      current, restartIndex, key, valueStart, valueEnd, corrupt, overran := restarts, numRestarts, [], 0, 0, false, false;
      pos := |pairs|;
    }

    predicate Valid()
      reads this
    {
      current < restarts
    }

    function Value(): Bytes
      requires valueStart <= valueEnd <= |data|
      reads this
    {
      data[valueStart..valueEnd]
    }

    lemma {:induction false} Bounded()
      requires Ok() && Valid()
      ensures valueStart <= valueEnd <= |data|
    {
      hide BlockOf, FitsBlock;
    }

    /** The cursor shows the pair it is at. */
    lemma {:induction false} Shows()
      requires Ok() && intact
      ensures Valid() <==> pos < |pairs|
      ensures pos < |pairs| ==> key == pairs[pos].key && valueStart <= valueEnd <= |data| && Value() == pairs[pos].value
    {
      hide BlockOf, FitsBlock;
      if pos < |pairs| && Valid() {
        assert At(pos);
      }
    }

    function GetRestartPoint(index: nat): nat
      requires restarts + 4 * index + 4 <= |data|
    {
      FixedValue(data[restarts + 4 * index..], 4)
    }

    lemma {:induction false} RestartPoint(index: nat)
      requires Shape() && intact && index < numRestarts
      ensures marks[index] <= |pairs| && GetRestartPoint(index) == Off(pairs, marks, marks[index])
    {
      hide Off, BlockOf, FixedValue;
      RestartPointIs(pairs, marks, index);
    }

    method CorruptionError()
      requires Shape() && !intact
      modifies this
      ensures Ok() && corrupt && !Valid() && overran == old(overran)
    {
      current, restartIndex, corrupt, key, valueStart, valueEnd := restarts, numRestarts, true, [], 0, 0;
    }

    /** Stands for reading past the block, after which nothing is known; the model stops there. */
    method LeaveBlock()
      requires Shape() && !intact
      modifies this
      ensures Ok() && overran && !Valid() && corrupt == old(corrupt)
    {
      current, restartIndex, overran, key, valueStart, valueEnd := restarts, numRestarts, true, [], 0, 0;
    }

    /** The head of the entry at an offset, if there is one before the restart array. */
    function HeadAt(offset: nat): Option<Head>
      requires restarts <= |data|
    {
      if offset < restarts then ReadHead(data[offset..restarts]) else None
    }

    method SeekToRestartPoint(index: nat)
      requires Shape() && index < numRestarts
      modifies this`key, this`restartIndex, this`valueStart, this`valueEnd
      ensures restartIndex == index && (intact ==> index < |marks| && Ready(marks[index]))
    {
      hide Off, BlockOf, GetRestartPoint, ShareAt;
      if intact {
        RestartPoint(index);
        assert marks[index] in marks;
      }
      key := [];
      restartIndex := index;
      var offset := GetRestartPoint(index);
      valueStart, valueEnd := offset, offset;
    }

    /** For any bytes: what parsing the entry at an offset makes of the key before it and of the two flags. */
    ghost predicate Parsed(from: nat, was: Bytes, corrupt0: bool, overran0: bool, more: bool)
      requires restarts <= |data|
      reads this
    {
      var head := HeadAt(from);
      var good, inside := head.Some? && head.value.shared <= |was|, head.Some? && Inside(head.value, restarts - from);
      && more == (good && inside)
      && corrupt == (corrupt0 || (from < restarts && !good))
      && overran == (overran0 || (good && !inside))
      && (more ==>
        var at := from + head.value.used;
        var end := at + head.value.nonShared;
        key == was[..head.value.shared] + data[at..end] && valueStart == end && valueEnd == end + head.value.valueLength)
    }

    method ParseNextKey(ghost i: nat) returns (more: bool)
      requires Shape() && restartIndex < numRestarts && (intact ==> !corrupt && !overran && Ready(i))
      modifies this
      ensures Ok() && more == Valid() && (more ==> current == old(valueEnd) < valueEnd)
      ensures intact ==> pos == i && more == (i < |pairs|)
      ensures Parsed(old(valueEnd), old(key), old(corrupt), old(overran), more)
    {
      hide Off, ShareAt, ReadHead, BlockOf, GetRestartPoint, FitsBlock;
      current := valueEnd;
      if intact {
        Ordered(pairs, marks, i);
      }
      if current >= restarts {
        current, restartIndex, pos := restarts, numRestarts, |pairs|;
        return false;
      }
      if intact {
        HeadOfPair(i);
      }
      var head := DecodeEntry(data[current..restarts]);
      if head.None? || |key| < head.value.shared {
        CorruptionError();
        return false;
      }
      if !Inside(head.value, restarts - current) {
        LeaveBlock();
        return false;
      }
      TakeEntry(head.value, i);
      return true;
    }

    lemma {:induction false} HeadOfPair(i: nat)
      requires Shape() && intact && Ready(i) && i < |pairs|
      ensures valueEnd < restarts && HeadAt(valueEnd).Some?
      ensures HeadAt(valueEnd).value.shared <= |key| && Inside(HeadAt(valueEnd).value, restarts - valueEnd)
    {
      hide Off, BlockOf, FitsBlock, ReadHead;
      EntryAt(pairs, marks, i);
    }

    /** Key, value and restart region of an entry that is all there. */
    method TakeEntry(head: Head, ghost i: nat)
      requires Shape() && restartIndex < numRestarts && current == valueEnd < restarts && HeadAt(current) == Some(head)
      requires head.shared <= |key| && Inside(head, restarts - current)
      requires intact ==> !corrupt && !overran && i < |pairs| && Ready(i)
      modifies this
      ensures Ok() && current == old(current) && pos == i && corrupt == old(corrupt) && overran == old(overran)
      ensures var end := current + head.used + head.nonShared;
        && key == old(key)[..head.shared] + data[current + head.used..end]
        && valueStart == end && valueEnd == end + head.valueLength && valueEnd > current
    {
      hide Off, ShareAt, ReadHead, BlockOf, GetRestartPoint, FitsBlock;
      if intact {
        EntryAt(pairs, marks, i);
      }
      var at := current + head.used;
      key := key[..head.shared];
      key := key + data[at..at + head.nonShared];
      valueStart := at + head.nonShared;
      valueEnd := valueStart + head.valueLength;
      pos := i;
      AdvanceRegion(i);
    }

    /** Moves on to the last restart point that is before the current entry. */
    method AdvanceRegion(ghost i: nat)
      requires Shape() && restartIndex < numRestarts
      requires intact ==> i < |pairs| && marks[restartIndex] <= i && current == Off(pairs, marks, i)
      modifies this`restartIndex
      ensures restartIndex < numRestarts && (intact ==> InRegion(i))
    {
      hide Off, BlockOf, GetRestartPoint, FitsBlock;
      while restartIndex + 1 < numRestarts && GetRestartPoint(restartIndex + 1) < current
        invariant restartIndex < numRestarts && (intact ==> marks[restartIndex] <= i)
        decreases numRestarts - restartIndex
      {
        if intact {
          RestartPoint(restartIndex + 1);
          OffOrder(pairs, marks, restartIndex + 1, i);
        }
        restartIndex := restartIndex + 1;
      }
      if intact && restartIndex + 1 < numRestarts {
        RestartPoint(restartIndex + 1);
        OffOrder(pairs, marks, restartIndex + 1, i);
      }
    }

    /** The key at hand has what the next one shares. */
    lemma {:induction false} ReadyNext(i: nat)
      requires Shape() && intact && At(i)
      ensures Ready(i + 1)
    {
      hide Off, BlockOf, FitsBlock;
      if i + 1 < |pairs| {
        var n := ShareAt(pairs, marks, i + 1);
        assert pairs[i].key[..n] == pairs[i + 1].key[..n];
      }
    }

    method Next()
      requires Ok() && Valid()
      modifies this
      ensures Ok() && (intact ==> pos == old(pos) + 1)
    {
      hide Off, ShareAt, BlockOf, FitsBlock, Ready, At, Parsed;
      if intact {
        ReadyNext(pos);
      }
      var _ := ParseNextKey(pos + 1);
    }

    method SeekToFirst()
      requires Ok()
      modifies this
      ensures Ok() && (intact ==> pos == 0)
    {
      hide Off, ShareAt, BlockOf, Ready, At, Parsed;
      SeekToRestartPoint(0);
      if intact {
        FirstMark(pairs, marks);
      }
      var _ := ParseNextKey(0);
    }

    /** From the last restart point on to the entry that ends where the restart array starts. */
    method SeekToLast()
      requires Ok()
      modifies this
      ensures Ok() && (intact ==> pos == if pairs == [] then 0 else |pairs| - 1)
    {
      hide Off, ShareAt, BlockOf, Ready, Parsed, FitsBlock;
      SeekToRestartPoint(numRestarts - 1);
      ghost var i: nat := if intact then marks[numRestarts - 1] else 0;
      if intact {
        LastMark(pairs, marks);
      }
      var more := ParseNextKey(i);
      while more && valueEnd < restarts
        invariant Ok() && more == Valid() && (intact ==> pos == i && more == (i < |pairs|))
        invariant intact ==> pairs != [] ==> i < |pairs|
        decreases more, restarts - valueEnd
      {
        if intact {
          ReadyNext(i);
          Ordered(pairs, marks, i + 1);
        }
        i := i + 1;
        more := ParseNextKey(i);
      }
      if intact && more {
        Ordered(pairs, marks, i + 1);
      }
    }

    /** Goes back to a restart point before the current entry and from there up to its predecessor. */
    method Prev()
      requires Ok() && Valid()
      modifies this
      ensures Ok() && (intact ==> pos == if old(pos) == 0 then |pairs| else old(pos) - 1)
    {
      hide Off, ShareAt, BlockOf, Ready, GetRestartPoint, FitsBlock, Parsed;
      var original := current;
      ghost var p := pos;
      while GetRestartPoint(restartIndex) >= original
        invariant restartIndex < numRestarts && Shape() && (intact ==> p < |pairs| && original == Off(pairs, marks, p) && !corrupt && !overran)
        decreases restartIndex
      {
        if restartIndex == 0 {
          if intact {
            RestartPoint(0);
            OffOrder(pairs, marks, 0, p);
            FirstMark(pairs, marks);
          }
          current, restartIndex, pos := restarts, numRestarts, |pairs|;
          return;
        }
        restartIndex := restartIndex - 1;
      }
      if intact {
        RestartPoint(restartIndex);
        OffOrder(pairs, marks, restartIndex, p);
      }
      SeekToRestartPoint(restartIndex);
      ghost var i: nat := if intact then marks[restartIndex] else 0;
      var more := ParseNextKey(i);
      while more && valueEnd < original
        invariant Ok() && more == Valid() && (intact ==> pos == i < p && more)
        decreases more, restarts - valueEnd
      {
        if intact {
          ReadyNext(i);
          NextBefore(pairs, marks, i, p);
        }
        i := i + 1;
        more := ParseNextKey(i);
      }
      if intact {
        NextBefore(pairs, marks, i, p);
      }
    }

    /** Binary search over the restart points, then a scan, for the first key that is not less than the target. */
    method Seek(target: Bytes)
      requires Ok() && (intact ==> SeekableBy(pairs, less, target))
      modifies this
      ensures Ok()
      ensures intact ==> (forall i | 0 <= i < pos :: less(pairs[i].key, target)) && (pos < |pairs| ==> !less(pairs[pos].key, target))
    {
      hide Off, ShareAt, BlockOf, Ready, FitsBlock, Parsed;
      var left, found := SearchRestarts(target);
      if !found {
        return;
      }
      SeekToRestartPoint(left);
      ghost var i: nat := if intact then marks[left] else 0;
      var more := ParseNextKey(i);
      while more && less(key, target)
        invariant Ok() && more == Valid() && (intact ==> pos == i && more == (i < |pairs|))
        invariant intact ==> forall j | 0 <= j < i :: less(pairs[j].key, target)
        decreases more, restarts - valueEnd
      {
        if intact {
          ReadyNext(i);
        }
        i := i + 1;
        more := ParseNextKey(i);
      }
    }

    /** The last restart point whose key is before the target, or the first one. */
    method SearchRestarts(target: Bytes) returns (left: nat, found: bool)
      requires Ok() && (intact ==> SeekableBy(pairs, less, target))
      modifies this
      ensures intact ==> found
      ensures if found then Shape() && left < numRestarts && corrupt == old(corrupt) && overran == old(overran) else Ok() && !Valid()
      ensures intact && found ==>
        !corrupt && !overran && left < |marks| && marks[left] <= |pairs| && forall j | 0 <= j < marks[left] && j < |pairs| :: less(pairs[j].key, target)
    {
      hide Off, ShareAt, BlockOf, GetRestartPoint, FitsBlock, ReadHead, Inside;
      left, found := 0, true;
      var right: nat := numRestarts - 1;
      while left < right
        invariant left <= right < numRestarts && Shape() && (intact ==> !corrupt && !overran) && corrupt == old(corrupt) && overran == old(overran)
        invariant intact && left > 0 ==> marks[left] < |pairs| && less(pairs[marks[left]].key, target)
        decreases right - left
      {
        var mid := (left + right + 1) / 2;
        if intact {
          RestartPoint(mid);
          MarkInside(pairs, marks, mid);
          EntryAt(pairs, marks, marks[mid]);
        }
        var regionOffset := GetRestartPoint(mid);
        if regionOffset > restarts {
          CorruptionError();
          return left, false;
        }
        var head := DecodeEntry(data[regionOffset..restarts]);
        if head.None? || head.value.shared != 0 {
          CorruptionError();
          return left, false;
        }
        var at := regionOffset + head.value.used;
        if restarts - at < head.value.nonShared {
          LeaveBlock();
          return left, false;
        }
        var midKey := data[at..at + head.value.nonShared];
        if less(midKey, target) {
          left := mid;
        } else {
          right := mid - 1;
        }
      }
      if intact {
        FirstMark(pairs, marks);
        RestartPoint(left);
      }
    }
  }

  lemma {:induction false} FirstMark(pairs: seq<Pair>, marks: seq<nat>)
    requires FitsBlock(pairs, marks)
    ensures marks != [] && marks[0] == 0
  {
  }

  lemma {:induction false} LastMark(pairs: seq<Pair>, marks: seq<nat>)
    requires FitsBlock(pairs, marks)
    ensures marks != [] && (pairs != [] ==> marks[|marks| - 1] < |pairs|) && (pairs == [] ==> marks[|marks| - 1] == 0)
  {
  }

  lemma {:induction false} MarkInside(pairs: seq<Pair>, marks: seq<nat>, r: nat)
    requires FitsBlock(pairs, marks) && 0 < r < |marks|
    ensures marks[r] < |pairs| && ShareAt(pairs, marks, marks[r]) == 0
  {
  }

  lemma {:induction false} NextBefore(pairs: seq<Pair>, marks: seq<nat>, i: nat, p: nat)
    requires i < p < |pairs|
    ensures Off(pairs, marks, i + 1) < Off(pairs, marks, p) <==> i + 1 < p
  {
    hide Data, ChunkAt;
    OffGrows(pairs, marks, i + 1, p);
  }

  /** Offsets order pairs as their numbers do. */
  lemma {:induction false} Ordered(pairs: seq<Pair>, marks: seq<nat>, i: nat)
    requires i <= |pairs|
    ensures Off(pairs, marks, i) >= Off(pairs, marks, |pairs|) <==> i == |pairs|
    ensures Off(pairs, marks, i) <= Off(pairs, marks, |pairs|)
  {
    OffGrows(pairs, marks, i, |pairs|);
  }

  lemma {:induction false} OffOrder(pairs: seq<Pair>, marks: seq<nat>, r: nat, i: nat)
    requires FitsBlock(pairs, marks) && r < |marks| && i < |pairs|
    ensures marks[r] <= |pairs| && (Off(pairs, marks, marks[r]) < Off(pairs, marks, i) <==> marks[r] < i)
  {
    hide Data;
    assert marks[r] <= |pairs|;
    if marks[r] < i {
      OffGrows(pairs, marks, marks[r], i);
    } else {
      OffGrows(pairs, marks, i, marks[r]);
    }
  }
}
