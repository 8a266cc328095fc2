/** Reads table files: a point lookup through index, filter and data block. */
module Tables {
  import opened Coding
  import opened Options
  import opened Varints
  import opened Comparators
  import opened BlockFormat
  import opened BlockIters
  import opened FilterBlocks
  import opened TableFormat
  import opened TableBuilders

  // ----- What a lookup must deliver

  ghost predicate InTable(t: TableInfo, e: Pair) {
    exists i: nat :: i < |t.blocks| && e in t.blocks[i].pairs
  }

  /** A version of the key's user key at or past the key. */
  ghost predicate Answers(e: Pair, k: Bytes) {
    UserOf(e.key) == UserOf(k) && !KeyBefore(e.key, k)
  }

  /** The first entry at or past the key; or nothing, if none of them is a version of its user key. */
  ghost predicate Delivers(t: TableInfo, k: Bytes, r: Option<Pair>) {
    match r
    case None => forall e | InTable(t, e) :: !Answers(e, k)
    case Some(x) =>
      && InTable(t, x) && !KeyBefore(x.key, k)
      && forall e | InTable(t, e) && !KeyBefore(e.key, k) :: !KeyBefore(e.key, x.key)
  }

  // ----- Order between keys, index keys and blocks

  /** a is not past b, and b is before c. */
  lemma {:induction false} Between(a: Bytes, b: Bytes, c: Bytes)
    ensures !KeyBefore(b, a) && KeyBefore(b, c) ==> KeyBefore(a, c)
    ensures KeyBefore(a, b) && !KeyBefore(c, b) ==> KeyBefore(a, c)
    ensures !KeyBefore(b, a) && !KeyBefore(c, b) ==> !KeyBefore(c, a)
    ensures KeyBefore(a, b) ==> !KeyBefore(b, a)
  {
    KeyBeforeIsOrder(a, b, c);
    KeyBeforeIsOrder(b, a, c);
    KeyBeforeIsOrder(a, c, b);
    KeyBeforeIsOrder(c, b, a);
    KeyBeforeIsOrder(c, a, b);
    KeyBeforeIsOrder(b, c, a);
  }

  /** Between two versions of a user key there are only versions of it. */
  lemma {:induction false} SameUserBetween(a: Bytes, b: Bytes, c: Bytes)
    requires !KeyBefore(b, a) && !KeyBefore(c, b) && UserOf(a) == UserOf(c)
    ensures UserOf(b) == UserOf(a)
  {
    hide Before, UserOf, TagOf;
    BeforeIsStrict(UserOf(a), UserOf(b));
    BeforeIsStrict(UserOf(b), UserOf(c));
    BeforeIsStrict(UserOf(a), UserOf(a));
  }

  lemma {:induction false} IndexKeyAt(t: TableInfo, i: nat)
    requires IndexMatches(t.blocks, t.index.pairs) && i < |t.blocks|
    ensures t.blocks[i].pairs != [] && |t.index.pairs| == |t.blocks| && IndexEntry(t.blocks, i, t.index.pairs[i])
  {
  }

  /** Every entry of a later block is past an index key. */
  lemma {:induction false} LaterIsPast(t: TableInfo, i: nat, j: nat, e: Pair)
    requires BlocksInOrder(t.blocks) && IndexMatches(t.blocks, t.index.pairs) && i < j < |t.blocks| && e in t.blocks[j].pairs
    ensures KeyBefore(t.index.pairs[i].key, e.key) && !KeyBefore(e.key, t.blocks[i + 1].pairs[0].key)
  {
    hide KeyBefore, SeparatesUsers;
    IndexKeyAt(t, i);
    var sep, first := t.index.pairs[i].key, t.blocks[i + 1].pairs[0];
    assert first in t.blocks[i + 1].pairs;
    Between(first.key, e.key, sep);
    if j == i + 1 {
      assert SortedPairs(t.blocks[j].pairs);
      var m :| 0 <= m < |t.blocks[j].pairs| && t.blocks[j].pairs[m] == e;
      assert m > 0 ==> KeyBefore(first.key, e.key);
    } else {
      assert AllBefore(t.blocks[i + 1].pairs, t.blocks[j].pairs);
    }
    KeyBeforeIsOrder(sep, first.key, e.key);
    KeyBeforeIsOrder(first.key, e.key, e.key);
  }

  lemma {:induction false} IndexIsSeekable(t: TableInfo, k: Bytes)
    requires BlocksInOrder(t.blocks) && IndexMatches(t.blocks, t.index.pairs)
    ensures SeekableBy(t.index.pairs, KeyBefore, k)
  {
    hide KeyBefore, SeparatesUsers;
    var index := t.index.pairs;
    forall i, j | 0 <= i < j < |index| && KeyBefore(index[j].key, k) ensures KeyBefore(index[i].key, k) {
      IndexKeyAt(t, j);
      var e := t.blocks[j].pairs[0];
      LaterIsPast(t, i, j, e);
      Between(e.key, index[j].key, k);
      KeyBeforeIsOrder(index[i].key, e.key, k);
    }
  }

  lemma {:induction false} BlockIsSeekable(pairs: seq<Pair>, k: Bytes)
    requires SortedPairs(pairs)
    ensures SeekableBy(pairs, KeyBefore, k)
  {
    hide KeyBefore;
    forall i, j | 0 <= i < j < |pairs| && KeyBefore(pairs[j].key, k) ensures KeyBefore(pairs[i].key, k) {
      KeyBeforeIsOrder(pairs[i].key, pairs[j].key, k);
    }
  }

  // ----- Where an answer can be

  /** Where the index sends a key. */
  ghost predicate SentTo(t: TableInfo, k: Bytes, pos: nat)
    requires |t.index.pairs| == |t.blocks|
  {
    && pos <= |t.blocks| && (forall i | 0 <= i < pos :: KeyBefore(t.index.pairs[i].key, k))
    && (pos < |t.blocks| ==> !KeyBefore(t.index.pairs[pos].key, k))
  }

  /** No entry of a block before that one is at or past the key. */
  lemma {:induction false} NotEarlier(t: TableInfo, k: Bytes, pos: nat, i: nat, e: Pair)
    requires IndexMatches(t.blocks, t.index.pairs) && SentTo(t, k, pos) && i < pos && e in t.blocks[i].pairs
    ensures KeyBefore(e.key, k) && !Answers(e, k)
  {
    hide KeyBefore, SeparatesUsers;
    IndexKeyAt(t, i);
    Between(e.key, t.index.pairs[i].key, k);
  }

  /** An answer in a later block means that the last entry of this one is a version of the user key at or past the key. */
  lemma {:induction false} LaterAnswerShowsHere(t: TableInfo, k: Bytes, pos: nat, j: nat, e: Pair)
    requires BlocksInOrder(t.blocks) && IndexMatches(t.blocks, t.index.pairs) && SentTo(t, k, pos)
    requires pos < j < |t.blocks| && e in t.blocks[j].pairs && Answers(e, k)
    ensures var pairs := t.blocks[pos].pairs; pairs != [] && Answers(pairs[|pairs| - 1], k)
  {
    hide KeyBefore, SeparatesUsers, UserOf, IndexEntry, BlocksInOrder;
    SeparatedThere(t, pos);
    var pairs := t.blocks[pos].pairs;
    var last, sep, first := pairs[|pairs| - 1].key, t.index.pairs[pos].key, t.blocks[pos + 1].pairs[0].key;
    LaterIsPast(t, pos, j, e);
    LaterIsPast(t, pos, pos + 1, t.blocks[pos + 1].pairs[0]);
    Between(k, sep, first);
    Between(sep, first, e.key);
    SameUserBetween(k, first, e.key);
    if KeyBefore(last, k) {
      SeparatedAt(last, sep, first, k);
      assert false;
    }
    Between(last, sep, first);
    SameUserBetween(k, last, first);
  }

  lemma {:induction false} SeparatedThere(t: TableInfo, i: nat)
    requires IndexMatches(t.blocks, t.index.pairs) && i + 1 < |t.blocks|
    ensures |t.index.pairs| == |t.blocks| && t.blocks[i].pairs != [] && t.blocks[i + 1].pairs != []
    ensures var pairs, sep, first := t.blocks[i].pairs, t.index.pairs[i].key, t.blocks[i + 1].pairs[0].key;
      !KeyBefore(sep, pairs[|pairs| - 1].key) && SeparatesUsers(pairs[|pairs| - 1].key, sep, first)
  {
    hide KeyBefore, SeparatesUsers;
    IndexKeyAt(t, i);
    IndexKeyAt(t, i + 1);
  }

  lemma {:induction false} SeparatedAt(start: Bytes, sep: Bytes, limit: Bytes, k: Bytes)
    requires SeparatesUsers(start, sep, limit) && KeyBefore(start, k) && !KeyBefore(sep, k)
    ensures UserOf(k) != UserOf(limit)
  {
  }

  // ----- Blocks of a file

  /** A table file below 4 GB, which is what 32-bit block offsets are for. */
  ghost predicate Sound(file: Bytes, t: TableInfo, filterKey: Bytes) {
    |file| < TWO_32 && CompleteTable(file, t, filterKey)
  }

  /** What the file holds of a block, and the handle that leads there. */
  lemma {:induction false} BlockFits(file: Bytes, b: BlockInfo)
    requires |file| < TWO_32 && PlainBlock(file, b)
    ensures FitsBlock(b.pairs, b.marks) && HandleOf(b) == BlockHandle(b.offset, b.size)
    ensures Stored(file, b.offset, BlockOf(b.pairs, b.marks)) && b.size == |BlockOf(b.pairs, b.marks)|
    ensures |BlockOf(b.pairs, b.marks)| >= 4
  {
    hide Off, BlockOf, Trailer;
    BlockSize(b.pairs, b.marks);
  }

  lemma {:induction false} BlockSize(pairs: seq<Pair>, marks: seq<nat>)
    requires ValidMarks(pairs, marks)
    ensures |BlockOf(pairs, marks)| == Off(pairs, marks, |pairs|) + 4 * |marks| + 4
  {
    hide Data, Words;
  }

  lemma {:induction false} DataBlockFits(file: Bytes, t: TableInfo, filterKey: Bytes, i: nat)
    requires Sound(file, t, filterKey) && i < |t.blocks|
    ensures PlainBlock(file, t.blocks[i]) && SortedPairs(t.blocks[i].pairs) && t.blocks[i].pairs != []
  {
    hide Stored, BlockOf, PlainBlock, Ends, FilterFile, IndexMatches, AllBefore;
    assert BlockStored(file, t.blocks[i]);
    StoredIsPlain(file, t.blocks[i]);
  }

  lemma {:induction false} StoredIsPlain(file: Bytes, b: BlockInfo)
    requires BlockStored(file, b)
    ensures PlainBlock(file, b)
  {
    hide Stored, BlockOf;
  }

  /** A cursor over a block's bytes; none for a block that is bad or has no restart points. */
  method NewIterator(data: Bytes, less: (Bytes, Bytes) -> bool, ghost intact: bool, ghost pairs: seq<Pair>, ghost marks: seq<nat>)
    returns (it: Iter?)
    requires intact ==> FitsBlock(pairs, marks) && data == BlockOf(pairs, marks) && |data| >= 4
    ensures intact ==> it != null
    ensures it != null ==> fresh(it) && it.Ok() && it.intact == intact && it.pairs == pairs && it.marks == marks && it.less == less && !it.corrupt
  {
    hide Data, Words, BlockOf, Open, FixedValue, Off;
    if intact {
      OpenFinds(pairs, marks);
      FirstMark(pairs, marks);
    }
    var o := Open(data);
    if o.size < 4 {
      return null;
    }
    if o.numRestarts == 0 {
      return null;
    }
    OpenSize(data);
    it := new Iter(less, data, o.restartOffset, o.numRestarts, intact, pairs, marks);
  }

  lemma {:induction false} OpenSize(data: Bytes)
    ensures Open(data).size == |data| || Open(data).size == 0
  {
    hide FixedValue;
  }

  // ----- The table

  /** The filter of the block that the index leads to says that it cannot hold the key. */
  ghost predicate SkippedByFilter(t: TableInfo, k: Bytes, filter: Bytes)
    requires 8 <= |k| < TWO_32
  {
    |t.index.pairs| == |t.blocks| &&
    exists pos: nat :: pos < |t.blocks| && SentTo(t, k, pos) && !MayMatch(filter, t.blocks[pos].offset, k)
  }

  lemma {:induction false} NotRuledOut(t: TableInfo, k: Bytes, filter: Bytes, pos: nat)
    requires 8 <= |k| < TWO_32 && |t.index.pairs| == |t.blocks| && pos < |t.blocks| && SentTo(t, k, pos) && MayMatch(filter, t.blocks[pos].offset, k)
    ensures !SkippedByFilter(t, k, filter)
  {
    hide MayMatch, KeyBefore;
    if SkippedByFilter(t, k, filter) {
      var other: nat :| other < |t.blocks| && SentTo(t, k, other) && !MayMatch(filter, t.blocks[other].offset, k);
    }
  }

  class Table {
    const file: Bytes
    const indexData: Bytes
    var filter: FilterBlockReader?

    // For a file as a builder made it.
    ghost const intact: bool
    ghost const info: TableInfo
    ghost const filterKey: Bytes

    ghost predicate Ok()
      reads this
    {
      && (filter != null ==> filter.Ok())
      && (intact ==>
            && Sound(file, info, filterKey) && indexData == BlockOf(info.index.pairs, info.index.marks)
            && (filter != null ==> info.filter.Some? && filter.data == FilterContents(info.filter.value)))
    }

    constructor (file: Bytes, indexData: Bytes, ghost intact: bool, ghost info: TableInfo, ghost filterKey: Bytes)
      requires intact ==> Sound(file, info, filterKey) && indexData == BlockOf(info.index.pairs, info.index.marks)
      ensures Ok() && filter == null && this.file == file && this.intact == intact && this.info == info && this.filterKey == filterKey
    {
      this.file, this.indexData, filter := file, indexData, null;
      this.intact, this.info, this.filterKey := intact, info, filterKey;
    }

    /** The footer leads to the index; without a policy no filter is looked for. */
    static method Open(file: Bytes, policyKey: Option<Bytes>, paranoid: bool, ghost intact: bool, ghost info: TableInfo, ghost filterKey: Bytes)
      returns (table: Table?)
      requires intact ==> Sound(file, info, filterKey)
      ensures intact ==> table != null && (table.filter != null <==> info.filter.Some? && policyKey == Some(filterKey))
      ensures table != null ==> table.Ok() && table.file == file && table.intact == intact && table.info == info && table.filterKey == filterKey
    {
      hide CompleteTable, Stored, BlockOf, FitsBlock;
      if intact {
        FooterFits(file, info, filterKey);
      }
      if |file| < FOOTER_SIZE {
        return null;
      }
      var footer := DecodeFooter(file[|file| - FOOTER_SIZE..]);
      if !footer.Footer? {
        return null;
      }
      var indexBlock := ReadBlock(file, footer.index, paranoid);
      if !indexBlock.Contents? {
        return null;
      }
      table := new Table(file, indexBlock.data, intact, info, filterKey);
      if policyKey.Some? {
        table.ReadMeta(footer.meta, policyKey.value, paranoid);
      }
    }

    /** A filter is used only if the metaindex names one of the policy; without one nothing is ruled out. */
    method ReadMeta(metaHandle: BlockHandle, policyKey: Bytes, verifyChecksums: bool)
      requires Ok() && filter == null && (intact ==> metaHandle == HandleOf(info.meta))
      modifies this
      ensures Ok() && (intact ==> (filter != null <==> info.filter.Some? && policyKey == filterKey))
    {
      hide CompleteTable, Stored, BlockOf, EncodeHandle, MetaPairs, FilterContents, Before, FitsBlock;
      if intact {
        MetaFits(file, info, filterKey);
        BlockFits(file, info.meta);
        OneMetaPair(filterKey, info.filter, Before, policyKey);
        BeforeIsStrict(filterKey, filterKey);
      }
      var contents := ReadBlock(file, metaHandle, verifyChecksums);
      if !contents.Contents? {
        return;
      }
      var iter := NewIterator(contents.data, Before, intact, info.meta.pairs, info.meta.marks);
      if iter == null {
        return;
      }
      iter.Seek(policyKey);
      if intact {
        iter.Shows();
      }
      if iter.Valid() && iter.key == policyKey {
        iter.Bounded();
        assert intact ==> info.meta.pairs[iter.pos] in info.meta.pairs;
        ReadFilter(iter.Value(), verifyChecksums);
      }
    }

    method ReadFilter(value: Bytes, verifyChecksums: bool)
      requires Ok() && filter == null
      requires intact ==> info.filter.Some? && value == EncodeHandle(Handle64(info.filter.value.offset, |FilterContents(info.filter.value)|))
      modifies this
      ensures Ok() && (intact ==> filter != null)
    {
      hide CompleteTable, Stored, BlockOf, EncodeHandle, FilterContents, DecodeHandle;
      if intact {
        FilterFits(file, info, filterKey);
        DecodeInvertsHandle(Handle64(info.filter.value.offset, |FilterContents(info.filter.value)|), []);
        assert value + [] == value;
      }
      var handle := DecodeFrom(value);
      if handle.None? {
        return;
      }
      var block := ReadBlock(file, handle.value.handle, verifyChecksums);
      if !block.Contents? {
        return;
      }
      filter := new FilterBlockReader(block.data);
    }

    /** The filter of a block's offset, when there is one, is asked before the block is read. */
    method MayHold(handleValue: Bytes, k: Bytes) returns (r: bool)
      requires Ok() && |k| < TWO_32
      ensures r <==> filter == null || DecodeHandle(handleValue).None? || MayMatch(filter.data, DecodeHandle(handleValue).value.handle.offset, k)
    {
      hide DecodeHandle, MayMatch, Sound;
      r := true;
      if filter != null {
        var handle := DecodeFrom(handleValue);
        if handle.Some? {
          r := filter.KeyMayMatch(handle.value.handle.offset, k);
        }
      }
    }

    /** Index, filter, data block: delivers the first entry at or past the key that the block holds. */
    method InternalGet(k: Bytes, verifyChecksums: bool) returns (r: Option<Pair>, ok: bool)
      requires Ok() && 8 <= |k| < TWO_32
      ensures intact ==> ok && Delivers(info, k, r)
      ensures intact && filter != null && SkippedByFilter(info, k, filter.data) ==> r == None
    {
      hide SkippedByFilter, Sound, Stored, BlockOf, EncodeHandle, FilterContents, FitsBlock, KeyBefore, MayMatch, UserOf, Delivers, SentTo;
      if intact {
        IndexFits(file, info, filterKey);
        IndexIsSeekable(info, k);
      }
      var iiter := NewIterator(indexData, KeyBefore, intact, info.index.pairs, info.index.marks);
      if iiter == null {
        return None, false;
      }
      iiter.Seek(k);
      if intact {
        iiter.Shows();
        IndexSends(info, k, iiter.pos);
      }
      if !iiter.Valid() {
        if intact {
          NothingBehind(info, k, iiter.pos);
        }
        return None, !iiter.corrupt;
      }
      iiter.Bounded();
      var handleValue := iiter.Value();
      ghost var pos := iiter.pos;
      if intact {
        HandleAt(file, info, filterKey, pos);
      }
      var may := MayHold(handleValue, k);
      if !may {
        if intact {
          FilterRulesOut(file, info, filterKey, pos, k);
        }
        return None, true;
      }
      if intact && filter != null {
        NotRuledOut(info, k, filter.data, pos);
      }
      r, ok := GetFromBlock(handleValue, k, verifyChecksums, pos);
    }

    method GetFromBlock(handleValue: Bytes, k: Bytes, verifyChecksums: bool, ghost pos: nat) returns (r: Option<Pair>, ok: bool)
      requires Ok()
      requires intact ==>
        && BlocksInOrder(info.blocks) && IndexMatches(info.blocks, info.index.pairs)
        && pos < |info.blocks| && SentTo(info, k, pos) && handleValue == EncodeHandle(HandleOf(info.blocks[pos]))
      ensures intact ==> ok && Delivers(info, k, r)
    {
      hide Stored, BlockOf, EncodeHandle, FitsBlock, KeyBefore, UserOf, Delivers, DecodeHandle, CompleteTable, SentTo, BlocksInOrder, IndexMatches;
      ghost var b := if intact then info.blocks[pos] else BlockInfo([], [], 0, 0);
      if intact {
        DataBlockFits(file, info, filterKey, pos);
        BlockFits(file, b);
        DecodeInvertsHandle(HandleOf(b), []);
        assert handleValue + [] == handleValue;
        BlockIsSeekable(b.pairs, k);
      }
      var handle := DecodeFrom(handleValue);
      if handle.None? {
        return None, false;
      }
      var contents := ReadBlock(file, handle.value.handle, verifyChecksums);
      if !contents.Contents? {
        return None, false;
      }
      var blockIter := NewIterator(contents.data, KeyBefore, intact, b.pairs, b.marks);
      if blockIter == null {
        return None, false;
      }
      blockIter.Seek(k);
      r := None;
      if intact {
        blockIter.Shows();
        BlockDelivers(info, k, pos, blockIter.pos);
      }
      if blockIter.Valid() {
        blockIter.Bounded();
        r := Some(Pair(blockIter.key, blockIter.Value()));
      }
      ok := !blockIter.corrupt;
    }
  }

  lemma {:induction false} IndexFits(file: Bytes, t: TableInfo, filterKey: Bytes)
    requires Sound(file, t, filterKey)
    ensures FitsBlock(t.index.pairs, t.index.marks) && |BlockOf(t.index.pairs, t.index.marks)| >= 4
    ensures BlocksInOrder(t.blocks) && IndexMatches(t.blocks, t.index.pairs)
  {
    hide PlainBlock, Stored, BlockOf, EncodeHandle, FilterFile, Ends, IndexMatches, BlocksInOrder, BlocksWritten, MetaPairs, FitsBlock;
    BlockFits(file, t.index);
  }

  lemma {:induction false} IndexSends(t: TableInfo, k: Bytes, pos: nat)
    requires IndexMatches(t.blocks, t.index.pairs) && pos <= |t.index.pairs|
    requires (forall i | 0 <= i < pos :: KeyBefore(t.index.pairs[i].key, k)) && (pos < |t.index.pairs| ==> !KeyBefore(t.index.pairs[pos].key, k))
    ensures |t.index.pairs| == |t.blocks| && SentTo(t, k, pos)
  {
    hide KeyBefore, IndexEntry;
  }

  /** Past the last index key there is nothing. */
  lemma {:induction false} NothingBehind(t: TableInfo, k: Bytes, pos: nat)
    requires IndexMatches(t.blocks, t.index.pairs) && SentTo(t, k, pos) && pos == |t.blocks|
    ensures Delivers(t, k, None)
  {
    hide KeyBefore, UserOf, IndexEntry;
    forall e | InTable(t, e) ensures !Answers(e, k) {
      var i: nat :| i < |t.blocks| && e in t.blocks[i].pairs;
      NotEarlier(t, k, pos, i, e);
    }
  }

  lemma {:induction false} HandleAt(file: Bytes, t: TableInfo, filterKey: Bytes, pos: nat)
    requires Sound(file, t, filterKey) && pos < |t.blocks|
    ensures IndexMatches(t.blocks, t.index.pairs) && t.index.pairs[pos].value == EncodeHandle(HandleOf(t.blocks[pos]))
    ensures DecodeHandle(t.index.pairs[pos].value) == Some(HandleRead(BlockHandle(t.blocks[pos].offset, t.blocks[pos].size), |EncodeHandle(HandleOf(t.blocks[pos]))|))
  {
    hide PlainBlock, EncodeHandle, DecodeHandle, FilterFile, Ends, MetaPairs, BlocksInOrder, Stored, BlockOf, Separates;
    DataBlockFits(file, t, filterKey, pos);
    BlockFits(file, t.blocks[pos]);
    DecodeInvertsHandle(HandleOf(t.blocks[pos]), []);
    assert EncodeHandle(HandleOf(t.blocks[pos])) + [] == EncodeHandle(HandleOf(t.blocks[pos]));
  }

  /** What the filter rules out is not in the block the index leads to, nor in a later one. */
  lemma {:induction false} FilterRulesOut(file: Bytes, t: TableInfo, filterKey: Bytes, pos: nat, k: Bytes)
    requires Sound(file, t, filterKey) && t.filter.Some? && pos < |t.blocks| && |k| < TWO_32
    requires |t.index.pairs| == |t.blocks| && SentTo(t, k, pos)
    requires !MayMatch(FilterContents(t.filter.value), t.blocks[pos].offset, k)
    ensures Delivers(t, k, None)
  {
    hide KeyBefore, UserOf, MayMatch, SentTo, AllFilters, KeysInFilters, FilterBlockOf, Stored, Sound, FilterContents, BlocksInOrder, IndexMatches, Answers;
    IndexFits(file, t, filterKey);
    FilterFits(file, t, filterKey);
    forall e | InTable(t, e) ensures !Answers(e, k) {
      var i: nat :| i < |t.blocks| && e in t.blocks[i].pairs;
      if i < pos {
        NotEarlier(t, k, pos, i, e);
      } else if i == pos {
        RuledOut(t, t.filter.value, pos, e, k);
      } else if Answers(e, k) {
        LaterAnswerShowsHere(t, k, pos, i, e);
        var pairs := t.blocks[pos].pairs;
        RuledOut(t, t.filter.value, pos, pairs[|pairs| - 1], k);
      }
    }
  }

  lemma {:induction false} RuledOut(t: TableInfo, f: FilterInfo, pos: nat, e: Pair, k: Bytes)
    requires AllFilters(f.groups, f.k, f.offsets, f.result) && KeysInFilters(t.blocks, f.groups) && |f.result| < TWO_32 && |k| < TWO_32
    requires pos < |t.blocks| && e in t.blocks[pos].pairs && !MayMatch(FilterContents(f), t.blocks[pos].offset, k)
    ensures !Answers(e, k)
  {
    hide AllFilters, MayMatch, UserOf, FilterBlockOf, KeyBefore;
    var offset := t.blocks[pos].offset;
    assert InFilter(f.groups, offset, e.key);
    var group := f.groups[offset / FILTER_BASE];
    var i :| 0 <= i < |group| && group[i] == e.key;
    if UserOf(e.key) == UserOf(k) {
      NoFalseNegatives(f.groups, f.k, f.offsets, f.result, offset, i, k);
    }
  }

  /** The first entry of the block at or past the key is the first of the table; none there means none that answers. */
  lemma {:induction false} BlockDelivers(t: TableInfo, k: Bytes, pos: nat, at: nat)
    requires BlocksInOrder(t.blocks) && IndexMatches(t.blocks, t.index.pairs) && pos < |t.blocks| && SentTo(t, k, pos)
    requires at <= |t.blocks[pos].pairs| && (forall i | 0 <= i < at :: KeyBefore(t.blocks[pos].pairs[i].key, k))
    requires at < |t.blocks[pos].pairs| ==> !KeyBefore(t.blocks[pos].pairs[at].key, k)
    ensures Delivers(t, k, if at < |t.blocks[pos].pairs| then Some(t.blocks[pos].pairs[at]) else None)
  {
    hide KeyBefore, UserOf, SentTo, IndexMatches;
    var pairs := t.blocks[pos].pairs;
    if at < |pairs| {
      var x := pairs[at];
      assert InTable(t, x);
      forall e | InTable(t, e) && !KeyBefore(e.key, k) ensures !KeyBefore(e.key, x.key) {
        var i: nat :| i < |t.blocks| && e in t.blocks[i].pairs;
        if i < pos {
          NotEarlier(t, k, pos, i, e);
        } else if i == pos {
          var m :| 0 <= m < |pairs| && pairs[m] == e;
          KeyBeforeIsOrder(x.key, e.key, x.key);
          assert SortedPairs(pairs);
          assert m < at ==> KeyBefore(e.key, k);
        } else {
          assert AllBefore(pairs, t.blocks[i].pairs);
          KeyBeforeIsOrder(x.key, e.key, x.key);
        }
      }
    } else {
      forall e | InTable(t, e) ensures !Answers(e, k) {
        var i: nat :| i < |t.blocks| && e in t.blocks[i].pairs;
        if i < pos {
          NotEarlier(t, k, pos, i, e);
        } else if i == pos {
          var m :| 0 <= m < |pairs| && pairs[m] == e;
          assert KeyBefore(pairs[m].key, k);
        } else if Answers(e, k) {
          LaterAnswerShowsHere(t, k, pos, i, e);
        }
      }
    }
  }

  lemma {:induction false} MetaFits(file: Bytes, t: TableInfo, filterKey: Bytes)
    requires Sound(file, t, filterKey)
    ensures PlainBlock(file, t.meta) && t.meta.pairs == MetaPairs(filterKey, t.filter)
  {
    hide PlainBlock, Stored, BlockOf, EncodeHandle, FilterContents, Ends, FilterFile, IndexMatches, BlocksInOrder, BlocksWritten, MetaPairs;
  }

  lemma {:induction false} OneMetaPair(filterKey: Bytes, filter: Option<FilterInfo>, less: (Bytes, Bytes) -> bool, target: Bytes)
    ensures SeekableBy(MetaPairs(filterKey, filter), less, target)
    ensures |MetaPairs(filterKey, filter)| == if filter.Some? then 1 else 0
    ensures forall p | p in MetaPairs(filterKey, filter) ::
      filter.Some? && p.key == filterKey && p.value == EncodeHandle(Handle64(filter.value.offset, |FilterContents(filter.value)|))
  {
    hide EncodeHandle, FilterContents;
  }

  lemma {:induction false} FilterFits(file: Bytes, t: TableInfo, filterKey: Bytes)
    requires Sound(file, t, filterKey) && t.filter.Some?
    ensures var f, c := t.filter.value, FilterContents(t.filter.value);
      && Stored(file, f.offset, c) && Handle64(f.offset, |c|) == BlockHandle(f.offset, |c|)
      && AllFilters(f.groups, f.k, f.offsets, f.result) && KeysInFilters(t.blocks, f.groups) && |f.result| < TWO_32
  {
    hide PlainBlock, BlockOf, EncodeHandle, Ends, IndexMatches, BlocksInOrder, BlocksWritten, Trailer, Words, AllFilters, KeysInFilters;
    FrontOfBlock(t.filter.value.offsets, t.filter.value.result, 0, 0);
  }

  lemma {:induction false} FooterFits(file: Bytes, t: TableInfo, filterKey: Bytes)
    requires Sound(file, t, filterKey)
    ensures |file| >= FOOTER_SIZE && DecodeFooter(file[|file| - FOOTER_SIZE..]) == Footer(HandleOf(t.meta), HandleOf(t.index))
    ensures HandleOf(t.index) == BlockHandle(t.index.offset, t.index.size) && t.index.size == |BlockOf(t.index.pairs, t.index.marks)|
    ensures Stored(file, t.index.offset, BlockOf(t.index.pairs, t.index.marks))
  {
    hide PlainBlock, Stored, BlockOf, EncodeHandle, FilterFile, IndexMatches, BlocksInOrder, BlocksWritten, MetaPairs, FitsBlock, DecodeFooter, EncodeFooter;
    BlockFits(file, t.index);
    DecodeInvertsFooter(HandleOf(t.meta), HandleOf(t.index));
  }

  // ----- The meaning of a lookup

  /** The entry delivered is the newest version of the user key that the key's trailer admits, whenever there is one. */
  lemma {:induction false} DeliveredIsNewest(t: TableInfo, user: Bytes, tag: nat, r: Option<Pair>)
    requires tag < TWO_64 && Delivers(t, Encoded(user, tag), r)
    ensures (exists e :: InTable(t, e) && UserOf(e.key) == user && TagOf(e.key) <= tag) <==> r.Some? && UserOf(r.value.key) == user
    ensures r.Some? && UserOf(r.value.key) == user ==>
      && InTable(t, r.value) && TagOf(r.value.key) <= tag
      && forall e | InTable(t, e) && UserOf(e.key) == user && TagOf(e.key) <= tag :: TagOf(e.key) <= TagOf(r.value.key)
  {
    hide UserOf, TagOf, Before, InTable, Encoded;
    PartsOf(user, tag);
    var k := Encoded(user, tag);
    BeforeIsStrict(user, user);
    assert forall e: Pair :: UserOf(e.key) == user && TagOf(e.key) <= tag ==> Answers(e, k);
    if e :| InTable(t, e) && UserOf(e.key) == user && TagOf(e.key) <= tag {
      assert Answers(e, k);
      var x := r.value;
      assert !KeyBefore(e.key, x.key) && !KeyBefore(x.key, k);
      SameUserBetween(k, x.key, e.key);
    }
  }

  lemma {:induction false} InBlockPairs(blocks: seq<BlockInfo>, e: Pair)
    ensures e in BlockPairs(blocks) <==> exists i: nat :: i < |blocks| && e in blocks[i].pairs
  {
    if blocks != [] {
      var n := |blocks| - 1;
      InBlockPairs(blocks[..n], e);
      if i: nat :| i < |blocks| && e in blocks[i].pairs {
        assert i < n ==> e in blocks[..n][i].pairs;
      }
      if e in BlockPairs(blocks[..n]) {
        var i: nat :| i < n && e in blocks[..n][i].pairs;
        assert e in blocks[i].pairs;
      }
    }
  }

  lemma {:induction false} InTableIs(t: TableInfo, e: Pair)
    ensures InTable(t, e) <==> e in BlockPairs(t.blocks)
  {
    InBlockPairs(t.blocks, e);
  }

  lemma {:induction false} NoEntries(t: Progress)
    ensures t.blocks == [] && t.current == [] ==> Entries(t) == []
  {
  }

  /** Writes a run of pairs to a table file; an empty run makes none. */
  method BuildTable(pairs: seq<Pair>, blockSize: nat, interval: nat, policy: Option<Policy>, filterKey: Bytes)
    returns (file: Bytes, ghost t: TableInfo)
    requires interval >= 1 && (policy.Some? ==> ValidPolicy(policy.value)) && |filterKey| < TWO_32
    requires SortedPairs(pairs) && Small(pairs) && forall p | p in pairs :: |p.key| >= 8
    ensures pairs == [] ==> file == []
    ensures pairs != [] ==> CompleteTable(file, t, filterKey) && (t.filter.Some? == policy.Some?)
    ensures pairs != [] ==> forall e :: InTable(t, e) <==> e in pairs
  {
    hide Inv, KeyBefore, CompleteTable, SortedPairs, TableBuilder.Parts, Entries, BlockPairs, InTable;
    file, t := [], TableInfo([], BlockInfo([], [], 0, 0), BlockInfo([], [], 0, 0), None);
    if pairs == [] {
      return;
    }
    var builder := new TableBuilder(blockSize, interval, policy, filterKey);
    NoEntries(builder.View());
    for i := 0 to |pairs|
      invariant builder.Ok() && Entries(builder.View()) == pairs[..i] && (builder.filterBlock != null <==> policy.Some?)
      invariant fresh(builder) && fresh(builder.dataBlock) && fresh(builder.indexBlock) && (builder.filterBlock != null ==> fresh(builder.filterBlock))
      invariant if i == 0 then builder.blocks == [] && builder.dataBlock.pairs == [] else builder.lastKey == pairs[i - 1].key
      invariant builder.filterKey == filterKey
    {
      assert pairs[i] in pairs;
      if i > 0 {
        SortedAt(pairs, i - 1, i);
      }
      assert pairs[..i + 1] == pairs[..i] + [pairs[i]];
      builder.Add(pairs[i].key, pairs[i].value);
    }
    assert pairs[..|pairs|] == pairs;
    t := builder.Finish();
    file := builder.file;
    forall e ensures InTable(t, e) <==> e in pairs {
      InTableIs(t, e);
    }
  }

  lemma {:induction false} SortedAt(pairs: seq<Pair>, i: nat, j: nat)
    requires SortedPairs(pairs) && i < j < |pairs|
    ensures KeyBefore(pairs[i].key, pairs[j].key)
  {
  }

  /** Building, opening and looking up, end to end: a version of the user key is found if there is one, and then the newest. */
  method BuildAndGet(pairs: seq<Pair>, blockSize: nat, interval: nat, policy: Option<Policy>, filterKey: Bytes,
      readPolicy: Option<Bytes>, user: Bytes, tag: nat) returns (small: bool, r: Option<Pair>)
    requires interval >= 1 && (policy.Some? ==> ValidPolicy(policy.value)) && |filterKey| < TWO_32
    requires SortedPairs(pairs) && Small(pairs) && forall p | p in pairs :: |p.key| >= 8
    requires |user| + 8 < TWO_32 && tag < TWO_64
    ensures small && r.None? ==> forall e | e in pairs && UserOf(e.key) == user :: TagOf(e.key) > tag
    ensures small && r.Some? ==>
      && r.value in pairs && UserOf(r.value.key) == user && TagOf(r.value.key) <= tag
      && forall e | e in pairs && UserOf(e.key) == user && TagOf(e.key) <= tag :: TagOf(e.key) <= TagOf(r.value.key)
  {
    hide CompleteTable, UserOf, TagOf, Delivers, SortedPairs, Small;
    ghost var t;
    var file;
    file, t := BuildTable(pairs, blockSize, interval, policy, filterKey);
    small, r := |file| < TWO_32, None;
    if small && pairs != [] {
      var table := Table.Open(file, readPolicy, true, true, t, filterKey);
      var found, ok := table.InternalGet(Encoded(user, tag), true);
      DeliveredIsNewest(t, user, tag, found);
      if found.Some? && UserOf(found.value.key) == user {
        r := found;
      }
    }
  }
}
