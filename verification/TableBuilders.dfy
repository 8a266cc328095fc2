/** Builds table files: data blocks, index keys between them, filters by block offset. */
module TableBuilders {
  import opened Coding
  import opened Options
  import opened Varints
  import opened Comparators
  import opened Crc32c
  import opened BlockFormat
  import opened BlockBuilders
  import opened FilterBlocks
  import opened TableFormat

  /** A data block that has been written. */
  datatype BlockInfo = BlockInfo(pairs: seq<Pair>, marks: seq<nat>, offset: nat, size: nat)

  ghost predicate WellMade(b: BlockInfo) {
    b.pairs != [] && ValidMarks(b.pairs, b.marks) && Small(b.pairs) && b.size == |BlockOf(b.pairs, b.marks)|
  }

  ghost predicate BlockStored(file: Bytes, b: BlockInfo) {
    WellMade(b) && Stored(file, b.offset, BlockOf(b.pairs, b.marks))
  }

  /** Offsets and sizes go into 64 bits. */
  function Handle64(offset: nat, size: nat): (h: BlockHandle)
    ensures ValidHandle(h)
  {
    BlockHandle(offset % TWO_64, size % TWO_64)
  }

  /**
   * A table under way: the blocks written, the pairs of the block being filled, the index entries so
   * far, whether the last block still waits for its index entry, and the keys of each filter.
   */
  datatype Progress = Progress(file: Bytes, blocks: seq<BlockInfo>, current: seq<Pair>, index: seq<Pair>, pending: bool,
    lastKey: Bytes, filters: Option<seq<seq<Bytes>>>)

  function GroupAt(t: Progress, i: nat): seq<Pair>
    requires i <= |t.blocks|
  {
    if i < |t.blocks| then t.blocks[i].pairs else t.current
  }

  function OffsetAt(t: Progress, i: nat): nat
    requires i <= |t.blocks|
  {
    if i < |t.blocks| then t.blocks[i].offset else |t.file|
  }

  ghost predicate SortedPairs(pairs: seq<Pair>) {
    forall i, j | 0 <= i < j < |pairs| :: KeyBefore(pairs[i].key, pairs[j].key)
  }

  ghost predicate AllBefore(a: seq<Pair>, b: seq<Pair>) {
    forall p, q | p in a && q in b :: KeyBefore(p.key, q.key)
  }

  ghost predicate UpTo(a: seq<Pair>, key: Bytes) {
    forall p | p in a :: !KeyBefore(key, p.key)
  }

  ghost predicate EndsWith(a: seq<Pair>, key: Bytes) {
    a != [] ==> a[|a| - 1].key == key
  }

  /** Keys come in order up to the last one. */
  ghost predicate InOrder(t: Progress) {
    && (forall i: nat | i <= |t.blocks| :: SortedPairs(GroupAt(t, i)) && UpTo(GroupAt(t, i), t.lastKey))
    && EndsWith(t.current, t.lastKey) && (t.current == [] && t.blocks != [] ==> EndsWith(t.blocks[|t.blocks| - 1].pairs, t.lastKey))
    && (forall i: nat, j: nat | i < j <= |t.blocks| :: AllBefore(GroupAt(t, i), GroupAt(t, j)))
  }

  /** An index key is at or past its block's keys and before the next block's first, with no version of that one's user key in between. */
  ghost predicate Separates(pairs: seq<Pair>, sep: Bytes, next: seq<Pair>)
    requires pairs != []
  {
    && (forall p | p in pairs :: !KeyBefore(sep, p.key))
    && (next != [] ==> KeyBefore(sep, next[0].key) && SeparatesUsers(pairs[|pairs| - 1].key, sep, next[0].key))
  }

  ghost predicate IndexedAt(t: Progress, i: nat)
    requires i < |t.blocks| && i < |t.index|
  {
    && t.blocks[i].pairs != [] && Separates(t.blocks[i].pairs, t.index[i].key, GroupAt(t, i + 1))
    && t.index[i].value == EncodeHandle(Handle64(t.blocks[i].offset, t.blocks[i].size))
  }

  ghost predicate Indexed(t: Progress) {
    && |t.index| + (if t.pending then 1 else 0) == |t.blocks|
    && (t.pending ==> t.current == [])
    && (t.current == [] && !t.pending ==> t.blocks == [])
    && forall i: nat | i < |t.index| :: IndexedAt(t, i)
  }

  ghost predicate InFilter(filters: seq<seq<Bytes>>, offset: nat, key: Bytes) {
    offset / FILTER_BASE < |filters| && key in filters[offset / FILTER_BASE]
  }

  ghost predicate FilteredAt(t: Progress, i: nat)
    requires i <= |t.blocks| && t.filters.Some?
  {
    forall p | p in GroupAt(t, i) :: InFilter(t.filters.value, OffsetAt(t, i), p.key)
  }

  /** Every key is in the filter that its block's offset falls to. */
  ghost predicate Filtered(t: Progress) {
    t.filters.Some? ==>
      && |t.filters.value| == |t.file| / FILTER_BASE + 1
      && forall i: nat | i <= |t.blocks| :: FilteredAt(t, i)
  }

  ghost predicate LongKeys(t: Progress) {
    (t.blocks != [] || t.current != [] ==> |t.lastKey| >= 8) && |t.lastKey| < TWO_32 && Small(t.current)
  }

  ghost predicate Written(t: Progress) {
    forall i: nat | i < |t.blocks| :: BlockStored(t.file, t.blocks[i])
  }

  ghost predicate Inv(t: Progress) {
    Written(t) && InOrder(t) && Indexed(t) && Filtered(t) && LongKeys(t)
  }

  // ----- One more key

  /** The pending index entry is made now that the next key is known. */
  function WithIndexEntry(t: Progress, sep: Bytes): Progress
    requires t.pending ==> t.blocks != []
  {
    if !t.pending then t
    else
      var b := t.blocks[|t.blocks| - 1];
      t.(index := t.index + [Pair(sep, EncodeHandle(Handle64(b.offset, b.size)))], pending := false)
  }

  function WithKey(filters: seq<seq<Bytes>>, key: Bytes): seq<seq<Bytes>>
    requires filters != []
  {
    filters[|filters| - 1 := filters[|filters| - 1] + [key]]
  }

  function WithPair(t: Progress, p: Pair): Progress
    requires t.filters.Some? ==> t.filters.value != []
  {
    t.(current := t.current + [p], lastKey := p.key,
       filters := if t.filters.Some? then Some(WithKey(t.filters.value, p.key)) else None)
  }

  lemma {:induction false} PendingBlock(t: Progress)
    requires Inv(t) && t.pending
    ensures t.blocks != [] && |t.index| == |t.blocks| - 1 && t.current == [] && 8 <= |t.lastKey| < TWO_32
    ensures WellMade(t.blocks[|t.blocks| - 1]) && EndsWith(t.blocks[|t.blocks| - 1].pairs, t.lastKey)
  {
    hide Filtered;
    assert BlockStored(t.file, t.blocks[|t.blocks| - 1]);
  }

  lemma {:induction false} UpToLater(a: seq<Pair>, key: Bytes, p: Pair)
    requires UpTo(a, key) && KeyBefore(key, p.key)
    ensures UpTo(a, p.key) && AllBefore(a, [p])
  {
    hide KeyBefore;
    forall q | q in a ensures KeyBefore(q.key, p.key) && !KeyBefore(p.key, q.key) {
      NotPastIsBefore(q.key, key, p.key);
    }
  }

  lemma {:induction false} NotPastIsBefore(a: Bytes, b: Bytes, c: Bytes)
    requires !KeyBefore(b, a) && KeyBefore(b, c)
    ensures KeyBefore(a, c) && !KeyBefore(c, a)
  {
    KeyBeforeIsOrder(a, b, c);
    KeyBeforeIsOrder(b, a, c);
    KeyBeforeIsOrder(a, c, c);
  }

  /** The pairs of the groups with one more pair at the end. */
  lemma {:induction false} PairKeepsOrder(t: Progress, p: Pair)
    requires InOrder(t) && (t.filters.Some? ==> t.filters.value != [])
    requires t.blocks != [] || t.current != [] ==> KeyBefore(t.lastKey, p.key)
    ensures InOrder(WithPair(t, p))
  {
    hide KeyBefore, WithKey;
    var t' := WithPair(t, p);
    KeyBeforeIsOrder(p.key, p.key, p.key);
    forall i: nat | i <= |t.blocks| ensures SortedPairs(GroupAt(t', i)) && UpTo(GroupAt(t', i), p.key) {
      if GroupAt(t, i) != [] {
        UpToLater(GroupAt(t, i), t.lastKey, p);
      }
    }
    forall i: nat, j: nat | i < j <= |t.blocks| ensures AllBefore(GroupAt(t', i), GroupAt(t', j)) {
      assert AllBefore(GroupAt(t, i), GroupAt(t, j));
      UpToLater(GroupAt(t, i), t.lastKey, p);
    }
  }

  lemma {:induction false} PairKeepsFilters(t: Progress, p: Pair)
    requires Filtered(t)
    ensures t.filters.Some? ==> t.filters.value != []
    ensures Filtered(WithPair(t, p))
  {
    if t.filters.Some? {
      var t' := WithPair(t, p);
      forall i: nat | i <= |t.blocks| ensures FilteredAt(t', i) {
        assert FilteredAt(t, i);
        assert forall q | q in GroupAt(t', i) :: q in GroupAt(t, i) || (q == p && i == |t.blocks|);
      }
    }
  }

  lemma {:induction false} PairKeepsIndex(t: Progress, sep: Bytes, p: Pair)
    requires InOrder(t) && Indexed(t) && (t.filters.Some? ==> t.filters.value != [])
    requires t.pending ==> t.blocks != [] && t.blocks[|t.blocks| - 1].pairs != []
    requires t.pending ==> !KeyBefore(sep, t.lastKey) && KeyBefore(sep, p.key) && SeparatesUsers(t.lastKey, sep, p.key)
    ensures Indexed(WithPair(WithIndexEntry(t, sep), p))
  {
    hide KeyBefore, SeparatesUsers, WithKey;
    var t' := WithPair(WithIndexEntry(t, sep), p);
    forall i: nat | i < |t'.index| ensures IndexedAt(t', i) {
      if i < |t.index| {
        assert IndexedAt(t, i);
        assert GroupAt(t, i + 1) != [] ==> GroupAt(t', i + 1)[0] == GroupAt(t, i + 1)[0];
      } else {
        var pairs := t.blocks[i].pairs;
        assert GroupAt(t, i) == pairs && UpTo(GroupAt(t, i), t.lastKey);
        forall q | q in pairs ensures !KeyBefore(sep, q.key) {
          NotPastChain(q.key, t.lastKey, sep);
        }
      }
    }
  }

  lemma {:induction false} NotPastChain(a: Bytes, b: Bytes, c: Bytes)
    requires !KeyBefore(b, a) && !KeyBefore(c, b)
    ensures !KeyBefore(c, a)
  {
    KeyBeforeIsOrder(c, a, b);
    KeyBeforeIsOrder(a, b, a);
  }

  /** Adding the next key, and the index entry before it, keeps everything in place. */
  lemma {:induction false} AddKeepsInv(t: Progress, sep: Bytes, p: Pair)
    requires Inv(t) && SmallPair(p) && |p.key| >= 8
    requires t.blocks != [] || t.current != [] ==> KeyBefore(t.lastKey, p.key)
    requires t.pending ==> !KeyBefore(sep, t.lastKey) && KeyBefore(sep, p.key) && SeparatesUsers(t.lastKey, sep, p.key)
    ensures t.pending ==> t.blocks != []
    ensures t.filters.Some? ==> t.filters.value != []
    ensures Inv(WithPair(WithIndexEntry(t, sep), p))
  {
    hide KeyBefore, SeparatesUsers, WithKey, Indexed, Filtered, InOrder;
    if t.pending {
      PendingBlock(t);
    }
    var t1 := WithIndexEntry(t, sep);
    SameOrder(t, t1);
    PairKeepsFilters(t1, p);
    PairKeepsOrder(t1, p);
    PairKeepsIndex(t, sep, p);
  }

  lemma {:induction false} SameOrder(t: Progress, t': Progress)
    requires t'.file == t.file && t'.blocks == t.blocks && t'.current == t.current && t'.lastKey == t.lastKey && t'.filters == t.filters
    ensures InOrder(t) ==> InOrder(t')
    ensures Filtered(t) ==> Filtered(t')
  {
    assert forall i: nat | i <= |t.blocks| :: GroupAt(t', i) == GroupAt(t, i) && OffsetAt(t', i) == OffsetAt(t, i);
    if t.filters.Some? && Filtered(t) {
      forall i: nat | i <= |t.blocks| ensures FilteredAt(t', i) {
        assert FilteredAt(t, i);
      }
    }
  }

  // ----- A block is written

  function Flushed(t: Progress, b: BlockInfo, contents: Bytes, filters: Option<seq<seq<Bytes>>>): Progress {
    t.(file := t.file + contents + Trailer(contents), blocks := t.blocks + [b], current := [], pending := true, filters := filters)
  }

  /** The filters before the new offset are closed; the keys they hold stay. */
  ghost predicate FiltersGrow(t: Progress, contents: Bytes, filters: Option<seq<seq<Bytes>>>) {
    && filters.Some? == t.filters.Some?
    && (filters.Some? ==> t.filters.value <= filters.value)
    && (filters.Some? ==> |filters.value| == (|t.file| + |contents| + TRAILER_SIZE) / FILTER_BASE + 1)
  }

  lemma {:induction false} FlushKeepsWritten(t: Progress, b: BlockInfo, contents: Bytes, filters: Option<seq<seq<Bytes>>>)
    requires Written(t) && WellMade(b) && b.offset == |t.file| && contents == BlockOf(b.pairs, b.marks)
    ensures Written(Flushed(t, b, contents, filters))
  {
    hide Stored, BlockOf, Trailer;
    var t' := Flushed(t, b, contents, filters);
    forall i: nat | i < |t'.blocks| ensures BlockStored(t'.file, t'.blocks[i]) {
      if i < |t.blocks| {
        assert BlockStored(t.file, t.blocks[i]);
        var x := t.blocks[i];
        StaysStored(t.file, contents, x.offset, BlockOf(x.pairs, x.marks));
        StaysStored(t.file + contents, Trailer(contents), x.offset, BlockOf(x.pairs, x.marks));
      } else {
        NowStored(t.file, contents);
      }
    }
  }

  lemma {:induction false} FlushKeepsOrder(t: Progress, b: BlockInfo, contents: Bytes, filters: Option<seq<seq<Bytes>>>)
    requires InOrder(t) && Indexed(t) && t.current != [] && b.pairs == t.current && b.offset == |t.file|
    ensures InOrder(Flushed(t, b, contents, filters)) && Indexed(Flushed(t, b, contents, filters))
  {
    hide KeyBefore, Trailer, SeparatesUsers;
    var t' := Flushed(t, b, contents, filters);
    assert forall i: nat | i <= |t.blocks| :: GroupAt(t', i) == GroupAt(t, i);
    assert GroupAt(t', |t.blocks| + 1) == [];
    forall i: nat, j: nat | i < j <= |t'.blocks| ensures AllBefore(GroupAt(t', i), GroupAt(t', j)) {
      if j <= |t.blocks| {
        assert AllBefore(GroupAt(t, i), GroupAt(t, j));
      }
    }
    forall i: nat | i < |t'.index| ensures IndexedAt(t', i) {
      assert IndexedAt(t, i);
    }
  }

  lemma {:induction false} FlushKeepsFilters(t: Progress, b: BlockInfo, contents: Bytes, filters: Option<seq<seq<Bytes>>>)
    requires Filtered(t) && b.pairs == t.current && b.offset == |t.file| && FiltersGrow(t, contents, filters)
    ensures Filtered(Flushed(t, b, contents, filters))
  {
    hide Trailer;
    var t' := Flushed(t, b, contents, filters);
    if filters.Some? {
      assert |t'.file| == |t.file| + |contents| + TRAILER_SIZE;
      forall i: nat | i <= |t'.blocks| ensures FilteredAt(t', i) {
        if i <= |t.blocks| {
          assert FilteredAt(t, i);
          assert GroupAt(t', i) == GroupAt(t, i) && OffsetAt(t', i) == OffsetAt(t, i);
        }
      }
    }
  }

  lemma {:induction false} FlushKeepsInv(t: Progress, b: BlockInfo, contents: Bytes, filters: Option<seq<seq<Bytes>>>)
    requires Inv(t) && t.current != [] && WellMade(b) && b.pairs == t.current && b.offset == |t.file|
    requires contents == BlockOf(b.pairs, b.marks) && FiltersGrow(t, contents, filters)
    ensures Inv(Flushed(t, b, contents, filters))
  {
    hide Written, InOrder, Indexed, Filtered, BlockOf, Trailer;
    FlushKeepsWritten(t, b, contents, filters);
    FlushKeepsOrder(t, b, contents, filters);
    FlushKeepsFilters(t, b, contents, filters);
  }

  // ----- A finished table

  ghost predicate BlocksWritten(file: Bytes, blocks: seq<BlockInfo>) {
    forall i: nat | i < |blocks| :: BlockStored(file, blocks[i])
  }

  ghost predicate BlocksInOrder(blocks: seq<BlockInfo>) {
    && (forall i: nat | i < |blocks| :: blocks[i].pairs != [] && SortedPairs(blocks[i].pairs))
    && (forall i: nat, j: nat | i < j < |blocks| :: AllBefore(blocks[i].pairs, blocks[j].pairs))
  }

  function NextPairs(blocks: seq<BlockInfo>, i: nat): seq<Pair> {
    if i + 1 < |blocks| then blocks[i + 1].pairs else []
  }

  ghost predicate IndexEntry(blocks: seq<BlockInfo>, i: nat, entry: Pair)
    requires i < |blocks| && blocks[i].pairs != []
  {
    && Separates(blocks[i].pairs, entry.key, NextPairs(blocks, i))
    && entry.value == EncodeHandle(Handle64(blocks[i].offset, blocks[i].size))
  }

  ghost predicate IndexMatches(blocks: seq<BlockInfo>, index: seq<Pair>) {
    && |index| == |blocks|
    && forall i: nat | i < |blocks| :: blocks[i].pairs != [] && IndexEntry(blocks, i, index[i])
  }

  ghost predicate KeysInFilters(blocks: seq<BlockInfo>, groups: seq<seq<Bytes>>) {
    forall i: nat, p | i < |blocks| && p in blocks[i].pairs :: InFilter(groups, blocks[i].offset, p.key)
  }

  /** Where a finished filter block is, and what it was made of. */
  datatype FilterInfo = FilterInfo(groups: seq<seq<Bytes>>, k: nat, offsets: seq<nat>, result: Bytes, offset: nat)

  /** A block other than a data block: its pairs and where it is. */
  datatype TableInfo = TableInfo(blocks: seq<BlockInfo>, index: BlockInfo, meta: BlockInfo, filter: Option<FilterInfo>)

  ghost predicate PlainBlock(file: Bytes, b: BlockInfo) {
    && ValidMarks(b.pairs, b.marks) && Small(b.pairs) && Stored(file, b.offset, BlockOf(b.pairs, b.marks))
    && b.size == |BlockOf(b.pairs, b.marks)|
  }

  function FilterContents(f: FilterInfo): Bytes {
    FilterBlockOf(f.offsets, f.result)
  }

  ghost predicate FilterFile(file: Bytes, t: TableInfo, f: FilterInfo) {
    && AllFilters(f.groups, f.k, f.offsets, f.result) && KeysInFilters(t.blocks, f.groups)
    && Stored(file, f.offset, FilterContents(f))
  }

  function MetaPairs(filterKey: Bytes, filter: Option<FilterInfo>): seq<Pair> {
    if filter.None? then [] else [Pair(filterKey, EncodeHandle(Handle64(filter.value.offset, |FilterContents(filter.value)|)))]
  }

  function HandleOf(b: BlockInfo): (h: BlockHandle)
    ensures ValidHandle(h)
  {
    Handle64(b.offset, b.size)
  }

  ghost predicate Ends(file: Bytes, t: TableInfo) {
    && |EncodeHandle(HandleOf(t.meta)) + EncodeHandle(HandleOf(t.index))| <= 2 * MAX_HANDLE
    && |file| >= FOOTER_SIZE && file[|file| - FOOTER_SIZE..] == EncodeFooter(HandleOf(t.meta), HandleOf(t.index))
  }

  /** The file of a finished table. */
  ghost predicate CompleteTable(file: Bytes, t: TableInfo, filterKey: Bytes) {
    && BlocksWritten(file, t.blocks) && BlocksInOrder(t.blocks) && IndexMatches(t.blocks, t.index.pairs)
    && PlainBlock(file, t.index) && PlainBlock(file, t.meta) && t.meta.pairs == MetaPairs(filterKey, t.filter)
    && (t.filter.Some? ==> FilterFile(file, t, t.filter.value))
    && Ends(file, t)
  }

  lemma {:induction false} MoreFile(file: Bytes, more: Bytes, blocks: seq<BlockInfo>)
    requires BlocksWritten(file, blocks)
    ensures BlocksWritten(file + more, blocks)
  {
    hide Stored, BlockOf;
    forall i: nat | i < |blocks| ensures BlockStored(file + more, blocks[i]) {
      assert BlockStored(file, blocks[i]);
      StaysStored(file, more, blocks[i].offset, BlockOf(blocks[i].pairs, blocks[i].marks));
    }
  }

  /** The last index entry completes the index. */
  lemma {:induction false} IndexCompleted(t: Progress, sep: Bytes)
    requires Inv(t) && t.current == [] && (t.pending ==> !KeyBefore(sep, t.lastKey))
    ensures BlocksWritten(t.file, t.blocks) && BlocksInOrder(t.blocks)
    ensures t.pending ==> t.blocks != []
    ensures IndexMatches(t.blocks, WithIndexEntry(t, sep).index)
  {
    hide KeyBefore, SeparatesUsers, Filtered, LongKeys, Stored, BlockOf;
    forall i: nat | i < |t.blocks| ensures t.blocks[i].pairs != [] && SortedPairs(t.blocks[i].pairs) {
      assert BlockStored(t.file, t.blocks[i]) && GroupAt(t, i) == t.blocks[i].pairs;
    }
    forall i: nat, j: nat | i < j < |t.blocks| ensures AllBefore(t.blocks[i].pairs, t.blocks[j].pairs) {
      assert AllBefore(GroupAt(t, i), GroupAt(t, j));
    }
    var index := WithIndexEntry(t, sep).index;
    forall i: nat | i < |t.blocks| ensures IndexEntry(t.blocks, i, index[i]) {
      if i < |t.index| {
        assert IndexedAt(t, i) && GroupAt(t, i + 1) == NextPairs(t.blocks, i);
      } else {
        assert GroupAt(t, i) == t.blocks[i].pairs && UpTo(GroupAt(t, i), t.lastKey);
        forall q | q in t.blocks[i].pairs ensures !KeyBefore(sep, q.key) {
          NotPastChain(q.key, t.lastKey, sep);
        }
      }
    }
  }

  /** Closing the last filter loses no key. */
  lemma {:induction false} FiltersCompleted(t: Progress, groups: seq<seq<Bytes>>, pending: seq<Bytes>, closed: seq<seq<Bytes>>)
    requires Filtered(t) && t.filters == Some(groups + [pending]) && closed == (if pending == [] then groups else groups + [pending])
    ensures KeysInFilters(t.blocks, closed)
  {
    forall i: nat, p | i < |t.blocks| && p in t.blocks[i].pairs ensures InFilter(closed, t.blocks[i].offset, p.key) {
      assert FilteredAt(t, i) && p in GroupAt(t, i);
      assert InFilter(t.filters.value, OffsetAt(t, i), p.key);
    }
  }

  // ----- The builder

  class TableBuilder {
    const blockSize: nat
    const interval: nat
    const filterKey: Bytes                  // the metaindex key of the filter block
    const dataBlock: BlockBuilder
    const indexBlock: BlockBuilder
    const filterBlock: FilterBlockBuilder?
    var file: Bytes
    var offset: nat
    var lastKey: Bytes
    var numEntries: nat
    var closed: bool
    var pendingIndexEntry: bool
    var pendingHandle: BlockHandle
    ghost var blocks: seq<BlockInfo>

    ghost function Filters(): Option<seq<seq<Bytes>>>
      reads filterBlock
    {
      if filterBlock == null then None else Some(filterBlock.groups + [filterBlock.pending])
    }

    ghost function View(): Progress
      reads this, dataBlock, indexBlock, filterBlock
    {
      Progress(file, blocks, dataBlock.pairs, indexBlock.pairs, pendingIndexEntry, lastKey, Filters())
    }

    ghost predicate Parts()
      reads this, dataBlock, indexBlock, filterBlock
    {
      && dataBlock != indexBlock && dataBlock.Ok() && indexBlock.Ok() && (filterBlock != null ==> filterBlock.Ok())
      && offset == |file| && interval >= 1
      && (pendingIndexEntry ==> blocks != [] && pendingHandle == Handle64(blocks[|blocks| - 1].offset, blocks[|blocks| - 1].size))
    }

    ghost predicate Ok()
      reads this, dataBlock, indexBlock, filterBlock
    {
      Inv(View()) && Parts() && !closed
    }

    constructor (blockSize: nat, interval: nat, policy: Option<Policy>, filterKey: Bytes)
      requires interval >= 1 && (policy.Some? ==> ValidPolicy(policy.value))
      ensures Ok() && fresh(dataBlock) && fresh(indexBlock) && (filterBlock != null ==> fresh(filterBlock))
      ensures View() == Progress([], [], [], [], false, [], if policy.None? then None else Some([[]]))
      ensures this.filterKey == filterKey && this.blockSize == blockSize && numEntries == 0
    {
      hide Inv, AllFilters, Flattened, Built;
      this.blockSize, this.interval, this.filterKey := blockSize, interval, filterKey;
      dataBlock := new BlockBuilder(interval);
      indexBlock := new BlockBuilder(1);
      if policy.Some? {
        filterBlock := new FilterBlockBuilder(policy.value);
      } else {
        filterBlock := null;
      }
      file, offset, lastKey, numEntries, closed, pendingIndexEntry, pendingHandle := [], 0, [], 0, false, false, BlockHandle(0, 0);
      blocks := [];
      new;
      if filterBlock != null {
        filterBlock.StartBlock(0);
        assert filterBlock.groups + [filterBlock.pending] == [[]];
      }
      EmptyInv(if policy.None? then None else Some([[]]));
    }

    /** The index entry that was waiting for the next key. */
    method AddIndexEntry(key: Bytes)
      requires Parts() && pendingIndexEntry && 8 <= |lastKey| < TWO_32 && |key| >= 8 && KeyBefore(lastKey, key)
      modifies this`lastKey, this`pendingIndexEntry, indexBlock
      ensures Parts() && !pendingIndexEntry && 8 <= |lastKey| < TWO_32
      ensures indexBlock.pairs == old(indexBlock.pairs) + [Pair(lastKey, EncodeHandle(pendingHandle))]
      ensures !KeyBefore(lastKey, old(lastKey)) && KeyBefore(lastKey, key) && SeparatesUsers(old(lastKey), lastKey, key)
    {
      hide KeyBefore, SeparatesUsers, EncodeHandle, Built, AllFilters, Flattened, HasRoom, CommonPrefix, UserOf, TagOf;
      lastKey := FindKeySeparator(lastKey, key);
      var encoding := EncodeTo(pendingHandle);
      HandleIsShort(pendingHandle);
      indexBlock.Add(lastKey, encoding);
      pendingIndexEntry := false;
    }

    method AddToBlock(key: Bytes, value: Bytes)
      requires Parts() && SmallPair(Pair(key, value))
      modifies this`lastKey, this`numEntries, dataBlock, filterBlock
      ensures numEntries == old(numEntries) + 1
      ensures Parts() && lastKey == key && dataBlock.pairs == old(dataBlock.pairs) + [Pair(key, value)]
      ensures filterBlock != null ==> filterBlock.groups == old(filterBlock.groups) && filterBlock.pending == old(filterBlock.pending) + [key]
    {
      hide Built, AllFilters, Flattened;
      if filterBlock != null {
        filterBlock.AddKey(key);
      }
      lastKey := key;
      numEntries := numEntries + 1;
      dataBlock.Add(key, value);
    }

    /** Keys must come in order. A full block is written out at once. */
    method Add(key: Bytes, value: Bytes)
      requires Ok() && SmallPair(Pair(key, value)) && |key| >= 8
      requires blocks != [] || dataBlock.pairs != [] ==> KeyBefore(lastKey, key)
      modifies this, dataBlock, indexBlock, filterBlock
      ensures Ok() && Entries(View()) == old(Entries(View())) + [Pair(key, value)] && lastKey == key
      ensures numEntries == old(numEntries) + 1
      ensures if dataBlock.pairs == [] then |blocks| == old(|blocks|) + 1 && blocks[|blocks| - 1].size >= blockSize
              else blocks == old(blocks) && dataBlock.CurrentSizeEstimate() < blockSize
    {
      hide Inv, KeyBefore, SeparatesUsers, EncodeHandle, Parts, WithKey, Built, AllFilters, Flattened, BlockBuilder.CurrentSizeEstimate, Entries;
      ghost var was := View();
      Apart();
      if pendingIndexEntry {
        PendingBlock(was);
        PendingHandleIs();
        AddIndexEntry(key);
      }
      ghost var sep := lastKey;
      AddToBlock(key, value);
      AddKeepsInv(was, sep, Pair(key, value));
      if filterBlock != null {
        LastGroup(old(filterBlock.groups), old(filterBlock.pending), key);
      }
      assert View() == WithPair(WithIndexEntry(was, sep), Pair(key, value));
      EntriesGrow(was, sep, Pair(key, value));
      CutBlock();
    }

    /** A data block that has reached the block size is complete. */
    method CutBlock()
      requires Ok() && dataBlock.pairs != []
      modifies this, dataBlock, filterBlock
      ensures Ok() && Entries(View()) == old(Entries(View())) && lastKey == old(lastKey) && numEntries == old(numEntries)
      ensures if dataBlock.pairs == [] then |blocks| == old(|blocks|) + 1 && blocks[|blocks| - 1].size >= blockSize
              else blocks == old(blocks) && dataBlock.CurrentSizeEstimate() < blockSize
    {
      hide Inv, Parts, Entries;
      if dataBlock.CurrentSizeEstimate() >= blockSize {
        Flush();
      }
    }

    lemma {:induction false} Apart()
      requires Parts()
      ensures dataBlock != indexBlock
    {
    }

    lemma {:induction false} PendingHandleIs()
      requires Parts() && pendingIndexEntry
      ensures blocks != [] && pendingHandle == Handle64(blocks[|blocks| - 1].offset, blocks[|blocks| - 1].size)
    {
    }

    method WriteRawBlock(contents: Bytes) returns (handle: BlockHandle)
      requires offset == |file|
      modifies this`file, this`offset
      ensures file == old(file) + contents + Trailer(contents) && offset == |file|
      ensures handle == Handle64(old(offset), |contents|)
    {
      hide EncodeFixed32, Checksum, Mask;
      handle := Handle64(offset, |contents|);
      file := file + contents;
      var crc := Extend(0, contents, 0);
      crc := Extend(crc, [NO_COMPRESSION], 0);
      ExtendIsConcatenation(contents, [NO_COMPRESSION]);
      var trailer := [NO_COMPRESSION] + EncodeFixed32(Mask(crc));
      file := file + trailer;
      offset := offset + |contents| + TRAILER_SIZE;
    }

    /** Writes a block out and empties it. */
    method WriteBlock(block: BlockBuilder) returns (handle: BlockHandle)
      requires block.Ok() && offset == |file|
      modifies this`file, this`offset, block
      ensures block.Ok() && block.pairs == [] && offset == |file|
      ensures var contents := BlockOf(old(block.pairs), old(block.marks));
        |contents| == old(block.CurrentSizeEstimate()) && file == old(file) + contents + Trailer(contents) && handle == Handle64(old(offset), |contents|)
    {
      hide Trailer, BlockOf, Built;
      var contents := block.Finish();
      handle := WriteRawBlock(contents);
      block.Reset();
    }

    method StartFilter()
      requires Parts() && (filterBlock != null ==> |filterBlock.groups| <= offset / FILTER_BASE)
      modifies filterBlock
      ensures Parts()
      ensures filterBlock != null ==> |filterBlock.groups| == offset / FILTER_BASE
      ensures old(Filters()).Some? == Filters().Some? && (filterBlock != null ==> old(Filters()).value <= Filters().value)
    {
      hide Built, AllFilters, Flattened;
      if filterBlock != null {
        filterBlock.StartBlock(offset);
      }
    }

    method Flush()
      requires Ok()
      modifies this, dataBlock, filterBlock
      ensures Ok() && Entries(View()) == old(Entries(View())) && dataBlock.pairs == [] && lastKey == old(lastKey)
      ensures indexBlock.pairs == old(indexBlock.pairs) && numEntries == old(numEntries)
      ensures old(dataBlock.pairs) != [] ==>
        |blocks| == old(|blocks|) + 1 && blocks[|blocks| - 1].size == old(dataBlock.CurrentSizeEstimate())
    {
      hide Inv, KeyBefore, SeparatesUsers, Built, BlockOf, Trailer, AllFilters, Flattened, BlockBuilder.CurrentSizeEstimate, Even, Small, LastKey;
      dataBlock.EmptyIs();
      if dataBlock.Empty() {
        return;
      }
      ghost var was, marks := View(), dataBlock.marks;
      NotPending(was);
      pendingHandle := WriteBlock(dataBlock);
      ghost var contents := BlockOf(was.current, marks);
      ghost var b := BlockInfo(was.current, marks, |was.file|, |contents|);
      FilterRoom(was, contents);
      pendingIndexEntry := true;
      blocks := blocks + [b];
      StartFilter();
      assert FiltersGrow(was, contents, Filters());
      FlushKeepsInv(was, b, contents, Filters());
      assert View() == Flushed(was, b, contents, Filters());
      FlushKeepsEntries(was, b, contents, Filters());
    }

    /** The filter block, if there is one. */
    method WriteFilter() returns (handle: Option<BlockHandle>, ghost info: Option<FilterInfo>)
      requires Parts() && Filtered(View())
      modifies this`file, this`offset, filterBlock
      ensures offset == |file| && info.Some? == (filterBlock != null) && handle.Some? == info.Some?
      ensures old(file) <= file
      ensures info.Some? ==>
        && AllFilters(info.value.groups, info.value.k, info.value.offsets, info.value.result)
        && KeysInFilters(blocks, info.value.groups) && Stored(file, info.value.offset, FilterContents(info.value))
        && handle.value == Handle64(info.value.offset, |FilterContents(info.value)|)
    {
      hide Built, AllFilters, Flattened, Filtered, Stored, Trailer, FilterBlockOf;
      handle, info := None, None;
      if filterBlock != null {
        ghost var was := View();
        ghost var groups, pending, at := filterBlock.groups, filterBlock.pending, |file|;
        var contents := filterBlock.Finish();
        FiltersCompleted(was, groups, pending, filterBlock.groups);
        NowStored(file, contents);
        var h := WriteRawBlock(contents);
        handle := Some(h);
        info := Some(FilterInfo(filterBlock.groups, filterBlock.policy.k, filterBlock.filterOffsets, filterBlock.result, at));
      }
    }

    /** Writes a block other than a data block. */
    method WritePlainBlock(block: BlockBuilder) returns (handle: BlockHandle, ghost info: BlockInfo)
      requires block.Ok() && offset == |file|
      modifies this`file, this`offset, block
      ensures offset == |file| && old(file) <= file && block.Ok()
      ensures PlainBlock(file, info) && info.pairs == old(block.pairs) && handle == HandleOf(info)
    {
      hide Built, Stored, Trailer, BlockOf;
      block.EmptyIs();
      ghost var contents := BlockOf(block.pairs, block.marks);
      info := BlockInfo(block.pairs, block.marks, |file|, |contents|);
      NowStored(file, contents);
      handle := WriteBlock(block);
    }

    /** The metaindex: where the filter block is. */
    method WriteMeta(filterHandle: Option<BlockHandle>, ghost filter: Option<FilterInfo>) returns (handle: BlockHandle, ghost info: BlockInfo)
      requires offset == |file| && interval >= 1 && |filterKey| < TWO_32 && filterHandle.Some? == filter.Some?
      requires filter.Some? ==> filterHandle.value == Handle64(filter.value.offset, |FilterContents(filter.value)|)
      modifies this`file, this`offset
      ensures offset == |file| && old(file) <= file
      ensures PlainBlock(file, info) && info.pairs == MetaPairs(filterKey, filter) && handle == HandleOf(info)
    {
      hide Built, EncodeHandle, PlainBlock, FilterContents;
      var metaBlock := new BlockBuilder(interval);
      if filterHandle.Some? {
        var encoding := EncodeTo(filterHandle.value);
        HandleIsShort(filterHandle.value);
        metaBlock.Add(filterKey, encoding);
      }
      handle, info := WritePlainBlock(metaBlock);
    }

    /** The last index entry, and the index. */
    method WriteIndex(ghost was: Progress) returns (handle: BlockHandle, ghost info: BlockInfo)
      requires indexBlock.Ok() && offset == |file|
      requires pendingIndexEntry ==> blocks != [] && pendingHandle == Handle64(blocks[|blocks| - 1].offset, blocks[|blocks| - 1].size)
      requires Inv(was) && was.current == [] && was.index == indexBlock.pairs && was.blocks == blocks
      requires was.pending == pendingIndexEntry && was.lastKey == lastKey
      modifies this`file, this`offset, this`lastKey, this`pendingIndexEntry, indexBlock
      ensures offset == |file| && old(file) <= file
      ensures PlainBlock(file, info) && IndexMatches(was.blocks, info.pairs) && handle == HandleOf(info)
      ensures BlocksInOrder(was.blocks)
    {
      hide Inv, KeyBefore, EncodeHandle, Built, AllFilters, Flattened, PlainBlock, IndexMatches, BlocksInOrder, Even, ValidMarks, Small, LastKey;
      if pendingIndexEntry {
        PendingBlock(was);
        lastKey := FindKeySuccessor(lastKey);
        var encoding := EncodeTo(pendingHandle);
        HandleIsShort(pendingHandle);
        indexBlock.Add(lastKey, encoding);
        pendingIndexEntry := false;
      }
      IndexCompleted(was, lastKey);
      handle, info := WritePlainBlock(indexBlock);
    }

    method WriteFooter(meta: BlockHandle, index: BlockHandle)
      requires offset == |file| && ValidHandle(meta) && ValidHandle(index)
      modifies this`file, this`offset
      ensures |EncodeHandle(meta) + EncodeHandle(index)| <= 2 * MAX_HANDLE
      ensures file == old(file) + EncodeFooter(meta, index) && offset == |file|
    {
      hide EncodeHandle, Fixed;
      DecodeInvertsFooter(meta, index);
      var a := EncodeTo(meta);
      var b := EncodeTo(index);
      var encoding := a + b;
      encoding := encoding + seq(2 * MAX_HANDLE - |encoding|, _ => 0);
      encoding := encoding + (Fixed(MAGIC_LOW, 4) + Fixed(MAGIC_HIGH, 4));
      file := file + encoding;
      offset := offset + |encoding|;
    }

    /** Completes the table: it holds exactly the pairs that were added. */
    method Finish() returns (ghost t: TableInfo)
      requires Ok() && |filterKey| < TWO_32
      modifies this, dataBlock, indexBlock, filterBlock
      ensures CompleteTable(file, t, filterKey) && BlockPairs(t.blocks) == old(Entries(View())) && closed
      ensures t.filter.Some? == (filterBlock != null) && offset == |file|
    {
      hide Inv, PlainBlock, IndexMatches, BlocksInOrder, BlocksWritten, EncodeHandle, MetaPairs, EncodeFooter, Filtered, AllFilters, KeysInFilters, Stored, Written, InOrder, Indexed, Built, Flattened;
      Flush();
      closed := true;
      ghost var was := View();
      FinishStart(was);
      var filterHandle, filter := WriteFilter();
      ghost var file1 := file;
      var metaHandle, meta := WriteMeta(filterHandle, filter);
      ghost var file2 := file;
      var indexHandle, index := WriteIndex(was);
      ghost var file3 := file;
      WriteFooter(metaHandle, indexHandle);
      t := TableInfo(was.blocks, index, meta, filter);
      Finished(was.file, file1, file2, file3, file, t, filterKey);
    }
  }

  lemma {:induction false} FinishStart(t: Progress)
    requires Inv(t)
    ensures Filtered(t) && BlocksWritten(t.file, t.blocks)
    ensures t.current == [] ==> BlockPairs(t.blocks) == Entries(t)
  {
    hide Stored, BlockOf, InOrder, Indexed;
  }

  lemma {:induction false} PlainStays(file: Bytes, more: Bytes, b: BlockInfo)
    requires PlainBlock(file, b)
    ensures PlainBlock(file + more, b)
  {
    hide Stored, BlockOf;
    StaysStored(file, more, b.offset, BlockOf(b.pairs, b.marks));
  }

  /** What was written first is still there at the end. */
  lemma {:induction false} Finished(file0: Bytes, file1: Bytes, file2: Bytes, file3: Bytes, file: Bytes, t: TableInfo, filterKey: Bytes)
    requires file0 <= file1 <= file2 <= file3 && BlocksWritten(file0, t.blocks)
    requires BlocksInOrder(t.blocks) && IndexMatches(t.blocks, t.index.pairs)
    requires t.filter.Some? ==> FilterFile(file1, t, t.filter.value)
    requires PlainBlock(file2, t.meta) && t.meta.pairs == MetaPairs(filterKey, t.filter) && PlainBlock(file3, t.index)
    requires |EncodeHandle(HandleOf(t.meta)) + EncodeHandle(HandleOf(t.index))| <= 2 * MAX_HANDLE
    requires file == file3 + EncodeFooter(HandleOf(t.meta), HandleOf(t.index))
    ensures CompleteTable(file, t, filterKey)
  {
    hide PlainBlock, IndexMatches, BlocksInOrder, BlocksWritten, EncodeHandle, MetaPairs, EncodeFooter, AllFilters, KeysInFilters, Stored, FilterContents;
    assert file == file0 + file[|file0|..] && file == file1 + file[|file1|..] && file == file2 + file[|file2|..] && file == file3 + file[|file3|..];
    MoreFile(file0, file[|file0|..], t.blocks);
    PlainStays(file2, file[|file2|..], t.meta);
    PlainStays(file3, file[|file3|..], t.index);
    if t.filter.Some? {
      StaysStored(file1, file[|file1|..], t.filter.value.offset, FilterContents(t.filter.value));
    }
  }

  /** All pairs added so far. */
  ghost function BlockPairs(blocks: seq<BlockInfo>): seq<Pair> {
    if blocks == [] then [] else BlockPairs(blocks[..|blocks| - 1]) + blocks[|blocks| - 1].pairs
  }

  ghost function Entries(t: Progress): seq<Pair> {
    BlockPairs(t.blocks) + t.current
  }

  lemma {:induction false} EntriesGrow(t: Progress, sep: Bytes, p: Pair)
    requires (t.pending ==> t.blocks != []) && (t.filters.Some? ==> t.filters.value != [])
    ensures Entries(WithPair(WithIndexEntry(t, sep), p)) == Entries(t) + [p]
  {
    hide BlockPairs;
  }

  lemma {:induction false} FlushKeepsEntries(t: Progress, b: BlockInfo, contents: Bytes, filters: Option<seq<seq<Bytes>>>)
    requires b.pairs == t.current
    ensures Entries(Flushed(t, b, contents, filters)) == Entries(t)
  {
    hide Trailer;
    assert (t.blocks + [b])[..|t.blocks|] == t.blocks;
    assert Entries(t) + [] == Entries(t);
  }

  lemma {:induction false} NotPending(t: Progress)
    requires Inv(t)
    ensures t.current != [] ==> !t.pending
    ensures t.filters.Some? ==> |t.filters.value| == |t.file| / FILTER_BASE + 1
  {
    hide Written, InOrder;
  }

  lemma {:induction false} FilterRoom(t: Progress, contents: Bytes)
    ensures |t.file| / FILTER_BASE <= |t.file + contents + Trailer(contents)| / FILTER_BASE
    ensures |t.file + contents + Trailer(contents)| == |t.file| + |contents| + TRAILER_SIZE
  {
    hide Trailer;
  }

  lemma {:induction false} LastGroup(groups: seq<seq<Bytes>>, pending: seq<Bytes>, key: Bytes)
    ensures WithKey(groups + [pending], key) == groups + [pending + [key]]
  {
  }

  lemma {:induction false} EmptyInv(filters: Option<seq<seq<Bytes>>>)
    requires filters == None || filters == Some([[]])
    ensures Inv(Progress([], [], [], [], false, [], filters))
  {
  }

  lemma {:induction false} HandleIsShort(h: BlockHandle)
    requires ValidHandle(h)
    ensures |EncodeHandle(h)| <= MAX_HANDLE
  {
    hide EncodeHandle, DecodeHandle;
    DecodeInvertsHandle(h, []);
  }
}
