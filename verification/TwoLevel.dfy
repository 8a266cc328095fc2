/** The two-level iterator: an index over blocks read as one cursor over their concatenation. */
module TwoLevel {
  import opened InternalKeys
  import opened Iterators

  // ----- Concatenated blocks

  function Flatten(blocks: seq<seq<Entry>>): seq<Entry> {
    if blocks == [] then [] else blocks[0] + Flatten(blocks[1..])
  }

  /** The position in the concatenation at which block i starts. */
  function Offset(blocks: seq<seq<Entry>>, i: nat): nat
    requires i <= |blocks|
  {
    if i == 0 then 0 else Offset(blocks, i - 1) + |blocks[i - 1]|
  }

  lemma {:induction false} OffsetOfTail(blocks: seq<seq<Entry>>, i: nat)
    requires 0 < i <= |blocks|
    ensures Offset(blocks, i) == |blocks[0]| + Offset(blocks[1..], i - 1)
  {
    if i > 1 {
      OffsetOfTail(blocks, i - 1);
    }
  }

  lemma {:induction false} FlattenAt(blocks: seq<seq<Entry>>, i: nat, p: nat)
    requires i < |blocks| && p < |blocks[i]|
    ensures Offset(blocks, i) + p < |Flatten(blocks)| && Flatten(blocks)[Offset(blocks, i) + p] == blocks[i][p]
  {
    if i > 0 {
      OffsetOfTail(blocks, i);
      FlattenAt(blocks[1..], i - 1, p);
    }
  }

  lemma {:induction false} FlattenLength(blocks: seq<seq<Entry>>)
    ensures Offset(blocks, |blocks|) == |Flatten(blocks)|
  {
    if blocks != [] {
      OffsetOfTail(blocks, |blocks|);
      FlattenLength(blocks[1..]);
    }
  }

  lemma {:induction false} BlockOf(blocks: seq<seq<Entry>>, a: nat) returns (i: nat, p: nat)
    requires a < |Flatten(blocks)|
    ensures i < |blocks| && p < |blocks[i]| && a == Offset(blocks, i) + p
  {
    if a < |blocks[0]| {
      i, p := 0, a;
    } else {
      i, p := BlockOf(blocks[1..], a - |blocks[0]|);
      OffsetOfTail(blocks, i + 1);
      i := i + 1;
    }
  }

  /** Each index key lies at or after its own block and before every later block. */
  ghost predicate Separates(index: seq<Entry>, blocks: seq<seq<Entry>>) {
    && |index| == |blocks| && Sorted(index)
    && forall i, j, e | 0 <= i < |index| && 0 <= j < |blocks| && e in blocks[j] ::
      if j <= i then !Less(index[i].key, e.key) else Less(index[i].key, e.key)
  }

  /** Seeking the index and then the block found is seeking the concatenation. */
  lemma {:induction false} SeekThroughIndex(index: seq<Entry>, blocks: seq<seq<Entry>>, t: InternalKey)
    requires Separates(index, blocks) && Sorted(Flatten(blocks))
    ensures var i := Seek(index, t);
      Seek(Flatten(blocks), t) == if i < |blocks| then Offset(blocks, i) + Seek(blocks[i], t) else |Flatten(blocks)|
  {
    var all, i := Flatten(blocks), Seek(index, t);
    var goal := if i < |blocks| then Offset(blocks, i) + Seek(blocks[i], t) else |all|;
    FlattenLength(blocks);
    if i < |blocks| {
      OffsetBound(blocks, i);
    }
    forall a | 0 <= a < |all| ensures a < goal <==> Less(all[a].key, t) {
      var j, p := BlockOf(blocks, a);
      FlattenAt(blocks, j, p);
      SideOfSeek(index, blocks, t, j, p);
    }
    SeekIsCut(all, t, goal);
  }

  lemma {:induction false} OffsetBound(blocks: seq<seq<Entry>>, i: nat)
    requires i < |blocks|
    ensures Offset(blocks, i) + |blocks[i]| <= |Flatten(blocks)|
  {
    FlattenLength(blocks);
    OffsetMonotone(blocks, i + 1, |blocks|);
  }

  lemma {:induction false} OffsetMonotone(blocks: seq<seq<Entry>>, i: nat, j: nat)
    requires i <= j <= |blocks|
    ensures Offset(blocks, i) <= Offset(blocks, j)
    ensures i < j ==> Offset(blocks, i) + |blocks[i]| <= Offset(blocks, j)
  {
    if i < j {
      OffsetMonotone(blocks, i, j - 1);
    }
  }

  lemma {:induction false} SideOfSeek(index: seq<Entry>, blocks: seq<seq<Entry>>, t: InternalKey, j: nat, p: nat)
    requires Separates(index, blocks) && Sorted(Flatten(blocks)) && j < |blocks| && p < |blocks[j]|
    ensures var i := Seek(index, t);
      var goal := if i < |blocks| then Offset(blocks, i) + Seek(blocks[i], t) else |Flatten(blocks)|;
      Offset(blocks, j) + p < goal <==> Less(blocks[j][p].key, t)
  {
    var i, e := Seek(index, t), blocks[j][p];
    assert e in blocks[j];
    FlattenAt(blocks, j, p);
    if j < i {
      assert !Less(index[j].key, e.key) && Less(index[j].key, t);
      if i < |blocks| {
        OffsetMonotone(blocks, j, i);
      }
    } else if i < j {
      OffsetMonotone(blocks, i, j);
      assert Less(index[i].key, e.key) && !Less(index[i].key, t);
    } else {
      SeekInBlock(blocks, j, p, t);
    }
  }

  lemma {:induction false} SeekInBlock(blocks: seq<seq<Entry>>, j: nat, p: nat, t: InternalKey)
    requires Sorted(Flatten(blocks)) && j < |blocks| && p < |blocks[j]|
    ensures p < Seek(blocks[j], t) <==> Less(blocks[j][p].key, t)
  {
    var q := Seek(blocks[j], t);
    if q < p {
      FlattenAt(blocks, j, q);
      FlattenAt(blocks, j, p);
      assert Less(blocks[j][q].key, blocks[j][p].key);
    }
  }

  lemma {:induction false} SeekIsCut(run: seq<Entry>, t: InternalKey, cut: nat)
    requires cut <= |run| && forall a | 0 <= a < |run| :: a < cut <==> Less(run[a].key, t)
    ensures Seek(run, t) == cut
  {
    var s := Seek(run, t);
    if s < |run| {
      assert !Less(run[s].key, t);
    }
    if cut < |run| {
      assert !Less(run[cut].key, t);
    }
  }

  lemma {:induction false} BlockIsSorted(blocks: seq<seq<Entry>>, i: nat)
    requires Sorted(Flatten(blocks)) && i < |blocks|
    ensures Sorted(blocks[i])
  {
    forall p, q | 0 <= p < q < |blocks[i]| ensures Less(blocks[i][p].key, blocks[i][q].key) {
      FlattenAt(blocks, i, p);
      FlattenAt(blocks, i, q);
    }
  }

  // ----- The iterator

  class TwoLevelIterator {
    const index: RunIterator
    const blocks: seq<seq<Entry>>
    var data: RunIterator?
    var dataBlock: nat        // the block that data reads
    ghost var at: nat         // position in the concatenation, its length when invalid

    ghost predicate Shape() {
      Separates(index.run, blocks) && Sorted(Flatten(blocks))
    }

    /** The data iterator, if any, reads the block it says it reads. */
    ghost predicate Loaded()
      reads this, index, data
    {
      && Shape() && index.Ok()
      && (data != null ==> data != index && data.Ok() && dataBlock < |blocks| && data.run == blocks[dataBlock])
    }

    ghost predicate Ok()
      reads this, index, data
    {
      && Loaded()
      && (data == null ==> at == |Flatten(blocks)|)
      && (data != null ==> data.Valid() && index.pos == dataBlock && at == Offset(blocks, dataBlock) + data.pos)
    }

    constructor (index: RunIterator, blocks: seq<seq<Entry>>)
      requires index.Ok() && Separates(index.run, blocks) && Sorted(Flatten(blocks))
      ensures Ok() && data == null && this.index == index && this.blocks == blocks
    {
      this.index, this.blocks, data, dataBlock, at := index, blocks, null, 0, |Flatten(blocks)|;
    }

    predicate Valid()
      reads this, data
    {
      data != null && data.Valid()
    }

    lemma ValidEntry()
      requires Ok() && Valid()
      ensures at < |Flatten(blocks)| && Flatten(blocks)[at] == data.run[data.pos]
    {
      FlattenAt(blocks, dataBlock, data.pos);
    }

    /** Loads the block the index points to, unless it is loaded already. */
    method InitDataBlock()
      requires Loaded()
      modifies this`data, this`dataBlock
      ensures Loaded() && (data == null || data == old(data) || fresh(data))
      ensures data == null <==> !index.Valid()
      ensures data != null ==> dataBlock == index.pos
    {
      if !index.Valid() {
        data := null;
      } else if data != null && dataBlock == index.pos {
        // Already loaded
      } else {
        BlockIsSorted(blocks, index.pos);
        data := new RunIterator(blocks[index.pos]);
        dataBlock := index.pos;
      }
    }

    /** Moves on while the data iterator is exhausted; `goal` is the position to end at. */
    method SkipEmptyDataBlocksForward(ghost goal: nat)
      requires Loaded() && (data == null <==> !index.Valid())
      requires data != null ==> dataBlock == index.pos && goal == Offset(blocks, dataBlock) + data.pos
      requires data == null ==> goal == |Flatten(blocks)|
      modifies this, index, data
      ensures Ok() && at == goal
      ensures data == null || data == old(data) || fresh(data)
    {
      while data == null || !data.Valid()
        invariant Loaded() && (data == null <==> !index.Valid())
        invariant data != null ==> dataBlock == index.pos && goal == Offset(blocks, dataBlock) + data.pos
        invariant data == null ==> goal == |Flatten(blocks)|
        invariant data == null || data == old(data) || fresh(data)
        decreases |blocks| - index.pos, data != null
      {
        if !index.Valid() {
          data := null;
          at := |Flatten(blocks)|;
          return;
        }
        index.Next();
        InitDataBlock();
        if data != null {
          data.SeekToFirst();
        } else {
          FlattenLength(blocks);
        }
      }
      at := goal;
    }

    /** Where a backward move that reached the data iterator's position has to end. */
    ghost function Behind(): nat
      requires Loaded()
      reads this, index, data
    {
      if data == null then |Flatten(blocks)|
      else if data.Valid() then Offset(blocks, dataBlock) + data.pos
      else if Offset(blocks, dataBlock) == 0 then |Flatten(blocks)| else Offset(blocks, dataBlock) - 1
    }

    /** Moves back while the data iterator is exhausted. */
    method SkipEmptyDataBlocksBackward()
      requires Loaded() && (data == null <==> !index.Valid())
      requires data != null ==> dataBlock == index.pos
      modifies this, index, data
      ensures Ok() && at == old(Behind())
      ensures data == null || data == old(data) || fresh(data)
    {
      while data == null || !data.Valid()
        invariant Loaded() && (data == null <==> !index.Valid())
        invariant data != null ==> dataBlock == index.pos
        invariant Behind() == old(Behind())
        invariant data == null || data == old(data) || fresh(data)
        decreases if index.Valid() then index.pos + 1 else 0
      {
        if !index.Valid() {
          data := null;
          at := |Flatten(blocks)|;
          return;
        }
        index.Prev();
        InitDataBlock();
        if data != null {
          data.SeekToLast();
        }
      }
      at := Offset(blocks, dataBlock) + data.pos;
    }

    method SeekTo(target: InternalKey)
      requires Ok()
      modifies this, index, data
      ensures Ok() && at == Seek(Flatten(blocks), target)
      ensures data == null || data == old(data) || fresh(data)
    {
      SeekThroughIndex(index.run, blocks, target);
      index.SeekTo(target);
      InitDataBlock();
      if data != null {
        data.SeekTo(target);
      }
      SkipEmptyDataBlocksForward(Seek(Flatten(blocks), target));
    }

    method SeekToFirst()
      requires Ok()
      modifies this, index, data
      ensures Ok() && at == 0
      ensures data == null || data == old(data) || fresh(data)
    {
      index.SeekToFirst();
      InitDataBlock();
      if data != null {
        data.SeekToFirst();
      }
      SkipEmptyDataBlocksForward(0);
    }

    method SeekToLast()
      requires Ok()
      modifies this, index, data
      ensures Ok() && at == if Flatten(blocks) == [] then 0 else |Flatten(blocks)| - 1
      ensures data == null || data == old(data) || fresh(data)
    {
      FlattenLength(blocks);
      index.SeekToLast();
      InitDataBlock();
      if data != null {
        data.SeekToLast();
      }
      SkipEmptyDataBlocksBackward();
    }

    method Next()
      requires Ok() && Valid()
      modifies this, index, data
      ensures Ok() && at == old(at) + 1
      ensures data == null || data == old(data) || fresh(data)
    {
      data.Next();
      SkipEmptyDataBlocksForward(at + 1);
    }

    method Prev()
      requires Ok() && Valid()
      modifies this, index, data
      ensures Ok() && at == if old(at) == 0 then |Flatten(blocks)| else old(at) - 1
      ensures data == null || data == old(data) || fresh(data)
    {
      data.Prev();
      SkipEmptyDataBlocksBackward();
    }
  }
}
