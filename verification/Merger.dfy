/** The merging iterator: many sorted children read as one cursor over their sorted union. */
module Merger {
  import opened InternalKeys
  import opened Iterators

  // ----- Positions of the children relative to the union

  /** Where a child stands when everything before position a of the union is behind it. */
  function Fwd(run: seq<Entry>, merged: seq<Entry>, a: nat): nat {
    if a < |merged| then Seek(run, merged[a].key) else |run|
  }

  /** Where a child stands, moving backwards, when everything from position a on is behind it. */
  function Rev(run: seq<Entry>, merged: seq<Entry>, a: nat): nat {
    var c := Fwd(run, merged, a);
    if c == 0 then |run| else c - 1
  }

  ghost predicate PartOf(run: seq<Entry>, merged: seq<Entry>) {
    Sorted(run) && Sorted(merged) && forall e | e in run :: e in merged
  }

  lemma {:induction false} PositionInUnion(run: seq<Entry>, merged: seq<Entry>, i: nat) returns (j: nat)
    requires PartOf(run, merged) && i < |run|
    ensures j < |merged| && merged[j] == run[i]
  {
    assert run[i] in run;
    j :| 0 <= j < |merged| && merged[j] == run[i];
  }

  lemma {:induction false} OrderInUnion(merged: seq<Entry>, i: nat, j: nat)
    requires Sorted(merged) && i < |merged| && j < |merged|
    ensures i < j <==> Less(merged[i].key, merged[j].key)
    ensures i == j <==> merged[i].key == merged[j].key
  {
  }

  lemma {:induction false} FwdSplits(run: seq<Entry>, merged: seq<Entry>, a: nat, i: nat, j: nat)
    requires PartOf(run, merged) && a <= |merged| && i < |run| && j < |merged| && run[i] == merged[j]
    ensures Fwd(run, merged, a) <= |run|
    ensures i < Fwd(run, merged, a) <==> j < a
  {
    if a < |merged| {
      var p := Seek(run, merged[a].key);
      if j < a {
        assert Less(merged[j].key, merged[a].key);
      } else if a < j {
        assert Less(merged[a].key, merged[j].key);
      }
      if p < i {
        assert Less(run[p].key, run[i].key);
      }
    }
  }

  /** A child that does not hold the entry at a does not move when the union does. */
  lemma {:induction false} FwdStays(run: seq<Entry>, merged: seq<Entry>, a: nat)
    requires PartOf(run, merged) && a < |merged| && merged[a] !in run
    ensures Fwd(run, merged, a + 1) == Fwd(run, merged, a)
  {
    var p, q := Fwd(run, merged, a), Fwd(run, merged, a + 1);
    if p < |run| {
      var j := PositionInUnion(run, merged, p);
      FwdSplits(run, merged, a, p, j);
      FwdSplits(run, merged, a + 1, p, j);
    }
    if q < |run| {
      var j := PositionInUnion(run, merged, q);
      FwdSplits(run, merged, a, q, j);
      FwdSplits(run, merged, a + 1, q, j);
    }
  }

  /** The child that holds the entry at a stands on it, and moves by one. */
  lemma {:induction false} FwdMoves(run: seq<Entry>, merged: seq<Entry>, a: nat)
    requires PartOf(run, merged) && a < |merged| && merged[a] in run
    ensures Fwd(run, merged, a) < |run| && run[Fwd(run, merged, a)] == merged[a]
    ensures Fwd(run, merged, a + 1) == Fwd(run, merged, a) + 1
  {
    var i :| 0 <= i < |run| && run[i] == merged[a];
    FwdSplits(run, merged, a, i, a);
    FwdSplits(run, merged, a + 1, i, a);
    var p, q := Fwd(run, merged, a), Fwd(run, merged, a + 1);
    assert forall x | 0 <= x < i :: Less(run[x].key, run[i].key);
    if i + 1 < |run| {
      var j := PositionInUnion(run, merged, i + 1);
      FwdSplits(run, merged, a, i + 1, j);
      FwdSplits(run, merged, a + 1, i + 1, j);
      assert Less(run[i].key, run[i + 1].key);
    }
  }

  lemma {:induction false} FwdEnds(run: seq<Entry>, merged: seq<Entry>)
    requires PartOf(run, merged)
    ensures Fwd(run, merged, 0) == 0
    ensures Fwd(run, merged, |merged|) == |run|
  {
    if run != [] {
      var j := PositionInUnion(run, merged, 0);
      FwdSplits(run, merged, 0, 0, j);
    }
  }

  /** Seeking in a child and seeking in the union agree. */
  lemma {:induction false} FwdOfSeek(run: seq<Entry>, merged: seq<Entry>, t: InternalKey)
    requires PartOf(run, merged)
    ensures Fwd(run, merged, Seek(merged, t)) == Seek(run, t)
  {
    var a, p := Seek(merged, t), Seek(run, t);
    var q := Fwd(run, merged, a);
    if p < |run| {
      var j := PositionInUnion(run, merged, p);
      FwdSplits(run, merged, a, p, j);
    }
    if q < |run| {
      var j := PositionInUnion(run, merged, q);
      FwdSplits(run, merged, a, q, j);
      assert a < |merged| && a <= j ==> !Less(merged[j].key, merged[a].key);
    }
  }

  // ----- The iterator

  class MergingIterator {
    const children: seq<RunIterator>
    var current: int        // index of the child that yields the entry, -1 when invalid
    var direction: Direction
    ghost const merged: seq<Entry>
    ghost var at: nat       // position in the union, |merged| when invalid

    /** The children are different objects whose sorted runs share nothing and together make the union. */
    ghost predicate Shape() {
      && Sorted(merged)
      && (forall i, j | 0 <= i < j < |children| :: children[i] != children[j])
      && (forall i | 0 <= i < |children| :: PartOf(children[i].run, merged))
      && (forall i, j, e | 0 <= i < j < |children| && e in children[i].run :: e !in children[j].run)
      && (forall e | e in merged :: exists i :: 0 <= i < |children| && e in children[i].run)
    }

    lemma ChildrenDiffer()
      requires Shape()
      ensures Sorted(merged)
      ensures forall i, j | 0 <= i < j < |children| :: children[i] != children[j]
      ensures forall i | 0 <= i < |children| :: PartOf(children[i].run, merged)
    {
    }

    ghost predicate SetUp()
      reads children
    {
      Shape() && forall i | 0 <= i < |children| :: children[i].Ok()
    }

    ghost predicate AllFwd(a: nat)
      reads children
    {
      forall i | 0 <= i < |children| :: children[i].pos == Fwd(children[i].run, merged, a)
    }

    ghost predicate AllRev(a: nat)
      reads children
    {
      forall i | 0 <= i < |children| :: children[i].pos == Rev(children[i].run, merged, a)
    }

    /** Moving forward the children stand at their first entry from position at on; moving backwards,
        at their last entry up to position at. */
    ghost predicate Ok()
      reads this, children
    {
      && SetUp() && at <= |merged|
      && -1 <= current < |children| && (current == -1 <==> at == |merged|)
      && (at < |merged| ==>
            && children[current].Valid() && children[current].run[children[current].pos] == merged[at]
            && (direction == Forward ==> AllFwd(at))
            && (direction == Reverse ==> AllRev(at + 1)))
    }

    constructor (children: seq<RunIterator>, ghost merged: seq<Entry>)
      requires Sorted(merged)
      requires forall i, j | 0 <= i < j < |children| :: children[i] != children[j]
      requires forall i | 0 <= i < |children| :: children[i].Ok() && PartOf(children[i].run, merged)
      requires forall i, j, e | 0 <= i < j < |children| && e in children[i].run :: e !in children[j].run
      requires forall e | e in merged :: exists i :: 0 <= i < |children| && e in children[i].run
      ensures Ok() && this.children == children && this.merged == merged && at == |merged|
    {
      this.children, this.merged := children, merged;
      current, direction, at := -1, Forward, |merged|;
    }

    predicate Valid()
      reads this
    {
      current != -1
    }

    function Key(): (k: InternalKey)
      requires Ok() && Valid()
      reads this, children
      ensures at < |merged| && k == merged[at].key
    {
      children[current].Key()
    }

    function Current(): (e: Entry)
      requires Ok() && Valid()
      reads this, children
      ensures at < |merged| && e == merged[at]
    {
      children[current].run[children[current].pos]
    }

    /** The smallest valid child entry. */
    method FindSmallest(ghost a: nat)
      requires SetUp() && a <= |merged| && AllFwd(a)
      modifies this`current
      ensures -1 <= current < |children| && (current == -1 <==> a == |merged|)
      ensures a < |merged| ==> children[current].Valid() && children[current].run[children[current].pos] == merged[a]
    {
      var smallest := -1;
      var i := 0;
      while i < |children|
        invariant 0 <= i <= |children| && -1 <= smallest < i
        invariant smallest == -1 ==> forall j | 0 <= j < i :: !children[j].Valid()
        invariant smallest != -1 ==> children[smallest].Valid()
        invariant smallest != -1 ==> forall j | 0 <= j < i && children[j].Valid() :: !Less(children[j].Key(), children[smallest].Key())
      {
        if children[i].Valid() {
          if smallest == -1 || Less(children[i].Key(), children[smallest].Key()) {
            smallest := i;
          }
        }
        i := i + 1;
      }
      current := smallest;
      SmallestIsNext(a);
    }

    lemma SmallestIsNext(a: nat)
      requires SetUp() && a <= |merged| && AllFwd(a) && -1 <= current < |children|
      requires current == -1 ==> forall j | 0 <= j < |children| :: !children[j].Valid()
      requires current != -1 ==> children[current].Valid()
      requires current != -1 ==> forall j | 0 <= j < |children| && children[j].Valid() :: !Less(children[j].Key(), children[current].Key())
      ensures current == -1 <==> a == |merged|
      ensures a < |merged| ==> children[current].run[children[current].pos] == merged[a]
    {
      if a < |merged| {
        assert merged[a] in merged;
        var i :| 0 <= i < |children| && merged[a] in children[i].run;
        FwdMoves(children[i].run, merged, a);
        assert children[i].Valid();
        var c := children[current];
        var j := PositionInUnion(c.run, merged, c.pos);
        FwdSplits(c.run, merged, a, c.pos, j);
        OrderInUnion(merged, a, j);
      }
    }

    /** The largest valid child entry. */
    method FindLargest(ghost a: nat)
      requires SetUp() && a <= |merged| && AllRev(a)
      modifies this`current
      ensures -1 <= current < |children| && (current == -1 <==> a == 0)
      ensures a > 0 ==> children[current].Valid() && children[current].run[children[current].pos] == merged[a - 1]
    {
      var largest := -1;
      var i := |children| - 1;
      while i >= 0
        invariant -1 <= i < |children| && (largest == -1 || i < largest < |children|)
        invariant largest == -1 ==> forall j | i < j < |children| :: !children[j].Valid()
        invariant largest != -1 ==> children[largest].Valid()
        invariant largest != -1 ==> forall j | i < j < |children| && children[j].Valid() :: !Less(children[largest].Key(), children[j].Key())
      {
        if children[i].Valid() {
          if largest == -1 || Less(children[largest].Key(), children[i].Key()) {
            largest := i;
          }
        }
        i := i - 1;
      }
      current := largest;
      LargestIsPrevious(a);
    }

    lemma LargestIsPrevious(a: nat)
      requires SetUp() && a <= |merged| && AllRev(a) && -1 <= current < |children|
      requires current == -1 ==> forall j | 0 <= j < |children| :: !children[j].Valid()
      requires current != -1 ==> children[current].Valid()
      requires current != -1 ==> forall j | 0 <= j < |children| && children[j].Valid() :: !Less(children[current].Key(), children[j].Key())
      ensures current == -1 <==> a == 0
      ensures a > 0 ==> children[current].run[children[current].pos] == merged[a - 1]
    {
      hide Sorted, Seek;
      if a > 0 {
        assert merged[a - 1] in merged;
        var i :| 0 <= i < |children| && merged[a - 1] in children[i].run;
        FwdMoves(children[i].run, merged, a - 1);
        assert children[i].Valid();
      }
      if current != -1 {
        var c := children[current];
        var j := PositionInUnion(c.run, merged, c.pos);
        FwdSplits(c.run, merged, a, c.pos, j);
        if a > 0 {
          OrderInUnion(merged, j, a - 1);
        }
      }
    }

    method SeekToFirst()
      requires Ok()
      modifies this, children
      ensures Ok() && at == 0
    {
      hide Shape, Sorted, Seek, Fwd;
      ChildrenDiffer();
      for i := 0 to |children|
        invariant SetUp()
        invariant forall j | 0 <= j < i :: children[j].pos == Fwd(children[j].run, merged, 0)
      {
        children[i].SeekToFirst();
        FwdEnds(children[i].run, merged);
      }
      FindSmallest(0);
      direction, at := Forward, 0;
    }

    method SeekToLast()
      requires Ok()
      modifies this, children
      ensures Ok() && at == if merged == [] then 0 else |merged| - 1
    {
      hide Shape, Sorted, Seek, Fwd;
      ChildrenDiffer();
      for i := 0 to |children|
        invariant SetUp()
        invariant forall j | 0 <= j < i :: children[j].pos == Rev(children[j].run, merged, |merged|)
      {
        children[i].SeekToLast();
        FwdEnds(children[i].run, merged);
      }
      FindLargest(|merged|);
      direction, at := Reverse, if merged == [] then 0 else |merged| - 1;
    }

    method SeekTo(target: InternalKey)
      requires Ok()
      modifies this, children
      ensures Ok() && at == Seek(merged, target)
    {
      ghost var a := Seek(merged, target);
      hide Shape, Sorted, Seek, Fwd;
      ChildrenDiffer();
      for i := 0 to |children|
        invariant SetUp()
        invariant forall j | 0 <= j < i :: children[j].pos == Fwd(children[j].run, merged, a)
      {
        children[i].SeekTo(target);
        FwdOfSeek(children[i].run, merged, target);
      }
      FindSmallest(a);
      direction, at := Forward, a;
    }

    /** Only the current child holds the current entry. */
    lemma OthersDoNotHold(i: nat)
      requires Ok() && at < |merged| && i < |children| && i != current
      ensures merged[at] !in children[i].run
    {
      assert merged[at] in children[current].run;
    }

    method Next()
      requires Ok() && Valid()
      modifies this, children
      ensures Ok() && at == old(at) + 1
    {
      if direction != Forward {
        PositionForward();
      }
      StepForward();
    }

    method StepForward()
      requires Ok() && Valid() && direction == Forward
      modifies this, children
      ensures Ok() && at == old(at) + 1
    {
      hide Shape, Sorted, Seek, PartOf, AllRev;
      ChildrenDiffer();
      ghost var a := at;
      NextPositions();
      children[current].Next();
      FindSmallest(a + 1);
      at := a + 1;
    }

    lemma NextPositions()
      requires Ok() && direction == Forward && at < |merged|
      ensures forall i | 0 <= i < |children| ::
        Fwd(children[i].run, merged, at + 1) == children[i].pos + (if i == current then 1 else 0)
    {
      forall i | 0 <= i < |children|
        ensures Fwd(children[i].run, merged, at + 1) == children[i].pos + (if i == current then 1 else 0)
      {
        if i == current {
          FwdMoves(children[i].run, merged, at);
        } else {
          OthersDoNotHold(i);
          FwdStays(children[i].run, merged, at);
        }
      }
    }

    method Prev()
      requires Ok() && Valid()
      modifies this, children
      ensures Ok() && at == if old(at) == 0 then |merged| else old(at) - 1
    {
      if direction != Reverse {
        PositionBackward();
      }
      StepBack();
    }

    method StepBack()
      requires Ok() && Valid() && direction == Reverse
      modifies this, children
      ensures Ok() && at == if old(at) == 0 then |merged| else old(at) - 1
    {
      hide Shape, SetUp, AllFwd, AllRev, Sorted;
      ghost var a := at;
      RetreatCurrent();
      FindLargest(a);
      if a == 0 {
        at := |merged|;
      } else {
        at := a - 1;
      }
    }

    method RetreatCurrent()
      requires Ok() && Valid() && direction == Reverse
      modifies children
      ensures SetUp() && AllRev(at)
    {
      hide Shape, Sorted, Seek, PartOf;
      ChildrenDiffer();
      PrevPositions();
      children[current].Prev();
    }

    lemma PrevPositions()
      requires Ok() && direction == Reverse && at < |merged|
      ensures forall i | 0 <= i < |children| ::
        Rev(children[i].run, merged, at) ==
          if i != current then children[i].pos
          else if children[i].pos == 0 then |children[i].run| else children[i].pos - 1
    {
      forall i | 0 <= i < |children|
        ensures Rev(children[i].run, merged, at) ==
          if i != current then children[i].pos
          else if children[i].pos == 0 then |children[i].run| else children[i].pos - 1
      {
        if i == current {
          FwdMoves(children[i].run, merged, at);
        } else {
          OthersDoNotHold(i);
          FwdStays(children[i].run, merged, at);
        }
      }
    }

    /** Turns the non-current children around: each is put before the current entry. */
    method PositionBackward()
      requires Ok() && Valid() && direction == Forward
      modifies this`direction, children
      ensures Ok() && direction == Reverse && at == old(at) && current == old(current)
    {
      hide Shape, Sorted, Seek, PartOf, Fwd;
      ChildrenDiffer();
      ghost var a := at;
      var key := children[current].Key();
      var c := children[current];
      ghost var p := c.pos;
      BackwardPositions();
      for i := 0 to |children|
        invariant SetUp() && c.pos == p
        invariant forall j | 0 <= j < i && j != current :: children[j].pos == Rev(children[j].run, merged, a + 1)
      {
        if i != current {
          children[i].SeekTo(key);
          if children[i].Valid() {
            children[i].Prev();
          } else {
            children[i].SeekToLast();
          }
        }
      }
      direction := Reverse;
    }

    lemma BackwardPositions()
      requires Ok() && at < |merged|
      ensures forall i | 0 <= i < |children| && i != current :: Fwd(children[i].run, merged, at + 1) == Seek(children[i].run, merged[at].key)
      ensures direction == Forward ==> children[current].pos == Rev(children[current].run, merged, at + 1)
    {
      forall i | 0 <= i < |children| && i != current
        ensures Fwd(children[i].run, merged, at + 1) == Seek(children[i].run, merged[at].key)
      {
        OthersDoNotHold(i);
        FwdStays(children[i].run, merged, at);
      }
      FwdMoves(children[current].run, merged, at);
    }

    /** Turns the non-current children around: each is put after the current entry. */
    method PositionForward()
      requires Ok() && Valid() && direction == Reverse
      modifies this`direction, children
      ensures Ok() && direction == Forward && at == old(at) && current == old(current)
    {
      hide Shape, Sorted, Seek, PartOf, Rev;
      ChildrenDiffer();
      ghost var a := at;
      var key := children[current].Key();
      var c := children[current];
      ghost var p := c.pos;
      ForwardPositions();
      for i := 0 to |children|
        invariant SetUp() && c.pos == p
        invariant forall j | 0 <= j < i && j != current :: children[j].pos == Fwd(children[j].run, merged, a)
      {
        if i != current {
          children[i].SeekTo(key);
          if children[i].Valid() && children[i].Key() == key {
            // The code steps past an equal key here; with distinct keys there is none.
            SameKeySameEntry(i, a);
            assert false;
          }
        }
      }
      direction := Forward;
    }

    /** Only the current child holds the current entry, and it stands where it has to going forward. */
    lemma ForwardPositions()
      requires Ok() && at < |merged|
      ensures forall i | 0 <= i < |children| && i != current :: merged[at] !in children[i].run
      ensures children[current].pos == Fwd(children[current].run, merged, at)
    {
      hide Sorted, Seek;
      forall i | 0 <= i < |children| && i != current ensures merged[at] !in children[i].run {
        OthersDoNotHold(i);
      }
      var c := children[current];
      assert merged[at] in c.run;
      FwdMoves(c.run, merged, at);
      SamePlace(c.run, c.pos, Fwd(c.run, merged, at));
    }

    lemma SamePlace(run: seq<Entry>, i: nat, j: nat)
      requires Sorted(run) && i < |run| && j < |run| && run[i] == run[j]
      ensures i == j
    {
      OrderInUnion(run, i, j);
    }

    lemma SameKeySameEntry(i: nat, a: nat)
      requires SetUp() && a < |merged| && i < |children| && children[i].Valid() && children[i].Key() == merged[a].key
      ensures merged[a] in children[i].run
    {
      var j := PositionInUnion(children[i].run, merged, children[i].pos);
      OrderInUnion(merged, a, j);
    }
  }
}
