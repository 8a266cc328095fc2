/** The skip list behind the memtable: one writer links nodes store by store while readers search. */
module SkipList {
  const MAX_HEIGHT: nat := 12

  class Node {
    const key: int
    var next: seq<Node?>    // one link per level

    constructor (key: int, height: nat)
      ensures this.key == key && next == seq(height, _ => null)
    {
      this.key, next := key, seq(height, _ => null);
    }
  }

  // ----- Which node follows at which level, in terms of the linked heights

  /** The first position from p on whose node is linked at level h. */
  ghost function NextPos(heights: seq<nat>, p: nat, h: nat): (r: nat)
    requires p <= |heights|
    ensures p <= r <= |heights|
    ensures forall q | p <= q < r :: heights[q] <= h
    ensures r < |heights| ==> heights[r] > h
    decreases |heights| - p
  {
    if p == |heights| || heights[p] > h then p else NextPos(heights, p + 1, h)
  }

  lemma {:induction false} NextPosIs(heights: seq<nat>, p: nat, h: nat, r: nat)
    requires p <= r <= |heights| && forall q | p <= q < r :: heights[q] <= h
    requires r < |heights| ==> heights[r] > h
    ensures NextPos(heights, p, h) == r
  {
  }

  ghost function At(nodes: seq<Node>, p: nat): Node? {
    if p < |nodes| then nodes[p] else null
  }

  /** The nodes in key order after the head, with the number of levels each is linked at. */
  ghost predicate Ordered(nodes: seq<Node>, heights: seq<nat>) {
    && |nodes| == |heights| > 0 && heights[0] == MAX_HEIGHT
    && (forall a | 0 <= a < |nodes| :: 1 <= heights[a] <= MAX_HEIGHT)
    && (forall a, b | 0 <= a < b < |nodes| :: nodes[a] != nodes[b])
    && (forall a, b | 0 < a < b < |nodes| :: nodes[a].key < nodes[b].key)
  }

  /** The links of the node at a lead, level by level, to the next node that is linked at that level. */
  ghost predicate RowOk(nodes: seq<Node>, heights: seq<nat>, row: seq<Node?>, a: nat)
    requires |nodes| == |heights| && a < |nodes|
  {
    |row| >= heights[a] && forall h | 0 <= h < heights[a] :: row[h] == At(nodes, NextPos(heights, a + 1, h))
  }

  ghost predicate LinksMatch(nodes: seq<Node>, heights: seq<nat>, links: seq<seq<Node?>>) {
    && |links| == |nodes| == |heights|
    && forall a | 0 <= a < |nodes| :: RowOk(nodes, heights, links[a], a)
  }

  /** The place of a key in the order. */
  ghost predicate FitsAt(nodes: seq<Node>, key: int, p: nat) {
    0 < p <= |nodes| && (forall a | 0 < a < p :: nodes[a].key < key) && forall a | p <= a < |nodes| :: key < nodes[a].key
  }

  /** The node at position k is the last one before `place` that is linked at level h. */
  ghost predicate PrevFits(nodes: seq<Node>, heights: seq<nat>, node: Node, k: nat, place: nat, h: nat)
    requires |nodes| == |heights|
  {
    k < place && k < |nodes| && nodes[k] == node && heights[k] > h && NextPos(heights, k + 1, h) >= place
  }

  // ----- Nodes are never unlinked, and links never disappear

  ghost predicate Kept(nodes: seq<Node>, heights: seq<nat>, a: nat, nodes': seq<Node>, heights': seq<nat>, b: nat)
    requires |nodes| == |heights| && |nodes'| == |heights'| && a < |nodes|
  {
    b < |nodes'| && nodes'[b] == nodes[a] && heights'[b] >= heights[a] && (b == 0 <==> a == 0)
  }

  ghost predicate Remains(nodes: seq<Node>, heights: seq<nat>, a: nat, nodes': seq<Node>, heights': seq<nat>)
    requires |nodes| == |heights| && |nodes'| == |heights'| && a < |nodes|
  {
    exists b: nat :: Kept(nodes, heights, a, nodes', heights', b)
  }

  ghost predicate Grows(nodes: seq<Node>, heights: seq<nat>, nodes': seq<Node>, heights': seq<nat>) {
    |nodes| == |heights| && |nodes'| == |heights'| && forall a: nat | a < |nodes| :: Remains(nodes, heights, a, nodes', heights')
  }

  lemma {:induction false} GrowsTwice(n0: seq<Node>, h0: seq<nat>, n1: seq<Node>, h1: seq<nat>, n2: seq<Node>, h2: seq<nat>)
    requires Grows(n0, h0, n1, h1) && Grows(n1, h1, n2, h2)
    ensures Grows(n0, h0, n2, h2)
  {
    forall a: nat | a < |n0| ensures Remains(n0, h0, a, n2, h2) {
      assert Remains(n0, h0, a, n1, h1);
      var b: nat :| Kept(n0, h0, a, n1, h1, b);
      assert Remains(n1, h1, b, n2, h2);
      var c: nat :| Kept(n1, h1, b, n2, h2, c);
      assert Kept(n0, h0, a, n2, h2, c);
    }
  }

  lemma {:induction false} GrowsNot(nodes: seq<Node>, heights: seq<nat>)
    requires |nodes| == |heights|
    ensures Grows(nodes, heights, nodes, heights)
  {
    forall a: nat | a < |nodes| ensures Remains(nodes, heights, a, nodes, heights) {
      assert Kept(nodes, heights, a, nodes, heights, a);
    }
  }

  // ----- Linking a node at a higher level

  lemma {:induction false} RaiseNext(heights: seq<nat>, p: nat, i: nat, a: nat, h: nat)
    requires 0 < p < |heights| && heights[p] == i && a < |heights|
    requires h < heights[p := i + 1][a]
    ensures NextPos(heights[p := i + 1], a + 1, h) ==
      if h == i && a < p && p <= NextPos(heights, a + 1, h) then p else NextPos(heights, a + 1, h)
  {
    var r := NextPos(heights, a + 1, h);
    NextPosIs(heights[p := i + 1], a + 1, h, if h == i && a < p && p <= r then p else r);
  }

  /** One more level: the predecessor's link is the only one that changes. */
  lemma {:induction false} LinkHigher(nodes: seq<Node>, heights: seq<nat>, links: seq<seq<Node?>>, p: nat, i: nat, k: nat)
    requires Ordered(nodes, heights) && LinksMatch(nodes, heights, links)
    requires 0 < p < |nodes| && heights[p] == i < MAX_HEIGHT && i < |links[p]|
    requires k < |nodes| && PrevFits(nodes, heights, nodes[k], k, p, i) && links[p][i] == links[k][i]
    ensures var H := heights[p := i + 1];
      && Ordered(nodes, H) && LinksMatch(nodes, H, links[k := links[k][i := nodes[p]]])
      && Grows(nodes, heights, nodes, H)
  {
    var H, L := heights[p := i + 1], links[k := links[k][i := nodes[p]]];
    RowOfPrev(nodes, heights, links, k, p, i);
    forall a | 0 <= a < |nodes| ensures RowOk(nodes, H, L[a], a) {
      assert RowOk(nodes, heights, links[a], a);
      forall h | 0 <= h < H[a] ensures L[a][h] == At(nodes, NextPos(H, a + 1, h)) {
        RaiseNext(heights, p, i, a, h);
      }
    }
    forall a: nat | a < |nodes| ensures Remains(nodes, heights, a, nodes, H) {
      assert Kept(nodes, heights, a, nodes, H, a);
    }
  }

  /** What the predecessor's link holds is what follows the new node's place. */
  lemma {:induction false} RowOfPrev(nodes: seq<Node>, heights: seq<nat>, links: seq<seq<Node?>>, k: nat, p: nat, i: nat)
    requires Ordered(nodes, heights) && LinksMatch(nodes, heights, links) && p < |nodes| && heights[p] <= i
    requires k < |nodes| && PrevFits(nodes, heights, nodes[k], k, p, i)
    ensures i < |links[k]| && links[k][i] == At(nodes, NextPos(heights, p + 1, i))
  {
    assert RowOk(nodes, heights, links[k], k);
    NextPosIs(heights, k + 1, i, NextPos(heights, p + 1, i));
  }

  lemma {:induction false} RaisePrev(nodes: seq<Node>, heights: seq<nat>, node: Node, k: nat, p: nat, i: nat, h: nat)
    requires |nodes| == |heights| && 0 < p < |heights| && heights[p] == i < h && PrevFits(nodes, heights, node, k, p, h)
    ensures PrevFits(nodes, heights[p := i + 1], node, k, p, h)
  {
    RaiseNext(heights, p, i, k, h);
  }

  // ----- Linking a new node at level 0

  function Inserted<T>(s: seq<T>, p: nat, x: T): (r: seq<T>)
    requires p <= |s|
    ensures |r| == |s| + 1 && r[p] == x
    ensures forall q | 0 <= q < p :: r[q] == s[q]
    ensures forall q | p < q < |r| :: r[q] == s[q - 1]
  {
    s[..p] + [x] + s[p..]
  }

  lemma {:induction false} InsertedMembers(nodes: seq<Node>, p: nat, x: Node)
    requires p <= |nodes|
    ensures forall n :: n in Inserted(nodes, p, x) <==> n in nodes || n == x
  {
    assert nodes == nodes[..p] + nodes[p..];
  }

  ghost predicate Positive(heights: seq<nat>) {
    forall q | 0 <= q < |heights| :: heights[q] >= 1
  }

  /** A node enters the order at position p, linked at level 0 only. */
  lemma {:induction false} InsertNext(heights: seq<nat>, p: nat, a: nat, h: nat)
    requires 0 < p <= |heights| && a < |heights| && h < heights[a] && Positive(heights)
    ensures var r, a' := NextPos(heights, a + 1, h), if a < p then a else a + 1;
      NextPos(Inserted(heights, p, 1), a' + 1, h) ==
        if h == 0 && a < p && p <= r then p else if r < p then r else r + 1
  {
    hide Inserted, NextPos;
    var H, r, a' := Inserted(heights, p, 1), NextPos(heights, a + 1, h), if a < p then a else a + 1;
    var goal := if h == 0 && a < p && p <= r then p else if r < p then r else r + 1;
    forall q | a' + 1 <= q < goal ensures H[q] <= h {
      if q < p {
        assert H[q] == heights[q];
      } else if q > p {
        assert H[q] == heights[q - 1];
      }
    }
    NextPosIs(H, a' + 1, h, goal);
  }

  lemma {:induction false} InsertedOrdered(nodes: seq<Node>, heights: seq<nat>, p: nat, x: Node)
    requires Ordered(nodes, heights) && x !in nodes && FitsAt(nodes, x.key, p)
    ensures Ordered(Inserted(nodes, p, x), Inserted(heights, p, 1))
    ensures Grows(nodes, heights, Inserted(nodes, p, x), Inserted(heights, p, 1))
  {
    hide Inserted;
    var N, H := Inserted(nodes, p, x), Inserted(heights, p, 1);
    forall a: nat | a < |nodes| ensures Remains(nodes, heights, a, N, H) {
      assert Kept(nodes, heights, a, N, H, if a < p then a else a + 1);
    }
  }

  lemma {:induction false} OldLink(nodes: seq<Node>, heights: seq<nat>, p: nat, x: Node, a: nat, h: nat)
    requires |nodes| == |heights| && Positive(heights) && 0 < p <= |nodes| && a < |nodes| && h < heights[a]
    ensures At(Inserted(nodes, p, x), NextPos(Inserted(heights, p, 1), (if a < p then a else a + 1) + 1, h)) ==
      if a == p - 1 && h == 0 then x else At(nodes, NextPos(heights, a + 1, h))
  {
    hide Inserted, NextPos;
    var N, r := Inserted(nodes, p, x), NextPos(heights, a + 1, h);
    InsertNext(heights, p, a, h);
    if h == 0 && a < p - 1 {
      assert heights[a + 1] > 0;
    } else if r < |nodes| && r >= p {
      assert N[r + 1] == nodes[r];
    }
  }

  /** A node that was linked before keeps its links, but for the new node's predecessor at level 0. */
  lemma {:induction false} OldRow(nodes: seq<Node>, heights: seq<nat>, row: seq<Node?>, p: nat, x: Node, a: nat)
    requires |nodes| == |heights| && Positive(heights) && 0 < p <= |nodes| && a < |nodes| && RowOk(nodes, heights, row, a)
    ensures |row| > 0
    ensures RowOk(Inserted(nodes, p, x), Inserted(heights, p, 1), if a == p - 1 then row[0 := x] else row, if a < p then a else a + 1)
  {
    hide Inserted, NextPos, At;
    var row' := if a == p - 1 then row[0 := x] else row;
    forall h | 0 <= h < heights[a]
      ensures row'[h] == At(Inserted(nodes, p, x), NextPos(Inserted(heights, p, 1), (if a < p then a else a + 1) + 1, h))
    {
      OldLink(nodes, heights, p, x, a, h);
    }
  }

  lemma {:induction false} NewRow(nodes: seq<Node>, heights: seq<nat>, row: seq<Node?>, p: nat, x: Node)
    requires |nodes| == |heights| && Positive(heights) && 0 < p <= |nodes| && |row| > 0 && row[0] == At(nodes, p)
    ensures RowOk(Inserted(nodes, p, x), Inserted(heights, p, 1), row, p)
  {
    hide Inserted, NextPos;
    var N, H := Inserted(nodes, p, x), Inserted(heights, p, 1);
    assert p < |heights| ==> H[p + 1] == heights[p] && N[p + 1] == nodes[p];
    NextPosIs(H, p + 1, 0, p + 1);
  }

  lemma {:induction false} LinkFirst(nodes: seq<Node>, heights: seq<nat>, links: seq<seq<Node?>>, p: nat, x: Node, row: seq<Node?>)
    requires Ordered(nodes, heights) && LinksMatch(nodes, heights, links) && 0 < p <= |nodes|
    requires |row| > 0 && |links[p - 1]| > 0 && row[0] == links[p - 1][0]
    ensures LinksMatch(Inserted(nodes, p, x), Inserted(heights, p, 1), Inserted(links[p - 1 := links[p - 1][0 := x]], p, row))
  {
    hide Inserted, NextPos, RowOk;
    var N, H := Inserted(nodes, p, x), Inserted(heights, p, 1);
    var L := Inserted(links[p - 1 := links[p - 1][0 := x]], p, row);
    FirstRow(nodes, heights, links[p - 1], p);
    NewRow(nodes, heights, row, p, x);
    forall a' | 0 <= a' < |N| ensures RowOk(N, H, L[a'], a') {
      if a' < p {
        OldRow(nodes, heights, links[a'], p, x, a');
      } else if a' > p {
        OldRow(nodes, heights, links[a' - 1], p, x, a' - 1);
      }
    }
  }

  lemma {:induction false} FirstRow(nodes: seq<Node>, heights: seq<nat>, row: seq<Node?>, p: nat)
    requires |nodes| == |heights| && Positive(heights) && 0 < p <= |nodes| && RowOk(nodes, heights, row, p - 1)
    ensures |row| > 0 && row[0] == At(nodes, p)
  {
    NextPosIs(heights, p, 0, p);
  }

  lemma {:induction false} InsertPrev(nodes: seq<Node>, heights: seq<nat>, node: Node, k: nat, p: nat, h: nat, x: Node)
    requires Ordered(nodes, heights) && 0 < p <= |nodes| && h > 0 && PrevFits(nodes, heights, node, k, p, h)
    ensures PrevFits(Inserted(nodes, p, x), Inserted(heights, p, 1), node, k, p, h)
  {
    InsertNext(heights, p, k, h);
  }

  /** A link above a node's linked height is nobody's concern. */
  lemma {:induction false} HiddenLink(nodes: seq<Node>, heights: seq<nat>, links: seq<seq<Node?>>, p: nat, h: nat, next: Node?)
    requires LinksMatch(nodes, heights, links) && p < |nodes| && heights[p] <= h < |links[p]|
    ensures LinksMatch(nodes, heights, links[p := links[p][h := next]])
  {
    assert RowOk(nodes, heights, links[p], p);
    var links' := links[p := links[p][h := next]];
    forall a | 0 <= a < |nodes| ensures RowOk(nodes, heights, links'[a], a) {
      assert RowOk(nodes, heights, links[a], a);
    }
  }

  // ----- The list

  class SkipList {
    const head: Node
    var maxHeight: nat
    ghost var nodes: seq<Node>      // the linked nodes in key order, the head first
    ghost var heights: seq<nat>     // at how many levels each is linked

    // The insertion in progress: the node, its predecessors, and the level to link next.
    var pending: Node?
    var prev: seq<Node>
    var level: nat
    var prepared: bool
    ghost var place: nat            // where the node stands, or will stand, in the order
    ghost var prevAt: seq<nat>

    ghost function Links(): (r: seq<seq<Node?>>)
      reads this`nodes, nodes
      ensures |r| == |nodes|
    {
      var n := nodes;
      seq(|n|, a requires 0 <= a < |n| reads n => n[a].next)
    }

    ghost predicate Ok()
      reads this`nodes, this`heights, this`maxHeight, nodes
    {
      && Ordered(nodes, heights) && nodes[0] == head && LinksMatch(nodes, heights, Links())
      && 1 <= maxHeight <= MAX_HEIGHT && forall a | 0 < a < |nodes| :: heights[a] <= maxHeight
    }

    /** The shape of the insertion in progress, apart from what the links hold. */
    ghost predicate Placed(x: Node)
      reads this
    {
      && |nodes| == |heights| && |prev| == |prevAt| && 0 < place
      && (if level == 0 then x !in nodes && FitsAt(nodes, x.key, place)
          else place < |nodes| && nodes[place] == x && heights[place] == level)
    }

    ghost predicate PendingOk()
      reads this, nodes, pending
    {
      Ok() && (pending != null ==>
        && Placed(pending) && level < |pending.next| <= maxHeight && |pending.next| <= |prev|
        && (forall h | level <= h < |pending.next| :: PrevFits(nodes, heights, prev[h], prevAt[h], place, h))
        && (prepared ==> pending.next[level] == Links()[prevAt[level]][level]))
    }

    constructor ()
      ensures PendingOk() && pending == null && fresh(head) && nodes == [head]
    {
      head := new Node(0, MAX_HEIGHT);
      maxHeight, pending, prev, level, prepared := 1, null, [], 0, false;
      place, prevAt := 0, [];
      new;
      nodes, heights := [head], [MAX_HEIGHT];
    }

    lemma PrevRow(h: nat)
      requires Ok() && h < |prev| == |prevAt| && PrevFits(nodes, heights, prev[h], prevAt[h], place, h)
      ensures h < |prev[h].next| && prev[h] in nodes && prev[h].next == Links()[prevAt[h]]
    {
      assert RowOk(nodes, heights, Links()[prevAt[h]], prevAt[h]);
    }

    /** First half of linking: the new node's own link, which no reader can reach yet. */
    method PrepareLink()
      requires PendingOk() && pending != null && !prepared
      modifies pending, this`prepared
      ensures PendingOk() && prepared && |pending.next| == old(|pending.next|)
    {
      PrevRow(level);
      ghost var links := Links();
      var x := pending;
      x.next := x.next[level := prev[level].next[level]];
      prepared := true;
      if level == 0 {
        assert Links() == links;
      } else {
        HiddenLink(nodes, heights, links, place, level, x.next[level]);
        assert Links() == links[place := links[place][level := x.next[level]]];
      }
    }

    lemma Sizes()
      requires PendingOk() && pending != null
      ensures |nodes| == |heights| && 0 < place <= |nodes| && (level > 0 ==> place < |nodes|)
    {
    }

    /** Stores the level-0 link that leads to the new node. */
    method StoreFirst(ghost links: seq<seq<Node?>>)
      requires Ok() && pending != null && level == 0 && Placed(pending) && links == Links()
      requires |prev| > 0 && prev[0] == nodes[place - 1] && |prev[0].next| > 0
      modifies prev[0]
      ensures pending.next == old(pending.next)
      ensures Links() == links[place - 1 := links[place - 1][0 := pending as Node?]]
    {
      var p := prev[0];
      p.next := p.next[0 := pending];
    }

    lemma LinksAfterInsert(n: seq<Node>, x: Node, links: seq<seq<Node?>>)
      requires 0 < place <= |n| == |links| && nodes == Inserted(n, place, x)
      requires forall a | 0 <= a < |n| :: n[a].next == links[a]
      ensures Links() == Inserted(links, place, x.next)
    {
      hide Inserted;
      var after := Inserted(links, place, x.next);
      forall a | 0 <= a < |nodes| ensures nodes[a].next == after[a] {
        if a > place {
          assert nodes[a] == n[a - 1] && after[a] == links[a - 1];
        }
      }
    }

    /** At level 0 the node enters the order. */
    method PublishFirst()
      requires PendingOk() && pending != null && prepared && level == 0
      modifies prev[0], this`nodes, this`heights
      ensures Ok() && nodes == Inserted<Node>(old(nodes), place, pending) && heights == Inserted(old(heights), place, 1)
      ensures Grows(old(nodes), old(heights), nodes, heights)
      ensures pending.next == old(pending.next)
    {
      hide Ordered, LinksMatch, Inserted, NextPos, RowOk, Grows, FitsAt, At;
      Sizes();
      PrevRow(0);
      PrevIsJustBefore();
      InsertedOrdered(nodes, heights, place, pending);
      ghost var links := Links();
      LinkFirst(nodes, heights, links, place, pending, pending.next);
      StoreFirst(links);
      EnterOrder();
    }

    /** The order takes the node in once the link to it is stored. */
    ghost method EnterOrder()
      requires pending != null && 0 < place <= |nodes| == |heights| && nodes[0] == head
      requires 1 <= maxHeight <= MAX_HEIGHT && forall a | 0 < a < |nodes| :: heights[a] <= maxHeight
      requires Ordered(Inserted<Node>(nodes, place, pending), Inserted(heights, place, 1))
      requires LinksMatch(Inserted<Node>(nodes, place, pending), Inserted(heights, place, 1), Inserted(Links(), place, pending.next))
      modifies this`nodes, this`heights
      ensures Ok() && nodes == Inserted<Node>(old(nodes), place, pending) && heights == Inserted(old(heights), place, 1)
    {
      hide Ordered, LinksMatch, Inserted, NextPos, RowOk;
      ghost var n, links := nodes, Links();
      nodes, heights := Inserted<Node>(nodes, place, pending), Inserted(heights, place, 1);
      LinksAfterInsert(n, pending, links);
    }

    lemma PrevIsJustBefore()
      requires PendingOk() && pending != null && level == 0
      ensures prevAt[0] == place - 1
    {
      assert PrevFits(nodes, heights, prev[0], prevAt[0], place, 0);
      var k := prevAt[0] + 1;
      assert k < |heights| ==> NextPos(heights, k, 0) == k;
    }

    /** Higher up its height grows by one. */
    method PublishHigher()
      requires PendingOk() && pending != null && prepared && level > 0
      modifies prev[level], this`heights
      ensures Ok() && heights == old(heights)[place := level + 1]
      ensures Grows(nodes, old(heights), nodes, heights)
      ensures pending.next == old(pending.next)
    {
      hide NextPos, RowOk, Grows;
      PrevRow(level);
      ghost var links := Links();
      var x, p := pending, prev[level];
      assert p != x;
      p.next := p.next[level := x];
      LinkHigher(nodes, heights, links, place, level, prevAt[level]);
      heights := heights[place := level + 1];
      assert Links() == links[prevAt[level] := links[prevAt[level]][level := x]];
    }

    /** The predecessors at the levels still to come stay predecessors. */
    lemma PrevsAfterFirst(h: nat)
      requires PendingOk() && pending != null && level == 0 && 0 < h < |pending.next|
      ensures PrevFits(Inserted<Node>(nodes, place, pending), Inserted(heights, place, 1), prev[h], prevAt[h], place, h)
    {
      InsertPrev(nodes, heights, prev[h], prevAt[h], place, h, pending);
    }

    lemma PrevsAfterHigher(h: nat)
      requires PendingOk() && pending != null && 0 < level < h < |pending.next|
      ensures PrevFits(nodes, heights[place := level + 1], prev[h], prevAt[h], place, h)
    {
      RaisePrev(nodes, heights, prev[h], prevAt[h], place, level, h);
    }

    /** Second half: the predecessor's link publishes the node at the level. */
    method PublishLink()
      requires PendingOk() && pending != null && prepared
      modifies prev[level], this`nodes, this`heights, this`level, this`prepared, this`pending
      ensures PendingOk()
      ensures Grows(old(nodes), old(heights), nodes, heights)
      ensures nodes == if old(level) == 0 then Inserted<Node>(old(nodes), place, old(pending)) else old(nodes)
      ensures heights == if old(level) == 0 then Inserted(old(heights), place, 1) else old(heights)[place := old(level) + 1]
      ensures |old(pending).next| == old(|pending.next|)
      ensures pending == if old(level) + 1 == old(|pending.next|) then null else old(pending)
      ensures pending != null ==> level == old(level) + 1 && !prepared
    {
      hide Ok, Inserted, NextPos, RowOk, Grows, FitsAt, PrevFits;
      Sizes();
      var x := pending;
      if level == 0 {
        forall h | 0 < h < |x.next| ensures PrevFits(Inserted<Node>(nodes, place, x), Inserted(heights, place, 1), prev[h], prevAt[h], place, h) {
          PrevsAfterFirst(h);
        }
        PublishFirst();
      } else {
        forall h | level < h < |x.next| ensures PrevFits(nodes, heights[place := level + 1], prev[h], prevAt[h], place, h) {
          PrevsAfterHigher(h);
        }
        PublishHigher();
      }
      prepared := false;
      level := level + 1;
      if level == |x.next| {
        pending := null;
      }
    }

    // ----- Searching

    /** The node at a lies before the key, and is linked above level l - 1. */
    ghost predicate Before(x: Node, a: nat, l: nat, key: int)
      requires |nodes| == |heights|
      reads this
    {
      a < |nodes| && nodes[a] == x && heights[a] > l && (a == 0 || x.key < key)
    }

    /** A link at level l of a node linked above l - 1 leads to the next such node. */
    lemma LinkAt(a: nat, l: nat)
      requires Ok() && a < |nodes| && l < heights[a]
      ensures l < |nodes[a].next| && nodes[a].next[l] == At(nodes, NextPos(heights, a + 1, l))
    {
      assert RowOk(nodes, heights, Links()[a], a);
    }

    /** Everything linked at level h after the position has a key at or past the given one. */
    ghost predicate StopsAt(a: nat, h: nat, key: int)
      requires |nodes| == |heights| && a < |nodes|
      reads this
    {
      var r := NextPos(heights, a + 1, h);
      r < |nodes| ==> nodes[r].key >= key
    }

    ghost predicate PrevFound(p: seq<Node>, at: seq<nat>, h: nat, limit: nat, key: int)
      requires |nodes| == |heights| && h < |p| == |at| && limit < |nodes|
      reads this
    {
      at[h] <= limit && nodes[at[h]] == p[h] && heights[at[h]] > h && StopsAt(at[h], h, key)
    }

    lemma AboveTop(h: nat, key: int)
      requires Ok() && maxHeight <= h
      ensures StopsAt(0, h, key)
    {
    }

    /** The writer's search: the predecessors of a key at every level. */
    method FindPrev(key: int) returns (p: seq<Node>, ghost at: seq<nat>, next: Node?)
      requires Ok()
      ensures |p| == |at| == MAX_HEIGHT && at[0] < |nodes|
      ensures forall h | 0 <= h < MAX_HEIGHT :: PrevFits(nodes, heights, p[h], at[h], at[0] + 1, h)
      ensures next == At(nodes, at[0] + 1) && (next != null ==> next.key >= key)
      ensures next == null || next.key != key ==> FitsAt(nodes, key, at[0] + 1)
    {
      hide Ordered, LinksMatch, NextPos, RowOk;
      NodesOrdered();
      p, at := seq(MAX_HEIGHT, _ => head), seq(MAX_HEIGHT, _ => 0);
      var x: Node := head;
      var l := maxHeight - 1;
      ghost var a := 0;
      forall h | l < h < MAX_HEIGHT ensures PrevFound(p, at, h, a, key) {
        AboveTop(h, key);
      }
      while true
        invariant 0 <= l < MAX_HEIGHT && |p| == |at| == MAX_HEIGHT && Before(x, a, l, key)
        invariant forall h | l < h < MAX_HEIGHT :: PrevFound(p, at, h, a, key)
        decreases l, |nodes| - a
      {
        LinkAt(a, l);
        next := x.next[l];
        ghost var p0, at0, a0 := p, at, a;
        if next != null && next.key < key {
          x, a := next, NextPos(heights, a + 1, l);
          forall h | l < h < MAX_HEIGHT ensures PrevFound(p, at, h, a, key) {
            assert PrevFound(p0, at0, h, a0, key);
          }
        } else {
          p, at := p[l := x], at[l := a];
          assert StopsAt(a, l, key);
          forall h | l <= h < MAX_HEIGHT ensures PrevFound(p, at, h, a, key) {
            assert h > l ==> PrevFound(p0, at0, h, a0, key);
          }
          if l == 0 {
            break;
          }
          l := l - 1;
        }
      }
      FoundFits(p, at, key);
    }

    lemma NodesOrdered()
      requires Ok()
      ensures |nodes| == |heights| > 0 && heights[0] == MAX_HEIGHT
    {
    }

    lemma FoundFits(p: seq<Node>, at: seq<nat>, key: int)
      requires Ok() && |p| == |at| == MAX_HEIGHT && at[0] < |nodes| && (at[0] == 0 || nodes[at[0]].key < key)
      requires forall h | 0 <= h < MAX_HEIGHT :: PrevFound(p, at, h, at[0], key)
      ensures forall h | 0 <= h < MAX_HEIGHT :: PrevFits(nodes, heights, p[h], at[h], at[0] + 1, h)
      ensures NextPos(heights, at[0] + 1, 0) == at[0] + 1
      ensures at[0] + 1 == |nodes| || nodes[at[0] + 1].key != key ==> FitsAt(nodes, key, at[0] + 1)
    {
      forall h | 0 <= h < MAX_HEIGHT ensures PrevFits(nodes, heights, p[h], at[h], at[0] + 1, h) {
        assert PrevFound(p, at, h, at[0], key);
      }
      assert PrevFound(p, at, 0, at[0], key);
      NextPosIs(heights, at[0] + 1, 0, at[0] + 1);
    }

    // ----- Inserting

    ghost predicate Absent(key: int)
      reads this`nodes
    {
      forall a | 0 < a < |nodes| :: nodes[a].key != key
    }

    lemma PresentOrFits(key: int, p: nat, next: Node?)
      requires Ok() && 0 < p <= |nodes| && next == At(nodes, p)
      requires next == null || next.key != key ==> FitsAt(nodes, key, p)
      ensures (next == null || next.key != key) <==> Absent(key)
    {
    }

    lemma PlaceInRange(a: nat)
      requires Ok() && a < |nodes|
      ensures 0 < a + 1 <= |nodes|
    {
    }

    /** A new node with the predecessors that the search has found. */
    method Allocate(key: int, height: nat, p: seq<Node>, ghost at: seq<nat>)
      requires Ok() && 1 <= height <= MAX_HEIGHT && |p| == |at| == MAX_HEIGHT && |nodes| == |heights|
      requires forall h | 0 <= h < MAX_HEIGHT :: PrevFits(nodes, heights, p[h], at[h], at[0] + 1, h)
      requires FitsAt(nodes, key, at[0] + 1)
      modifies this`pending, this`prev, this`prevAt, this`place, this`level, this`prepared, this`maxHeight
      ensures PendingOk() && pending != null && fresh(pending) && pending.key == key && |pending.next| == height && level == 0 && !prepared
    {
      hide Ordered, LinksMatch, NextPos, RowOk, At, FitsAt, PrevFits, Links;
      if height > maxHeight {
        maxHeight := height;
      }
      var x := new Node(key, height);
      pending, prev, level, prepared := x, p, 0, false;
      place, prevAt := at[0] + 1, at;
    }

    /** Searches, allocates the node and raises the list's height; nothing is linked yet. */
    method StartInsert(key: int, height: nat) returns (started: bool)
      requires PendingOk() && pending == null && 1 <= height <= MAX_HEIGHT
      modifies this`pending, this`prev, this`prevAt, this`place, this`level, this`prepared, this`maxHeight
      ensures PendingOk() && started == Absent(key)
      ensures started ==> pending != null && fresh(pending) && pending.key == key && |pending.next| == height && level == 0 && !prepared
      ensures !started ==> pending == null
    {
      hide Ok, PendingOk, NextPos, At, Absent, FitsAt, PrevFits;
      PendingIsOk();
      NodesOrdered();
      var p, next;
      ghost var at;
      p, at, next := FindPrev(key);
      PlaceInRange(at[0]);
      PresentOrFits(key, at[0] + 1, next);
      started := next == null || next.key != key;
      if started {
        Allocate(key, height, p, at);
      }
    }

    /** What has come about once `done` levels of x are linked. */
    ghost predicate LinkedUpTo(n: seq<Node>, h: seq<nat>, x: Node, p: nat, done: nat)
      reads this`nodes, this`heights
    {
      && |n| == |h| && 0 < p <= |n|
      && nodes == (if done == 0 then n else Inserted(n, p, x))
      && heights == (if done == 0 then h else Inserted(h, p, done))
    }

    /** Both stores of the next level. */
    method LinkLevel(ghost n: seq<Node>, ghost h: seq<nat>)
      requires PendingOk() && pending != null && !prepared && LinkedUpTo(n, h, pending, place, level)
      modifies this`nodes, this`heights, this`level, this`prepared, this`pending, pending, prev[level]
      ensures PendingOk() && LinkedUpTo(n, h, old(pending), place, old(level) + 1)
      ensures |old(pending).next| == old(|pending.next|)
      ensures pending == if old(level) + 1 == old(|pending.next|) then null else old(pending)
      ensures pending != null ==> level == old(level) + 1 && !prepared
    {
      hide Ok, PendingOk, Grows, Inserted;
      Sizes();
      PendingSizes();
      RaisedAgain(h, place, level);
      PrepareLink();
      PublishLink();
    }

    /** The whole insertion: afterwards the node is linked at each of its levels. */
    method Insert(key: int, height: nat)
      requires PendingOk() && pending == null && 1 <= height <= MAX_HEIGHT && Absent(key)
      modifies this, nodes
      ensures PendingOk() && pending == null
      ensures exists x: Node, p: nat :: IsInserted(old(nodes), old(heights), nodes, heights, x, p, key, height)
    {
      hide Ok, Ordered, LinksMatch, NextPos, RowOk, FitsAt, Grows, Inserted, Links;
      var started := StartInsert(key, height);
      var x: Node := pending;
      Sizes();
      ghost var n, h, p, done := nodes, heights, place, 0;
      while pending != null
        invariant PendingOk() && place == p && done <= height && fresh(x) && |x.next| == height && LinkedUpTo(n, h, x, p, done)
        invariant if pending == null then done == height else pending == x && level == done < height && !prepared
        decreases height - done
      {
        PendingIsOk();
        PrevRow(level);
        LinkLevel(n, h);
        done := done + 1;
      }
      assert IsInserted(n, h, nodes, heights, x, p, key, height);
    }

    // ----- Readers interleaved with the writer

    /** The list, its linked nodes and the node being inserted. */
    ghost function Repr(): set<object>
      reads this
    {
      (set n: Node | n in nodes :: n as object) + {this as object} + (if pending != null then {pending as object} else {})
    }

    /** One store of the writer, or the start of another insertion. */
    method WriterStep()
      requires PendingOk()
      modifies Repr()
      ensures PendingOk() && Grows(old(nodes), old(heights), nodes, heights)
      ensures fresh(Repr() - old(Repr()))
    {
      hide Ok, PendingOk, NextPos, FitsAt, Grows, Inserted;
      PendingSizes();
      GrowsNot(nodes, heights);
      if pending == null {
        var key: int, height: nat := *, *;
        if 1 <= height <= MAX_HEIGHT {
          var started := StartInsert(key, height);
        }
      } else if !prepared {
        PrepareLink();
      } else {
        Sizes();
        PendingPrev();
        InsertedMembers(nodes, place, pending);
        PublishLink();
      }
    }

    lemma PendingPrev()
      requires PendingOk() && pending != null
      ensures level < |pending.next| <= |prev| && prev[level] in nodes
    {
      PrevRow(level);
    }

    lemma PendingSizes()
      requires PendingOk()
      ensures |nodes| == |heights| > 0 && nodes[0] == head
    {
    }

    /** The writer performs any number of its steps, at most `stores`. */
    method OtherThread(stores: nat) returns (rest: nat)
      requires PendingOk()
      modifies Repr()
      ensures PendingOk() && Grows(old(nodes), old(heights), nodes, heights) && rest <= stores
      ensures rest == stores ==> nodes == old(nodes) && heights == old(heights)
      ensures fresh(Repr() - old(Repr()))
    {
      hide Ok, PendingOk, Grows;
      rest := stores;
      PendingSizes();
      GrowsNot(nodes, heights);
      while rest > 0
        invariant PendingOk() && Grows(old(nodes), old(heights), nodes, heights) && rest <= stores
        invariant rest == stores ==> nodes == old(nodes) && heights == old(heights)
        invariant fresh(Repr() - old(Repr()))
      {
        if * {
          break;
        }
        ghost var n, h := nodes, heights;
        WriterStep();
        GrowsTwice(old(nodes), old(heights), n, h, nodes, heights);
        rest := rest - 1;
      }
    }

    /** The reader stands on a node that is linked at level l, before the key. */
    ghost predicate Stands(x: Node, a: nat, l: nat)
      reads this
    {
      |nodes| == |heights| && a < |nodes| && nodes[a] == x && heights[a] > l
    }

    /** Whatever the writer did meanwhile, the node is still linked and its link leads to the next one. */
    method ReadNext(x: Node, ghost a: nat, l: nat, stores: nat) returns (next: Node?, ghost b: nat, rest: nat)
      requires PendingOk() && Stands(x, a, l)
      modifies Repr()
      ensures PendingOk() && fresh(Repr() - old(Repr())) && rest <= stores
      ensures Stands(x, b, l) && (b == 0 <==> a == 0) && next == At(nodes, NextPos(heights, b + 1, l))
      ensures rest == stores ==> nodes == old(nodes) && b == a
      ensures next != null ==> Stands(next, NextPos(heights, b + 1, l), l)
    {
      ghost var n, h := nodes, heights;
      rest := OtherThread(stores);
      assert Remains(n, h, a, nodes, heights);
      b :| Kept(n, h, a, nodes, heights, b);
      LinkAt(b, l);
      next := x.next[l];
    }

    /** Position p separates the smaller keys from the others. */
    ghost predicate Cut(key: int, p: nat)
      reads this, nodes
    {
      && 0 < p <= |nodes|
      && (forall a | 0 < a < p :: nodes[a].key < key)
      && (forall a | p <= a < |nodes| :: nodes[a].key >= key)
    }

    lemma BottomIsCut(x: Node, a: nat, key: int)
      requires Ok() && Stands(x, a, 0) && (a == 0 || x.key < key)
      requires var next := At(nodes, NextPos(heights, a + 1, 0)); next == null || next.key >= key
      ensures NextPos(heights, a + 1, 0) == a + 1 && Cut(key, a + 1)
    {
      NextPosIs(heights, a + 1, 0, a + 1);
    }

    lemma BottomIsEnd(x: Node, a: nat)
      requires Ok() && Stands(x, a, 0) && At(nodes, NextPos(heights, a + 1, 0)) == null
      ensures a + 1 == |nodes|
    {
      NextPosIs(heights, a + 1, 0, a + 1);
    }

    /**
     * A reader's search, with the writer at work before every read and whatever maximum height the
     * reader saw: the first key at or past the target among those linked at the last read.
     */
    method FindGreaterOrEqual(key: int, maxHeightSeen: nat, stores: nat) returns (next: Node?, ghost p: nat)
      requires PendingOk() && 1 <= maxHeightSeen <= MAX_HEIGHT
      modifies Repr()
      ensures PendingOk() && fresh(Repr() - old(Repr()))
      ensures Cut(key, p) && next == At(nodes, p)
    {
      hide Ok, PendingOk, Cut, NextPos;
      var x: Node := head;
      var l, left := maxHeightSeen - 1, stores;
      ghost var a: nat := 0;
      HeadStands(l);
      while true
        invariant PendingOk() && fresh(Repr() - old(Repr())) && 0 <= l < MAX_HEIGHT
        invariant Stands(x, a, l) && (a == 0 || x.key < key)
        decreases left, l, |nodes| - a
      {
        next, a, left := ReadNext(x, a, l, left);
        if next != null && next.key < key {
          x, a := next, NextPos(heights, a + 1, l);
        } else if l == 0 {
          PendingIsOk();
          BottomIsCut(x, a, key);
          p := a + 1;
          return;
        } else {
          l := l - 1;
        }
      }
    }

    /** The last node before the key, among those linked at the last read. */
    method FindLessThan(key: int, maxHeightSeen: nat, stores: nat) returns (x: Node, ghost p: nat)
      requires PendingOk() && 1 <= maxHeightSeen <= MAX_HEIGHT
      modifies Repr()
      ensures PendingOk() && fresh(Repr() - old(Repr()))
      ensures Cut(key, p) && x == nodes[p - 1]
    {
      hide Ok, PendingOk, Cut, NextPos;
      x := head;
      var l, left := maxHeightSeen - 1, stores;
      ghost var a: nat := 0;
      HeadStands(l);
      while true
        invariant PendingOk() && fresh(Repr() - old(Repr())) && 0 <= l < MAX_HEIGHT
        invariant Stands(x, a, l) && (a == 0 || x.key < key)
        decreases left, l, |nodes| - a
      {
        var next;
        next, a, left := ReadNext(x, a, l, left);
        if next == null || next.key >= key {
          if l == 0 {
            PendingIsOk();
            BottomIsCut(x, a, key);
            p := a + 1;
            return;
          } else {
            l := l - 1;
          }
        } else {
          x, a := next, NextPos(heights, a + 1, l);
        }
      }
    }

    /** The last node linked at the last read, the head of an empty list. */
    method FindLast(maxHeightSeen: nat, stores: nat) returns (x: Node)
      requires PendingOk() && 1 <= maxHeightSeen <= MAX_HEIGHT
      modifies Repr()
      ensures PendingOk() && fresh(Repr() - old(Repr()))
      ensures |nodes| > 0 && x == nodes[|nodes| - 1]
    {
      hide Ok, PendingOk, NextPos;
      x := head;
      var l, left := maxHeightSeen - 1, stores;
      ghost var a: nat := 0;
      HeadStands(l);
      while true
        invariant PendingOk() && fresh(Repr() - old(Repr())) && 0 <= l < MAX_HEIGHT && Stands(x, a, l)
        decreases left, l, |nodes| - a
      {
        var next;
        next, a, left := ReadNext(x, a, l, left);
        if next == null {
          if l == 0 {
            PendingIsOk();
            BottomIsEnd(x, a);
            return;
          } else {
            l := l - 1;
          }
        } else {
          x, a := next, NextPos(heights, a + 1, l);
        }
      }
    }

    method Contains(key: int, maxHeightSeen: nat, stores: nat) returns (found: bool)
      requires PendingOk() && 1 <= maxHeightSeen <= MAX_HEIGHT
      modifies Repr()
      ensures PendingOk() && fresh(Repr() - old(Repr()))
      ensures found <==> !Absent(key)
    {
      ghost var p;
      var x;
      x, p := FindGreaterOrEqual(key, maxHeightSeen, stores);
      found := x != null && x.key == key;
    }

    lemma HeadStands(l: nat)
      requires PendingOk() && l < MAX_HEIGHT
      ensures Stands(head, 0, l)
    {
    }

    lemma PendingIsOk()
      requires PendingOk()
      ensures Ok()
    {
    }
  }

  // ----- The levels

  /** The nodes linked at level h from position p on. */
  ghost function LevelFrom(nodes: seq<Node>, heights: seq<nat>, p: nat, h: nat): seq<Node>
    requires |nodes| == |heights| && p <= |nodes|
    decreases |nodes| - p
  {
    if p == |nodes| then [] else (if heights[p] > h then [nodes[p]] else []) + LevelFrom(nodes, heights, p + 1, h)
  }

  ghost predicate InLevel(nodes: seq<Node>, heights: seq<nat>, p: nat, h: nat, n: Node)
    requires |nodes| == |heights|
  {
    exists a :: p <= a < |nodes| && nodes[a] == n && heights[a] > h
  }

  lemma {:induction false} LevelStep(nodes: seq<Node>, heights: seq<nat>, p: nat, h: nat)
    requires |nodes| == |heights| && p <= |nodes|
    ensures p == |nodes| ==> LevelFrom(nodes, heights, p, h) == []
    ensures p < |nodes| ==>
      LevelFrom(nodes, heights, p, h) == (if heights[p] > h then [nodes[p]] else []) + LevelFrom(nodes, heights, p + 1, h)
  {
  }

  lemma {:induction false} LevelMembers(nodes: seq<Node>, heights: seq<nat>, p: nat, h: nat, n: Node)
    requires |nodes| == |heights| && p <= |nodes|
    ensures n in LevelFrom(nodes, heights, p, h) <==> InLevel(nodes, heights, p, h, n)
    decreases |nodes| - p
  {
    hide LevelFrom;
    LevelStep(nodes, heights, p, h);
    if p < |nodes| {
      LevelMembers(nodes, heights, p + 1, h, n);
      assert InLevel(nodes, heights, p, h, n) <==> (nodes[p] == n && heights[p] > h) || InLevel(nodes, heights, p + 1, h, n);
    }
  }

  /** Each level is sorted, starts where the links at that level lead, and lies within the level below. */
  lemma {:induction false} LevelsNest(nodes: seq<Node>, heights: seq<nat>, p: nat, h: nat)
    requires Ordered(nodes, heights) && 0 < p <= |nodes|
    ensures var level := LevelFrom(nodes, heights, p, h);
      && (forall i, j | 0 <= i < j < |level| :: level[i].key < level[j].key)
      && (forall n :: n in LevelFrom(nodes, heights, p, h + 1) ==> n in level)
      && (if level == [] then null else level[0]) == At(nodes, NextPos(heights, p, h))
    decreases |nodes| - p
  {
    hide LevelFrom;
    LevelStep(nodes, heights, p, h);
    LevelStep(nodes, heights, p, h + 1);
    if p < |nodes| {
      LevelsNest(nodes, heights, p + 1, h);
      var rest := LevelFrom(nodes, heights, p + 1, h);
      forall j | 0 <= j < |rest| ensures nodes[p].key < rest[j].key {
        LevelMembers(nodes, heights, p + 1, h, rest[j]);
      }
    }
  }

  lemma {:induction false} RaisedAgain(h: seq<nat>, p: nat, done: nat)
    requires p <= |h|
    ensures Inserted(h, p, done)[p := done + 1] == Inserted(h, p, done + 1)
  {
  }

  /** A node with the key, linked at `height` levels, has come into the order and nothing else has changed. */
  ghost predicate IsInserted(n: seq<Node>, h: seq<nat>, n': seq<Node>, h': seq<nat>, x: Node, p: nat, key: int, height: nat) {
    p <= |n| && p <= |h| && x.key == key && n' == Inserted(n, p, x) && h' == Inserted(h, p, height)
  }
}
