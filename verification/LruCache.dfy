/** One shard of the block cache: a hash table and two circular lists over reference-counted handles. */
module LruCache {
  import opened Options
  import opened HandleTable

  // The dummy heads of the two lists; handles are numbered from 2.
  const LRU: Id := 0
  const IN_USE: Id := 1

  type Ring = map<Id, Id>

  // ----- Circular lists

  ghost predicate RingLink(next: Ring, prev: Ring, ring: seq<Id>, i: nat)
    requires i < |ring|
  {
    var j := if i + 1 == |ring| then 0 else i + 1;
    ring[i] in next && next[ring[i]] == ring[j] && ring[j] in prev && prev[ring[j]] == ring[i]
  }

  /** Forwards and backwards the links lead around the ring. */
  ghost predicate RingOk(next: Ring, prev: Ring, ring: seq<Id>) {
    ring != [] && Distinct(ring) && forall i: nat | i < |ring| :: RingLink(next, prev, ring, i)
  }

  lemma {:induction false} RingFrame(next: Ring, prev: Ring, next': Ring, prev': Ring, ring: seq<Id>)
    requires RingOk(next, prev, ring)
    requires forall x | x in ring && x in next && x in prev :: x in next' && next'[x] == next[x] && x in prev' && prev'[x] == prev[x]
    ensures RingOk(next', prev', ring)
  {
    forall i: nat | i < |ring| ensures RingLink(next', prev', ring, i) {
      RingHas(next, prev, ring, i);
      RingHas(next, prev, ring, if i + 1 == |ring| then 0 else i + 1);
    }
  }

  lemma {:induction false} RingHas(next: Ring, prev: Ring, ring: seq<Id>, i: nat)
    requires RingOk(next, prev, ring) && i < |ring|
    ensures ring[i] in ring && ring[i] in next && ring[i] in prev
    ensures next[ring[i]] == ring[if i + 1 == |ring| then 0 else i + 1]
    ensures prev[ring[i]] == ring[if i == 0 then |ring| - 1 else i - 1]
  {
    assert RingLink(next, prev, ring, i) && RingLink(next, prev, ring, if i == 0 then |ring| - 1 else i - 1);
  }

  function Dropped(ring: seq<Id>, i: nat): (r: seq<Id>)
    requires i < |ring|
    ensures |r| == |ring| - 1
    ensures forall p | 0 <= p < i :: r[p] == ring[p]
    ensures forall p | i <= p < |r| :: r[p] == ring[p + 1]
  {
    ring[..i] + ring[i + 1..]
  }

  /** The two stores of LRU_Remove take an element out of its ring. */
  lemma {:induction false} RingRemove(next: Ring, prev: Ring, ring: seq<Id>, i: nat)
    requires RingOk(next, prev, ring) && 0 < i < |ring|
    ensures ring[i] in next && ring[i] in prev
    ensures RingOk(next[prev[ring[i]] := next[ring[i]]], prev[next[ring[i]] := prev[ring[i]]], Dropped(ring, i))
  {
    hide Dropped;
    RingHas(next, prev, ring, i);
    var e := ring[i];
    var next', prev', ring' := next[prev[e] := next[e]], prev[next[e] := prev[e]], Dropped(ring, i);
    forall p: nat | p < |ring'| ensures RingLink(next', prev', ring', p) {
      RingHas(next, prev, ring, if p < i then p else p + 1);
      RingHas(next, prev, ring, if p + 1 < i then p + 1 else if p + 1 < |ring'| then p + 2 else 0);
    }
  }

  /** The four stores of LRU_Append put an element in front of the head, that is, at the end. */
  lemma {:induction false} RingAppend(next: Ring, prev: Ring, ring: seq<Id>, e: Id)
    requires RingOk(next, prev, ring) && e !in ring
    ensures ring[0] in prev
    ensures RingOk(next[e := ring[0]][prev[ring[0]] := e], prev[e := prev[ring[0]]][ring[0] := e], ring + [e])
  {
    RingHas(next, prev, ring, 0);
    RingHas(next, prev, ring, |ring| - 1);
    var last, ring' := ring[|ring| - 1], ring + [e];
    var next', prev' := next[e := ring[0]][last := e], prev[e := last][ring[0] := e];
    forall p: nat | p < |ring'| ensures RingLink(next', prev', ring', p) {
      if p + 1 < |ring| {
        RingHas(next, prev, ring, p);
        RingHas(next, prev, ring, p + 1);
      }
    }
  }

  // ----- The lists' contents

  function Without(list: seq<Id>, e: Id): seq<Id> {
    if list == [] then [] else if list[0] == e then list[1..] else [list[0]] + Without(list[1..], e)
  }

  lemma {:induction false} WithoutAt(list: seq<Id>, i: nat)
    requires Distinct(list) && i < |list|
    ensures Without(list, list[i]) == list[..i] + list[i + 1..]
  {
    if i > 0 {
      assert list[0] != list[i];
      WithoutAt(list[1..], i - 1);
      assert list[..i] == [list[0]] + list[1..][..i - 1] && list[i + 1..] == list[1..][i..];
    }
  }

  lemma {:induction false} WithoutAbsent(list: seq<Id>, e: Id)
    requires e !in list
    ensures Without(list, e) == list
  {
    if list != [] {
      assert list == [list[0]] + list[1..];
      WithoutAbsent(list[1..], e);
    }
  }

  lemma {:induction false} WithoutHas(list: seq<Id>, e: Id, x: Id)
    ensures x in Without(list, e) ==> x in list
    ensures x in list && x != e ==> x in Without(list, e)
  {
    if list != [] {
      assert x in list <==> x == list[0] || x in list[1..];
      WithoutHas(list[1..], e, x);
    }
  }

  lemma {:induction false} DistinctCons(head: Id, tail: seq<Id>)
    ensures Distinct([head] + tail) <==> head !in tail && Distinct(tail)
  {
    var list := [head] + tail;
    assert forall p | 0 <= p < |tail| :: list[p + 1] == tail[p];
    if Distinct(list) {
      forall p | 0 <= p < |tail| ensures tail[p] != head {
        assert list[p + 1] != list[0];
      }
      forall p, q | 0 <= p < q < |tail| ensures tail[p] != tail[q] {
        assert list[p + 1] != list[q + 1];
      }
    }
  }

  lemma {:induction false} WithoutDistinct(list: seq<Id>, e: Id)
    requires Distinct(list)
    ensures Distinct(Without(list, e)) && e !in Without(list, e)
  {
    if list != [] {
      hide Distinct;
      var head, tail := list[0], list[1..];
      assert list == [head] + tail;
      DistinctCons(head, tail);
      WithoutDistinct(tail, e);
      WithoutHas(tail, e, head);
      DistinctCons(head, Without(tail, e));
    }
  }

  lemma {:induction false} WithoutMembers(list: seq<Id>, e: Id)
    requires Distinct(list)
    ensures Distinct(Without(list, e)) && forall x :: x in Without(list, e) <==> x in list && x != e
  {
    WithoutDistinct(list, e);
    forall x ensures x in Without(list, e) <==> x in list && x != e {
      WithoutHas(list, e, x);
    }
  }

  lemma {:induction false} WithoutAppend(list: seq<Id>, last: Id, e: Id)
    requires e != last
    ensures Without(list + [last], e) == Without(list, e) + [last]
  {
    if list != [] {
      assert (list + [last])[1..] == list[1..] + [last];
      WithoutAppend(list[1..], last, e);
    }
  }

  ghost function KeysOf(keyOf: map<Id, int>, list: seq<Id>): set<int> {
    set x | x in list && x in keyOf :: keyOf[x]
  }

  lemma {:induction false} KeysOfOneMore(keyOf: map<Id, int>, list: seq<Id>, e: Id)
    requires e in keyOf
    ensures KeysOf(keyOf, list + [e]) == KeysOf(keyOf, list) + {keyOf[e]}
  {
    forall x ensures x in list + [e] <==> x in list || x == e {
    }
  }

  function Sum(charge: map<Id, nat>, list: seq<Id>): nat {
    if list == [] then 0 else (if list[0] in charge then charge[list[0]] else 0) + Sum(charge, list[1..])
  }

  lemma {:induction false} SumWithout(charge: map<Id, nat>, list: seq<Id>, e: Id)
    ensures Sum(charge, Without(list, e)) + (if e in list && e in charge then charge[e] else 0) == Sum(charge, list)
  {
    if list != [] {
      assert e in list <==> e == list[0] || e in list[1..];
      if list[0] != e {
        SumWithout(charge, list[1..], e);
        assert ([list[0]] + Without(list[1..], e))[1..] == Without(list[1..], e);
      }
    }
  }

  lemma {:induction false} SumAppend(charge: map<Id, nat>, list: seq<Id>, e: Id)
    ensures Sum(charge, list + [e]) == Sum(charge, list) + (if e in charge then charge[e] else 0)
  {
    if list != [] {
      assert (list + [e])[1..] == list[1..] + [e];
      SumAppend(charge, list[1..], e);
    }
  }

  lemma {:induction false} SumOfNewHandle(charge: map<Id, nat>, list: seq<Id>, e: Id, c: nat)
    requires e !in list
    ensures Sum(charge[e := c], list) == Sum(charge, list)
  {
    if list != [] {
      assert list[0] in list && forall x | x in list[1..] :: x in list;
      SumOfNewHandle(charge, list[1..], e, c);
    }
  }

  // ----- What the fields say about handles

  /** Whether clients hold the handle. */
  ghost predicate Held(held: map<Id, nat>, e: Id) {
    e in held && held[e] > 0
  }

  ghost predicate HandleFits(x: Id, charge: map<Id, nat>, refs: map<Id, nat>, inCache: map<Id, bool>, nextId: Id,
                             lru: seq<Id>, inUse: seq<Id>, held: map<Id, nat>) {
    && 2 <= x < nextId && x in refs && x in charge && x in inCache && x in held
    && (inCache[x] <==> x in lru || x in inUse)
    && refs[x] == held[x] + (if inCache[x] then 1 else 0) && refs[x] >= 1
    && (x in lru ==> refs[x] == 1) && (x in inUse ==> refs[x] >= 2)
  }

  ghost predicate HandlesFit(charge: map<Id, nat>, refs: map<Id, nat>, inCache: map<Id, bool>, nextId: Id,
                             lru: seq<Id>, inUse: seq<Id>, held: map<Id, nat>) {
    && (forall x | x in refs :: HandleFits(x, charge, refs, inCache, nextId, lru, inUse, held))
    && (forall x | x in lru || x in inUse :: x in refs)
  }

  ghost function OneLess(refs: map<Id, nat>, e: Id): map<Id, nat>
    requires e in refs && refs[e] >= 1
  {
    if refs[e] == 1 then refs - {e} else refs[e := refs[e] - 1]
  }

  lemma {:induction false} FitAfterRef(e: Id, charge: map<Id, nat>, refs: map<Id, nat>, inCache: map<Id, bool>, nextId: Id,
                                       lru: seq<Id>, inUse: seq<Id>, held: map<Id, nat>, lru': seq<Id>, inUse': seq<Id>)
    requires HandlesFit(charge, refs, inCache, nextId, lru, inUse, held) && e in refs && e in held
    requires forall x :: x in lru' <==> x in lru && x != e
    requires forall x :: x in inUse' <==> x in inUse || (x == e && x in lru)
    ensures HandlesFit(charge, refs[e := refs[e] + 1], inCache, nextId, lru', inUse', held[e := held[e] + 1])
  {
    forall x | x in refs ensures HandleFits(x, charge, refs[e := refs[e] + 1], inCache, nextId, lru', inUse', held[e := held[e] + 1]) {
      assert HandleFits(x, charge, refs, inCache, nextId, lru, inUse, held);
    }
  }

  lemma {:induction false} FitAfterErase(e: Id, charge: map<Id, nat>, refs: map<Id, nat>, inCache: map<Id, bool>, nextId: Id,
                                         lru: seq<Id>, inUse: seq<Id>, held: map<Id, nat>, lru': seq<Id>, inUse': seq<Id>)
    requires HandlesFit(charge, refs, inCache, nextId, lru, inUse, held) && e in refs && refs[e] >= 1 && (e in lru || e in inUse)
    requires forall x :: x in lru' <==> x in lru && x != e
    requires forall x :: x in inUse' <==> x in inUse && x != e
    ensures HandlesFit(charge, OneLess(refs, e), inCache[e := false], nextId, lru', inUse', held)
    ensures e in OneLess(refs, e) <==> Held(held, e)
    ensures refs[e] == 1 <==> !Held(held, e)
  {
    assert HandleFits(e, charge, refs, inCache, nextId, lru, inUse, held);
    forall x | x in OneLess(refs, e) ensures HandleFits(x, charge, OneLess(refs, e), inCache[e := false], nextId, lru', inUse', held) {
      assert HandleFits(x, charge, refs, inCache, nextId, lru, inUse, held);
    }
  }

  lemma {:induction false} FitAfterRelease(e: Id, charge: map<Id, nat>, refs: map<Id, nat>, inCache: map<Id, bool>, nextId: Id,
                                           lru: seq<Id>, inUse: seq<Id>, held: map<Id, nat>, lru': seq<Id>, inUse': seq<Id>)
    requires HandlesFit(charge, refs, inCache, nextId, lru, inUse, held) && e in refs && refs[e] >= 1 && Held(held, e) && e in inCache
    requires var rests := inCache[e] && refs[e] == 2;
      && (forall x :: x in lru' <==> x in lru || (rests && x == e))
      && (forall x :: x in inUse' <==> x in inUse && !(rests && x == e))
    ensures HandlesFit(charge, OneLess(refs, e), inCache, nextId, lru', inUse', held[e := held[e] - 1])
  {
    assert HandleFits(e, charge, refs, inCache, nextId, lru, inUse, held);
    forall x | x in OneLess(refs, e) ensures HandleFits(x, charge, OneLess(refs, e), inCache, nextId, lru', inUse', held[e := held[e] - 1]) {
      assert HandleFits(x, charge, refs, inCache, nextId, lru, inUse, held);
    }
  }

  lemma {:induction false} FitAfterNew(e: Id, c: nat, charge: map<Id, nat>, refs: map<Id, nat>, inCache: map<Id, bool>,
                                       lru: seq<Id>, inUse: seq<Id>, held: map<Id, nat>)
    requires HandlesFit(charge, refs, inCache, e, lru, inUse, held) && e >= 2
    ensures e !in refs && e !in lru && e !in inUse
    ensures HandlesFit(charge[e := c], refs[e := 1], inCache[e := false], e + 1, lru, inUse, held[e := 1])
  {
    assert e in refs ==> HandleFits(e, charge, refs, inCache, e, lru, inUse, held);
    var refs' := refs[e := 1];
    forall x | x in refs' ensures HandleFits(x, charge[e := c], refs', inCache[e := false], e + 1, lru, inUse, held[e := 1]) {
      assert x != e ==> HandleFits(x, charge, refs, inCache, e, lru, inUse, held);
    }
  }

  lemma {:induction false} FitAfterEnlist(e: Id, charge: map<Id, nat>, refs: map<Id, nat>, inCache: map<Id, bool>, nextId: Id,
                                          lru: seq<Id>, inUse: seq<Id>, held: map<Id, nat>, inUse': seq<Id>)
    requires HandlesFit(charge, refs, inCache, nextId, lru, inUse, held) && e in refs && refs[e] == 1 && e in inCache && !inCache[e]
    requires forall x :: x in inUse' <==> x in inUse || x == e
    ensures HandlesFit(charge, refs[e := 2], inCache[e := true], nextId, lru, inUse', held)
  {
    forall x | x in refs ensures HandleFits(x, charge, refs[e := 2], inCache[e := true], nextId, lru, inUse', held) {
      assert HandleFits(x, charge, refs, inCache, nextId, lru, inUse, held);
      assert HandleFits(e, charge, refs, inCache, nextId, lru, inUse, held);
    }
  }

  // ----- The cache

  class Cache {
    const capacity: nat
    const table: Table
    var usage: nat
    var next: Ring
    var prev: Ring
    var charge: map<Id, nat>
    var refs: map<Id, nat>         // the handles that are alive
    var inCache: map<Id, bool>
    var nextId: Id
    var deleted: seq<Id>           // the deleter's calls
    ghost var lru: seq<Id>
    ghost var inUse: seq<Id>
    ghost var held: map<Id, nat>   // the references that clients hold

    constructor (capacity: nat, hash: int -> nat)
      ensures Ok() && lru == [] && inUse == [] && refs == map[] && usage == 0 && this.capacity == capacity && fresh(table)
    {
      this.capacity, usage := capacity, 0;
      table := new Table(hash);
      next, prev := map[LRU := LRU, IN_USE := IN_USE], map[LRU := LRU, IN_USE := IN_USE];
      charge, refs, inCache, nextId, deleted := map[], map[], map[], 2, [];
      lru, inUse, held := [], [], map[];
    }

    ghost predicate ListsOk()
      reads this`next, this`prev, this`lru, this`inUse
    {
      && RingOk(next, prev, [LRU] + lru) && RingOk(next, prev, [IN_USE] + inUse)
      && (forall x | x in lru || x in inUse :: x >= 2) && (forall x | x in lru :: x !in inUse)
      && Distinct(lru) && Distinct(inUse)
    }

    /** Takes a handle out of the list it is on. */
    method LruRemove(e: Id)
      requires ListsOk() && (e in lru || e in inUse)
      modifies this`next, this`prev, this`lru, this`inUse
      ensures ListsOk() && lru == Without(old(lru), e) && inUse == Without(old(inUse), e)
    {
      RemoveKeepsLists(e);
      var after, before := next[e], prev[e];
      prev := prev[after := before];
      next := next[before := after];
      lru, inUse := Without(lru, e), Without(inUse, e);
    }

    lemma RemoveKeepsLists(e: Id)
      requires ListsOk() && (e in lru || e in inUse)
      ensures e in next && e in prev
      ensures var next', prev', lru', inUse' := next[prev[e] := next[e]], prev[next[e] := prev[e]], Without(lru, e), Without(inUse, e);
        && RingOk(next', prev', [LRU] + lru') && RingOk(next', prev', [IN_USE] + inUse')
        && (forall x | x in lru' || x in inUse' :: x >= 2) && (forall x | x in lru' :: x !in inUse')
        && Distinct(lru') && Distinct(inUse')
    {
      hide RingOk, Without, Distinct;
      WithoutMembers(lru, e);
      WithoutMembers(inUse, e);
      if e in lru {
        WithoutAbsent(inUse, e);
        RemoveFrom(LRU, lru, IN_USE, inUse, e);
      } else {
        WithoutAbsent(lru, e);
        RemoveFrom(IN_USE, inUse, LRU, lru, e);
      }
    }

    lemma RemoveFrom(head: Id, list: seq<Id>, otherHead: Id, other: seq<Id>, e: Id)
      requires RingOk(next, prev, [head] + list) && RingOk(next, prev, [otherHead] + other) && e in list && Distinct(list)
      requires head != otherHead && head < 2 && otherHead < 2 && (forall x | x in list || x in other :: x >= 2) && (forall x | x in list :: x !in other)
      ensures e in next && e in prev
      ensures var next', prev' := next[prev[e] := next[e]], prev[next[e] := prev[e]];
        RingOk(next', prev', [head] + Without(list, e)) && RingOk(next', prev', [otherHead] + other)
    {
      hide Without, RingOk;
      var i :| 0 <= i < |list| && list[i] == e;
      var ring := [head] + list;
      RingRemove(next, prev, ring, i + 1);
      WithoutAt(list, i);
      assert Dropped(ring, i + 1) == [head] + (list[..i] + list[i + 1..]);
      RingHas(next, prev, ring, i + 1);
      assert next[e] in ring && prev[e] in ring;
      RingFrame(next, prev, next[prev[e] := next[e]], prev[next[e] := prev[e]], [otherHead] + other);
    }

    /** Makes a handle the newest of a list. */
    method LruAppend(list: Id, e: Id)
      requires ListsOk() && list <= IN_USE && e >= 2 && e !in lru && e !in inUse
      modifies this`next, this`prev, this`lru, this`inUse
      ensures ListsOk()
      ensures lru == if list == LRU then old(lru) + [e] else old(lru)
      ensures inUse == if list == LRU then old(inUse) else old(inUse) + [e]
    {
      AppendKeepsLists(list, e);
      var last := prev[list];
      next, prev := next[e := list], prev[e := last];
      next := next[last := e];
      prev := prev[list := e];
      if list == LRU {
        lru := lru + [e];
      } else {
        inUse := inUse + [e];
      }
    }

    lemma AppendKeepsLists(list: Id, e: Id)
      requires ListsOk() && list <= IN_USE && e >= 2 && e !in lru && e !in inUse
      ensures list in prev
      ensures var next', prev' := next[e := list][prev[list] := e], prev[e := prev[list]][list := e];
        && RingOk(next', prev', [LRU] + (if list == LRU then lru + [e] else lru))
        && RingOk(next', prev', [IN_USE] + (if list == LRU then inUse else inUse + [e]))
      ensures Distinct(lru + [e]) && Distinct(inUse + [e])
    {
      hide RingOk;
      if list == LRU {
        AppendTo(LRU, lru, IN_USE, inUse, e);
      } else {
        AppendTo(IN_USE, inUse, LRU, lru, e);
      }
    }

    lemma AppendTo(head: Id, list: seq<Id>, otherHead: Id, other: seq<Id>, e: Id)
      requires RingOk(next, prev, [head] + list) && RingOk(next, prev, [otherHead] + other) && e !in list && e !in other && e >= 2
      requires head != otherHead && head < 2 && otherHead < 2 && (forall x | x in list || x in other :: x >= 2) && (forall x | x in list :: x !in other)
      ensures head in prev
      ensures var next', prev' := next[e := head][prev[head] := e], prev[e := prev[head]][head := e];
        RingOk(next', prev', [head] + (list + [e])) && RingOk(next', prev', [otherHead] + other)
    {
      hide RingOk;
      var ring := [head] + list;
      RingAppend(next, prev, ring, e);
      RingHas(next, prev, ring, 0);
      assert ring + [e] == [head] + (list + [e]);
      assert prev[head] in ring;
      RingFrame(next, prev, next[e := head][prev[head] := e], prev[e := prev[head]][head := e], [otherHead] + other);
    }

    // ----- Reference counts

    /** What the fields say about one handle. */
    ghost predicate HandleOk(x: Id)
      reads this`charge, this`refs, this`inCache, this`nextId, this`lru, this`inUse, this`held
    {
      HandleFits(x, charge, refs, inCache, nextId, lru, inUse, held)
    }

    ghost predicate HandlesOk()
      reads this`charge, this`refs, this`inCache, this`nextId, this`lru, this`inUse, this`held
    {
      HandlesFit(charge, refs, inCache, nextId, lru, inUse, held)
    }

    /** Each handle that ever was is either alive or has been deleted, once. */
    ghost predicate DeletedOk()
      reads this`refs, this`nextId, this`deleted
    {
      Distinct(deleted) && nextId >= 2 && forall x: Id :: x in deleted <==> 2 <= x < nextId && x !in refs
    }

    ghost predicate UsageOk()
      reads this`usage, this`charge, this`lru, this`inUse
    {
      usage == Sum(charge, lru) + Sum(charge, inUse)
    }

    /** Everything but the hash table. */
    ghost predicate CoreOk()
      reads this
    {
      ListsOk() && HandlesOk() && DeletedOk() && UsageOk()
    }

    /** A handle on the LRU list is in use again. */
    method Reuse(e: Id)
      requires ListsOk() && UsageOk() && e in lru && e in charge
      modifies this`next, this`prev, this`lru, this`inUse
      ensures ListsOk() && UsageOk() && lru == Without(old(lru), e) && inUse == old(inUse) + [e]
    {
      hide ListsOk, Without, Sum;
      WithoutAbsentOr(e);
      LruRemove(e);
      LruAppend(IN_USE, e);
    }

    method Ref(e: Id)
      requires CoreOk() && e in refs && e in held
      modifies this`next, this`prev, this`lru, this`inUse, this`refs, this`held
      ensures CoreOk() && refs == old(refs)[e := old(refs)[e] + 1] && held == old(held)[e := old(held)[e] + 1]
      ensures lru == Without(old(lru), e)
      ensures inUse == if e in old(lru) then old(inUse) + [e] else old(inUse)
    {
      hide ListsOk, UsageOk, Without, Distinct, Sum, HandlesFit;
      ghost var u := if e in lru then inUse + [e] else inUse;
      WithoutAbsentOr(e);
      KnownHandle(e);
      FitAfterRef(e, charge, refs, inCache, nextId, lru, inUse, held, Without(lru, e), u);
      if refs[e] == 1 && inCache[e] {
        Reuse(e);
      }
      refs := refs[e := refs[e] + 1];
      held := held[e := held[e] + 1];
    }

    lemma KnownHandle(e: Id)
      requires HandlesOk()
      ensures e in refs ==> HandleOk(e)
      ensures e in lru || e in inUse ==> e in refs
    {
    }

    lemma WithoutAbsentOr(e: Id)
      requires ListsOk()
      ensures e !in lru ==> Without(lru, e) == lru
      ensures e !in inUse ==> Without(inUse, e) == inUse
      ensures (e in lru || e in inUse ==> e >= 2) && !(e in lru && e in inUse)
      ensures forall x :: x in Without(lru, e) <==> x in lru && x != e
      ensures forall x :: x in Without(inUse, e) <==> x in inUse && x != e
      ensures Sum(charge, Without(lru, e)) + (if e in lru && e in charge then charge[e] else 0) == Sum(charge, lru)
      ensures Sum(charge, Without(inUse, e)) + (if e in inUse && e in charge then charge[e] else 0) == Sum(charge, inUse)
      ensures Sum(charge, inUse + [e]) == Sum(charge, inUse) + (if e in charge then charge[e] else 0)
      ensures Sum(charge, lru + [e]) == Sum(charge, lru) + (if e in charge then charge[e] else 0)
    {
      hide RingOk, Without, Sum;
      WithoutMembers(lru, e);
      WithoutMembers(inUse, e);
      SumWithout(charge, lru, e);
      SumWithout(charge, inUse, e);
      SumAppend(charge, lru, e);
      SumAppend(charge, inUse, e);
      if e !in lru {
        WithoutAbsent(lru, e);
      }
      if e !in inUse {
        WithoutAbsent(inUse, e);
      }
    }

    /** Drops one reference: the last one deletes the handle, the last client's one moves it to the LRU list. */
    method Unref(e: Id)
      requires ListsOk() && DeletedOk() && e in refs && refs[e] >= 1 && e in inCache && 2 <= e < nextId
      requires inCache[e] ==> refs[e] >= 2 && (e in lru || e in inUse)
      modifies this`next, this`prev, this`lru, this`inUse, this`refs, this`deleted
      ensures ListsOk() && DeletedOk()
      ensures refs == OneLess(old(refs), e)
      ensures deleted == if old(refs)[e] == 1 then old(deleted) + [e] else old(deleted)
      ensures lru == if inCache[e] && old(refs)[e] == 2 then Without(old(lru), e) + [e] else old(lru)
      ensures inUse == if inCache[e] && old(refs)[e] == 2 then Without(old(inUse), e) else old(inUse)
    {
      hide RingOk, Without, Sum, Distinct;
      DeletedOnce(e);
      WithoutAbsentOr(e);
      refs := refs[e := refs[e] - 1];
      if refs[e] == 0 {
        deleted := deleted + [e];
        refs := refs - {e};
      } else if inCache[e] && refs[e] == 1 {
        LruRemove(e);
        LruAppend(LRU, e);
      }
    }

    lemma DeletedOnce(e: Id)
      requires DeletedOk() && e in refs
      ensures Distinct(deleted + [e])
    {
    }

    /** Removes a handle that the table no longer holds from the cache altogether. */
    method FinishErase(found: Option<Id>) returns (erased: bool)
      requires CoreOk() && (found.Some? ==> found.value in lru || found.value in inUse)
      modifies this`next, this`prev, this`lru, this`inUse, this`refs, this`deleted, this`inCache, this`usage
      ensures CoreOk() && erased == found.Some?
      ensures found.None? ==> lru == old(lru) && inUse == old(inUse) && refs == old(refs) && deleted == old(deleted) && usage == old(usage)
      ensures found.Some? ==> lru == Without(old(lru), found.value) && inUse == Without(old(inUse), found.value)
      ensures found.Some? ==> found.value in charge && old(usage) == usage + charge[found.value]
      ensures found.Some? ==> (found.value in refs <==> Held(held, found.value))
      ensures deleted == old(deleted) + (if found.Some? && !Held(held, found.value) then [found.value] else [])
    {
      hide ListsOk, Without, Sum, DeletedOk, HandlesFit, Held, OneLess;
      if found.Some? {
        var e := found.value;
        KnownHandle(e);
        WithoutAbsentOr(e);
        FitAfterErase(e, charge, refs, inCache, nextId, lru, inUse, held, Without(lru, e), Without(inUse, e));
        LruRemove(e);
        inCache := inCache[e := false];
        usage := usage - charge[e];
        Unref(e);
      }
      erased := found.Some?;
    }

    /** The table holds the handles on the lists, and knows their keys. */
    ghost predicate TableOk()
      reads this`lru, this`inUse, table
    {
      && table.Ok() && table.elems <= table.length
      && Members(table.chains) == SetOf(lru) + SetOf(inUse)
      && forall x | x in lru || x in inUse :: x in table.keyOf
    }

    ghost predicate Ok()
      reads this, table
    {
      CoreOk() && TableOk()
    }

    /** The map from keys to handles that the cache stands for. */
    ghost function Cached(): map<int, Id>
      reads table
    {
      table.View()
    }

    /** A lookup makes the handle a client's. */
    method Lookup(key: int) returns (r: Option<Id>)
      requires Ok()
      modifies this`next, this`prev, this`lru, this`inUse, this`refs, this`held
      ensures Ok() && r == Find(Cached(), key)
      ensures r.None? ==> lru == old(lru) && inUse == old(inUse) && refs == old(refs) && held == old(held)
      ensures r.Some? ==> r.value in old(held) && held == old(held)[r.value := old(held)[r.value] + 1] && r.value in inUse
      ensures r.Some? ==> lru == Without(old(lru), r.value)
    {
      hide ListsOk, Without, Sum, DeletedOk, BucketsOk, HandlesFit, UsageOk, MapOf, Members;
      r := table.Lookup(key);
      FoundIsCached(key);
      if r.Some? {
        WithoutAbsentOr(r.value);
        Ref(r.value);
      }
    }

    lemma FoundIsCached(key: int)
      requires Ok()
      ensures var r := Find(Cached(), key);
        r.Some? ==> (r.value in lru || r.value in inUse) && r.value in refs && r.value in held && r.value in charge
    {
      hide ListsOk, Sum, BucketsOk, MapOf;
      table.ViewApart();
      MapOfHas(Members(table.chains), table.keyOf);
      var r := Find(Cached(), key);
      if r.Some? {
        assert r.value in SetOf(lru) + SetOf(inUse);
        assert HandleOk(r.value);
      }
    }

    /** Moving a handle from one list to the other does not concern the table. */
    lemma TableSurvives(lru': seq<Id>, inUse': seq<Id>)
      requires forall x :: x in lru || x in inUse <==> x in lru' || x in inUse'
      ensures SetOf(lru) + SetOf(inUse) == SetOf(lru') + SetOf(inUse')
    {
    }

    /** A client gives back one reference. */
    method Release(e: Id)
      requires Ok() && e in refs && e in held && held[e] > 0
      modifies this`next, this`prev, this`lru, this`inUse, this`refs, this`held, this`deleted
      ensures Ok() && held == old(held)[e := old(held)[e] - 1]
      ensures var last, cached := !Held(held, e), e in inCache && inCache[e];
        && deleted == (if last && !cached then old(deleted) + [e] else old(deleted))
        && lru == (if last && cached then old(lru) + [e] else old(lru))
        && inUse == (if last && cached then Without(old(inUse), e) else old(inUse))
    {
      hide ListsOk, Without, Sum, DeletedOk, BucketsOk, HandlesFit, OneLess;
      KnownHandle(e);
      WithoutAbsentOr(e);
      ghost var rests := inCache[e] && refs[e] == 2;
      ghost var l, u := if rests then lru + [e] else lru, if rests then Without(inUse, e) else inUse;
      FitAfterRelease(e, charge, refs, inCache, nextId, lru, inUse, held, l, u);
      TableSurvives(l, u);
      held := held[e := held[e] - 1];
      Unref(e);
    }

    /** A cached handle is what its key maps to. */
    lemma OnlyOne(e: Id)
      requires Ok() && (e in lru || e in inUse)
      ensures e in table.keyOf && Find(Cached(), table.keyOf[e]) == Some(e)
    {
      hide BucketsOk, ListsOk, MapOf;
      assert e in SetOf(lru) + SetOf(inUse);
      table.ViewApart();
      MapOfHas(Members(table.chains), table.keyOf);
    }

    /** Takes the key out of the cache; clients keep the handle as long as they hold it. */
    method Erase(key: int) returns (found: Option<Id>)
      requires Ok()
      modifies this`next, this`prev, this`lru, this`inUse, this`refs, this`deleted, this`inCache, this`usage, table
      ensures Ok() && found == Find(old(Cached()), key) && Cached() == old(Cached()) - {key}
      ensures table.keyOf == old(table.keyOf)
      ensures found.None? ==> lru == old(lru) && inUse == old(inUse) && deleted == old(deleted) && usage == old(usage)
      ensures found.Some? ==> lru == Without(old(lru), found.value) && inUse == Without(old(inUse), found.value)
      ensures deleted == old(deleted) + (if found.Some? && !Held(held, found.value) then [found.value] else [])
      ensures found.Some? ==> found.value in charge && old(usage) == usage + charge[found.value]
    {
      hide ListsOk, Without, Sum, DeletedOk, BucketsOk, HandlesFit, UsageOk, MapOf, Members;
      FoundIsCached(key);
      found := table.Remove(key);
      if found.Some? {
        WithoutAbsentOr(found.value);
      }
      var erased := FinishErase(found);
      CachedSet(old(lru), old(inUse), found);
    }

    lemma CachedSet(l: seq<Id>, u: seq<Id>, found: Option<Id>)
      requires found.Some? ==> (forall x :: x in lru <==> x in l && x != found.value) && (forall x :: x in inUse <==> x in u && x != found.value)
      requires found.None? ==> lru == l && inUse == u
      ensures SetOf(lru) + SetOf(inUse) == SetOf(l) + SetOf(u) - (if found.Some? then {found.value} else {})
    {
    }

    /** The oldest handle that no client holds. */
    method Oldest() returns (e: Id)
      requires ListsOk()
      ensures if lru == [] then e == LRU else e == lru[0] && e >= 2
    {
      RingHas(next, prev, [LRU] + lru, 0);
      assert lru != [] ==> lru[0] in lru;
      e := next[LRU];
    }

    /** Evicts the oldest handle that no client holds. */
    method EvictOldest()
      requires Ok() && lru != []
      modifies this`next, this`prev, this`lru, this`inUse, this`refs, this`deleted, this`inCache, this`usage, table
      ensures Ok() && lru == old(lru)[1..] && inUse == old(inUse) && deleted == old(deleted) + [old(lru)[0]]
      ensures old(lru)[0] in charge && old(usage) == usage + charge[old(lru)[0]] && table.keyOf == old(table.keyOf)
      ensures old(lru)[0] in table.keyOf && Cached() == old(Cached()) - {table.keyOf[old(lru)[0]]}
    {
      hide ListsOk, DeletedOk, BucketsOk, Sum, MapOf;
      var e := Oldest();
      assert e in lru && HandleOk(e);
      WithoutAbsentOr(e);
      OnlyOne(e);
      ghost var found := Erase(table.keyOf[e]);
    }

    /** Evicts every handle that no client holds. */
    method Prune()
      requires Ok()
      modifies this`next, this`prev, this`lru, this`inUse, this`refs, this`deleted, this`inCache, this`usage, table
      ensures Ok() && lru == [] && inUse == old(inUse) && deleted == old(deleted) + old(lru)
      ensures Cached() == old(Cached()) - KeysOf(table.keyOf, old(lru))
    {
      hide CoreOk, TableOk, MapOf, KeysOf;
      NoKeys(table.keyOf);
      ghost var n := 0;
      var e := OldestOf();
      while e != LRU
        invariant Ok() && n <= |old(lru)| && lru == old(lru)[n..] && inUse == old(inUse) && deleted == old(deleted) + old(lru)[..n]
        invariant if lru == [] then e == LRU else e == lru[0] && e >= 2
        invariant table.keyOf == old(table.keyOf) && Cached() == old(Cached()) - KeysOf(table.keyOf, old(lru)[..n])
        decreases |lru|
      {
        EvictOldest();
        n := n + 1;
        assert old(lru)[..n] == old(lru)[..n - 1] + [old(lru)[n - 1]];
        KeysOfOneMore(table.keyOf, old(lru)[..n - 1], old(lru)[n - 1]);
        e := OldestOf();
      }
      assert old(lru)[..n] == old(lru);
    }

    method OldestOf() returns (e: Id)
      requires Ok()
      ensures if lru == [] then e == LRU else e == lru[0] && e >= 2
    {
      e := Oldest();
    }

    /** A fresh handle with one reference, the caller's. */
    method NewHandle(c: nat) returns (e: Id)
      requires Ok()
      modifies this`nextId, this`charge, this`inCache, this`refs, this`held
      ensures Ok() && e == old(nextId) && e in refs && refs[e] == 1 && e in inCache && !inCache[e]
      ensures charge == old(charge)[e := c] && held == old(held)[e := 1] && e !in lru && e !in inUse && e >= 2
    {
      hide ListsOk, Sum, BucketsOk, Distinct, HandlesFit, TableOk;
      e := nextId;
      FitAfterNew(e, c, charge, refs, inCache, lru, inUse, held);
      SumOfNewHandle(charge, lru, e, c);
      SumOfNewHandle(charge, inUse, e, c);
      nextId := nextId + 1;
      charge, inCache := charge[e := c], inCache[e := false];
      refs, held := refs[e := 1], held[e := 1];
    }

    /** The cache takes a reference and the handle joins the in-use list. */
    method Enlist(e: Id)
      requires CoreOk() && e in refs && HandleOk(e) && refs[e] == 1 && !inCache[e] && held[e] == 1
      modifies this`next, this`prev, this`lru, this`inUse, this`refs, this`inCache, this`usage
      ensures CoreOk() && lru == old(lru) && inUse == old(inUse) + [e]
    {
      hide ListsOk, Without, Sum, Distinct, HandlesFit;
      WithoutAbsentOr(e);
      FitAfterEnlist(e, charge, refs, inCache, nextId, lru, inUse, held, inUse + [e]);
      refs, inCache := refs[e := 2], inCache[e := true];
      LruAppend(IN_USE, e);
      usage := usage + charge[e];
    }

    lemma NotInTable(e: Id)
      requires Ok() && HandleOk(e) && !inCache[e]
      ensures e !in lru && e !in inUse && e !in Members(table.chains)
    {
      assert e !in SetOf(lru) + SetOf(inUse);
    }

    /** Puts a new handle in the cache, in use by its client, and erases the one it replaces. */
    method AddToCache(e: Id, key: int) returns (replaced: Option<Id>)
      requires Ok() && e in refs && HandleOk(e) && refs[e] == 1 && !inCache[e] && held[e] == 1
      modifies this`next, this`prev, this`lru, this`inUse, this`refs, this`deleted, this`inCache, this`usage, table
      ensures Ok() && replaced == Find(old(Cached()), key) && Cached() == old(Cached())[key := e]
      ensures table.keyOf == old(table.keyOf)[e := key] && e in inUse
      ensures deleted == old(deleted) + (if replaced.Some? && !Held(held, replaced.value) then [replaced.value] else [])
      ensures lru == if replaced.Some? then Without(old(lru), replaced.value) else old(lru)
      ensures inUse == (if replaced.Some? then Without(old(inUse), replaced.value) else old(inUse)) + [e]
    {
      hide ListsOk, HandlesOk, HandleOk, UsageOk, Without, Sum, DeletedOk, BucketsOk, MapOf, Held, Members, Distinct, HandlesFit;
      NotInTable(e);
      FoundIsCached(key);
      Enlist(e);
      assert SetOf(inUse) == SetOf(old(inUse)) + {e};
      replaced := table.Insert(e, key);
      if replaced.Some? {
        assert replaced.value in SetOf(old(lru)) + SetOf(old(inUse));
        WithoutAppend(old(inUse), e, replaced.value);
        WithoutAbsentOr(replaced.value);
      }
      ghost var l, u := lru, inUse;
      var erased := FinishErase(replaced);
      CachedSet(l, u, replaced);
    }

    lemma NoKeys(keyOf: map<Id, int>)
      ensures KeysOf(keyOf, []) == {}
    {
    }

    /** Evicts handles that no client holds, oldest first, until the charges fit or there is none left. */
    method EvictUntilFits() returns (ghost evicted: nat)
      requires Ok()
      modifies this`next, this`prev, this`lru, this`inUse, this`refs, this`deleted, this`inCache, this`usage, table
      ensures Ok() && (usage <= capacity || lru == [])
      ensures evicted <= |old(lru)| && lru == old(lru)[evicted..] && inUse == old(inUse)
      ensures deleted == old(deleted) + old(lru)[..evicted]
      ensures evicted > 0 ==> old(lru)[evicted - 1] in charge && usage + charge[old(lru)[evicted - 1]] > capacity
      ensures table.keyOf == old(table.keyOf) && Cached() == old(Cached()) - KeysOf(table.keyOf, old(lru)[..evicted])
    {
      hide CoreOk, TableOk, Without, MapOf, KeysOf;
      NoKeys(table.keyOf);
      evicted := 0;
      var oldest := OldestOf();
      while usage > capacity && oldest != LRU
        invariant Ok() && evicted <= |old(lru)| && lru == old(lru)[evicted..] && inUse == old(inUse)
        invariant table.keyOf == old(table.keyOf) && deleted == old(deleted) + old(lru)[..evicted]
        invariant Cached() == old(Cached()) - KeysOf(table.keyOf, old(lru)[..evicted])
        invariant if lru == [] then oldest == LRU else oldest == lru[0] && oldest >= 2
        invariant evicted > 0 ==> old(lru)[evicted - 1] in charge && usage + charge[old(lru)[evicted - 1]] > capacity
        decreases |lru|
      {
        EvictOldest();
        evicted := evicted + 1;
        assert old(lru)[..evicted] == old(lru)[..evicted - 1] + [old(lru)[evicted - 1]];
        KeysOfOneMore(table.keyOf, old(lru)[..evicted - 1], old(lru)[evicted - 1]);
        oldest := OldestOf();
      }
    }

    /**
     * A new handle for the key, which replaces an older one. Handles that no client holds are then
     * evicted, oldest first, until the charges fit or there is none left.
     */
    method Insert(key: int, c: nat) returns (e: Id, ghost replaced: Option<Id>, ghost evicted: nat)
      requires Ok()
      modifies this, table
      ensures Ok() && e == old(nextId) && held == old(held)[e := 1] && charge == old(charge)[e := c]
      ensures usage <= capacity || lru == []
      ensures replaced == if capacity == 0 then None else Find(old(Cached()), key)
      ensures table.keyOf == if capacity == 0 then old(table.keyOf) else old(table.keyOf)[e := key]
      ensures inUse == if capacity == 0 then old(inUse)
                       else (if replaced.Some? then Without(old(inUse), replaced.value) else old(inUse)) + [e]
      ensures capacity > 0 ==> Find(Cached(), key) == Some(e)
      ensures var kept := if replaced.Some? then Without(old(lru), replaced.value) else old(lru);
        && evicted <= |kept| && lru == kept[evicted..]
        && (evicted > 0 ==> kept[evicted - 1] in charge && usage + charge[kept[evicted - 1]] > capacity)
        && deleted == old(deleted) + (if replaced.Some? && !Held(old(held), replaced.value) then [replaced.value] else []) + kept[..evicted]
        && Cached() == (if capacity == 0 then old(Cached()) else old(Cached())[key := e]) - KeysOf(table.keyOf, kept[..evicted])
    {
      hide CoreOk, TableOk, Without, MapOf, KeysOf;
      FoundIsCached(key);
      e := NewHandle(c);
      replaced, evicted := None, 0;
      if capacity > 0 {
        FreshIsOk(e);
        replaced := AddToCache(e, key);
      }
      evicted := EvictUntilFits();
      if capacity > 0 {
        OnlyOne(e);
      }
    }

    lemma FreshIsOk(e: Id)
      requires Ok() && e in refs
      ensures HandleOk(e)
    {
    }
  }
}
