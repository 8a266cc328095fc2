/** The cache's hash table: buckets of handles chained through their next_hash links. */
module HandleTable {
  import opened Options

  type Id = nat     // a handle

  type Links = map<Id, Option<Id>>

  // ----- Chains

  ghost function At(chain: seq<Id>, i: nat): Option<Id> {
    if i < |chain| then Some(chain[i]) else None
  }

  /** Following the links from the head leads through the chain and ends. */
  ghost predicate ChainOk(head: Option<Id>, next: Links, chain: seq<Id>) {
    head == At(chain, 0) && forall i: nat | i < |chain| :: LinkOk(next, chain, i)
  }

  ghost predicate LinkOk(next: Links, chain: seq<Id>, i: nat)
    requires i < |chain|
  {
    chain[i] in next && next[chain[i]] == At(chain, i + 1)
  }

  function Bucket(hash: int -> nat, key: int, length: nat): nat
    requires length > 0
  {
    hash(key) % length
  }

  ghost predicate NoTwins(chain: seq<Id>, keyOf: map<Id, int>) {
    && (forall x | x in chain :: x in keyOf)
    && (forall i, j | 0 <= i < j < |chain| :: keyOf[chain[i]] != keyOf[chain[j]])
  }

  /** Every handle of chain b hashes to b. */
  ghost predicate Belongs(chain: seq<Id>, keyOf: map<Id, int>, hash: int -> nat, b: nat, length: nat)
    requires length > 0
  {
    forall x | x in chain :: x in keyOf && Bucket(hash, keyOf[x], length) == b
  }

  ghost predicate BucketsOk(list: seq<Option<Id>>, next: Links, chains: seq<seq<Id>>, keyOf: map<Id, int>, hash: int -> nat) {
    && |list| == |chains| > 0
    && forall b | 0 <= b < |list| ::
      ChainOk(list[b], next, chains[b]) && NoTwins(chains[b], keyOf) && Belongs(chains[b], keyOf, hash, b, |list|)
  }

  ghost function Members(chains: seq<seq<Id>>): set<Id> {
    set b, x | 0 <= b < |chains| && x in chains[b] :: x
  }

  function Total(chains: seq<seq<Id>>): nat {
    if chains == [] then 0 else |chains[0]| + Total(chains[1..])
  }

  lemma {:induction false} MemberIsInItsBucket(list: seq<Option<Id>>, next: Links, chains: seq<seq<Id>>, keyOf: map<Id, int>, hash: int -> nat, x: Id)
    requires BucketsOk(list, next, chains, keyOf, hash)
    ensures x in Members(chains) <==> x in keyOf && x in chains[Bucket(hash, keyOf[x], |list|)]
  {
    if x in Members(chains) {
      var b :| 0 <= b < |chains| && x in chains[b];
      assert Belongs(chains[b], keyOf, hash, b, |list|);
    }
  }

  lemma {:induction false} TotalOfUpdate(chains: seq<seq<Id>>, b: nat, chain: seq<Id>)
    requires b < |chains|
    ensures Total(chains[b := chain]) == Total(chains) - |chains[b]| + |chain|
  {
    var updated := chains[b := chain];
    if b > 0 {
      assert updated[1..] == chains[1..][b - 1 := chain];
      TotalOfUpdate(chains[1..], b - 1, chain);
    } else {
      assert updated[1..] == chains[1..];
    }
  }

  /** Links that none of the chain's handles own do not matter to it. */
  lemma {:induction false} ChainFrame(head: Option<Id>, next: Links, next': Links, chain: seq<Id>)
    requires ChainOk(head, next, chain) && forall x | x in chain :: x in next && x in next' && next'[x] == next[x]
    ensures ChainOk(head, next', chain)
  {
    forall i: nat | i < |chain| ensures LinkOk(next', chain, i) {
      assert chain[i] in chain && LinkOk(next, chain, i);
    }
  }

  // ----- The slots that hold links

  /** A place that holds a link: the head of a bucket or a handle's own link. */
  datatype Slot = Head(b: nat) | After(id: Id)

  ghost function SlotAt(b: nat, chain: seq<Id>, i: nat): Slot
    requires i <= |chain|
  {
    if i == 0 then Head(b) else After(chain[i - 1])
  }

  /** Bucket b holds another chain, none of the other chains notices. */
  lemma {:induction false} BucketChanges(list: seq<Option<Id>>, next: Links, chains: seq<seq<Id>>, keyOf: map<Id, int>, hash: int -> nat,
                                         b: nat, head: Option<Id>, next': Links, chain: seq<Id>, keyOf': map<Id, int>)
    requires BucketsOk(list, next, chains, keyOf, hash) && b < |list|
    requires ChainOk(head, next', chain) && NoTwins(chain, keyOf') && Belongs(chain, keyOf', hash, b, |list|)
    requires forall x | x in Members(chains) && x !in chains[b] :: x in next' && x in next && next'[x] == next[x]
    requires forall x | x in Members(chains) :: x in keyOf && x in keyOf' && keyOf'[x] == keyOf[x]
    ensures BucketsOk(list[b := head], next', chains[b := chain], keyOf', hash)
  {
    var list', chains' := list[b := head], chains[b := chain];
    forall c | 0 <= c < |list|
      ensures ChainOk(list'[c], next', chains'[c]) && NoTwins(chains'[c], keyOf') && Belongs(chains'[c], keyOf', hash, c, |list|)
    {
      if c != b {
        OtherBucket(list, next, chains, keyOf, hash, b, c);
        ChainFrame(list[c], next, next', chains[c]);
        SameKeys(chains[c], keyOf, keyOf', hash, c, |list|);
      }
    }
  }

  lemma {:induction false} SameKeys(chain: seq<Id>, keyOf: map<Id, int>, keyOf': map<Id, int>, hash: int -> nat, b: nat, length: nat)
    requires length > 0 && NoTwins(chain, keyOf) && Belongs(chain, keyOf, hash, b, length)
    requires forall x | x in chain :: x in keyOf' && keyOf'[x] == keyOf[x]
    ensures NoTwins(chain, keyOf') && Belongs(chain, keyOf', hash, b, length)
  {
    assert forall i | 0 <= i < |chain| :: chain[i] in chain;
  }

  lemma {:induction false} OtherBucket(list: seq<Option<Id>>, next: Links, chains: seq<seq<Id>>, keyOf: map<Id, int>, hash: int -> nat, b: nat, c: nat)
    requires BucketsOk(list, next, chains, keyOf, hash) && b < |list| && c < |list| && b != c
    ensures forall x | x in chains[c] :: x in Members(chains) && x !in chains[b] && x in next
  {
    forall x | x in chains[c] ensures x in Members(chains) && x !in chains[b] && x in next {
      assert Belongs(chains[c], keyOf, hash, c, |list|) && Belongs(chains[b], keyOf, hash, b, |list|);
      var i: nat :| i < |chains[c]| && chains[c][i] == x;
      assert ChainOk(list[c], next, chains[c]) && LinkOk(next, chains[c], i);
    }
  }

  lemma {:induction false} MembersOfUpdate(list: seq<Option<Id>>, next: Links, chains: seq<seq<Id>>, keyOf: map<Id, int>, hash: int -> nat,
                                           b: nat, chain: seq<Id>)
    requires BucketsOk(list, next, chains, keyOf, hash) && b < |list|
    ensures Members(chains[b := chain]) == (set x | x in Members(chains) && x !in chains[b]) + (set x | x in chain)
  {
    var chains' := chains[b := chain];
    forall x ensures x in Members(chains') <==> (x in Members(chains) && x !in chains[b]) || x in chain {
      if x in chain {
        assert x in chains'[b];
      }
      if x in Members(chains) && x !in chains[b] {
        var c :| 0 <= c < |chains| && x in chains[c];
        assert x in chains'[c];
      }
      if x in Members(chains') && x !in chain {
        var c :| 0 <= c < |chains| && x in chains'[c];
        OtherBucket(list, next, chains, keyOf, hash, b, c);
      }
    }
  }

  // ----- Replacing a stretch of a chain

  ghost predicate Distinct(chain: seq<Id>) {
    forall i, j | 0 <= i < j < |chain| :: chain[i] != chain[j]
  }

  function Spliced(chain: seq<Id>, i: nat, k: nat, mid: seq<Id>): (r: seq<Id>)
    requires i <= k <= |chain|
    ensures |r| == i + |mid| + |chain| - k
    ensures forall p | 0 <= p < i :: r[p] == chain[p]
    ensures forall p | i <= p < i + |mid| :: r[p] == mid[p - i]
    ensures forall p | i + |mid| <= p < |r| :: r[p] == chain[p - i - |mid| + k]
  {
    chain[..i] + mid + chain[k..]
  }

  /** Storing one link at slot i replaces chain[i..k] by at most one handle, whose own link was set before. */
  lemma {:induction false} Splice(head: Option<Id>, next: Links, chain: seq<Id>, i: nat, k: nat, mid: seq<Id>)
    requires ChainOk(head, next, chain) && Distinct(chain) && i <= k <= |chain|
    requires |mid| <= 1 && (mid != [] ==> mid[0] !in chain && mid[0] in next && next[mid[0]] == At(chain, k))
    ensures var v := if mid == [] then At(chain, k) else Some(mid[0]);
      ChainOk(if i == 0 then v else head, if i == 0 then next else next[chain[i - 1] := v], Spliced(chain, i, k, mid))
  {
    hide Spliced;
    var v := if mid == [] then At(chain, k) else Some(mid[0]);
    var c, next' := Spliced(chain, i, k, mid), if i == 0 then next else next[chain[i - 1] := v];
    forall p: nat | p < |c| ensures LinkOk(next', c, p) {
      if p < i {
        assert LinkOk(next, chain, p);
      } else if p < i + |mid| {
        assert i > 0 ==> chain[i - 1] in chain;
      } else {
        assert LinkOk(next, chain, p - i - |mid| + k);
      }
    }
  }

  lemma {:induction false} TwinsAreDistinct(chain: seq<Id>, keyOf: map<Id, int>)
    requires NoTwins(chain, keyOf)
    ensures Distinct(chain)
  {
  }

  lemma {:induction false} SplicedMembers(chain: seq<Id>, i: nat, k: nat, mid: seq<Id>)
    requires i <= k <= |chain| && Distinct(chain)
    ensures forall x :: x in Spliced(chain, i, k, mid) <==> x in mid || (x in chain && x !in chain[i..k])
  {
    assert chain == chain[..i] + chain[i..k] + chain[k..];
    forall p | 0 <= p < i || k <= p < |chain| ensures chain[p] !in chain[i..k] {
      assert forall q | 0 <= q < k - i :: chain[i..k][q] == chain[i + q] != chain[p];
    }
    assert forall p | 0 <= p < i :: chain[..i][p] == chain[p];
    assert forall p | 0 <= p < |chain| - k :: chain[k..][p] == chain[k + p];
  }

  /** The chain stays free of twins when a handle with the key of the one it replaces, or with a new key, comes in. */
  lemma {:induction false} SplicedTwins(chain: seq<Id>, keyOf: map<Id, int>, i: nat, k: nat, mid: seq<Id>, hash: int -> nat, b: nat, length: nat)
    requires NoTwins(chain, keyOf) && length > 0 && Belongs(chain, keyOf, hash, b, length)
    requires i <= k <= |chain| && |mid| <= 1
    requires mid != [] ==> mid[0] in keyOf && Bucket(hash, keyOf[mid[0]], length) == b
    requires mid != [] ==> forall p | 0 <= p < |chain| && !(i <= p < k) :: keyOf[chain[p]] != keyOf[mid[0]]
    ensures NoTwins(Spliced(chain, i, k, mid), keyOf) && Belongs(Spliced(chain, i, k, mid), keyOf, hash, b, length)
  {
    hide Spliced;
    var c := Spliced(chain, i, k, mid);
    TwinsAreDistinct(chain, keyOf);
    SplicedMembers(chain, i, k, mid);
    forall p, q | 0 <= p < q < |c| ensures keyOf[c[p]] != keyOf[c[q]] {
      var p', q' := p - i - |mid| + k, q - i - |mid| + k;
      assert p < i ==> c[p] == chain[p];
      assert p >= i + |mid| ==> c[p] == chain[p'];
      assert q < i ==> c[q] == chain[q];
      assert q >= i + |mid| ==> c[q] == chain[q'];
    }
  }

  ghost function SetOf(chain: seq<Id>): set<Id> {
    set x | x in chain
  }

  /** What a handle coming in has to bring along. */
  ghost predicate MayEnter(mid: seq<Id>, next: Links, chain: seq<Id>, i: nat, k: nat, keyOf: map<Id, int>, hash: int -> nat, b: nat, length: nat)
    requires length > 0 && i <= k <= |chain|
  {
    |mid| <= 1 && (mid != [] ==>
      && mid[0] !in chain && mid[0] in next && next[mid[0]] == At(chain, k)
      && mid[0] in keyOf && Bucket(hash, keyOf[mid[0]], length) == b
      && forall p | 0 <= p < |chain| && !(i <= p < k) :: chain[p] in keyOf && keyOf[chain[p]] != keyOf[mid[0]])
  }

  lemma {:induction false} SplicedBucketOk(list: seq<Option<Id>>, next: Links, chains: seq<seq<Id>>, keyOf: map<Id, int>, hash: int -> nat,
                                           b: nat, i: nat, k: nat, mid: seq<Id>, next1: Links, keyOf1: map<Id, int>)
    requires BucketsOk(list, next, chains, keyOf, hash) && b < |list| && i <= k <= |chains[b]|
    requires forall x | x in Members(chains) :: x in next && x in next1 && next1[x] == next[x] && x in keyOf && x in keyOf1 && keyOf1[x] == keyOf[x]
    requires MayEnter(mid, next1, chains[b], i, k, keyOf1, hash, b, |list|)
    ensures var c, v := chains[b], if mid == [] then At(chains[b], k) else Some(mid[0]);
      BucketsOk(if i == 0 then list[b := v] else list, if i == 0 then next1 else next1[c[i - 1] := v], chains[b := Spliced(c, i, k, mid)], keyOf1, hash)
  {
    hide Spliced, Belongs, NoTwins, LinkOk, Bucket;
    var c, v := chains[b], if mid == [] then At(chains[b], k) else Some(mid[0]);
    var head, c' := if i == 0 then v else list[b], Spliced(c, i, k, mid);
    var next' := if i == 0 then next1 else next1[c[i - 1] := v];
    assert ChainOk(list[b], next, c) && NoTwins(c, keyOf) && Belongs(c, keyOf, hash, b, |list|);
    assert forall x | x in c :: x in Members(chains);
    TwinsAreDistinct(c, keyOf);
    ChainFrame(list[b], next, next1, c);
    Splice(list[b], next1, c, i, k, mid);
    SameKeys(c, keyOf, keyOf1, hash, b, |list|);
    SplicedTwins(c, keyOf1, i, k, mid, hash, b, |list|);
    assert i > 0 ==> c[i - 1] in c;
    BucketChanges(list, next, chains, keyOf, hash, b, head, next', c', keyOf1);
    assert i > 0 ==> list[b := list[b]] == list;
  }

  lemma {:induction false} SplicedBucketMembers(list: seq<Option<Id>>, next: Links, chains: seq<seq<Id>>, keyOf: map<Id, int>, hash: int -> nat,
                                                b: nat, i: nat, k: nat, mid: seq<Id>)
    requires BucketsOk(list, next, chains, keyOf, hash) && b < |list| && i <= k <= |chains[b]| && |mid| <= 1
    ensures Members(chains[b := Spliced(chains[b], i, k, mid)]) == Members(chains) - SetOf(chains[b][i..k]) + SetOf(mid)
    ensures Total(chains[b := Spliced(chains[b], i, k, mid)]) == Total(chains) - (k - i) + |mid|
  {
    hide Spliced, ChainOk, Belongs, LinkOk, Bucket, Total;
    var c := chains[b];
    var c' := Spliced(c, i, k, mid);
    assert NoTwins(c, keyOf);
    TwinsAreDistinct(c, keyOf);
    MembersOfUpdate(list, next, chains, keyOf, hash, b, c');
    SplicedMembers(c, i, k, mid);
    forall x ensures x in Members(chains[b := c']) <==> x in Members(chains) - SetOf(c[i..k]) + SetOf(mid) {
      assert x in c[i..k] ==> x in c;
    }
    TotalOfUpdate(chains, b, c');
  }

  /** One store changes one bucket and leaves a good table. */
  lemma {:induction false} SpliceBucket(list: seq<Option<Id>>, next: Links, chains: seq<seq<Id>>, keyOf: map<Id, int>, hash: int -> nat,
                                        b: nat, i: nat, k: nat, mid: seq<Id>, next1: Links, keyOf1: map<Id, int>)
    requires BucketsOk(list, next, chains, keyOf, hash) && b < |list| && i <= k <= |chains[b]|
    requires forall x | x in Members(chains) :: x in next && x in next1 && next1[x] == next[x] && x in keyOf && x in keyOf1 && keyOf1[x] == keyOf[x]
    requires MayEnter(mid, next1, chains[b], i, k, keyOf1, hash, b, |list|)
    ensures var c, v := chains[b], if mid == [] then At(chains[b], k) else Some(mid[0]);
      BucketsOk(if i == 0 then list[b := v] else list, if i == 0 then next1 else next1[c[i - 1] := v], chains[b := Spliced(c, i, k, mid)], keyOf1, hash)
    ensures Members(chains[b := Spliced(chains[b], i, k, mid)]) == Members(chains) - SetOf(chains[b][i..k]) + SetOf(mid)
    ensures Total(chains[b := Spliced(chains[b], i, k, mid)]) == Total(chains) - (k - i) + |mid|
  {
    hide Spliced, ChainOk, Belongs, NoTwins, Bucket, Total, Members;
    SplicedBucketOk(list, next, chains, keyOf, hash, b, i, k, mid, next1, keyOf1);
    SplicedBucketMembers(list, next, chains, keyOf, hash, b, i, k, mid);
  }

  lemma {:induction false} MembersHaveLinks(list: seq<Option<Id>>, next: Links, chains: seq<seq<Id>>, keyOf: map<Id, int>, hash: int -> nat)
    requires BucketsOk(list, next, chains, keyOf, hash)
    ensures forall x | x in Members(chains) :: x in next && x in keyOf
  {
    forall x | x in Members(chains) ensures x in next && x in keyOf {
      var b :| 0 <= b < |chains| && x in chains[b];
      var i: nat :| i < |chains[b]| && chains[b][i] == x;
      assert ChainOk(list[b], next, chains[b]) && LinkOk(next, chains[b], i) && NoTwins(chains[b], keyOf);
    }
  }

  /** The handle of a key among the members, if there is one. */
  ghost predicate FoundIn(chains: seq<seq<Id>>, keyOf: map<Id, int>, r: Option<Id>, key: int) {
    if r.Some? then r.value in Members(chains) && r.value in keyOf && keyOf[r.value] == key
    else forall x | x in Members(chains) && x in keyOf :: keyOf[x] != key
  }

  lemma {:induction false} BucketShape(list: seq<Option<Id>>, next: Links, chains: seq<seq<Id>>, keyOf: map<Id, int>, hash: int -> nat, key: int)
    requires BucketsOk(list, next, chains, keyOf, hash)
    ensures |list| == |chains| > 0 && Bucket(hash, key, |list|) < |list|
  {
  }

  // ----- Moving every handle to a larger table

  lemma {:induction false} KeysDiffer(list: seq<Option<Id>>, next: Links, chains: seq<seq<Id>>, keyOf: map<Id, int>, hash: int -> nat, x: Id, y: Id)
    requires BucketsOk(list, next, chains, keyOf, hash) && x in Members(chains) && y in Members(chains) && x != y
    ensures x in keyOf && y in keyOf && keyOf[x] != keyOf[y]
  {
    var b :| 0 <= b < |chains| && x in chains[b];
    var c :| 0 <= c < |chains| && y in chains[c];
    assert Belongs(chains[b], keyOf, hash, b, |list|) && Belongs(chains[c], keyOf, hash, c, |list|);
    if b == c {
      assert NoTwins(chains[b], keyOf);
      var p :| 0 <= p < |chains[b]| && chains[b][p] == x;
      var q :| 0 <= q < |chains[b]| && chains[b][q] == y;
    }
  }

  // ----- The table as a map

  ghost predicate KeysApart(members: set<Id>, keyOf: map<Id, int>) {
    && members <= keyOf.Keys
    && forall x, y | x in members && y in members && x != y :: keyOf[x] != keyOf[y]
  }

  ghost function Holder(members: set<Id>, keyOf: map<Id, int>, key: int): (x: Id)
    requires exists x :: x in members && x in keyOf && keyOf[x] == key
    ensures x in members && x in keyOf && keyOf[x] == key
  {
    var x :| x in members && x in keyOf && keyOf[x] == key;
    x
  }

  /** What the members stand for: a map from keys to handles. */
  ghost function MapOf(members: set<Id>, keyOf: map<Id, int>): map<int, Id> {
    map k | k in (set x | x in members && x in keyOf :: keyOf[x]) :: Holder(members, keyOf, k)
  }

  ghost function Find(view: map<int, Id>, key: int): Option<Id> {
    if key in view then Some(view[key]) else None
  }

  lemma {:induction false} MapOfHas(members: set<Id>, keyOf: map<Id, int>)
    requires KeysApart(members, keyOf)
    ensures forall x | x in members :: keyOf[x] in MapOf(members, keyOf) && MapOf(members, keyOf)[keyOf[x]] == x
    ensures forall k | k in MapOf(members, keyOf) :: MapOf(members, keyOf)[k] in members && keyOf[MapOf(members, keyOf)[k]] == k
  {
    forall x | x in members ensures keyOf[x] in MapOf(members, keyOf) && MapOf(members, keyOf)[keyOf[x]] == x {
      var h := Holder(members, keyOf, keyOf[x]);
      assert h in members && keyOf[h] == keyOf[x];
    }
  }

  /** Two maps are the same when both file each handle of the members under its key and nothing else. */
  lemma {:induction false} MapOfIs(members: set<Id>, keyOf: map<Id, int>, view: map<int, Id>)
    requires KeysApart(members, keyOf)
    requires forall x | x in members :: keyOf[x] in view && view[keyOf[x]] == x
    requires forall k | k in view :: view[k] in members && keyOf[view[k]] == k
    ensures MapOf(members, keyOf) == view
  {
    hide MapOf;
    MapOfHas(members, keyOf);
    var m := MapOf(members, keyOf);
    forall k | k in m ensures k in view {
      assert m[k] in members;
    }
    forall k | k in view ensures k in m && m[k] == view[k] {
      assert view[k] in members;
    }
  }

  lemma {:induction false} MembersApart(list: seq<Option<Id>>, next: Links, chains: seq<seq<Id>>, keyOf: map<Id, int>, hash: int -> nat)
    requires BucketsOk(list, next, chains, keyOf, hash)
    ensures KeysApart(Members(chains), keyOf)
  {
    hide BucketsOk, Members;
    MembersHaveLinks(list, next, chains, keyOf, hash);
    forall x, y | x in Members(chains) && y in Members(chains) && x != y ensures keyOf[x] != keyOf[y] {
      KeysDiffer(list, next, chains, keyOf, hash, x, y);
    }
  }

  lemma {:induction false} FoundInMap(chains: seq<seq<Id>>, keyOf: map<Id, int>, r: Option<Id>, key: int)
    requires KeysApart(Members(chains), keyOf) && FoundIn(chains, keyOf, r, key)
    ensures r == Find(MapOf(Members(chains), keyOf), key)
  {
    hide MapOf, Members;
    MapOfHas(Members(chains), keyOf);
  }

  lemma {:induction false} MapPut(members: set<Id>, keyOf: map<Id, int>, h: Id, key: int, replaced: Option<Id>)
    requires KeysApart(members, keyOf) && h !in members
    requires replaced == Find(MapOf(members, keyOf), key)
    ensures var members' := members - (if replaced.Some? then {replaced.value} else {}) + {h};
      KeysApart(members', keyOf[h := key]) && MapOf(members', keyOf[h := key]) == MapOf(members, keyOf)[key := h]
  {
    hide MapOf;
    MapOfHas(members, keyOf);
    var members', keyOf' := members - (if replaced.Some? then {replaced.value} else {}) + {h}, keyOf[h := key];
    forall x | x in members' && x != h ensures keyOf[x] != key {
      assert x in members && MapOf(members, keyOf)[keyOf[x]] == x;
    }
    MapOfIs(members', keyOf', MapOf(members, keyOf)[key := h]);
  }

  lemma {:induction false} MapRemove(members: set<Id>, keyOf: map<Id, int>, key: int, removed: Option<Id>)
    requires KeysApart(members, keyOf) && removed == Find(MapOf(members, keyOf), key)
    ensures var members' := members - (if removed.Some? then {removed.value} else {});
      KeysApart(members', keyOf) && MapOf(members', keyOf) == MapOf(members, keyOf) - {key}
  {
    hide MapOf;
    MapOfHas(members, keyOf);
    var members' := members - (if removed.Some? then {removed.value} else {});
    forall x | x in members' ensures keyOf[x] != key {
      assert x in members && MapOf(members, keyOf)[keyOf[x]] == x;
    }
    MapOfIs(members', keyOf, MapOf(members, keyOf) - {key});
  }

  /** What the old table still holds once the first i buckets and j handles of the next are moved. */
  ghost predicate Unmoved(list: seq<Option<Id>>, next: Links, chains: seq<seq<Id>>, i: nat, j: nat)
    requires |list| == |chains| && i < |chains|
  {
    && (forall p: nat | j <= p < |chains[i]| :: LinkOk(next, chains[i], p))
    && forall c | i < c < |chains| :: ChainOk(list[c], next, chains[c])
  }

  ghost function MovedSet(chains: seq<seq<Id>>, i: nat, j: nat): set<Id>
    requires i < |chains| && j <= |chains[i]|
  {
    Members(chains[..i]) + SetOf(chains[i][..j])
  }

  lemma {:induction false} MoveOne(list: seq<Option<Id>>, next: Links, next0: Links, chains: seq<seq<Id>>, keyOf: map<Id, int>, hash: int -> nat,
                                   i: nat, j: nat, v: Option<Id>)
    requires BucketsOk(list, next0, chains, keyOf, hash) && i < |chains| && j < |chains[i]| && Unmoved(list, next, chains, i, j)
    ensures Unmoved(list, next[chains[i][j] := v], chains, i, j + 1)
    ensures MovedSet(chains, i, j + 1) == MovedSet(chains, i, j) + {chains[i][j]}
    ensures chains[i][j] in Members(chains) && chains[i][j] !in MovedSet(chains, i, j) && MovedSet(chains, i, j) <= Members(chains)
  {
    var x := chains[i][j];
    var next' := next[x := v];
    assert NoTwins(chains[i], keyOf) && x in chains[i];
    TwinsAreDistinct(chains[i], keyOf);
    forall p: nat | j + 1 <= p < |chains[i]| ensures LinkOk(next', chains[i], p) {
      assert LinkOk(next, chains[i], p);
    }
    forall c | i < c < |chains| ensures ChainOk(list[c], next', chains[c]) {
      OtherBucket(list, next0, chains, keyOf, hash, i, c);
      assert ChainOk(list[c], next, chains[c]);
      ChainLinks(list[c], next, chains[c]);
      ChainFrame(list[c], next, next', chains[c]);
    }
    assert chains[i][..j + 1] == chains[i][..j] + [x];
    forall y | y in MovedSet(chains, i, j) ensures y in Members(chains) && y != x {
      if y in chains[i][..j] {
        var p :| 0 <= p < j && chains[i][..j][p] == y;
        assert chains[i][p] == y && y in chains[i];
      } else {
        var c :| 0 <= c < i && y in chains[..i][c];
        assert y in chains[c];
        OtherBucket(list, next0, chains, keyOf, hash, i, c);
      }
    }
  }

  lemma {:induction false} ChainLinks(head: Option<Id>, next: Links, chain: seq<Id>)
    requires ChainOk(head, next, chain)
    ensures forall x | x in chain :: x in next
  {
    forall x | x in chain ensures x in next {
      var i: nat :| i < |chain| && chain[i] == x;
      assert LinkOk(next, chain, i);
    }
  }

  lemma {:induction false} BucketMoved(chains: seq<seq<Id>>, i: nat)
    requires i < |chains|
    ensures MovedSet(chains, i, |chains[i]|) == Members(chains[..i + 1])
    ensures MovedSet(chains, i, 0) == Members(chains[..i])
    ensures Total(chains[..i + 1]) == Total(chains[..i]) + |chains[i]|
  {
    assert chains[i][..|chains[i]|] == chains[i];
    assert chains[..i + 1] == chains[..i] + [chains[i]];
    forall x ensures x in Members(chains[..i + 1]) <==> x in Members(chains[..i]) || x in chains[i] {
      if x in Members(chains[..i]) {
        var b :| 0 <= b < i && x in chains[..i][b];
        assert x in chains[..i + 1][b];
      }
      if x in chains[i] {
        assert x in chains[..i + 1][i];
      }
    }
    TotalOfOneMore(chains[..i], chains[i]);
  }

  lemma {:induction false} TotalOfOneMore(chains: seq<seq<Id>>, chain: seq<Id>)
    ensures Total(chains + [chain]) == Total(chains) + |chain|
  {
    if chains != [] {
      assert (chains + [chain])[1..] == chains[1..] + [chain];
      TotalOfOneMore(chains[1..], chain);
    }
  }

  lemma {:induction false} EmptyTable(list: seq<Option<Id>>, next: Links, chains: seq<seq<Id>>, keyOf: map<Id, int>, hash: int -> nat)
    requires |list| == |chains| > 0 && forall b | 0 <= b < |list| :: list[b] == None && chains[b] == []
    ensures BucketsOk(list, next, chains, keyOf, hash) && Members(chains) == {} && Total(chains) == 0
  {
    TotalOfEmpty(chains);
  }

  lemma {:induction false} TotalOfEmpty(chains: seq<seq<Id>>)
    requires forall b | 0 <= b < |chains| :: chains[b] == []
    ensures Total(chains) == 0
  {
    if chains != [] {
      TotalOfEmpty(chains[1..]);
    }
  }

  // ----- The table

  predicate IsPower(n: nat) {
    n == 4 || (n > 4 && n % 2 == 0 && IsPower(n / 2))
  }

  class Table {
    const hash: int -> nat
    var keyOf: map<Id, int>           // the handles' keys
    var nextHash: Links               // the handles' links
    var length: nat
    var elems: nat
    var list: seq<Option<Id>>
    ghost var chains: seq<seq<Id>>

    constructor (hash: int -> nat)
      ensures Ok() && Members(chains) == {} && keyOf == map[] && elems == 0 && this.hash == hash
    {
      this.hash, keyOf, nextHash, length, elems := hash, map[], map[], 4, 0;
      list := [None, None, None, None];
      chains := [[], [], [], []];
      new;
      EmptyTable(list, nextHash, chains, keyOf, hash);
    }

    ghost predicate Ok()
      reads this
    {
      && BucketsOk(list, nextHash, chains, keyOf, hash)
      && length == |list| && IsPower(length) && elems == Total(chains)
    }

    /** The map the table stands for. */
    ghost function View(): map<int, Id>
      reads this
    {
      MapOf(Members(chains), keyOf)
    }

    lemma ViewApart()
      requires Ok()
      ensures KeysApart(Members(chains), keyOf)
    {
      MembersApart(list, nextHash, chains, keyOf, hash);
    }

    function Deref(slot: Slot): Option<Id>
      requires slot.Head? ==> slot.b < |list|
      requires slot.After? ==> slot.id in nextHash
      reads this
    {
      if slot.Head? then list[slot.b] else nextHash[slot.id]
    }

    method Store(slot: Slot, v: Option<Id>)
      requires slot.Head? ==> slot.b < |list|
      modifies this`list, this`nextHash
      ensures list == if slot.Head? then old(list)[slot.b := v] else old(list)
      ensures nextHash == if slot.After? then old(nextHash)[slot.id := v] else old(nextHash)
    {
      if slot.Head? {
        list := list[slot.b := v];
      } else {
        nextHash := nextHash[slot.id := v];
      }
    }

    /** The slot that holds the key's handle, or the trailing slot of its bucket. */
    method FindPointer(key: int) returns (slot: Slot, ghost i: nat)
      requires Ok()
      ensures var b := Bucket(hash, key, length);
        && i <= |chains[b]| && slot == SlotAt(b, chains[b], i)
        && (slot.After? ==> slot.id in nextHash) && Deref(slot) == At(chains[b], i)
        && (forall p | 0 <= p < |chains[b]| && p != i :: chains[b][p] in keyOf && keyOf[chains[b][p]] != key)
        && (i < |chains[b]| ==> keyOf[chains[b][i]] == key)
        && FoundIn(chains, keyOf, Deref(slot), key)
    {
      var b := Bucket(hash, key, length);
      ghost var c := chains[b];
      slot, i := Head(b), 0;
      assert forall p | 0 <= p < |c| :: c[p] in c;
      while Deref(slot).Some? && keyOf[Deref(slot).value] != key
        invariant i <= |c| && slot == SlotAt(b, c, i)
        invariant (slot.After? ==> slot.id in nextHash) && Deref(slot) == At(c, i)
        invariant forall p | 0 <= p < i :: keyOf[c[p]] != key
        decreases |c| - i
      {
        assert ChainOk(list[b], nextHash, c) && LinkOk(nextHash, c, i);
        slot, i := After(Deref(slot).value), i + 1;
      }
      FoundOrNot(key, i);
    }

    lemma FoundOrNot(key: int, i: nat)
      requires Ok()
      requires var c := chains[Bucket(hash, key, length)];
        i <= |c| && (forall p | 0 <= p < i :: c[p] in keyOf && keyOf[c[p]] != key) && (i < |c| ==> c[i] in keyOf && keyOf[c[i]] == key)
      ensures var c := chains[Bucket(hash, key, length)];
        FoundIn(chains, keyOf, At(c, i), key) && forall p | 0 <= p < |c| && p != i :: c[p] in keyOf && keyOf[c[p]] != key
    {
      var b := Bucket(hash, key, length);
      var c := chains[b];
      assert NoTwins(c, keyOf) && Belongs(c, keyOf, hash, b, length);
      if i == |c| {
        forall x | x in Members(chains) && x in keyOf ensures keyOf[x] != key {
          MemberIsInItsBucket(list, nextHash, chains, keyOf, hash, x);
        }
      } else {
        assert c[i] in c;
      }
    }

    method Lookup(key: int) returns (r: Option<Id>)
      requires Ok()
      ensures FoundIn(chains, keyOf, r, key) && r == Find(View(), key)
    {
      hide BucketsOk, MapOf, Members;
      var slot;
      ghost var i;
      slot, i := FindPointer(key);
      r := Deref(slot);
      ViewApart();
      FoundInMap(chains, keyOf, r, key);
    }

    /** Puts a handle in, in the place of one with the same key. */
    method Put(h: Id, key: int) returns (replaced: Option<Id>)
      requires Ok() && h !in Members(chains)
      modifies this`keyOf, this`nextHash, this`list, this`elems, this`chains
      ensures Ok() && keyOf == old(keyOf)[h := key]
      ensures FoundIn(old(chains), old(keyOf), replaced, key)
      ensures Members(chains) == old(Members(chains)) - (if replaced.Some? then {replaced.value} else {}) + {h}
      ensures length == old(length) && elems == old(elems) + (if replaced.None? then 1 else 0)
    {
      hide Total, Spliced, BucketsOk, ChainOk, NoTwins, Belongs, LinkOk, IsPower, Bucket, MayEnter, Members, SetOf, FoundIn;
      Shape(key);
      var slot;
      ghost var i;
      slot, i := FindPointer(key);
      replaced := Deref(slot);
      ghost var b, was, next0, keys0 := Bucket(hash, key, length), chains, nextHash, keyOf;
      ghost var c, k := chains[b], if replaced.Some? then i + 1 else i;
      MembersHaveLinks(list, nextHash, chains, keyOf, hash);
      OwnLink(b, c, i);
      keyOf := keyOf[h := key];
      nextHash := nextHash[h := if replaced.None? then None else nextHash[replaced.value]];
      MayPut(h, key, i, k, nextHash, keyOf, keys0);
      SpliceBucket(list, next0, chains, keys0, hash, b, i, k, [h], nextHash, keyOf);
      Store(slot, Some(h));
      chains := chains[b := Spliced(c, i, k, [h])];
      if replaced.None? {
        elems := elems + 1;
      }
      SetOfSlice(c, i, k);
      SetOfSlice([h], 0, 1);
      assert [h][0..1] == [h];
    }

    lemma SetOfSlice(c: seq<Id>, i: nat, k: nat)
      requires i <= k <= |c| && k <= i + 1
      ensures SetOf(c[i..k]) == if i < k then {c[i]} else {}
    {
      assert c[i..k] == if i < k then [c[i]] else [];
    }

    /** A handle that takes the place of position i, or goes at the end, may enter its bucket. */
    lemma MayPut(h: Id, key: int, i: nat, k: nat, next1: Links, keyOf1: map<Id, int>, keyOf0: map<Id, int>)
      requires |chains| == length > 0 && h !in Members(chains) && Bucket(hash, key, length) < length && keyOf1 == keyOf0[h := key]
      requires var c := chains[Bucket(hash, key, length)];
        && i <= k <= |c| && h in next1 && next1[h] == At(c, k) && k == (if i < |c| then i + 1 else i)
        && forall p | 0 <= p < |c| && p != i :: c[p] in keyOf0 && keyOf0[c[p]] != key
      ensures var b := Bucket(hash, key, length); MayEnter([h], next1, chains[b], i, k, keyOf1, hash, b, length)
    {
      hide Bucket;
      var c := chains[Bucket(hash, key, length)];
      assert h in c ==> h in Members(chains);
      assert forall p | 0 <= p < |c| :: c[p] in c;
    }

    lemma Shape(key: int)
      requires Ok()
      ensures |chains| == |list| == length > 0 && Bucket(hash, key, length) < length
    {
    }

    lemma OwnLink(b: nat, c: seq<Id>, i: nat)
      requires Ok() && b < length && c == chains[b]
      ensures i < |c| ==> c[i] in nextHash && nextHash[c[i]] == At(c, i + 1)
    {
      assert ChainOk(list[b], nextHash, c) && (i < |c| ==> LinkOk(nextHash, c, i));
    }

    method Remove(key: int) returns (result: Option<Id>)
      requires Ok()
      modifies this`nextHash, this`list, this`elems, this`chains
      ensures Ok() && FoundIn(old(chains), keyOf, result, key)
      ensures Members(chains) == old(Members(chains)) - (if result.Some? then {result.value} else {})
      ensures elems <= old(elems)
      ensures result == Find(old(View()), key) && View() == old(View()) - {key}
    {
      hide Total, Spliced, BucketsOk, ChainOk, NoTwins, Belongs, LinkOk, IsPower, Bucket, MapOf;
      Shape(key);
      ViewApart();
      var slot;
      ghost var i;
      slot, i := FindPointer(key);
      result := Deref(slot);
      FoundInMap(chains, keyOf, result, key);
      MapRemove(Members(chains), keyOf, key, result);
      if result.Some? {
        ghost var b := Bucket(hash, key, length);
        ghost var c := chains[b];
        MembersHaveLinks(list, nextHash, chains, keyOf, hash);
        OwnLink(b, c, i);
        SpliceBucket(list, nextHash, chains, keyOf, hash, b, i, i + 1, [], nextHash, keyOf);
        Store(slot, nextHash[result.value]);
        chains := chains[b := Spliced(c, i, i + 1, [])];
        elems := elems - 1;
        assert c[i..i + 1] == [c[i]];
      }
    }

    /** Moves every handle to a new table that is at least as long as there are handles. */
    method Resize()
      requires Ok()
      modifies this`nextHash, this`list, this`length, this`chains
      ensures Ok() && Members(chains) == old(Members(chains)) && elems <= length && View() == old(View())
    {
      hide Total, Members, BucketsOk, Unmoved, MovedSet, Bucket;
      ShapeOf();
      var newLength := 4;
      while newLength < elems
        invariant IsPower(newLength) && newLength >= 4
        decreases elems - newLength
      {
        newLength := newLength * 2;
      }
      var newList: seq<Option<Id>> := seq(newLength, _ => None);
      ghost var newChains: seq<seq<Id>> := seq(newLength, _ => []);
      ghost var next0 := nextHash;
      EmptyTable(newList, nextHash, newChains, keyOf, hash);
      NothingMoved();
      var count := 0;
      var n := length;
      for i := 0 to n
        invariant |list| == length == |chains| == n && list == old(list) && chains == old(chains) && BucketsOk(list, next0, chains, keyOf, hash)
        invariant BucketsOk(newList, nextHash, newChains, keyOf, hash) && |newList| == newLength
        invariant i < length ==> Unmoved(list, nextHash, chains, i, 0) && ChainOk(list[i], nextHash, chains[i])
        invariant Members(newChains) == Members(chains[..i]) && Total(newChains) == Total(chains[..i]) == count
      {
        BucketMoved(chains, i);
        newList, newChains, count := MoveBucket(i, newList, newChains, count, next0);
      }
      assert chains[..n] == chains;
      list, chains, length := newList, newChains, newLength;
    }

    /** Moves the handles of one bucket, each to the front of its new bucket. */
    method MoveBucket(i: nat, list1: seq<Option<Id>>, ghost chains1: seq<seq<Id>>, count: nat, ghost next0: Links)
      returns (newList: seq<Option<Id>>, ghost newChains: seq<seq<Id>>, newCount: nat)
      requires |list| == |chains| && i < |list| && BucketsOk(list, next0, chains, keyOf, hash)
      requires BucketsOk(list1, nextHash, chains1, keyOf, hash)
      requires Unmoved(list, nextHash, chains, i, 0) && ChainOk(list[i], nextHash, chains[i])
      requires Members(chains1) == MovedSet(chains, i, 0)
      modifies this`nextHash
      ensures BucketsOk(newList, nextHash, newChains, keyOf, hash) && |newList| == |list1|
      ensures i + 1 < |list| ==> Unmoved(list, nextHash, chains, i + 1, 0) && ChainOk(list[i + 1], nextHash, chains[i + 1])
      ensures Members(newChains) == MovedSet(chains, i, |chains[i]|)
      ensures Total(newChains) == Total(chains1) + |chains[i]| && newCount == count + |chains[i]|
    {
      hide Total, Members, BucketsOk, Unmoved, MovedSet, Bucket;
      newList, newChains, newCount := list1, chains1, count;
      var h := list[i];
      ghost var j := 0;
      while h.Some?
        invariant j <= |chains[i]| && h == At(chains[i], j)
        invariant BucketsOk(newList, nextHash, newChains, keyOf, hash) && |newList| == |list1|
        invariant Unmoved(list, nextHash, chains, i, j)
        invariant Members(newChains) == MovedSet(chains, i, j)
        invariant Total(newChains) == Total(chains1) + j && newCount == count + j
        decreases |chains[i]| - j
      {
        OwnNext(i, j, next0);
        BucketShape(newList, nextHash, newChains, keyOf, hash, keyOf[h.value]);
        var next := nextHash[h.value];
        var b := Bucket(hash, keyOf[h.value], |newList|);
        MoveOne(list, nextHash, next0, chains, keyOf, hash, i, j, newList[b]);
        FrontOf(newList, newChains, b, h.value, next0, i, j);
        nextHash := nextHash[h.value := newList[b]];
        newList, newChains := newList[b := h], newChains[b := [h.value] + newChains[b]];
        h, newCount, j := next, newCount + 1, j + 1;
      }
      NextBucket(i);
    }

    lemma OwnNext(i: nat, j: nat, next0: Links)
      requires |list| == |chains| && i < |list| && BucketsOk(list, next0, chains, keyOf, hash)
      requires j < |chains[i]| && Unmoved(list, nextHash, chains, i, j)
      ensures chains[i][j] in keyOf && chains[i][j] in nextHash && nextHash[chains[i][j]] == At(chains[i], j + 1)
    {
      assert LinkOk(nextHash, chains[i], j) && NoTwins(chains[i], keyOf) && chains[i][j] in chains[i];
    }

    lemma NextBucket(i: nat)
      requires |list| == |chains| && i < |list| && Unmoved(list, nextHash, chains, i, |chains[i]|)
      ensures i + 1 < |list| ==> Unmoved(list, nextHash, chains, i + 1, 0) && ChainOk(list[i + 1], nextHash, chains[i + 1])
    {
    }

    /** A moved handle goes in front of its new bucket. */
    lemma FrontOf(newList: seq<Option<Id>>, newChains: seq<seq<Id>>, b: nat, x: Id, next0: Links, i: nat, j: nat)
      requires |list| == |chains| && i < |list| && BucketsOk(list, next0, chains, keyOf, hash)
      requires BucketsOk(newList, nextHash, newChains, keyOf, hash)
      requires j < |chains[i]| && x == chains[i][j] && x in Members(chains) && x !in Members(newChains) && Members(newChains) <= Members(chains)
      requires x in keyOf && b == Bucket(hash, keyOf[x], |newList|)
      ensures b < |newList| && BucketsOk(newList[b := Some(x)], nextHash[x := newList[b]], newChains[b := [x] + newChains[b]], keyOf, hash)
      ensures Members(newChains[b := [x] + newChains[b]]) == Members(newChains) + {x}
      ensures Total(newChains[b := [x] + newChains[b]]) == Total(newChains) + 1
    {
      var c, next1 := newChains[b], nextHash[x := newList[b]];
      assert ChainOk(newList[b], nextHash, c);
      MembersHaveLinks(newList, nextHash, newChains, keyOf, hash);
      forall p | 0 <= p < |c| ensures c[p] in keyOf && keyOf[c[p]] != keyOf[x] && c[p] != x {
        assert c[p] in c && c[p] in Members(newChains);
        KeysDiffer(list, next0, chains, keyOf, hash, c[p], x);
      }
      SpliceBucket(newList, nextHash, newChains, keyOf, hash, b, 0, 0, [x], next1, keyOf);
      assert Spliced(c, 0, 0, [x]) == [x] + c;
      assert SetOf(c[0..0]) == {} && SetOf([x]) == {x};
    }

    lemma ShapeOf()
      requires Ok()
      ensures |chains| == |list| == length && length >= 4
    {
    }

    lemma NothingMoved()
      requires Ok()
      ensures Members(chains[..0]) == {} && Total(chains[..0]) == 0
      ensures Unmoved(list, nextHash, chains, 0, 0) && ChainOk(list[0], nextHash, chains[0])
    {
    }

    /** Puts a handle in and returns the one it replaces; the table grows with its handles. */
    method Insert(h: Id, key: int) returns (replaced: Option<Id>)
      requires Ok() && h !in Members(chains) && elems <= length
      modifies this
      ensures Ok() && keyOf == old(keyOf)[h := key] && elems <= length
      ensures FoundIn(old(chains), old(keyOf), replaced, key)
      ensures Members(chains) == old(Members(chains)) - (if replaced.Some? then {replaced.value} else {}) + {h}
      ensures replaced == Find(old(View()), key) && View() == old(View())[key := h]
    {
      hide BucketsOk, Total, IsPower, MapOf, Members;
      ViewApart();
      ghost var was, keys := chains, keyOf;
      replaced := Put(h, key);
      FoundInMap(was, keys, replaced, key);
      MapPut(Members(was), keys, h, key, replaced);
      if replaced.None? && elems > length {
        Resize();
      }
    }
  }
}
