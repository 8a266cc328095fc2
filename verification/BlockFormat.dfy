/** Blocks of key-value pairs with shared key prefixes and restart points. */
module BlockFormat {
  import opened Coding
  import opened Varints
  import opened Comparators

  datatype Pair = Pair(key: Bytes, value: Bytes)

  predicate SmallPair(p: Pair) {
    |p.key| < TWO_32 && |p.value| < TWO_32
  }

  predicate Small(pairs: seq<Pair>) {
    forall p | p in pairs :: SmallPair(p)
  }

  // ----- The bytes of a block

  /** A pair whose key shares that many bytes with the key before it. */
  function Chunk(p: Pair, shared: nat): (r: Bytes)
    requires shared <= |p.key|
    ensures |r| >= 3
  {
    Varint(shared) + (Varint(|p.key| - shared) + (Varint(|p.value|) + (p.key[shared..] + p.value)))
  }

  /** The marks are the restart points: nothing is shared there. */
  function ShareAt(pairs: seq<Pair>, marks: seq<nat>, i: nat): (n: nat)
    requires i < |pairs|
    ensures n <= |pairs[i].key|
    ensures n > 0 ==> i > 0 && n <= |pairs[i - 1].key| && pairs[i - 1].key[..n] == pairs[i].key[..n]
    ensures i == 0 || i in marks ==> n == 0
  {
    if i == 0 || i in marks then 0 else CommonPrefix(pairs[i - 1].key, pairs[i].key)
  }

  function ChunkAt(pairs: seq<Pair>, marks: seq<nat>, i: nat): (r: Bytes)
    requires i < |pairs|
    ensures |r| >= 3
  {
    Chunk(pairs[i], ShareAt(pairs, marks, i))
  }

  function Data(pairs: seq<Pair>, marks: seq<nat>, n: nat): Bytes
    requires n <= |pairs|
  {
    if n == 0 then [] else Data(pairs, marks, n - 1) + ChunkAt(pairs, marks, n - 1)
  }

  /** Where pair number n starts. */
  function Off(pairs: seq<Pair>, marks: seq<nat>, n: nat): nat
    requires n <= |pairs|
  {
    |Data(pairs, marks, n)|
  }

  ghost predicate ValidMarks(pairs: seq<Pair>, marks: seq<nat>) {
    && marks != [] && marks[0] == 0
    && (forall i, j | 0 <= i < j < |marks| :: marks[i] < marks[j])
    && (forall i | 0 < i < |marks| :: marks[i] < |pairs|)
  }

  function Restarts(pairs: seq<Pair>, marks: seq<nat>): (r: seq<nat>)
    requires forall j | 0 <= j < |marks| :: marks[j] <= |pairs|
    ensures |r| == |marks|
  {
    seq(|marks|, j requires 0 <= j < |marks| => Off(pairs, marks, marks[j]))
  }

  /** A finished block. */
  function BlockOf(pairs: seq<Pair>, marks: seq<nat>): Bytes
    requires forall j | 0 <= j < |marks| :: marks[j] <= |pairs|
  {
    Data(pairs, marks, |pairs|) + (Words(Restarts(pairs, marks)) + Fixed(|marks|, 4))
  }

  ghost predicate FitsBlock(pairs: seq<Pair>, marks: seq<nat>) {
    ValidMarks(pairs, marks) && Small(pairs) && Off(pairs, marks, |pairs|) < TWO_32 && |marks| < TWO_32
  }

  // ----- Offsets

  lemma {:induction false} OffGrows(pairs: seq<Pair>, marks: seq<nat>, i: nat, j: nat)
    requires i <= j <= |pairs|
    ensures Off(pairs, marks, i) + 3 * (j - i) <= Off(pairs, marks, j)
    ensures i < j ==> Off(pairs, marks, i + 1) <= Off(pairs, marks, j)
    ensures Data(pairs, marks, i) <= Data(pairs, marks, j)
    decreases j
  {
    hide ChunkAt;
    if i < j {
      OffGrows(pairs, marks, i, j - 1);
    }
  }

  /** The data falls into what comes before a pair, its chunk, and what comes after. */
  lemma {:induction false} SplitAt(pairs: seq<Pair>, marks: seq<nat>, i: nat)
    requires i < |pairs|
    ensures Off(pairs, marks, i + 1) <= |Data(pairs, marks, |pairs|)|
    ensures Data(pairs, marks, |pairs|)[Off(pairs, marks, i)..Off(pairs, marks, i + 1)] == ChunkAt(pairs, marks, i)
  {
    hide ChunkAt;
    OffGrows(pairs, marks, i + 1, |pairs|);
    var all := Data(pairs, marks, |pairs|);
    assert all[..Off(pairs, marks, i + 1)] == Data(pairs, marks, i + 1);
    assert all[Off(pairs, marks, i)..Off(pairs, marks, i + 1)] == Data(pairs, marks, i + 1)[Off(pairs, marks, i)..];
  }

  // ----- One more pair

  /** A later pair or restart point does not change the chunks before it. */
  lemma {:induction false} DataStable(pairs: seq<Pair>, marks: seq<nat>, p: Pair, more: seq<nat>, n: nat)
    requires n <= |pairs| && forall m | m in more :: m >= |pairs|
    ensures Data(pairs + [p], marks + more, n) == Data(pairs, marks, n)
  {
    hide Chunk;
    if n > 0 {
      DataStable(pairs, marks, p, more, n - 1);
      assert ShareAt(pairs + [p], marks + more, n - 1) == ShareAt(pairs, marks, n - 1);
    }
  }

  lemma {:induction false} OneMorePair(pairs: seq<Pair>, marks: seq<nat>, p: Pair, more: seq<nat>)
    requires forall m | m in more :: m >= |pairs|
    ensures Data(pairs + [p], marks + more, |pairs| + 1)
      == Data(pairs, marks, |pairs|) + ChunkAt(pairs + [p], marks + more, |pairs|)
  {
    hide ChunkAt;
    DataStable(pairs, marks, p, more, |pairs|);
  }
}
