/** Builds blocks: prefix compression with restarts. */
module BlockBuilders {
  import opened Coding
  import opened Varints
  import opened Comparators
  import opened BlockFormat

  /** What a builder holds after adding the pairs. */
  ghost predicate Built(pairs: seq<Pair>, marks: seq<nat>, buffer: Bytes, restarts: seq<nat>) {
    && ValidMarks(pairs, marks) && Small(pairs)
    && buffer == Data(pairs, marks, |pairs|) && restarts == Restarts(pairs, marks)
  }

  ghost function LastKey(pairs: seq<Pair>): Bytes {
    if pairs == [] then [] else pairs[|pairs| - 1].key
  }

  ghost function LastMark(marks: seq<nat>): nat {
    if marks == [] then 0 else marks[|marks| - 1]
  }

  /** Each restart point is one interval after the one before. */
  ghost predicate Even(marks: seq<nat>, interval: nat) {
    forall i | 0 < i < |marks| :: marks[i] == marks[i - 1] + interval
  }

  class BlockBuilder {
    const interval: nat
    var buffer: Bytes
    var restarts: seq<nat>
    var counter: nat
    var finished: bool
    var lastKey: Bytes
    ghost var pairs: seq<Pair>
    ghost var marks: seq<nat>

    ghost predicate Ok()
      reads this
    {
      && interval >= 1 && !finished && Built(pairs, marks, buffer, restarts)
      && lastKey == LastKey(pairs)
      && marks != [] && counter == |pairs| - LastMark(marks) <= interval && Even(marks, interval)
    }

    constructor (interval: nat)
      requires interval >= 1
      ensures Ok() && pairs == [] && this.interval == interval
    {
      this.interval := interval;
      buffer, restarts, counter, finished, lastKey := [], [0], 0, false, [];
      pairs, marks := [], [0];
    }

    method Reset()
      requires interval >= 1
      modifies this
      ensures Ok() && pairs == []
    {
      buffer, restarts, counter, finished, lastKey := [], [0], 0, false, [];
      pairs, marks := [], [0];
    }

    predicate Empty()
      reads this
    {
      buffer == []
    }

    lemma {:induction false} EmptyIs()
      requires Ok()
      ensures Empty() <==> pairs == []
      ensures ValidMarks(pairs, marks) && Small(pairs)
    {
      hide ChunkAt;
      if pairs != [] {
        OffGrows(pairs, marks, 0, |pairs|);
      }
    }

    /** How long the block would be if it were finished now. */
    function CurrentSizeEstimate(): nat
      reads this
    {
      |buffer| + |restarts| * 4 + 4
    }

    method SharedWithLast(key: Bytes) returns (shared: nat)
      ensures shared == CommonPrefix(lastKey, key)
    {
      hide CommonPrefix;
      shared := 0;
      var minLength := if |lastKey| < |key| then |lastKey| else |key|;
      while shared < minLength && lastKey[shared] == key[shared]
        invariant shared <= minLength && lastKey[..shared] == key[..shared]
      {
        assert lastKey[..shared + 1] == lastKey[..shared] + [lastKey[shared]];
        assert key[..shared + 1] == key[..shared] + [key[shared]];
        shared := shared + 1;
      }
      PrefixIs(lastKey, key, shared);
    }

    /** The pair goes in with what its key does not share, as a restart point exactly when the interval is full. */
    method Add(key: Bytes, value: Bytes)
      requires Ok() && SmallPair(Pair(key, value))
      modifies this
      ensures Ok() && pairs == old(pairs) + [Pair(key, value)]
      ensures marks == if old(|pairs| - LastMark(marks)) < interval then old(marks) else old(marks) + [old(|pairs|)]
    {
      hide Chunk, CommonPrefix, Built, LastKey;
      ghost var p, more := Pair(key, value), [];
      MarksEnd(pairs, marks, buffer, restarts);
      var shared := 0;
      if counter < interval {
        shared := SharedWithLast(key);
      } else {
        restarts := restarts + [|buffer|];
        counter := 0;
        more := [|pairs|];
      }
      OneMore(pairs, marks, buffer, old(restarts), p, more);
      AppendChunk(key, value, shared);
      SharedFront(lastKey, key, shared);
      lastKey := lastKey[..shared];
      lastKey := lastKey + key[shared..];
      counter := counter + 1;
      pairs, marks := pairs + [p], marks + more;
    }

    method AppendChunk(key: Bytes, value: Bytes, shared: nat)
      requires SmallPair(Pair(key, value)) && shared <= |key|
      modifies this`buffer
      ensures buffer == old(buffer) + Chunk(Pair(key, value), shared)
    {
      hide Varint;
      var nonShared := |key| - shared;
      var a := EncodeVarint32(shared);
      buffer := buffer + a;
      var b := EncodeVarint32(nonShared);
      buffer := buffer + b;
      var c := EncodeVarint32(|value|);
      buffer := buffer + c;
      buffer := buffer + key[shared..];
      buffer := buffer + value;
      ChunkAppended(old(buffer), Pair(key, value), shared);
    }

    method Finish() returns (block: Bytes)
      requires Ok()
      modifies this`buffer, this`finished
      ensures block == BlockOf(pairs, marks) && finished && |block| == old(CurrentSizeEstimate())
    {
      hide Fixed, Data;
      ghost var data := buffer;
      for i := 0 to |restarts|
        invariant buffer == data + Words(restarts[..i])
      {
        assert restarts[..i + 1][..i] == restarts[..i];
        assert data + (Words(restarts[..i]) + Fixed(restarts[i], 4)) == data + Words(restarts[..i]) + Fixed(restarts[i], 4);
        buffer := buffer + Fixed(restarts[i], 4);
      }
      assert restarts[..|restarts|] == restarts;
      buffer := buffer + Fixed(|restarts|, 4);
      finished := true;
      assert buffer == data + (Words(restarts) + Fixed(|restarts|, 4));
      return buffer;
    }
  }

  lemma {:induction false} PrefixIs(a: Bytes, b: Bytes, d: nat)
    requires d <= |a| && d <= |b| && a[..d] == b[..d] && (d < |a| && d < |b| ==> a[d] != b[d])
    ensures CommonPrefix(a, b) == d
  {
    if d < |a| && d < |b| {
      PrefixLength(a, b, d);
    } else if d > 0 {
      assert a[0] == a[..d][0] == b[..d][0] == b[0];
      assert a[1..][..d - 1] == a[..d][1..] == b[..d][1..] == b[1..][..d - 1];
      PrefixIs(a[1..], b[1..], d - 1);
    }
  }

  /** What the next key shares: with the last key, unless it is a restart. */
  lemma {:induction false} NextShare(pairs: seq<Pair>, marks: seq<nat>, p: Pair, more: seq<nat>)
    requires ValidMarks(pairs, marks) && (more == [] || more == [|pairs|])
    ensures ShareAt(pairs + [p], marks + more, |pairs|)
      == if more != [] then 0 else CommonPrefix(LastKey(pairs), p.key)
  {
    assert CommonPrefix([], p.key) == 0;
    assert more == [] && pairs != [] ==> |pairs| !in marks;
  }

  lemma {:induction false} RestartsStable(pairs: seq<Pair>, marks: seq<nat>, p: Pair, more: seq<nat>)
    requires ValidMarks(pairs, marks) && (more == [] || (more == [|pairs|] && pairs != []))
    ensures ValidMarks(pairs + [p], marks + more)
    ensures Restarts(pairs + [p], marks + more) == Restarts(pairs, marks) + (if more == [] then [] else [Off(pairs, marks, |pairs|)])
  {
    hide Data;
    forall m: nat | m <= |pairs| ensures Off(pairs + [p], marks + more, m) == Off(pairs, marks, m) {
      DataStable(pairs, marks, p, more, m);
    }
  }

  lemma {:induction false} MarksEnd(pairs: seq<Pair>, marks: seq<nat>, buffer: Bytes, restarts: seq<nat>)
    requires Built(pairs, marks, buffer, restarts)
    ensures marks != [] && marks[|marks| - 1] <= |pairs| && (marks[|marks| - 1] == |pairs| ==> pairs == [])
  {
    hide Data;
  }

  /** The builder's contents with one more pair. */
  lemma {:induction false} OneMore(pairs: seq<Pair>, marks: seq<nat>, buffer: Bytes, restarts: seq<nat>, p: Pair, more: seq<nat>)
    requires Built(pairs, marks, buffer, restarts) && SmallPair(p) && (more == [] || (more == [|pairs|] && pairs != []))
    ensures var shared := if more != [] then 0 else CommonPrefix(LastKey(pairs), p.key);
      Built(pairs + [p], marks + more, buffer + Chunk(p, shared), restarts + if more == [] then [] else [|buffer|])
    ensures marks + more == (if more == [] then marks else marks + [|pairs|]) && restarts + [] == restarts
    ensures LastKey(pairs + [p]) == p.key
  {
    hide Chunk, Data, CommonPrefix, Restarts, ShareAt;
    NextShare(pairs, marks, p, more);
    RestartsStable(pairs, marks, p, more);
    OneMorePair(pairs, marks, p, more);
  }

  lemma {:induction false} SharedFront(a: Bytes, b: Bytes, shared: nat)
    requires shared == 0 || shared == CommonPrefix(a, b)
    ensures shared <= |a| && shared <= |b| && a[..shared] + b[shared..] == b
  {
    hide CommonPrefix;
  }

  lemma {:induction false} ChunkAppended(before: Bytes, p: Pair, shared: nat)
    requires shared <= |p.key|
    ensures before + Varint(shared) + Varint(|p.key| - shared) + Varint(|p.value|) + p.key[shared..] + p.value
      == before + Chunk(p, shared)
  {
    hide Varint;
    var a, b, c, d := Varint(shared), Varint(|p.key| - shared), Varint(|p.value|), p.key[shared..];
    assert before + a + b + c + d + p.value == before + (a + (b + (c + (d + p.value))));
  }
}
