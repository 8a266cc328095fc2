/** Writing runs of entries out as numbered tables. */
module Outputs {
  import opened InternalKeys
  import opened Versions
  import opened Builder
  import opened Compactions
  import opened CompactionInstalls
  import opened Machine

  lemma {:induction false} PieceIsSorted(outputs: seq<seq<Entry>>, i: nat)
    requires Sorted(Concat(outputs)) && i < |outputs|
    ensures Sorted(outputs[i])
  {
    var last := |outputs| - 1;
    var front := Concat(outputs[..last]);
    assert forall x, y | 0 <= x < y < |Concat(outputs)| :: Less(Concat(outputs)[x].key, Concat(outputs)[y].key);
    if i == last {
      forall x, y | 0 <= x < y < |outputs[last]| ensures Less(outputs[last][x].key, outputs[last][y].key) {
        assert Concat(outputs)[|front| + x] == outputs[last][x] && Concat(outputs)[|front| + y] == outputs[last][y];
      }
    } else {
      forall x, y | 0 <= x < y < |front| ensures Less(front[x].key, front[y].key) {
        assert Concat(outputs)[x] == front[x] && Concat(outputs)[y] == front[y];
      }
      PieceIsSorted(outputs[..last], i);
    }
  }

  ghost predicate Below(E: set<Entry>, bound: nat) {
    forall e | e in E :: e.key.sequence < bound
  }

  /** A table over the entries of a run. */
  method BuildTable(number: nat, run: seq<Entry>) returns (f: File)
    requires run != [] && Sorted(run) && Below(Elements(run), MAX_SEQUENCE)
    ensures WellFormedFile(f) && f.entries == run && f.number == number
  {
    var size: nat := *;
    assert forall e | e in run :: e in Elements(run);
    f := File(number, size, run[0].key, run[|run| - 1].key, run);
  }

  ghost predicate NumberedFrom(outs: Level, first: nat) {
    forall i | 0 <= i < |outs| :: outs[i].number == first + i
  }

  /** One file per output piece, numbered from `first` on. */
  method WriteOutputs(outputs: seq<seq<Entry>>, first: nat) returns (outs: Level)
    requires AllNonEmpty(outputs) && Sorted(Concat(outputs)) && Below(Elements(Concat(outputs)), MAX_SEQUENCE)
    ensures OutputFiles(outputs, outs) && NumberedFrom(outs, first)
  {
    outs := [];
    for i := 0 to |outputs|
      invariant |outs| == i && WellFormedFiles(outs) && NumberedFrom(outs, first)
      invariant forall j | 0 <= j < i :: outs[j].entries == outputs[j]
    {
      PieceIsSorted(outputs, i);
      forall e | e in Elements(outputs[i]) ensures e in Elements(Concat(outputs)) {
        ConcatMembers(outputs, e);
      }
      assert outputs[i] in outputs;
      var f := BuildTable(first + i, outputs[i]);
      outs := outs + [f];
    }
  }

  lemma {:induction false} FreshNumbers(v: Version, outs: Level, first: nat, level: nat)
    requires NumberedFrom(outs, first) && NumberedBelow(v, first) && level < |v|
    ensures DistinctNumbers(outs) && Numbers(outs) !! Numbers(v[level])
    ensures forall o | o in outs :: first <= o.number < first + |outs|
  {
  }
}
