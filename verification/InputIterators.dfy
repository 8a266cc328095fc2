/** The iterator over all inputs of a compaction. */
module InputIterators {
  import opened InternalKeys
  import opened Options
  import opened Iterators
  import opened Merger
  import opened TwoLevel
  import opened Versions
  import opened Inputs
  import opened Compactions
  import opened CompactionInstalls
  import opened Installs
  import opened Store

  // ----- The sorted union of a set of entries

  ghost predicate DistinctKeys(E: set<Entry>) {
    forall a, b | a in E && b in E && a.key == b.key :: a == b
  }

  lemma {:induction false} SortedUnion(E: set<Entry>) returns (run: seq<Entry>)
    requires DistinctKeys(E)
    ensures Sorted(run) && Elements(run) == E
  {
    if E == {} {
      run := [];
    } else {
      var e :| e in E;
      var rest := SortedUnion(E - {e});
      forall x | x in rest ensures x.key != e.key {
        assert x in Elements(rest);
      }
      InsertKeepsSorted(rest, e);
      InsertAdds(rest, e);
      run := InsertEntry(rest, e);
    }
  }

  // ----- The files of a sorted level as one run

  function FileRuns(files: Level): seq<seq<Entry>> {
    seq(|files|, i requires 0 <= i < |files| => files[i].entries)
  }

  lemma {:induction false} FirstFileBefore(files: Level, a: Entry, b: Entry)
    requires WellFormedFiles(files) && SortedLevel(files) && files != []
    requires a in files[0].entries && b in LevelEntries(files[1..])
    ensures Less(a.key, b.key)
  {
    var g :| g in files[1..] && b in g.entries;
    var n :| 0 <= n < |files| - 1 && files[1..][n] == g;
    assert files[n + 1] == g && g in files && files[0] in files;
    FileKeysWithinBounds(files[0], a);
    FileKeysWithinBounds(g, b);
  }

  lemma {:induction false} SortedConcat(a: seq<Entry>, b: seq<Entry>)
    requires Sorted(a) && Sorted(b) && forall x, y | x in a && y in b :: Less(x.key, y.key)
    ensures Sorted(a + b) && Elements(a + b) == Elements(a) + Elements(b)
  {
    var c := a + b;
    forall i, j | 0 <= i < j < |c| ensures Less(c[i].key, c[j].key) {
      if i < |a| <= j {
        assert a[i] in a && b[j - |a|] in b;
      }
    }
  }

  lemma {:induction false} LevelRun(files: Level)
    requires WellFormedFiles(files) && SortedLevel(files)
    ensures Sorted(Flatten(FileRuns(files)))
    ensures Elements(Flatten(FileRuns(files))) == LevelEntries(files)
  {
    if files != [] {
      var head, tail := files[0].entries, Flatten(FileRuns(files[1..]));
      LevelRun(files[1..]);
      assert FileRuns(files) == [head] + FileRuns(files[1..]);
      forall x, y | x in head && y in tail ensures Less(x.key, y.key) {
        assert y in Elements(tail);
        FirstFileBefore(files, x, y);
      }
      assert WellFormedFile(files[0]);
      SortedConcat(head, tail);
      LevelEntriesSplit(files);
    } else {
      assert LevelEntries(files) == {};
    }
  }

  // ----- Building the iterator

  /** The children so far: fresh cursors whose runs are pairwise disjoint parts of the union. */
  ghost predicate Children(children: seq<RunIterator>, merged: seq<Entry>, covered: set<Entry>)
    reads children
  {
    && (forall i, j | 0 <= i < j < |children| :: children[i] != children[j])
    && (forall i | 0 <= i < |children| :: children[i].Ok() && PartOf(children[i].run, merged))
    && (forall i, j, e | 0 <= i < j < |children| && e in children[i].run :: e !in children[j].run)
    && (forall i, e | 0 <= i < |children| && e in children[i].run :: e in covered)
    && (forall e | e in covered :: exists i :: 0 <= i < |children| && e in children[i].run)
  }

  method AddChild(children: seq<RunIterator>, run: seq<Entry>, ghost merged: seq<Entry>, ghost covered: set<Entry>)
    returns (r: seq<RunIterator>)
    requires Children(children, merged, covered) && PartOf(run, merged)
    requires forall e | e in run :: e !in covered
    ensures Children(r, merged, covered + Elements(run))
    ensures |r| == |children| + 1 && r[..|children|] == children && fresh(r[|children|])
  {
    var child := new RunIterator(run);
    r := children + [child];
    forall e | e in covered + Elements(run) ensures exists i :: 0 <= i < |r| && e in r[i].run {
      if e in run {
        assert r[|children|].run == run;
      } else {
        var i :| 0 <= i < |children| && e in children[i].run;
        assert r[i] == children[i];
      }
    }
  }

  /** One child per level-0 file. */
  method AddEachFile(v: Version, inputs: Level, ghost merged: seq<Entry>) returns (children: seq<RunIterator>)
    requires ValidVersion(v) && DistinctNumbers(inputs) && Sorted(merged)
    requires forall f | f in inputs :: f in v[0]
    requires LevelEntries(inputs) <= Elements(merged)
    ensures Children(children, merged, LevelEntries(inputs)) && fresh(children)
  {
    children := [];
    assert LevelEntries(inputs[..0]) == {};
    for i := 0 to |inputs|
      invariant Children(children, merged, LevelEntries(inputs[..i])) && fresh(children)
    {
      NextFile(v, inputs, merged, i);
      children := AddChild(children, inputs[i].entries, merged, LevelEntries(inputs[..i]));
    }
    assert inputs[..|inputs|] == inputs;
  }

  lemma {:induction false} NextFile(v: Version, inputs: Level, merged: seq<Entry>, i: nat)
    requires ValidVersion(v) && DistinctNumbers(inputs) && i < |inputs| && Sorted(merged)
    requires forall f | f in inputs :: f in v[0]
    requires LevelEntries(inputs) <= Elements(merged)
    ensures PartOf(inputs[i].entries, merged)
    ensures forall e | e in inputs[i].entries :: e !in LevelEntries(inputs[..i])
    ensures LevelEntries(inputs[..i + 1]) == LevelEntries(inputs[..i]) + Elements(inputs[i].entries)
  {
    var f := inputs[i];
    assert f in inputs && WellFormedFile(f);
    forall e | e in f.entries ensures e in merged {
      assert e in LevelEntries(inputs);
    }
    forall e | e in f.entries ensures e !in LevelEntries(inputs[..i]) {
      if e in LevelEntries(inputs[..i]) {
        var g :| g in inputs[..i] && e in g.entries;
        FilesShareNothing(v, 0, f, 0, g, e);
      }
    }
    assert inputs[..i + 1] == inputs[..i] + [f];
  }

  lemma {:induction false} SliceOfSortedLevel(files: Level, a: nat, b: nat)
    requires WellFormedFiles(files) && SortedLevel(files) && a <= b <= |files|
    ensures WellFormedFiles(files[a..b]) && SortedLevel(files[a..b])
  {
    assert forall f | f in files[a..b] :: f in files;
  }

  lemma {:induction false} FirstInputs(v: Version, level: nat, inputs0: Level, inputs1: Level)
    requires ValidVersion(v) && level + 1 < NUM_LEVELS && ClosedInputs(v, level, inputs0, inputs1)
    ensures WellFormedFiles(inputs0)
    ensures if level == 0 then DistinctNumbers(inputs0) else SortedLevel(inputs0)
  {
    ClosedInputsAreFiles(v, level, inputs0, inputs1);
    if level == 0 {
      var lo, hi :| ClosedRange(v[0], lo, hi) && inputs0 == OverlapFilter(v[0], lo, hi);
      OverlapFilterKeepsDistinct(v[0], lo, hi);
    } else {
      var a: nat, b: nat :| IsSlice(v[level], inputs0, a, b) && EndsAtBoundary(v[level], b);
      SliceOfSortedLevel(v[level], a, b);
    }
  }

  lemma {:induction false} SecondInputs(v: Version, level: nat, inputs0: Level, inputs1: Level)
    requires ValidVersion(v) && level + 1 < NUM_LEVELS && ClosedInputs(v, level, inputs0, inputs1)
    ensures WellFormedFiles(inputs1) && SortedLevel(inputs1) && forall f | f in inputs1 :: f in v[level + 1]
  {
    ClosedInputsAreFiles(v, level, inputs0, inputs1);
    var lo, hi := RangeExists(inputs0);
    var a, b := OverlapFilterIsSlice(v[level + 1], Some(lo.user), Some(hi.user));
    SliceOfSortedLevel(v[level + 1], a, b);
  }

  lemma {:induction false} InputsApart(v: Version, level: nat, inputs0: Level, inputs1: Level)
    requires ValidVersion(v) && level + 1 < NUM_LEVELS
    requires (forall f | f in inputs0 :: f in v[level]) && (forall f | f in inputs1 :: f in v[level + 1])
    ensures LevelEntries(inputs0) !! LevelEntries(inputs1)
    ensures LevelEntries(inputs0) + LevelEntries(inputs1) <= VersionEntries(v)
  {
    forall e | e in LevelEntries(inputs0) ensures e in VersionEntries(v) && e !in LevelEntries(inputs1) {
      var f :| f in inputs0 && e in f.entries;
      EntryOfFile(v, level, f, e);
      if e in LevelEntries(inputs1) {
        var g :| g in inputs1 && e in g.entries;
        FilesShareNothing(v, level, f, level + 1, g, e);
      }
    }
    forall e | e in LevelEntries(inputs1) ensures e in VersionEntries(v) {
      var f :| f in inputs1 && e in f.entries;
      EntryOfFile(v, level + 1, f, e);
    }
  }

  /** The children for the inputs of `level`. */
  method AddFirstInputs(v: Version, level: nat, inputs0: Level, ghost inputs1: Level, ghost merged: seq<Entry>)
    returns (children: seq<RunIterator>)
    requires ValidVersion(v) && level + 1 < NUM_LEVELS && ClosedInputs(v, level, inputs0, inputs1)
    requires Sorted(merged) && LevelEntries(inputs0) <= Elements(merged)
    ensures Children(children, merged, LevelEntries(inputs0)) && fresh(children)
  {
    FirstInputs(v, level, inputs0, inputs1);
    ClosedInputsAreFiles(v, level, inputs0, inputs1);
    if level == 0 {
      children := AddEachFile(v, inputs0, merged);
    } else {
      children := [];
      children := AddLevel(children, inputs0, merged, {});
    }
  }

  /** One child for all files of a sorted level. */
  method AddLevel(children: seq<RunIterator>, files: Level, ghost merged: seq<Entry>, ghost covered: set<Entry>)
    returns (r: seq<RunIterator>)
    requires Children(children, merged, covered) && Sorted(merged)
    requires WellFormedFiles(files) && SortedLevel(files) && LevelEntries(files) <= Elements(merged) && LevelEntries(files) !! covered
    ensures Children(r, merged, covered + LevelEntries(files))
    ensures |r| == |children| + 1 && r[..|children|] == children && fresh(r[|children|])
  {
    LevelRun(files);
    ghost var run := Flatten(FileRuns(files));
    assert forall e :: e in run <==> e in Elements(run);
    assert forall e :: e in merged <==> e in Elements(merged);
    r := AddChild(children, Flatten(FileRuns(files)), merged, covered);
  }

  /** The iterator that reads every input entry in order: level-0 files one by one, other levels as a whole. */
  method MakeInputIterator(v: Version, level: nat, inputs0: Level, inputs1: Level) returns (input: MergingIterator)
    requires ValidVersion(v) && DistinctKeys(VersionEntries(v)) && level + 1 < NUM_LEVELS
    requires ClosedInputs(v, level, inputs0, inputs1)
    ensures input.Ok() && fresh(input) && fresh(input.children)
    ensures Elements(input.merged) == LevelEntries(inputs0) + LevelEntries(inputs1)
  {
    hide AgeOrdered, LevelsLayered, SortedLevel, SortedBySmallest, DistinctNumbers, Sorted, WellFormedFile, VersionEntries;
    ClosedInputsAreFiles(v, level, inputs0, inputs1);
    SecondInputs(v, level, inputs0, inputs1);
    InputsApart(v, level, inputs0, inputs1);
    ghost var merged := SortedUnion(LevelEntries(inputs0) + LevelEntries(inputs1));
    var children := AddFirstInputs(v, level, inputs0, inputs1, merged);
    if inputs1 != [] {
      children := AddLevel(children, inputs1, merged, LevelEntries(inputs0));
    } else {
      assert LevelEntries(inputs1) == {};
      assert LevelEntries(inputs0) + {} == LevelEntries(inputs0);
    }
    assert forall e :: e in merged <==> e in Elements(merged);
    input := new MergingIterator(children, merged);
  }
}
