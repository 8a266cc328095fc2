/** Choosing what to compact: by size, by seeks, or by a manual range. */
module Picking {
  import opened InternalKeys
  import opened Options
  import opened Versions
  import opened Inputs
  import opened Compactions

  predicate PastPointer(f: File, pointer: Option<InternalKey>) {
    pointer.None? || Less(pointer.value, f.largest)
  }

  /** The first file that ends after the compaction pointer; past the last one, the first file of all. */
  ghost predicate NextAt(files: Level, pointer: Option<InternalKey>, i: nat)
    requires i < |files|
  {
    if pointer.None? || (forall g | g in files :: !Less(pointer.value, g.largest)) then i == 0
    else Less(pointer.value, files[i].largest) && forall j | 0 <= j < i :: !Less(pointer.value, files[j].largest)
  }

  ghost predicate IsNext(files: Level, pointer: Option<InternalKey>, f: File) {
    exists i: nat :: i < |files| && files[i] == f && NextAt(files, pointer, i)
  }

  method PickFile(files: Level, pointer: Option<InternalKey>) returns (f: File)
    requires files != []
    ensures f in files && IsNext(files, pointer, f)
  {
    for i := 0 to |files|
      invariant forall j | 0 <= j < i :: !PastPointer(files[j], pointer)
    {
      if PastPointer(files[i], pointer) {
        assert files[i] in files && (i > 0 ==> !PastPointer(files[0], pointer));
        assert NextAt(files, pointer, i);
        return files[i];
      }
    }
    f := files[0];
    assert NextAt(files, pointer, 0);
  }

  /** The compaction that starts from one file of the level. */
  method PickCompaction(v: Version, level: nat, start: File, maxFileSize: nat) returns (c: Compaction)
    requires ValidVersion(v) && level + 1 < NUM_LEVELS && start in v[level]
    ensures fresh(c) && fresh(c.levelPtrs) && c.Unused() && c.level == level && c.inputVersion == v
    ensures ClosedInputs(v, level, c.inputs0, c.inputs1) && start in c.inputs0
    ensures AreGrandparents(v, level, c.inputs0, c.inputs1, c.grandparents)
  {
    var inputs := [start];
    if level == 0 {
      var smallest, largest := GetRange(inputs);
      ghost var rlo, rhi;
      inputs, rlo, rhi := GetOverlappingInputs(v[0], true, Some(smallest.user), Some(largest.user));
      SmallestNotAfterLargest(start);
    } else {
      var i :| 0 <= i < |v[level]| && v[level][i] == start;
      assert IsSlice(v[level], inputs, i, i + 1);
    }
    assert start in inputs;
    c := NewCompaction(v, level, inputs, maxFileSize);
  }

  method NewCompaction(v: Version, level: nat, inputs: Level, maxFileSize: nat) returns (c: Compaction)
    requires ValidVersion(v) && level + 1 < NUM_LEVELS && StartInputs(v[level], level, inputs)
    ensures fresh(c) && fresh(c.levelPtrs) && c.Unused() && c.level == level && c.inputVersion == v
    ensures ClosedInputs(v, level, c.inputs0, c.inputs1) && forall f | f in inputs :: f in c.inputs0
    ensures AreGrandparents(v, level, c.inputs0, c.inputs1, c.grandparents)
  {
    c := new Compaction(level, v, inputs);
    c.SetupOtherInputs(maxFileSize);
  }

  lemma {:induction false} TotalOfOneMore(files: Level, f: File)
    ensures TotalFileSize(files + [f]) == TotalFileSize(files) + f.size
  {
    if files != [] {
      assert (files + [f])[1..] == files[1..] + [f];
      TotalOfOneMore(files[1..], f);
    }
  }

  /** The inputs up to and including the first file at which the total reaches the limit. */
  method Truncate(inputs: Level, limit: nat) returns (r: Level)
    requires inputs != []
    ensures r != [] && r <= inputs
    ensures r != inputs ==> TotalFileSize(r) >= limit
    ensures forall i | 0 < i < |r| :: TotalFileSize(r[..i]) < limit
  {
    var total := 0;
    for i := 0 to |inputs|
      invariant total == TotalFileSize(inputs[..i])
      invariant forall j | 0 < j <= i :: TotalFileSize(inputs[..j]) < limit
    {
      total := total + inputs[i].size;
      TotalOfOneMore(inputs[..i], inputs[i]);
      assert inputs[..i + 1] == inputs[..i] + [inputs[i]];
      if total >= limit {
        r := inputs[..i + 1];
        assert forall j | 0 < j <= i :: r[..j] == inputs[..j];
        return;
      }
    }
    r := inputs;
  }

  /** The files that overlap the range are those from a to b. */
  ghost predicate OverlappingRun(files: Level, begin: Option<UserKey>, end: Option<UserKey>, a: nat, b: nat) {
    a <= b <= |files| && forall i | 0 <= i < |files| :: a <= i < b <==> Overlaps(files[i], begin, end)
  }

  /** The first of the files from a to b: all of them, or as many as it takes to reach the limit. */
  ghost predicate FirstOfRun(files: Level, a: nat, b: nat, limit: nat, inputs: Level)
    requires a <= b <= |files|
  {
    var n := |inputs|;
    && 0 < n <= b - a && inputs == files[a..a + n]
    && (n < b - a ==> TotalFileSize(inputs) >= limit)
    && forall i | 0 < i < n :: TotalFileSize(inputs[..i]) < limit
  }

  /**
   * What one round of a manual compaction starts from: at level 0 every file that overlaps the range;
   * above, where those files are neighbours, the first ones until the size limit is reached.
   */
  ghost predicate StartOfRange(files: Level, level: nat, begin: Option<UserKey>, end: Option<UserKey>, limit: nat, inputs: Level) {
    if level == 0 then forall f | f in files && Overlaps(f, begin, end) :: f in inputs
    else exists a: nat, b: nat :: OverlappingRun(files, begin, end, a, b) && FirstOfRun(files, a, b, limit, inputs)
  }

  lemma {:induction false} FilterIsRun(files: Level, begin: Option<UserKey>, end: Option<UserKey>, a: nat, b: nat)
    requires WellFormedFiles(files) && SortedLevel(files)
    requires a <= b <= |files| && OverlapFilter(files, begin, end) == files[a..b]
    ensures OverlappingRun(files, begin, end, a, b)
  {
    hide OverlapFilter, WellFormedFile, Overlaps, SortedLevel;
    forall i | 0 <= i < |files| ensures a <= i < b <==> Overlaps(files[i], begin, end) {
      assert files[i] in files;
      if a <= i < b {
        assert files[a..b][i - a] == files[i];
      } else if files[i] in files[a..b] {
        var j :| 0 <= j < b - a && files[a..b][j] == files[i];
        SortedPositions(files, a + j, i);
      }
    }
  }

  /** The files of a manual compaction; above level 0 they may stop early. */
  method RangeInputs(files: Level, level: nat, begin: Option<UserKey>, end: Option<UserKey>, limit: nat) returns (inputs: Level)
    requires WellFormedFiles(files) && (level > 0 ==> SortedLevel(files))
    ensures inputs == [] <==> forall f | f in files :: !Overlaps(f, begin, end)
    ensures inputs != [] ==> StartInputs(files, level, inputs)
    ensures inputs != [] ==> StartOfRange(files, level, begin, end, limit, inputs)
  {
    hide OverlapFilter, WellFormedFile, SortedLevel, TotalFileSize;
    ghost var rlo, rhi;
    inputs, rlo, rhi := GetOverlappingInputs(files, level == 0, begin, end);
    assert inputs != [] ==> inputs[0] in inputs;
    if level == 0 {
      AllOverlapping(files, begin, end, rlo, rhi);
    }
    if inputs != [] {
      if level > 0 {
        var a, b := OverlapFilterIsSlice(files, begin, end);
        FilterIsRun(files, begin, end, a, b);
        inputs := Truncate(inputs, limit);
        assert IsSlice(files, inputs, a, a + |inputs|);
        assert FirstOfRun(files, a, b, limit, inputs);
      }
    }
  }

  lemma {:induction false} AllOverlapping(files: Level, begin: Option<UserKey>, end: Option<UserKey>, rlo: Option<UserKey>, rhi: Option<UserKey>)
    requires LeastClosedRange(files, begin, end, rlo, rhi)
    ensures forall f | f in files && Overlaps(f, begin, end) :: f in OverlapFilter(files, rlo, rhi)
    ensures OverlapClosed(files, OverlapFilter(files, rlo, rhi))
    ensures (forall f | f in files :: !Overlaps(f, begin, end)) ==> OverlapFilter(files, rlo, rhi) == []
  {
    if forall f | f in files :: !Overlaps(f, begin, end) {
      assert ClosedRange(files, begin, end) && RangeContains(begin, end, begin, end);
      assert RangeContains(begin, end, rlo, rhi) && RangeContains(rlo, rhi, begin, end);
      var inputs := OverlapFilter(files, rlo, rhi);
      if inputs != [] {
        assert inputs[0] in inputs;
      }
    }
  }

  /** Where a manual compaction goes on: what it has left of the range lies at or past the end of its last input. */
  lemma {:induction false} RestOfRange(files: Level, level: nat, begin: Option<UserKey>, end: Option<UserKey>, limit: nat, start: Level, inputs: Level)
    requires WellFormedFiles(files) && (level > 0 ==> SortedLevel(files))
    requires StartOfRange(files, level, begin, end, limit, start) && (forall f | f in start :: f in inputs) && ClosedAtLevel(files, level, inputs)
    ensures forall f | f in files && Overlaps(f, begin, end) && f !in inputs :: Overlaps(f, Some(inputs[|inputs| - 1].largest.user), end)
  {
    hide TotalFileSize, WellFormedFile, SortedLevel, Overlaps;
    if level > 0 {
      var a: nat, b: nat :| OverlappingRun(files, begin, end, a, b) && FirstOfRun(files, a, b, limit, start);
      var c: nat, d: nat :| IsSlice(files, inputs, c, d);
      assert files[a] == start[0] && files[a] in inputs;
      forall f | f in files && Overlaps(f, begin, end) && f !in inputs ensures Overlaps(f, Some(inputs[|inputs| - 1].largest.user), end) {
        var i :| 0 <= i < |files| && files[i] == f;
        PastSlice(files, inputs, c, d, a, i, begin, end);
      }
    }
  }

  lemma {:induction false} PastSlice(files: Level, inputs: Level, c: nat, d: nat, a: nat, i: nat, begin: Option<UserKey>, end: Option<UserKey>)
    requires WellFormedFiles(files) && SortedLevel(files) && IsSlice(files, inputs, c, d)
    requires a <= i < |files| && files[a] in inputs && files[i] !in inputs && Overlaps(files[i], begin, end)
    ensures Overlaps(files[i], Some(inputs[|inputs| - 1].largest.user), end)
  {
    hide WellFormedFile, SortedLevel;
    var k :| 0 <= k < |inputs| && inputs[k] == files[a];
    SortedPositions(files, a, c + k);
    SortedPositions(files, c + k, a);
    SortedPositions(files, d - 1, i);
  }

  method CompactRange(v: Version, level: nat, begin: Option<UserKey>, end: Option<UserKey>, limit: nat, maxFileSize: nat)
    returns (c: Compaction?)
    requires ValidVersion(v) && level + 1 < NUM_LEVELS
    ensures c == null <==> forall f | f in v[level] :: !Overlaps(f, begin, end)
    ensures c != null ==> fresh(c) && fresh(c.levelPtrs) && c.Unused() && c.level == level && c.inputVersion == v
    ensures c != null ==> ClosedInputs(v, level, c.inputs0, c.inputs1) && AreGrandparents(v, level, c.inputs0, c.inputs1, c.grandparents)
    ensures c != null ==> forall f | f in v[level] && Overlaps(f, begin, end) && f !in c.inputs0 ::
      Overlaps(f, Some(c.inputs0[|c.inputs0| - 1].largest.user), end)
    ensures c != null ==> exists start :: StartOfRange(v[level], level, begin, end, limit, start) && forall f | f in start :: f in c.inputs0
  {
    var inputs := RangeInputs(v[level], level, begin, end, limit);
    if inputs == [] {
      return null;
    }
    c := NewCompaction(v, level, inputs, maxFileSize);
    RestOfRange(v[level], level, begin, end, limit, inputs, c.inputs0);
  }
}
