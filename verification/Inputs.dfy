/** Choosing the input files of a compaction. */
module Inputs {
  import opened InternalKeys
  import opened Options
  import opened Versions

  function TotalFileSize(files: Level): nat {
    if files == [] then 0 else files[0].size + TotalFileSize(files[1..])
  }

  // ----- Key ranges

  /** lo is the least smallest key and hi the greatest largest key of the files. */
  ghost predicate IsRange(files: Level, lo: InternalKey, hi: InternalKey) {
    && (exists f :: f in files && f.smallest == lo)
    && (exists f :: f in files && f.largest == hi)
    && (forall f | f in files :: !Less(f.smallest, lo))
    && (forall f | f in files :: !Less(hi, f.largest))
  }

  lemma {:induction false} RangeOfOneMore(files: Level, f: File, lo: InternalKey, hi: InternalKey)
    requires IsRange(files, lo, hi)
    ensures IsRange(files + [f], if Less(f.smallest, lo) then f.smallest else lo, if Less(hi, f.largest) then f.largest else hi)
  {
    var all := files + [f];
    var lo', hi' := if Less(f.smallest, lo) then f.smallest else lo, if Less(hi, f.largest) then f.largest else hi;
    assert f in all && forall g | g in files :: g in all;
    var a :| a in files && a.smallest == lo;
    var b :| b in files && b.largest == hi;
    assert a in all && b in all;
    forall g | g in all ensures !Less(g.smallest, lo') && !Less(hi', g.largest) {
      assert g in files || g == f;
      LessIsStrictTotalOrder(f.smallest, lo, g.smallest);
      LessIsStrictTotalOrder(g.smallest, f.smallest, lo);
      LessIsStrictTotalOrder(hi, f.largest, g.largest);
      LessIsStrictTotalOrder(hi, g.largest, f.largest);
    }
  }

  method GetRange(inputs: Level) returns (smallest: InternalKey, largest: InternalKey)
    requires inputs != []
    ensures IsRange(inputs, smallest, largest)
  {
    smallest, largest := inputs[0].smallest, inputs[0].largest;
    for i := 1 to |inputs|
      invariant IsRange(inputs[..i], smallest, largest)
    {
      var f := inputs[i];
      assert inputs[..i + 1] == inputs[..i] + [f];
      RangeOfOneMore(inputs[..i], f, smallest, largest);
      if Less(f.smallest, smallest) {
        smallest := f.smallest;
      }
      if Less(largest, f.largest) {
        largest := f.largest;
      }
    }
    assert inputs[..|inputs|] == inputs;
  }

  // ----- Boundary files

  predicate IsBoundary(f: File, key: InternalKey) {
    Less(key, f.smallest) && f.smallest.user == key.user
  }

  method FindLargestKey(files: Level) returns (key: Option<InternalKey>)
    ensures key.None? <==> files == []
    ensures key.Some? ==> (exists f :: f in files && f.largest == key.value)
    ensures key.Some? ==> forall f | f in files :: !Less(key.value, f.largest)
  {
    if files == [] {
      return None;
    }
    var largest := files[0].largest;
    for i := 1 to |files|
      invariant exists f :: f in files && f.largest == largest
      invariant forall j | 0 <= j < i :: !Less(largest, files[j].largest)
    {
      if Less(largest, files[i].largest) {
        largest := files[i].largest;
      }
    }
    key := Some(largest);
  }

  /** The boundary file with the smallest smallest key. */
  function SmallestBoundary(files: Level, key: InternalKey): (r: Option<File>)
    ensures r.None? ==> forall f | f in files :: !IsBoundary(f, key)
    ensures r.Some? ==> r.value in files && IsBoundary(r.value, key)
    ensures r.Some? ==> forall f | f in files && IsBoundary(f, key) :: !Less(f.smallest, r.value.smallest)
  {
    if files == [] then None
    else
      var last := files[|files| - 1];
      var r := SmallestBoundary(files[..|files| - 1], key);
      if IsBoundary(last, key) && (r.None? || Less(last.smallest, r.value.smallest)) then Some(last) else r
  }

  method FindSmallestBoundaryFile(files: Level, key: InternalKey) returns (r: Option<File>)
    ensures r == SmallestBoundary(files, key)
  {
    r := None;
    for i := 0 to |files|
      invariant r == SmallestBoundary(files[..i], key)
    {
      assert files[..i + 1][..i] == files[..i];
      if IsBoundary(files[i], key) {
        if r.None? || Less(files[i].smallest, r.value.smallest) {
          r := Some(files[i]);
        }
      }
    }
    assert files[..|files|] == files;
  }

  ghost function KeysAfter(files: Level, key: InternalKey): set<InternalKey> {
    set f | f in files && Less(key, f.smallest) :: f.smallest
  }

  lemma {:induction false} SmallestNotAfterLargest(f: File)
    requires WellFormedFile(f)
    ensures !Less(f.largest, f.smallest) && f.smallest.user <= f.largest.user
  {
    FileKeysWithinBounds(f, f.entries[0]);
  }

  lemma {:induction false} KeysAfterShrinks(files: Level, key: InternalKey, f: File)
    requires WellFormedFiles(files) && f in files && Less(key, f.smallest)
    ensures KeysAfter(files, f.largest) < KeysAfter(files, key)
  {
    SmallestNotAfterLargest(f);
    assert f.smallest in KeysAfter(files, key) && f.smallest !in KeysAfter(files, f.largest);
  }

  /** The files that continue, one after the other, the versions of the user key at which `key` ends. */
  ghost function BoundaryChain(files: Level, key: InternalKey): Level
    requires WellFormedFiles(files)
    decreases KeysAfter(files, key)
  {
    var r := SmallestBoundary(files, key);
    if r.None? then []
    else
      KeysAfterShrinks(files, key, r.value);
      [r.value] + BoundaryChain(files, r.value.largest)
  }

  ghost predicate IsLargestKey(files: Level, key: InternalKey) {
    && (exists f :: f in files && f.largest == key)
    && (forall f | f in files :: !Less(key, f.largest))
  }

  /** Extends the inputs by the files that continue the versions of their last user key. */
  method AddBoundaryInputs(levelFiles: Level, inputs: Level, ghost largestKey: InternalKey) returns (r: Level)
    requires WellFormedFiles(levelFiles)
    requires inputs != [] ==> IsLargestKey(inputs, largestKey)
    ensures r == if inputs == [] then [] else inputs + BoundaryChain(levelFiles, largestKey)
  {
    hide SmallestBoundary, WellFormedFile, KeysAfter;
    r := inputs;
    var key := FindLargestKey(inputs);
    if key.None? {
      return;
    }
    var largest := key.value;
    var searching := true;
    assert r == inputs + [];
    while searching
      invariant searching ==> r + BoundaryChain(levelFiles, largest) == inputs + BoundaryChain(levelFiles, largestKey)
      invariant !searching ==> r == inputs + BoundaryChain(levelFiles, largestKey)
      decreases searching, KeysAfter(levelFiles, largest)
    {
      var boundary := FindSmallestBoundaryFile(levelFiles, largest);
      if boundary.Some? {
        KeysAfterShrinks(levelFiles, largest, boundary.value);
        assert r + ([boundary.value] + BoundaryChain(levelFiles, boundary.value.largest))
            == (r + [boundary.value]) + BoundaryChain(levelFiles, boundary.value.largest);
        r := r + [boundary.value];
        largest := boundary.value.largest;
      } else {
        searching := false;
      }
    }
  }

  // ----- Slices of a sorted level

  lemma {:induction false} SortedPositions(files: Level, i: nat, j: nat)
    requires WellFormedFiles(files) && SortedLevel(files) && i < |files| && j < |files|
    ensures i < j <==> Less(files[i].smallest, files[j].smallest)
    ensures i < j <==> Less(files[i].largest, files[j].largest)
    ensures i < j <==> Less(files[i].largest, files[j].smallest)
    ensures files[i] == files[j] ==> i == j
  {
    assert files[i] in files && files[j] in files;
    SmallestNotAfterLargest(files[i]);
    SmallestNotAfterLargest(files[j]);
    if i < j {
      assert Less(files[i].largest, files[j].smallest);
    } else if j < i {
      assert Less(files[j].largest, files[i].smallest);
    }
  }

  /** Index just past the chain of boundary files that starts at position b. */
  function BoundaryEnd(files: Level, b: nat): (r: nat)
    requires 0 < b <= |files|
    ensures b <= r <= |files|
    ensures r < |files| ==> files[r].smallest.user != files[r - 1].largest.user
    decreases |files| - b
  {
    if b < |files| && files[b].smallest.user == files[b - 1].largest.user then BoundaryEnd(files, b + 1) else b
  }

  lemma {:induction false} BoundaryAfterSlice(files: Level, b: nat)
    requires WellFormedFiles(files) && SortedLevel(files) && 0 < b <= |files|
    ensures SmallestBoundary(files, files[b - 1].largest) ==
      if b < |files| && files[b].smallest.user == files[b - 1].largest.user then Some(files[b]) else None
  {
    var key := files[b - 1].largest;
    var r := SmallestBoundary(files, key);
    if b < |files| {
      SortedPositions(files, b - 1, b);
      assert files[b] in files;
    }
    if r.Some? {
      var j :| 0 <= j < |files| && files[j] == r.value;
      SortedPositions(files, b - 1, j);
      assert b <= j;
      assert files[b] in files && files[j] in files;
      SortedPositions(files, b, j);
      SmallestNotAfterLargest(files[b]);
    }
  }

  lemma {:induction false} ChainStep(files: Level, b: nat)
    requires WellFormedFiles(files) && SortedLevel(files) && 0 < b <= |files|
    ensures BoundaryChain(files, files[b - 1].largest) ==
      if BoundaryEnd(files, b) == b then [] else [files[b]] + BoundaryChain(files, files[b].largest)
    ensures BoundaryEnd(files, b) > b ==> BoundaryEnd(files, b) == BoundaryEnd(files, b + 1)
  {
    BoundaryAfterSlice(files, b);
  }

  lemma {:induction false} ChainOfSlice(files: Level, b: nat)
    requires WellFormedFiles(files) && SortedLevel(files) && 0 < b <= |files|
    ensures BoundaryChain(files, files[b - 1].largest) == files[b..BoundaryEnd(files, b)]
    decreases |files| - b
  {
    hide BoundaryChain, WellFormedFile, SortedLevel;
    ChainStep(files, b);
    var e := BoundaryEnd(files, b);
    if e > b {
      ChainOfSlice(files, b + 1);
      assert files[b..e] == [files[b]] + files[b + 1..e];
    }
  }

  lemma {:induction false} SliceRange(files: Level, a: nat, b: nat)
    requires WellFormedFiles(files) && SortedLevel(files) && a < b <= |files|
    ensures IsRange(files[a..b], files[a].smallest, files[b - 1].largest)
    ensures IsLargestKey(files[a..b], files[b - 1].largest)
  {
    var slice := files[a..b];
    assert slice[0] == files[a] && slice[b - 1 - a] == files[b - 1];
    forall f | f in slice ensures !Less(f.smallest, files[a].smallest) && !Less(files[b - 1].largest, f.largest) {
      var j :| 0 <= j < b - a && slice[j] == f;
      assert files[a + j] == f;
      SortedPositions(files, a, a + j);
      SortedPositions(files, a + j, b - 1);
    }
  }

  lemma {:induction false} OverlapsBetween(files: Level, a: nat, i: nat, c: nat, lo: Option<UserKey>, hi: Option<UserKey>)
    requires WellFormedFiles(files) && SortedLevel(files) && a <= i <= c < |files|
    requires Overlaps(files[a], lo, hi) && Overlaps(files[c], lo, hi)
    ensures Overlaps(files[i], lo, hi)
  {
    assert files[i] in files && files[a] in files && files[c] in files;
    SmallestNotAfterLargest(files[i]);
    SortedPositions(files, a, i);
    SortedPositions(files, i, c);
  }

  lemma {:induction false} NoGapBeforeOverlap(files: Level, a: nat, b: nat, last: nat, lo: Option<UserKey>, hi: Option<UserKey>)
    requires WellFormedFiles(files) && SortedLevel(files) && a < b <= last < |files|
    requires OverlapFilter(files[..last], lo, hi) == files[a..b] && Overlaps(files[last], lo, hi)
    ensures b == last
  {
    hide OverlapFilter, Sorted, WellFormedFile, SortedLevel;
    if b < last {
      assert files[a..b][0] == files[a];
      OverlapsBetween(files, a, b, last, lo, hi);
      assert files[..last][b] == files[b];
      assert files[b] in files[a..b];
      var j :| 0 <= j < b - a && files[a..b][j] == files[b];
      SortedPositions(files, a + j, b);
    }
  }

  lemma {:induction false} SliceExtends(files: Level, a: nat, b: nat)
    requires a <= b < |files|
    ensures files[a..b] + [files[b]] == files[a..b + 1]
  {
  }

  lemma {:induction false} OverlapPrefixIsSlice(files: Level, n: nat, lo: Option<UserKey>, hi: Option<UserKey>) returns (a: nat, b: nat)
    requires WellFormedFiles(files) && SortedLevel(files) && n <= |files|
    ensures a <= b <= n && OverlapFilter(files[..n], lo, hi) == files[a..b]
  {
    if n == 0 {
      a, b := 0, 0;
    } else {
      var last := n - 1;
      a, b := OverlapPrefixIsSlice(files, last, lo, hi);
      OverlapPrefixStep(files, n, lo, hi);
      if Overlaps(files[last], lo, hi) {
        if a < b {
          NoGapBeforeOverlap(files, a, b, last, lo, hi);
        } else {
          a, b := last, last;
        }
        SliceExtends(files, a, last);
        b := n;
      }
    }
  }

  /** In a sorted level the files that overlap a range are neighbours. */
  lemma {:induction false} OverlapFilterIsSlice(files: Level, lo: Option<UserKey>, hi: Option<UserKey>) returns (a: nat, b: nat)
    requires WellFormedFiles(files) && SortedLevel(files)
    ensures a <= b <= |files| && OverlapFilter(files, lo, hi) == files[a..b]
  {
    a, b := OverlapPrefixIsSlice(files, |files|, lo, hi);
    assert files[..|files|] == files;
  }

  // ----- The level of a new memtable file

  /** No file of the level touches the user key range. */
  ghost predicate NoOverlapIn(files: Level, lo: UserKey, hi: UserKey) {
    forall f | f in files :: !Overlaps(f, Some(lo), Some(hi))
  }

  /** The range may go on from level i to the next one: it overlaps nothing there and not much below that. */
  ghost predicate MayPass(v: Version, i: nat, lo: UserKey, hi: UserKey, maxFileSize: nat)
    requires i + 2 < |v|
  {
    NoOverlapIn(v[i + 1], lo, hi) && TotalFileSize(OverlapFilter(v[i + 2], Some(lo), Some(hi))) <= 10 * maxFileSize
  }

  /** The level for the file of a memtable: one level down for each level that the range may pass, twice at most. */
  ghost predicate IsOutputLevel(v: Version, lo: UserKey, hi: UserKey, maxFileSize: nat, level: nat)
    requires |v| == NUM_LEVELS
  {
    level == if !NoOverlapIn(v[0], lo, hi) || !MayPass(v, 0, lo, hi, maxFileSize) then 0
             else if !MayPass(v, 1, lo, hi, maxFileSize) then 1 else 2
  }

  /** Pushes the file below level 0 only past levels it does not overlap, and as far as that goes. */
  method PickLevelForMemTableOutput(v: Version, lo: UserKey, hi: UserKey, maxFileSize: nat) returns (level: nat)
    requires ValidVersion(v)
    ensures level <= MAX_MEM_COMPACT_LEVEL
    ensures level > 0 ==> forall i | 0 <= i <= level :: NoOverlapIn(v[i], lo, hi)
    ensures IsOutputLevel(v, lo, hi, maxFileSize, level)
  {
    hide AgeOrdered, LevelsLayered, SortedBySmallest, DistinctNumbers, Sorted, WellFormedFile, OverlapFilter, TotalFileSize;
    level := 0;
    var overlap := SomeFileOverlapsRange(false, v[0], Some(lo), Some(hi));
    if !overlap {
      assert NoOverlapIn(v[0], lo, hi);
      while level < MAX_MEM_COMPACT_LEVEL
        invariant level <= MAX_MEM_COMPACT_LEVEL
        invariant forall i | 0 <= i <= level :: NoOverlapIn(v[i], lo, hi)
        invariant forall i | 0 <= i < level :: MayPass(v, i, lo, hi, maxFileSize)
      {
        overlap := SomeFileOverlapsRange(true, v[level + 1], Some(lo), Some(hi));
        if overlap {
          break;
        }
        assert NoOverlapIn(v[level + 1], lo, hi);
        if level + 2 < NUM_LEVELS {
          ghost var rlo, rhi;
          var overlaps;
          overlaps, rlo, rhi := GetOverlappingInputs(v[level + 2], false, Some(lo), Some(hi));
          if TotalFileSize(overlaps) > 10 * maxFileSize {
            break;
          }
        }
        level := level + 1;
      }
    }
  }
}
