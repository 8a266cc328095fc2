/** The outputs of a compaction fit where they are installed. */
module CompactionInstalls {
  import opened InternalKeys
  import opened Options
  import opened Versions
  import opened Inputs
  import opened Builder
  import opened Installs
  import opened DropRule
  import opened Compactions

  // ----- What closed inputs leave behind

  lemma {:induction false} StrictlyNewer(E: set<Entry>, a: Entry, b: Entry)
    requires UniqueSequences(E) && a in E && b in E && Less(a.key, b.key) && a.key.user == b.key.user
    ensures a.key.sequence > b.key.sequence
  {
  }

  /** The files that stay at level 0 share no user key with the inputs. */
  lemma {:induction false} LevelZeroLeftover(v: Version, inputs0: Level, g: File, f: File)
    requires ValidVersion(v) && OverlapClosed(v[0], inputs0)
    requires g in v[0] && g !in inputs0 && f in inputs0
    ensures g.largest.user < f.smallest.user || f.largest.user < g.smallest.user
  {
    var lo, hi :| ClosedRange(v[0], lo, hi) && inputs0 == OverlapFilter(v[0], lo, hi);
    assert !Overlaps(g, lo, hi) && Overlaps(f, lo, hi);
    SmallestNotAfterLargest(f);
    SmallestNotAfterLargest(g);
  }

  lemma {:induction false} SliceMember(files: Level, a: nat, b: nat, i: nat)
    requires a <= b <= |files|
    ensures a <= i < b ==> files[i] in files[a..b]
  {
    assert a <= i < b ==> files[a..b][i - a] == files[i];
  }

  /** A file that stays at a sorted level lies before the inputs, or shares no user key with them. */
  lemma {:induction false} SortedLevelLeftover(files: Level, inputs0: Level, a: nat, b: nat, g: File, f: File)
    requires WellFormedFiles(files) && SortedLevel(files)
    requires IsSlice(files, inputs0, a, b) && EndsAtBoundary(files, b)
    requires g in files && g !in inputs0 && f in inputs0
    ensures Less(g.largest, f.smallest) || f.largest.user < g.smallest.user
  {
    var i :| 0 <= i < |files| && files[i] == g;
    var j :| 0 <= j < b - a && files[a..b][j] == f;
    assert files[a + j] == f;
    SliceMember(files, a, b, i);
    if i < a {
      SortedPositions(files, i, a + j);
    } else if i >= b {
      SortedPositions(files, a + j, b - 1);
      assert files[b - 1] in files && files[b] in files;
      SortedPositions(files, b - 1, b);
      SortedPositions(files, b, i);
      assert a + j < b - 1 ==> Less(f.largest, files[b - 1].largest);
    }
  }

  /** No file that stays at the level holds an older version of an input key. */
  lemma {:induction false} LeftoverIsNewer(v: Version, level: nat, inputs0: Level, inputs1: Level, g: File, f: File)
    requires ValidVersion(v) && UniqueSequences(VersionEntries(v)) && level + 1 < |v|
    requires ClosedInputs(v, level, inputs0, inputs1)
    requires g in v[level] && g !in inputs0 && f in inputs0
    ensures NewerFile(g, f)
  {
    forall a, b | a in g.entries && b in f.entries && a.key.user == b.key.user ensures a.key.sequence > b.key.sequence {
      FileKeysWithinBounds(g, a);
      FileKeysWithinBounds(f, b);
      EntryOfFile(v, level, g, a);
      EntryOfFile(v, level, f, b);
      if level == 0 {
        LevelZeroLeftover(v, inputs0, g, f);
      } else {
        var s: nat, t: nat :| IsSlice(v[level], inputs0, s, t) && EndsAtBoundary(v[level], t);
        SortedLevelLeftover(v[level], inputs0, s, t, g, f);
        StrictlyNewer(VersionEntries(v), a, b);
      }
    }
  }

  ghost predicate AllAfter(g: File, E: set<Entry>) {
    forall e | e in E :: Less(g.largest, e.key)
  }

  ghost predicate AllBefore(E: set<Entry>, g: File) {
    forall e | e in E :: Less(e.key, g.smallest)
  }

  /** A file that stays at the next level lies wholly on one side of everything that is merged. */
  lemma {:induction false} NextLevelLeftover(v: Version, level: nat, inputs0: Level, inputs1: Level, lo: InternalKey, hi: InternalKey, g: File)
    requires ValidVersion(v) && level + 1 < |v| && IsRange(inputs0, lo, hi)
    requires (forall f | f in inputs0 :: f in v[level])
    requires inputs1 == OverlapFilter(v[level + 1], Some(lo.user), Some(hi.user))
    requires g in v[level + 1] && g !in inputs1
    ensures AllAfter(g, LevelEntries(inputs0) + LevelEntries(inputs1)) || AllBefore(LevelEntries(inputs0) + LevelEntries(inputs1), g)
    ensures g.largest.user < lo.user || hi.user < g.smallest.user
  {
    hide AgeOrdered, LevelsLayered, SortedLevel, SortedBySmallest, DistinctNumbers, Sorted, OverlapFilter;
    SmallestNotAfterLargest(g);
    forall e | e in LevelEntries(inputs0) ensures lo.user <= e.key.user <= hi.user {
      var f :| f in inputs0 && e in f.entries;
      FileKeysWithinBounds(f, e);
      assert !Less(f.smallest, lo) && !Less(hi, f.largest);
    }
    forall e | e in LevelEntries(inputs1)
      ensures if g.largest.user < lo.user then Less(g.largest, e.key) else Less(e.key, g.smallest)
    {
      var f :| f in inputs1 && e in f.entries;
      OverlappingBesideLeftover(v, level, lo, hi, f, g, e);
    }
  }

  lemma {:induction false} OverlappingBesideLeftover(v: Version, level: nat, lo: InternalKey, hi: InternalKey, f: File, g: File, e: Entry)
    requires ValidVersion(v) && level + 1 < |v|
    requires f in v[level + 1] && g in v[level + 1] && f != g && e in f.entries
    requires g.largest.user < lo.user || hi.user < g.smallest.user
    requires !(f.largest.user < lo.user) && !(hi.user < f.smallest.user) && lo.user <= hi.user
    ensures if g.largest.user < lo.user then Less(g.largest, e.key) else Less(e.key, g.smallest)
  {
    hide AgeOrdered, LevelsLayered, SortedLevel, SortedBySmallest, DistinctNumbers, Sorted, OverlapFilter;
    FileKeysWithinBounds(f, e);
    SmallestNotAfterLargest(f);
    SmallestNotAfterLargest(g);
    ApartInLevel(v[level + 1], f, g);
  }

  // ----- Output files

  ghost predicate OutputFiles(outputs: seq<seq<Entry>>, outs: Level) {
    && |outs| == |outputs|
    && WellFormedFiles(outs)
    && forall i | 0 <= i < |outs| :: outs[i].entries == outputs[i]
  }

  lemma {:induction false} ConcatMembers(outputs: seq<seq<Entry>>, e: Entry)
    ensures e in Concat(outputs) <==> exists i :: 0 <= i < |outputs| && e in outputs[i]
  {
    if outputs != [] {
      ConcatMembers(outputs[..|outputs| - 1], e);
      var last := |outputs| - 1;
      assert outputs == outputs[..last] + [outputs[last]];
    }
  }

  lemma {:induction false} ConcatOrder(outputs: seq<seq<Entry>>, i: nat, j: nat, a: Entry, b: Entry)
    requires Sorted(Concat(outputs)) && i < j < |outputs| && a in outputs[i] && b in outputs[j]
    ensures Less(a.key, b.key)
    decreases |outputs|
  {
    var last := |outputs| - 1;
    var front := outputs[..last];
    var c := Concat(front);
    assert forall x, y | 0 <= x < y < |c| :: Concat(outputs)[x] == c[x] && Concat(outputs)[y] == c[y];
    if j < last {
      ConcatOrder(front, i, j, a, b);
    } else {
      ConcatMembers(front, a);
      assert front[i] == outputs[i];
      var x :| 0 <= x < |c| && c[x] == a;
      var y :| 0 <= y < |outputs[last]| && outputs[last][y] == b;
      assert Concat(outputs)[x] == a && Concat(outputs)[|c| + y] == b;
    }
  }

  lemma {:induction false} OutputsInOrder(outputs: seq<seq<Entry>>, outs: Level)
    requires OutputFiles(outputs, outs) && Sorted(Concat(outputs))
    ensures forall o, p | o in outs && p in outs && o != p :: Apart(o, p)
  {
    forall o, p | o in outs && p in outs && o != p ensures Apart(o, p) {
      var i :| 0 <= i < |outs| && outs[i] == o;
      var j :| 0 <= j < |outs| && outs[j] == p;
      if i < j {
        ConcatOrder(outputs, i, j, o.entries[|o.entries| - 1], p.entries[0]);
      } else {
        ConcatOrder(outputs, j, i, p.entries[|p.entries| - 1], o.entries[0]);
      }
    }
  }

  lemma {:induction false} OutputEntries(outputs: seq<seq<Entry>>, outs: Level)
    requires OutputFiles(outputs, outs)
    ensures LevelEntries(outs) == Elements(Concat(outputs))
  {
    forall e ensures e in LevelEntries(outs) <==> e in Concat(outputs) {
      ConcatMembers(outputs, e);
      if e in LevelEntries(outs) {
        var o :| o in outs && e in o.entries;
        var i :| 0 <= i < |outs| && outs[i] == o;
        assert e in outputs[i];
      }
      if e in Concat(outputs) {
        var i :| 0 <= i < |outputs| && e in outputs[i];
        assert outs[i] in outs && e in outs[i].entries;
      }
    }
  }

  lemma {:induction false} SurvivorsSorted(run: seq<Entry>, n: nat, snap: nat, v: Version, level: nat)
    requires Sorted(run) && n <= |run|
    ensures Sorted(Survivors(run, n, snap, v, level))
    ensures forall e | e in Survivors(run, n, snap, v, level) :: exists i :: 0 <= i < n && run[i] == e
  {
    if n > 0 {
      SurvivorsSorted(run, n - 1, snap, v, level);
      var front := Survivors(run, n - 1, snap, v, level);
      forall i | 0 <= i < |front| ensures Less(front[i].key, run[n - 1].key) {
        assert front[i] in front;
      }
    }
  }

  // ----- The compaction as a whole

  /** Everything that makes up one compaction of `level` into the next. */
  datatype Merge = Merge(level: nat, inputs0: Level, inputs1: Level, run: seq<Entry>, outputs: seq<seq<Entry>>, outs: Level)

  ghost function InputEntries(c: Merge): set<Entry> {
    LevelEntries(c.inputs0) + LevelEntries(c.inputs1)
  }

  ghost predicate ValidMerge(v: Version, c: Merge, snap: nat) {
    && c.level + 1 < |v|
    && ClosedInputs(v, c.level, c.inputs0, c.inputs1)
    && Sorted(c.run) && Elements(c.run) == InputEntries(c)
    && Concat(c.outputs) == Survivors(c.run, |c.run|, snap, v, c.level)
    && OutputFiles(c.outputs, c.outs)
    && DistinctNumbers(c.outs) && Numbers(c.outs) !! Numbers(v[c.level + 1])
  }

  function MergeResult(v: Version, c: Merge): Version {
    ApplyEdit(v, Installs.ReplaceEdit(c.level, c.inputs0, c.level + 1, c.inputs1, c.outs))
  }

  lemma {:induction false} ClosedInputsRange(v: Version, c: Merge) returns (lo: InternalKey, hi: InternalKey)
    requires ValidVersion(v) && c.level + 1 < |v| && ClosedInputs(v, c.level, c.inputs0, c.inputs1)
    ensures IsRange(c.inputs0, lo, hi)
    ensures c.inputs1 == OverlapFilter(v[c.level + 1], Some(lo.user), Some(hi.user))
    ensures forall f | f in c.inputs0 :: f in v[c.level]
    ensures forall f | f in c.inputs1 :: f in v[c.level + 1]
  {
    ClosedInputsAreFiles(v, c.level, c.inputs0, c.inputs1);
    lo, hi := RangeExists(c.inputs0);
  }

  lemma {:induction false} RangeExists(files: Level) returns (lo: InternalKey, hi: InternalKey)
    requires files != []
    ensures IsRange(files, lo, hi)
  {
    var n := |files| - 1;
    lo, hi := files[n].smallest, files[n].largest;
    if n > 0 {
      var lo', hi' := RangeExists(files[..n]);
      assert files == files[..n] + [files[n]];
      RangeOfOneMore(files[..n], files[n], lo', hi');
      lo, hi := if Less(lo, lo') then lo else lo', if Less(hi', hi) then hi else hi';
    }
  }

  lemma {:induction false} MergeCanReplace(v: Version, c: Merge, snap: nat)
    requires ValidVersion(v) && ValidMerge(v, c, snap)
    ensures CanReplace(v, c.level, c.inputs0, c.level + 1, c.inputs1, c.outs)
  {
    var lo, hi := ClosedInputsRange(v, c);
  }

  /** Every output entry is an input entry. */
  ghost predicate OutsFrom(c: Merge) {
    WellFormedFiles(c.outs) && LevelEntries(c.outs) <= InputEntries(c)
  }

  lemma {:induction false} MergeOutsFrom(v: Version, c: Merge, snap: nat)
    requires ValidMerge(v, c, snap)
    ensures OutsFrom(c)
  {
    OutputEntries(c.outputs, c.outs);
    SurvivorsSorted(c.run, |c.run|, snap, v, c.level);
  }

  lemma {:induction false} OutputsComeFromInputs(c: Merge, o: File, e: Entry)
    requires OutsFrom(c) && o in c.outs && e in o.entries
    ensures e in InputEntries(c)
  {
    assert e in LevelEntries(c.outs);
  }

  lemma {:induction false} InputFileOf(v: Version, c: Merge, e: Entry) returns (i: nat, f: File)
    requires ValidVersion(v) && c.level + 1 < |v| && ClosedInputs(v, c.level, c.inputs0, c.inputs1) && e in InputEntries(c)
    ensures (i == c.level && f in c.inputs0) || (i == c.level + 1 && f in c.inputs1)
    ensures f in v[i] && e in f.entries
  {
    hide AgeOrdered, LevelsLayered, SortedLevel, SortedBySmallest, DistinctNumbers, WellFormedFile, OverlapFilter;
    var lo, hi := ClosedInputsRange(v, c);
    if e in LevelEntries(c.inputs0) {
      i := c.level;
      f :| f in c.inputs0 && e in f.entries;
    } else {
      i := c.level + 1;
      f :| f in c.inputs1 && e in f.entries;
    }
  }

  lemma {:induction false} NewerThanInput(v: Version, c: Merge, i: nat, g: File, a: Entry, b: Entry)
    requires ValidVersion(v) && UniqueSequences(VersionEntries(v))
    requires c.level + 1 < |v| && ClosedInputs(v, c.level, c.inputs0, c.inputs1)
    requires i <= c.level && g in v[i] && Stays(i, g, c.level, c.inputs0, c.level + 1, c.inputs1)
    requires a in g.entries && b in InputEntries(c) && a.key.user == b.key.user
    ensures a.key.sequence > b.key.sequence
  {
    var j, f := InputFileOf(v, c, b);
    assert a in Elements(g.entries) && b in Elements(f.entries);
    if i < j {
      LayeredFiles(v, i, g, j, f);
    } else {
      LeftoverIsNewer(v, c.level, c.inputs0, c.inputs1, g, f);
    }
  }

  lemma {:induction false} OlderThanInput(v: Version, c: Merge, i: nat, g: File, a: Entry, b: Entry)
    requires ValidVersion(v) && c.level + 1 < |v| && ClosedInputs(v, c.level, c.inputs0, c.inputs1)
    requires c.level + 1 < i < |v| && g in v[i]
    requires a in g.entries && b in InputEntries(c) && a.key.user == b.key.user
    ensures b.key.sequence > a.key.sequence
  {
    var j, f := InputFileOf(v, c, b);
    assert a in Elements(g.entries) && b in Elements(f.entries);
    LayeredFiles(v, j, f, i, g);
  }

  lemma {:induction false} OneSided(E: set<Entry>, g: File, o: File)
    requires WellFormedFile(o) && o.entries[0] in E && o.entries[|o.entries| - 1] in E
    requires AllAfter(g, E) || AllBefore(E, g)
    ensures Apart(o, g)
  {
  }

  lemma {:induction false} OutputBeside(v: Version, c: Merge, g: File, o: File)
    requires ValidVersion(v) && c.level + 1 < |v| && ClosedInputs(v, c.level, c.inputs0, c.inputs1) && OutsFrom(c)
    requires g in v[c.level + 1] && g !in c.inputs1 && o in c.outs
    ensures Apart(o, g)
  {
    OutputsComeFromInputs(c, o, o.entries[0]);
    OutputsComeFromInputs(c, o, o.entries[|o.entries| - 1]);
    LeftoverOnOneSide(v, c, g);
    OneSided(InputEntries(c), g, o);
  }

  lemma {:induction false} LeftoverOnOneSide(v: Version, c: Merge, g: File)
    requires ValidVersion(v) && c.level + 1 < |v| && ClosedInputs(v, c.level, c.inputs0, c.inputs1)
    requires g in v[c.level + 1] && g !in c.inputs1
    ensures AllAfter(g, InputEntries(c)) || AllBefore(InputEntries(c), g)
  {
    hide AgeOrdered, LevelsLayered, SortedLevel, SortedBySmallest, DistinctNumbers, Sorted, WellFormedFile, OverlapFilter;
    var lo, hi := ClosedInputsRange(v, c);
    NextLevelLeftover(v, c.level, c.inputs0, c.inputs1, lo, hi, g);
  }

  lemma {:induction false} OutputBelow(v: Version, c: Merge, i: nat, g: File, o: File)
    requires ValidVersion(v) && UniqueSequences(VersionEntries(v)) && c.level + 1 < |v| && ClosedInputs(v, c.level, c.inputs0, c.inputs1) && OutsFrom(c)
    requires i <= c.level && g in v[i] && Stays(i, g, c.level, c.inputs0, c.level + 1, c.inputs1) && o in c.outs
    ensures NewerFile(g, o)
  {
    forall a, b | a in g.entries && b in o.entries && a.key.user == b.key.user ensures a.key.sequence > b.key.sequence {
      OutputsComeFromInputs(c, o, b);
      NewerThanInput(v, c, i, g, a, b);
    }
  }

  lemma {:induction false} OutputAbove(v: Version, c: Merge, i: nat, g: File, o: File)
    requires ValidVersion(v) && c.level + 1 < |v| && ClosedInputs(v, c.level, c.inputs0, c.inputs1) && OutsFrom(c)
    requires c.level + 1 < i < |v| && g in v[i] && o in c.outs
    ensures NewerFile(o, g)
  {
    forall a, b | a in g.entries && b in o.entries && a.key.user == b.key.user ensures b.key.sequence > a.key.sequence {
      OutputsComeFromInputs(c, o, b);
      OlderThanInput(v, c, i, g, a, b);
    }
  }

  lemma {:induction false} OutputFits(v: Version, c: Merge, i: nat, g: File, o: File)
    requires ValidVersion(v) && UniqueSequences(VersionEntries(v)) && c.level + 1 < |v| && ClosedInputs(v, c.level, c.inputs0, c.inputs1) && OutsFrom(c)
    requires i < |v| && g in v[i] && Stays(i, g, c.level, c.inputs0, c.level + 1, c.inputs1) && o in c.outs
    ensures FitsWith(i, g, c.level + 1, o)
  {
    if i <= c.level {
      OutputBelow(v, c, i, g, o);
    } else if i == c.level + 1 {
      OutputBeside(v, c, g, o);
    } else {
      OutputAbove(v, c, i, g, o);
    }
  }

  lemma {:induction false} OutputsFit(v: Version, c: Merge)
    requires ValidVersion(v) && UniqueSequences(VersionEntries(v)) && c.level + 1 < |v| && ClosedInputs(v, c.level, c.inputs0, c.inputs1) && OutsFrom(c)
    ensures FitsInVersion(v, c.level, c.inputs0, c.level + 1, c.inputs1, c.outs)
  {
    forall i, g, o | 0 <= i < |v| && g in v[i] && Stays(i, g, c.level, c.inputs0, c.level + 1, c.inputs1) && o in c.outs
      ensures FitsWith(i, g, c.level + 1, o)
    {
      OutputFits(v, c, i, g, o);
    }
  }

  lemma {:induction false} OutputsFitTogether(v: Version, c: Merge, snap: nat)
    requires ValidMerge(v, c, snap)
    ensures FitsWithOutputs(c.level + 1, c.outs)
  {
    SurvivorsSorted(c.run, |c.run|, snap, v, c.level);
    OutputsInOrder(c.outputs, c.outs);
  }

  /** Installing the outputs of a closed compaction keeps every invariant of the version. */
  lemma {:induction false} MergeKeepsValid(v: Version, c: Merge, snap: nat)
    requires ValidVersion(v) && UniqueSequences(VersionEntries(v)) && ValidMerge(v, c, snap)
    ensures ValidVersion(MergeResult(v, c))
  {
    hide ClosedInputs, OutputFiles, AgeOrdered, LevelsLayered, SortedLevel, SortedBySmallest, DistinctNumbers, WellFormedFile, Survivors, ApplyEdit;
    MergeCanReplace(v, c, snap);
    EditInstalls(v, c.level, c.inputs0, c.level + 1, c.inputs1, c.outs);
    MergeOutsFrom(v, c, snap);
    OutputsFit(v, c);
    OutputsFitTogether(v, c, snap);
    InstallKeepsValid(v, MergeResult(v, c), c.level, c.inputs0, c.level + 1, c.inputs1, c.outs);
  }

  /** What a compaction stores is what was stored, minus what the drop rule drops. */
  lemma {:induction false} MergeEntries(v: Version, c: Merge, snap: nat)
    requires ValidVersion(v) && UniqueSequences(VersionEntries(v)) && ValidMerge(v, c, snap)
    ensures VersionEntries(MergeResult(v, c)) == VersionEntries(v) - DroppedEntries(c.run, snap, v, c.level)
    ensures InputEntries(c) <= VersionEntries(v)
  {
    MergeCanReplace(v, c, snap);
    EditInstalls(v, c.level, c.inputs0, c.level + 1, c.inputs1, c.outs);
    InstalledEntries(v, MergeResult(v, c), c.level, c.inputs0, c.level + 1, c.inputs1, c.outs);
    OutputEntries(c.outputs, c.outs);
    SurvivorsAre(c.run, |c.run|, snap, v, c.level);
    forall e | e in InputEntries(c) ensures e in VersionEntries(v) {
      var i, f := InputFileOf(v, c, e);
      EntryOfFile(v, i, f, e);
    }
    SurvivorsComplement(v, c, snap);
  }

  lemma {:induction false} SurvivorsComplement(v: Version, c: Merge, snap: nat)
    requires Sorted(c.run) && Elements(c.run) == InputEntries(c)
    ensures Elements(Survivors(c.run, |c.run|, snap, v, c.level)) == InputEntries(c) - DroppedEntries(c.run, snap, v, c.level)
  {
    SurvivorsAre(c.run, |c.run|, snap, v, c.level);
    forall e | e in c.run ensures e in Survivors(c.run, |c.run|, snap, v, c.level) <==> e !in DroppedEntries(c.run, snap, v, c.level) {
      var i :| 0 <= i < |c.run| && c.run[i] == e;
      forall j | 0 <= j < |c.run| && j != i ensures c.run[j] != e {
        assert i < j ==> Less(c.run[i].key, c.run[j].key);
        assert j < i ==> Less(c.run[j].key, c.run[i].key);
      }
    }
    assert forall e :: e in InputEntries(c) <==> e in c.run;
  }

  // ----- Moving one file down

  function MoveResult(v: Version, level: nat, f: File): Version {
    ApplyEdit(v, Installs.ReplaceEdit(level, [f], level + 1, [], [f]))
  }

  ghost predicate ValidMove(v: Version, level: nat, f: File) {
    && level + 1 < |v| && f in v[level]
    && ClosedInputs(v, level, [f], [])
    && forall g | g in v[level + 1] :: g.number != f.number
  }

  lemma {:induction false} MovedEntries(v: Version, level: nat, f: File)
    requires ValidVersion(v) && CanReplace(v, level, [f], level + 1, [], [f])
    requires Installed(v, MoveResult(v, level, f), level, [f], level + 1, [], [f])
    ensures VersionEntries(MoveResult(v, level, f)) == VersionEntries(v)
  {
    InstalledEntries(v, MoveResult(v, level, f), level, [f], level + 1, [], [f]);
    forall e | e in LevelEntries([f]) ensures e in VersionEntries(v) {
      EntryOfFile(v, level, f, e);
    }
    assert LevelEntries([]) == {};
  }

  /** A move is a merge of one file that rewrites nothing. */
  lemma {:induction false} MoveFits(v: Version, level: nat, f: File)
    requires ValidVersion(v) && UniqueSequences(VersionEntries(v)) && ValidMove(v, level, f)
    ensures CanReplace(v, level, [f], level + 1, [], [f])
    ensures FitsInVersion(v, level, [f], level + 1, [], [f]) && FitsWithOutputs(level + 1, [f])
  {
    hide Sorted, LevelsLayered, AgeOrdered, FitsWith;
    var c := Merge(level, [f], [], f.entries, [f.entries], [f]);
    assert WellFormedFile(f) && OutsFrom(c);
    OutputsFit(v, c);
  }

  /** A lone closed input with nothing below it can be moved to the next level as it is. */
  lemma {:induction false} MoveKeepsValid(v: Version, level: nat, f: File)
    requires ValidVersion(v) && UniqueSequences(VersionEntries(v)) && ValidMove(v, level, f)
    ensures ValidVersion(MoveResult(v, level, f))
    ensures VersionEntries(MoveResult(v, level, f)) == VersionEntries(v)
  {
    MoveFits(v, level, f);
    EditInstalls(v, level, [f], level + 1, [], [f]);
    InstallKeepsValid(v, MoveResult(v, level, f), level, [f], level + 1, [], [f]);
    MovedEntries(v, level, f);
  }

  // ----- Adding files written from memtables

  function AddResult(v: Version, level: nat, outs: Level): Version {
    ApplyEdit(v, Installs.ReplaceEdit(0, [], level, [], outs))
  }

  ghost predicate NoOverlapUpTo(v: Version, level: nat, o: File) {
    forall i | 0 <= i <= level && i < |v| :: NoOverlapIn(v[i], o.smallest.user, o.largest.user)
  }

  /** New files hold newer data than the version, and go to level 0 or below levels they do not overlap. */
  ghost predicate ValidAdd(v: Version, level: nat, outs: Level) {
    && level < |v|
    && WellFormedFiles(outs) && DistinctNumbers(outs)
    && (forall o, i, g | o in outs && 0 <= i < |v| && g in v[i] :: g.number < o.number)
    && (forall o, p | o in outs && p in outs && o.number > p.number :: NewerFile(o, p))
    && (forall o | o in outs :: Newer(Elements(o.entries), VersionEntries(v)))
    && (level > 0 ==> |outs| == 1 && NoOverlapUpTo(v, level, outs[0]))
  }

  lemma {:induction false} AddedFits(v: Version, level: nat, outs: Level, i: nat, g: File, o: File)
    requires ValidVersion(v) && ValidAdd(v, level, outs)
    requires i < |v| && g in v[i] && o in outs
    ensures FitsWith(i, g, level, o)
  {
    SmallestNotAfterLargest(g);
    SmallestNotAfterLargest(o);
    if i > level || (i == level && level == 0) {
      forall a, b | a in o.entries && b in g.entries && a.key.user == b.key.user ensures a.key.sequence > b.key.sequence {
        EntryOfFile(v, i, g, b);
        assert a in Elements(o.entries);
      }
    } else {
      assert outs[0] == o;
      FileOverlapsOnSharedKey(g, o);
    }
  }

  lemma {:induction false} FileOverlapsOnSharedKey(g: File, o: File)
    requires WellFormedFile(g) && WellFormedFile(o)
    requires !Overlaps(g, Some(o.smallest.user), Some(o.largest.user))
    ensures NewerFile(g, o) && NewerFile(o, g)
  {
    forall a, b | a in g.entries && b in o.entries ensures a.key.user != b.key.user {
      FileKeysWithinBounds(g, a);
      FileKeysWithinBounds(o, b);
    }
  }

  lemma {:induction false} AddKeepsValid(v: Version, level: nat, outs: Level)
    requires ValidVersion(v) && ValidAdd(v, level, outs)
    ensures ValidVersion(AddResult(v, level, outs))
    ensures VersionEntries(AddResult(v, level, outs)) == VersionEntries(v) + LevelEntries(outs)
  {
    hide ApplyEdit, Sorted, LevelsLayered, AgeOrdered, FitsWith, WellFormedFile, SortedLevel;
    forall i, g, o | 0 <= i < |v| && g in v[i] && Stays(i, g, 0, [], level, []) && o in outs
      ensures FitsWith(i, g, level, o)
    {
      AddedFits(v, level, outs, i, g, o);
    }
    EditInstalls(v, 0, [], level, [], outs);
    InstallKeepsValid(v, AddResult(v, level, outs), 0, [], level, [], outs);
    InstalledEntries(v, AddResult(v, level, outs), 0, [], level, [], outs);
    assert LevelEntries([]) == {};
  }
}
