/** Installing new files in a version, and when the result is again a valid version. */
module Installs {
  import opened InternalKeys
  import opened Versions
  import opened Builder

  function ApplyEdit(v: Version, edit: VersionEdit): Version {
    seq(|v|, i requires 0 <= i < |v| => Saved(v[i], ApplyAt(EMPTY_LEVEL_STATE, edit, i)))
  }

  /** Delete the inputs at levels l and m, add the outputs at level m. */
  function ReplaceEdit(l: nat, inputs0: Level, m: nat, inputs1: Level, outs: Level): VersionEdit {
    VersionEdit((set f | f in inputs0 :: (l, f.number)) + (set f | f in inputs1 :: (m, f.number)),
                seq(|outs|, i requires 0 <= i < |outs| => (m, outs[i])))
  }

  ghost predicate Stays(i: nat, f: File, l: nat, inputs0: Level, m: nat, inputs1: Level) {
    !(i == l && f in inputs0) && !(i == m && f in inputs1)
  }

  /** The new version holds, level by level, the files that stay and the outputs. */
  ghost predicate Installed(v: Version, v': Version, l: nat, inputs0: Level, m: nat, inputs1: Level, outs: Level) {
    && |v'| == |v|
    && (forall i | 0 <= i < |v| :: SortedBySmallest(v'[i]))
    && (forall i, f | 0 <= i < |v| :: f in v'[i] <==> (f in v[i] && Stays(i, f, l, inputs0, m, inputs1)) || (i == m && f in outs))
  }

  // ----- The edit does what it says

  lemma {:induction false} OutputsAtLevel(newFiles: seq<(nat, File)>, outs: Level, m: nat, level: nat)
    requires |newFiles| == |outs| && forall i | 0 <= i < |outs| :: newFiles[i] == (m, outs[i])
    ensures FilesAt(newFiles, level) == if level == m then outs else []
  {
    if outs != [] {
      OutputsAtLevel(newFiles[1..], outs[1..], m, level);
      assert outs == [outs[0]] + outs[1..];
    }
  }

  ghost predicate CanReplace(v: Version, l: nat, inputs0: Level, m: nat, inputs1: Level, outs: Level) {
    && l < |v| && m < |v| && (inputs0 == [] || l != m)
    && (forall f | f in inputs0 :: f in v[l]) && (forall f | f in inputs1 :: f in v[m])
    && DistinctNumbers(outs) && Numbers(outs) !! Numbers(v[m])
  }

  lemma {:induction false} DistinctByNumber(files: Level, f: File, g: File)
    requires DistinctNumbers(files) && f in files && g in files
    ensures f.number == g.number ==> f == g
  {
  }

  lemma {:induction false} FreshNumber(files: Level, outs: Level, f: File, o: File)
    requires Numbers(outs) !! Numbers(files) && f in files && o in outs
    ensures f.number != o.number
  {
    assert f.number in Numbers(files) && o.number in Numbers(outs);
  }

  lemma {:induction false} ReplaceAtLevel(v: Version, l: nat, inputs0: Level, m: nat, inputs1: Level, outs: Level, i: nat)
    requires ValidVersion(v) && CanReplace(v, l, inputs0, m, inputs1, outs) && i < |v|
    ensures var files := Saved(v[i], ApplyAt(EMPTY_LEVEL_STATE, ReplaceEdit(l, inputs0, m, inputs1, outs), i));
      && SortedBySmallest(files)
      && forall f :: f in files <==> (f in v[i] && Stays(i, f, l, inputs0, m, inputs1)) || (i == m && f in outs)
  {
    hide AgeOrdered, LevelsLayered, SortedLevel, WellFormedFile, FileLess, Sorted;
    var edit := ReplaceEdit(l, inputs0, m, inputs1, outs);
    var del := DeletedAt(edit, i);
    var state := ApplyAt(EMPTY_LEVEL_STATE, edit, i);
    OutputsAtLevel(edit.newFiles, outs, m, i);
    AddNewFilesAdds(LevelState(del, []), edit.newFiles, i);
    assert EMPTY_LEVEL_STATE.deleted + del == del;
    forall f, g | f in v[i] && g in state.added ensures f.number != g.number {
      assert g.number in Numbers(outs) && f.number in Numbers(v[i]);
    }
    SavedIs(v[i], state);
    forall f | f in v[i] ensures f.number in del <==> !Stays(i, f, l, inputs0, m, inputs1) {
      DeletedAreInputs(v, l, inputs0, m, inputs1, outs, i, f);
    }
    forall f | f in outs && i == m ensures f.number !in state.deleted {
      assert f.number in Numbers(outs);
    }
    forall f | f in v[i] ensures f.number in state.deleted <==> f.number in del {
      assert f.number in Numbers(v[i]);
    }
  }

  lemma {:induction false} DeletedAreInputs(v: Version, l: nat, inputs0: Level, m: nat, inputs1: Level, outs: Level, i: nat, f: File)
    requires ValidVersion(v) && CanReplace(v, l, inputs0, m, inputs1, outs) && i < |v| && f in v[i]
    ensures f.number in DeletedAt(ReplaceEdit(l, inputs0, m, inputs1, outs), i) <==> !Stays(i, f, l, inputs0, m, inputs1)
  {
    hide AgeOrdered, LevelsLayered, SortedLevel, WellFormedFile, SortedBySmallest, Sorted, Numbers;
    var edit := ReplaceEdit(l, inputs0, m, inputs1, outs);
    assert f in inputs0 ==> (l, f.number) in edit.deletedFiles;
    assert f in inputs1 ==> (m, f.number) in edit.deletedFiles;
    if f.number in DeletedAt(edit, i) {
      var d :| d in edit.deletedFiles && d.0 == i && d.1 == f.number;
      if d in (set g | g in inputs0 :: (l, g.number)) {
        var g :| g in inputs0 && d == (l, g.number);
        DistinctByNumber(v[i], f, g);
      } else {
        var g :| g in inputs1 && d == (m, g.number);
        DistinctByNumber(v[i], f, g);
      }
    }
  }

  lemma {:induction false} EditInstalls(v: Version, l: nat, inputs0: Level, m: nat, inputs1: Level, outs: Level)
    requires ValidVersion(v) && CanReplace(v, l, inputs0, m, inputs1, outs)
    ensures Installed(v, ApplyEdit(v, ReplaceEdit(l, inputs0, m, inputs1, outs)), l, inputs0, m, inputs1, outs)
  {
    var v' := ApplyEdit(v, ReplaceEdit(l, inputs0, m, inputs1, outs));
    forall i | 0 <= i < |v|
      ensures SortedBySmallest(v'[i])
      ensures forall f :: f in v'[i] <==> (f in v[i] && Stays(i, f, l, inputs0, m, inputs1)) || (i == m && f in outs)
    {
      ReplaceAtLevel(v, l, inputs0, m, inputs1, outs, i);
    }
  }

  // ----- Where outputs may go

  ghost predicate Apart(f: File, g: File) {
    Less(f.largest, g.smallest) || Less(g.largest, f.smallest)
  }

  ghost predicate NewerFile(f: File, g: File) {
    Newer(Elements(f.entries), Elements(g.entries))
  }

  ghost predicate FitsWithOutputs(m: nat, outs: Level) {
    && WellFormedFiles(outs)
    && forall o, p | o in outs && p in outs && o != p :: if m == 0 then (o.number > p.number ==> NewerFile(o, p)) else Apart(o, p)
  }

  /** The output fits beside a file of its own level. */
  ghost predicate FitsBeside(m: nat, o: File, g: File) {
    if m == 0 then o.number > g.number && NewerFile(o, g) else Apart(o, g)
  }

  /** The output at level m fits with a file at level i. */
  ghost predicate FitsWith(i: nat, g: File, m: nat, o: File) {
    if i < m then NewerFile(g, o) else if i == m then FitsBeside(m, o, g) else NewerFile(o, g)
  }

  ghost predicate FitsInVersion(v: Version, l: nat, inputs0: Level, m: nat, inputs1: Level, outs: Level) {
    forall i, g, o | 0 <= i < |v| && g in v[i] && Stays(i, g, l, inputs0, m, inputs1) && o in outs :: FitsWith(i, g, m, o)
  }

  lemma {:induction false} LayeredFiles(v: Version, i: nat, f: File, j: nat, g: File)
    requires ValidVersion(v) && i < j < |v| && f in v[i] && g in v[j]
    ensures NewerFile(f, g)
  {
    assert Elements(f.entries) <= LevelEntries(v[i]) && Elements(g.entries) <= LevelEntries(v[j]);
  }

  lemma {:induction false} ApartInLevel(files: Level, f: File, g: File)
    requires SortedLevel(files) && f in files && g in files && f != g
    ensures Apart(f, g)
  {
    var i :| 0 <= i < |files| && files[i] == f;
    var j :| 0 <= j < |files| && files[j] == g;
    assert i < j || j < i;
  }

  lemma {:induction false} ApartGivesSortedLevel(files: Level)
    requires WellFormedFiles(files) && SortedBySmallest(files)
    requires forall f, g | f in files && g in files && f != g :: Apart(f, g)
    ensures SortedLevel(files)
  {
    forall i, j | 0 <= i < j < |files| ensures Less(files[i].largest, files[j].smallest) {
      var f, g := files[i], files[j];
      assert f in files && g in files && FileLess(f, g);
      FileLessIsStrictOrder(f, g, f);
      FileKeysWithinBounds(g, g.entries[0]);
      assert Apart(f, g);
    }
  }

  /** Two files of the new version, each of which stayed or is an output. */
  lemma {:induction false} InstalledLayered(v: Version, v': Version, l: nat, inputs0: Level, m: nat, inputs1: Level, outs: Level,
                                            i: nat, f: File, j: nat, g: File)
    requires ValidVersion(v) && Installed(v, v', l, inputs0, m, inputs1, outs) && m < |v|
    requires FitsInVersion(v, l, inputs0, m, inputs1, outs)
    requires i < j < |v| && f in v'[i] && g in v'[j]
    ensures NewerFile(f, g)
  {
    hide ValidVersion, SortedBySmallest, Newer;
    if f in v[i] && Stays(i, f, l, inputs0, m, inputs1) && g in v[j] && Stays(j, g, l, inputs0, m, inputs1) {
      LayeredFiles(v, i, f, j, g);
    } else if f in v[i] && Stays(i, f, l, inputs0, m, inputs1) {
      assert FitsWith(i, f, m, g);
    } else {
      assert FitsWith(j, g, m, f);
    }
  }

  lemma {:induction false} InstalledAge(v: Version, v': Version, l: nat, inputs0: Level, m: nat, inputs1: Level, outs: Level, f: File, g: File)
    requires ValidVersion(v) && Installed(v, v', l, inputs0, m, inputs1, outs) && m < |v|
    requires FitsInVersion(v, l, inputs0, m, inputs1, outs) && FitsWithOutputs(m, outs)
    requires f in v'[0] && g in v'[0] && f.number > g.number
    ensures NewerFile(f, g)
  {
    var fg, gf := FitsWith(0, f, m, g), FitsWith(0, g, m, f);
  }

  lemma {:induction false} InstalledLevel(v: Version, v': Version, l: nat, inputs0: Level, m: nat, inputs1: Level, outs: Level, i: nat)
    requires ValidVersion(v) && Installed(v, v', l, inputs0, m, inputs1, outs) && m < |v|
    requires FitsInVersion(v, l, inputs0, m, inputs1, outs) && FitsWithOutputs(m, outs) && i < |v|
    ensures WellFormedFiles(v'[i])
    ensures i > 0 ==> SortedLevel(v'[i])
    ensures i == 0 ==> AgeOrdered(v'[0])
  {
    hide LevelsLayered, DistinctNumbers, Sorted;
    if i > 0 {
      forall f, g | f in v'[i] && g in v'[i] && f != g ensures Apart(f, g) {
        if f in v[i] && Stays(i, f, l, inputs0, m, inputs1) && g in v[i] && Stays(i, g, l, inputs0, m, inputs1) {
          ApartInLevel(v[i], f, g);
        } else if f in v[i] && Stays(i, f, l, inputs0, m, inputs1) {
          assert FitsWith(i, f, m, g);
        } else if g in v[i] && Stays(i, g, l, inputs0, m, inputs1) {
          assert FitsWith(i, g, m, f);
        }
      }
      ApartGivesSortedLevel(v'[i]);
    } else {
      forall f, g | f in v'[0] && g in v'[0] && f.number > g.number ensures NewerFile(f, g) {
        InstalledAge(v, v', l, inputs0, m, inputs1, outs, f, g);
      }
    }
  }

  lemma {:induction false} DistinctFromOrder(files: Level)
    requires SortedBySmallest(files)
    requires forall f, g | f in files && g in files && f.number == g.number :: f == g
    ensures DistinctNumbers(files)
  {
    forall i, j | 0 <= i < j < |files| ensures files[i].number != files[j].number {
      assert FileLess(files[i], files[j]);
      FileLessIsStrictOrder(files[i], files[j], files[i]);
    }
  }

  lemma {:induction false} InstalledDistinct(v: Version, v': Version, l: nat, inputs0: Level, m: nat, inputs1: Level, outs: Level, i: nat)
    requires ValidVersion(v) && CanReplace(v, l, inputs0, m, inputs1, outs) && Installed(v, v', l, inputs0, m, inputs1, outs)
    requires i < |v|
    ensures DistinctNumbers(v'[i])
  {
    hide AgeOrdered, LevelsLayered, SortedLevel, SortedBySmallest, WellFormedFile;
    forall f, g | f in v'[i] && g in v'[i] && f.number == g.number ensures f == g {
      if f in v[i] && g in v[i] {
        DistinctByNumber(v[i], f, g);
      } else if f in outs && g in outs {
        DistinctByNumber(outs, f, g);
      } else if f in outs {
        FreshNumber(v[m], outs, g, f);
      } else {
        FreshNumber(v[m], outs, f, g);
      }
    }
    DistinctFromOrder(v'[i]);
  }

  /** Outputs that fit give a valid version. */
  lemma {:induction false} InstallKeepsValid(v: Version, v': Version, l: nat, inputs0: Level, m: nat, inputs1: Level, outs: Level)
    requires ValidVersion(v) && CanReplace(v, l, inputs0, m, inputs1, outs) && Installed(v, v', l, inputs0, m, inputs1, outs)
    requires FitsInVersion(v, l, inputs0, m, inputs1, outs) && FitsWithOutputs(m, outs)
    ensures ValidVersion(v')
  {
    forall i | 0 <= i < |v|
      ensures WellFormedFiles(v'[i]) && DistinctNumbers(v'[i])
      ensures i > 0 ==> SortedLevel(v'[i])
      ensures i == 0 ==> AgeOrdered(v'[i])
    {
      InstalledLevel(v, v', l, inputs0, m, inputs1, outs, i);
      InstalledDistinct(v, v', l, inputs0, m, inputs1, outs, i);
    }
    forall i, j | 0 <= i < j < |v| ensures Newer(LevelEntries(v'[i]), LevelEntries(v'[j])) {
      forall a, b | a in LevelEntries(v'[i]) && b in LevelEntries(v'[j]) && a.key.user == b.key.user
        ensures a.key.sequence > b.key.sequence
      {
        var f :| f in v'[i] && a in f.entries;
        var g :| g in v'[j] && b in g.entries;
        InstalledLayered(v, v', l, inputs0, m, inputs1, outs, i, f, j, g);
        assert a in Elements(f.entries) && b in Elements(g.entries);
      }
    }
  }

  // ----- What is stored after an install

  /** No entry is in two files of a version. */
  lemma {:induction false} FilesShareNothing(v: Version, i: nat, f: File, j: nat, g: File, e: Entry)
    requires ValidVersion(v) && i < |v| && j < |v| && f in v[i] && g in v[j]
    requires e in f.entries && e in g.entries
    ensures i == j && f == g
  {
    assert e in Elements(f.entries) && e in Elements(g.entries);
    if i < j {
      LayeredFiles(v, i, f, j, g);
    } else if j < i {
      LayeredFiles(v, j, g, i, f);
    } else if f != g {
      if i == 0 {
        DistinctByNumber(v[0], f, g);
      } else {
        ApartInLevel(v[i], f, g);
        FileKeysWithinBounds(f, e);
        FileKeysWithinBounds(g, e);
      }
    }
  }

  lemma {:induction false} StayingEntry(v: Version, l: nat, inputs0: Level, m: nat, inputs1: Level, i: nat, f: File, e: Entry)
    requires ValidVersion(v) && CanReplace(v, l, inputs0, m, inputs1, [])
    requires i < |v| && f in v[i] && e in f.entries
    ensures e in LevelEntries(inputs0) + LevelEntries(inputs1) <==> !Stays(i, f, l, inputs0, m, inputs1)
  {
    if e in LevelEntries(inputs0) {
      var g :| g in inputs0 && e in g.entries;
      FilesShareNothing(v, i, f, l, g, e);
    }
    if e in LevelEntries(inputs1) {
      var g :| g in inputs1 && e in g.entries;
      FilesShareNothing(v, i, f, m, g, e);
    }
  }

  lemma {:induction false} FileOfEntry(v: Version, e: Entry) returns (i: nat, f: File)
    requires e in VersionEntries(v)
    ensures i < |v| && f in v[i] && e in f.entries
  {
    i :| 0 <= i < |v| && e in LevelEntries(v[i]);
    f :| f in v[i] && e in f.entries;
  }

  lemma {:induction false} EntryOfFile(v: Version, i: nat, f: File, e: Entry)
    requires i < |v| && f in v[i] && e in f.entries
    ensures e in VersionEntries(v)
  {
    assert e in LevelEntries(v[i]);
  }

  lemma {:induction false} InstalledEntries(v: Version, v': Version, l: nat, inputs0: Level, m: nat, inputs1: Level, outs: Level)
    requires ValidVersion(v) && CanReplace(v, l, inputs0, m, inputs1, outs) && Installed(v, v', l, inputs0, m, inputs1, outs)
    ensures VersionEntries(v') ==
      VersionEntries(v) - (LevelEntries(inputs0) + LevelEntries(inputs1)) + LevelEntries(outs)
  {
    hide AgeOrdered, LevelsLayered, SortedLevel, SortedBySmallest, Sorted, WellFormedFile;
    var gone := LevelEntries(inputs0) + LevelEntries(inputs1);
    forall e | e in VersionEntries(v') ensures e in VersionEntries(v) - gone + LevelEntries(outs) {
      var i, f := FileOfEntry(v', e);
      if i == m && f in outs {
        assert e in LevelEntries(outs);
      } else {
        assert Stays(i, f, l, inputs0, m, inputs1) && f in v[i];
        EntryOfFile(v, i, f, e);
        StayingEntry(v, l, inputs0, m, inputs1, i, f, e);
      }
    }
    forall e | e in LevelEntries(outs) ensures e in VersionEntries(v') {
      var o :| o in outs && e in o.entries;
      EntryOfFile(v', m, o, e);
    }
    forall e | e in VersionEntries(v) - gone ensures e in VersionEntries(v') {
      var i, f := FileOfEntry(v, e);
      StayingEntry(v, l, inputs0, m, inputs1, i, f, e);
      EntryOfFile(v', i, f, e);
    }
  }
}
