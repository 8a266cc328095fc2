/** Applying version edits: the builder that merges a run of edits into one new version. */
module Builder {
  import opened InternalKeys
  import opened Versions

  // What an edit does to files; VersionRecovery relates it to the edits on bytes of VersionEdits.
  datatype VersionEdit = VersionEdit(deletedFiles: set<(nat, nat)>, newFiles: seq<(nat, File)>)

  // ----- The state of the builder at one level

  datatype LevelState = LevelState(deleted: set<nat>, added: Level)

  const EMPTY_LEVEL_STATE := LevelState({}, [])

  /** Insertion into the ordered set of added files; an equivalent file is already there. */
  function InsertFile(files: Level, f: File): (r: Level)
    ensures SortedBySmallest(files) ==> SortedBySmallest(r)
    ensures forall g :: g in r ==> g in files || g == f
  {
    if files == [] || FileLess(f, files[0]) then
      assert forall g | g in files :: SortedBySmallest(files) && FileLess(f, files[0]) ==> FileLess(f, g);
      [f] + files
    else if FileLess(files[0], f) then
      var rest := InsertFile(files[1..], f);
      assert forall i | 0 <= i < |rest| :: rest[i] in rest;
      [files[0]] + rest
    else files
  }

  function AddNewFiles(state: LevelState, newFiles: seq<(nat, File)>, level: nat): LevelState
    decreases |newFiles|
  {
    if newFiles == [] then state
    else
      var (l, f) := newFiles[0];
      var next := if l == level then LevelState(state.deleted - {f.number}, InsertFile(state.added, f)) else state;
      AddNewFiles(next, newFiles[1..], level)
  }

  function DeletedAt(edit: VersionEdit, level: nat): set<nat> {
    set d | d in edit.deletedFiles && d.0 == level :: d.1
  }

  function ApplyAt(state: LevelState, edit: VersionEdit, level: nat): LevelState {
    AddNewFiles(LevelState(state.deleted + DeletedAt(edit, level), state.added), edit.newFiles, level)
  }

  // ----- Saving a level

  /** Base and added files merged by smallest key; base files come first on ties. */
  function MergeFiles(base: Level, added: Level): Level {
    if added == [] then base
    else if base != [] && !FileLess(added[0], base[0]) then [base[0]] + MergeFiles(base[1..], added)
    else [added[0]] + MergeFiles(base, added[1..])
  }

  function KeepUndeleted(files: Level, deleted: set<nat>): Level {
    if files == [] then []
    else (if files[0].number in deleted then [] else [files[0]]) + KeepUndeleted(files[1..], deleted)
  }

  function Saved(base: Level, state: LevelState): Level {
    KeepUndeleted(MergeFiles(base, state.added), state.deleted)
  }

  /** First position at or after `from` whose file is past f. */
  method UpperBound(base: Level, from: nat, f: File) returns (pos: nat)
    requires SortedBySmallest(base) && from <= |base|
    ensures from <= pos <= |base|
    ensures forall i | from <= i < pos :: !FileLess(f, base[i])
    ensures pos < |base| ==> FileLess(f, base[pos])
  {
    var right := |base|;
    pos := from;
    while pos < right
      invariant from <= pos <= right <= |base|
      invariant forall i | from <= i < pos :: !FileLess(f, base[i])
      invariant right < |base| ==> FileLess(f, base[right])
    {
      var mid := (pos + right) / 2;
      if FileLess(f, base[mid]) {
        right := mid;
      } else {
        forall i | from <= i <= mid ensures !FileLess(f, base[i]) {
          FileLessIsStrictOrder(f, base[i], base[mid]);
        }
        pos := mid + 1;
      }
    }
  }

  lemma {:induction false} MergeTakesBase(base: Level, bi: nat, added: Level, ai: nat)
    requires bi < |base| && ai < |added| && !FileLess(added[ai], base[bi])
    ensures MergeFiles(base[bi..], added[ai..]) == [base[bi]] + MergeFiles(base[bi + 1..], added[ai..])
  {
    assert base[bi..][1..] == base[bi + 1..];
  }

  lemma {:induction false} MergeTakesAdded(base: Level, bi: nat, added: Level, ai: nat)
    requires bi <= |base| && ai < |added| && (bi < |base| ==> FileLess(added[ai], base[bi]))
    ensures MergeFiles(base[bi..], added[ai..]) == [added[ai]] + MergeFiles(base[bi..], added[ai + 1..])
  {
    assert added[ai..][1..] == added[ai + 1..];
  }

  /** What is written so far, followed by what is still to be kept, is the whole level. */
  ghost predicate Owes(written: Level, files: Level, deleted: set<nat>, whole: Level) {
    written + KeepUndeleted(files, deleted) == whole
  }

  lemma {:induction false} OwesEverything(base: Level, state: LevelState)
    ensures Owes([], MergeFiles(base, state.added), state.deleted, Saved(base, state))
  {
  }

  lemma {:induction false} OwesNothing(written: Level, deleted: set<nat>, whole: Level)
    requires Owes(written, [], deleted, whole)
    ensures written == whole
  {
  }

  lemma {:induction false} MergeNothing(base: Level)
    ensures MergeFiles(base, []) == base
  {
  }

  /** Appends the file to the new version unless it was deleted. */
  method MaybeAddFile(files: Level, f: File, deleted: set<nat>, ghost rest: Level, ghost whole: Level) returns (r: Level)
    requires Owes(files, [f] + rest, deleted, whole)
    ensures Owes(r, rest, deleted, whole)
    ensures r == if f.number in deleted then files else files + [f]
  {
    assert ([f] + rest)[1..] == rest;
    r := if f.number in deleted then files else files + [f];
  }

  method SaveTo(base: Level, state: LevelState) returns (r: Level)
    requires SortedBySmallest(base)
    ensures r == Saved(base, state)
  {
    hide SortedBySmallest, FileLess, MergeFiles, Owes, Saved;
    r := [];
    var added, deleted := state.added, state.deleted;
    var bi, ai := 0, 0;
    ghost var whole := Saved(base, state);
    OwesEverything(base, state);
    assert base[0..] == base && added[0..] == added;
    while ai < |added|
      invariant 0 <= bi <= |base| && 0 <= ai <= |added|
      invariant Owes(r, MergeFiles(base[bi..], added[ai..]), deleted, whole)
    {
      var bpos := UpperBound(base, bi, added[ai]);
      while bi < bpos
        invariant 0 <= bi <= bpos
        invariant forall i | bi <= i < bpos :: !FileLess(added[ai], base[i])
        invariant Owes(r, MergeFiles(base[bi..], added[ai..]), deleted, whole)
      {
        MergeTakesBase(base, bi, added, ai);
        r := MaybeAddFile(r, base[bi], deleted, MergeFiles(base[bi + 1..], added[ai..]), whole);
        bi := bi + 1;
      }
      MergeTakesAdded(base, bi, added, ai);
      r := MaybeAddFile(r, added[ai], deleted, MergeFiles(base[bi..], added[ai + 1..]), whole);
      ai := ai + 1;
    }
    assert added[ai..] == [];
    MergeNothing(base[bi..]);
    while bi < |base|
      invariant 0 <= bi <= |base|
      invariant Owes(r, base[bi..], deleted, whole)
    {
      assert base[bi..] == [base[bi]] + base[bi + 1..];
      r := MaybeAddFile(r, base[bi], deleted, base[bi + 1..], whole);
      bi := bi + 1;
    }
    assert base[bi..] == [];
    OwesNothing(r, deleted, whole);
  }

  // ----- What is saved

  lemma {:induction false} KeepUndeletedKeeps(files: Level, deleted: set<nat>)
    ensures forall f :: f in KeepUndeleted(files, deleted) <==> f in files && f.number !in deleted
  {
    if files != [] {
      KeepUndeletedKeeps(files[1..], deleted);
    }
  }

  lemma {:induction false} KeepUndeletedStaysSorted(files: Level, deleted: set<nat>)
    requires SortedBySmallest(files)
    ensures SortedBySmallest(KeepUndeleted(files, deleted))
  {
    if files != [] {
      KeepUndeletedStaysSorted(files[1..], deleted);
      KeepUndeletedKeeps(files[1..], deleted);
      var rest := KeepUndeleted(files[1..], deleted);
      forall i | 0 <= i < |rest| ensures FileLess(files[0], rest[i]) {
        assert rest[i] in files[1..];
      }
    }
  }

  lemma {:induction false} MergeFilesMerges(base: Level, added: Level)
    ensures forall f :: f in MergeFiles(base, added) <==> f in base || f in added
    decreases |base| + |added|
  {
    if added == [] {
    } else if base != [] && !FileLess(added[0], base[0]) {
      MergeFilesMerges(base[1..], added);
      assert base == [base[0]] + base[1..];
    } else {
      MergeFilesMerges(base, added[1..]);
      assert added == [added[0]] + added[1..];
    }
  }

  ghost predicate FreshNames(base: Level, added: Level) {
    forall f, g | f in base && g in added :: f.smallest != g.smallest || f.number != g.number
  }

  lemma {:induction false} HeadBelowMerge(head: File, base: Level, added: Level)
    requires forall f | f in base || f in added :: FileLess(head, f)
    requires SortedBySmallest(MergeFiles(base, added))
    ensures SortedBySmallest([head] + MergeFiles(base, added))
  {
    MergeFilesMerges(base, added);
    var m := MergeFiles(base, added);
    forall i | 0 <= i < |m| ensures FileLess(head, m[i]) {
      assert m[i] in m;
    }
  }

  lemma {:induction false} MergeFilesStaysSorted(base: Level, added: Level)
    requires SortedBySmallest(base) && SortedBySmallest(added) && FreshNames(base, added)
    ensures SortedBySmallest(MergeFiles(base, added))
    decreases |base| + |added|
  {
    if added == [] {
    } else if base != [] && !FileLess(added[0], base[0]) {
      MergeFilesStaysSorted(base[1..], added);
      FileLessIsStrictOrder(added[0], base[0], base[0]);
      assert base[0] in base && added[0] in added;
      forall f | f in base[1..] || f in added ensures FileLess(base[0], f) {
        FileLessIsStrictOrder(base[0], added[0], f);
      }
      HeadBelowMerge(base[0], base[1..], added);
    } else {
      MergeFilesStaysSorted(base, added[1..]);
      forall f | f in base || f in added[1..] ensures FileLess(added[0], f) {
        if base != [] {
          FileLessIsStrictOrder(added[0], base[0], f);
        }
      }
      HeadBelowMerge(added[0], base, added[1..]);
    }
  }

  /** The saved level: base and added files in order, minus the deleted ones. */
  lemma {:induction false} SavedIs(base: Level, state: LevelState)
    requires SortedBySmallest(base) && SortedBySmallest(state.added) && FreshNames(base, state.added)
    ensures SortedBySmallest(Saved(base, state))
    ensures forall f :: f in Saved(base, state) <==> (f in base || f in state.added) && f.number !in state.deleted
  {
    MergeFilesStaysSorted(base, state.added);
    MergeFilesMerges(base, state.added);
    KeepUndeletedStaysSorted(MergeFiles(base, state.added), state.deleted);
    KeepUndeletedKeeps(MergeFiles(base, state.added), state.deleted);
  }

  lemma {:induction false} FirstIsMember(a: Level)
    requires a != []
    ensures a[0] in a
  {
  }

  lemma {:induction false} SortedFilesUnique(a: Level, b: Level)
    requires SortedBySmallest(a) && SortedBySmallest(b)
    requires forall f :: f in a <==> f in b
    ensures a == b
  {
    if a == [] && b != [] {
      FirstIsMember(b);
      assert false;
    } else if a != [] && b == [] {
      FirstIsMember(a);
      assert false;
    } else if a == [] {
    } else {
      assert a[0] in b && b[0] in a;
      FileLessIsStrictOrder(a[0], b[0], a[0]);
      assert a[0] == b[0];
      forall f ensures f in a[1..] <==> f in b[1..] {
        SortedTail(a, f);
        SortedTail(b, f);
      }
      SortedFilesUnique(a[1..], b[1..]);
    }
  }

  lemma {:induction false} SortedTail(a: Level, f: File)
    requires SortedBySmallest(a) && a != []
    ensures f in a[1..] <==> f in a && f != a[0]
  {
    assert a == [a[0]] + a[1..];
    if f in a[1..] {
      var i :| 0 <= i < |a[1..]| && a[1..][i] == f;
      assert FileLess(a[0], a[i + 1]);
      FileLessIsStrictOrder(f, f, f);
    }
  }

  // ----- What an edit adds

  ghost function Numbers(files: Level): set<nat> {
    set f | f in files :: f.number
  }

  /** The files that an edit adds at one level, in order. */
  function FilesAt(newFiles: seq<(nat, File)>, level: nat): Level {
    if newFiles == [] then []
    else (if newFiles[0].0 == level then [newFiles[0].1] else []) + FilesAt(newFiles[1..], level)
  }

  lemma {:induction false} InsertFileInserts(files: Level, f: File)
    requires forall g | g in files :: g.number != f.number
    ensures forall g :: g in InsertFile(files, f) <==> g in files || g == f
  {
    if files != [] && !FileLess(f, files[0]) {
      InsertFileInserts(files[1..], f);
      assert files == [files[0]] + files[1..];
    }
  }

  lemma {:induction false} AddNewFilesAdds(state: LevelState, newFiles: seq<(nat, File)>, level: nat)
    requires SortedBySmallest(state.added) && DistinctNumbers(FilesAt(newFiles, level))
    requires Numbers(FilesAt(newFiles, level)) !! Numbers(state.added)
    ensures var r := AddNewFiles(state, newFiles, level);
      && r.deleted == state.deleted - Numbers(FilesAt(newFiles, level))
      && SortedBySmallest(r.added)
      && forall f :: f in r.added <==> f in state.added || f in FilesAt(newFiles, level)
    decreases |newFiles|
  {
    hide SortedBySmallest, FileLess, InsertFile;
    if newFiles == [] {
      assert Numbers([]) == {};
    } else {
      var (l, f) := newFiles[0];
      var files, rest := FilesAt(newFiles, level), FilesAt(newFiles[1..], level);
      if l == level {
        assert files == [f] + rest && files[1..] == rest;
        assert f.number in Numbers(files);
        assert Numbers(files) == {f.number} + Numbers(rest);
        forall g | g in state.added ensures g.number != f.number {
          assert g.number in Numbers(state.added);
        }
        InsertFileInserts(state.added, f);
        var next := LevelState(state.deleted - {f.number}, InsertFile(state.added, f));
        forall g | g in rest ensures g.number != f.number {
          var n :| 0 <= n < |rest| && rest[n] == g;
          assert files[n + 1] == g;
        }
        assert Numbers(rest) !! Numbers(next.added);
        AddNewFilesAdds(next, newFiles[1..], level);
      } else {
        assert files == rest;
        AddNewFilesAdds(state, newFiles[1..], level);
      }
    }
  }

  // ----- The builder

  class VersionBuilder {
    const base: Version
    const levels: array<LevelState>

    constructor (base: Version)
      ensures this.base == base && fresh(levels) && levels.Length == |base|
      ensures forall i | 0 <= i < levels.Length :: levels[i] == EMPTY_LEVEL_STATE
    {
      this.base := base;
      levels := new LevelState[|base|](_ => EMPTY_LEVEL_STATE);
    }

    /** Applies one edit on top of those applied before. */
    method Apply(edit: VersionEdit)
      requires forall n | 0 <= n < |edit.newFiles| :: edit.newFiles[n].0 < levels.Length
      modifies levels
      ensures forall i | 0 <= i < levels.Length :: levels[i] == ApplyAt(old(levels[i]), edit, i)
    {
      for i := 0 to levels.Length
        invariant forall j | 0 <= j < levels.Length ::
          levels[j] == if j < i then LevelState(old(levels[j]).deleted + DeletedAt(edit, j), old(levels[j]).added) else old(levels[j])
      {
        levels[i] := LevelState(levels[i].deleted + DeletedAt(edit, i), levels[i].added);
      }
      var newFiles := edit.newFiles;
      for n := 0 to |newFiles|
        invariant forall i | 0 <= i < levels.Length :: AddNewFiles(levels[i], newFiles[n..], i) == ApplyAt(old(levels[i]), edit, i)
      {
        var (l, f) := newFiles[n];
        assert newFiles[n..][1..] == newFiles[n + 1..];
        levels[l] := LevelState(levels[l].deleted - {f.number}, InsertFile(levels[l].added, f));
      }
      assert newFiles[|newFiles|..] == [];
    }

    method Save() returns (v: Version)
      requires levels.Length == |base| && forall i | 0 <= i < |base| :: SortedBySmallest(base[i])
      ensures |v| == |base| && forall i | 0 <= i < |v| :: v[i] == Saved(base[i], levels[i])
    {
      v := [];
      for i := 0 to |base|
        invariant |v| == i && forall j | 0 <= j < i :: v[j] == Saved(base[j], levels[j])
      {
        var files := SaveTo(base[i], levels[i]);
        v := v + [files];
      }
    }
  }

  // ----- Many edits, one save

  function ApplyAll(state: LevelState, edits: seq<VersionEdit>, level: nat): LevelState
    decreases |edits|
  {
    if edits == [] then state else ApplyAll(ApplyAt(state, edits[0], level), edits[1..], level)
  }

  /** Installing the edits one after the other, each as a version of its own. */
  function InstallAll(base: Level, edits: seq<VersionEdit>, level: nat): Level
    decreases |edits|
  {
    if edits == [] then base else InstallAll(Saved(base, ApplyAt(EMPTY_LEVEL_STATE, edits[0], level)), edits[1..], level)
  }

  /** No number is added twice at the level, counting those in use from the start. */
  ghost predicate AddedOnce(used: set<nat>, edits: seq<VersionEdit>, level: nat)
    decreases |edits|
  {
    edits == [] ||
    var files := FilesAt(edits[0].newFiles, level);
    DistinctNumbers(files) && Numbers(files) !! used && AddedOnce(used + Numbers(files), edits[1..], level)
  }

  lemma {:induction false} NumberOf(files: Level, f: File)
    requires f in files
    ensures f.number in Numbers(files)
  {
  }

  lemma {:induction false} DisjointIsFresh(base: Level, added: Level)
    requires Numbers(base) !! Numbers(added)
    ensures FreshNames(base, added)
  {
    forall f, g | f in base && g in added ensures f.number != g.number {
      NumberOf(base, f);
      NumberOf(added, g);
    }
  }

  /** Saving and then applying an edit is applying the edit and then saving. */
  lemma {:induction false} ApplyCommutesWithSave(base: Level, state: LevelState, edit: VersionEdit, level: nat)
    requires SortedBySmallest(base) && SortedBySmallest(state.added) && Numbers(base) !! Numbers(state.added)
    requires var files := FilesAt(edit.newFiles, level);
      DistinctNumbers(files) && Numbers(files) !! (Numbers(base) + Numbers(state.added))
    ensures Saved(base, ApplyAt(state, edit, level)) == Saved(Saved(base, state), ApplyAt(EMPTY_LEVEL_STATE, edit, level))
    ensures SortedBySmallest(ApplyAt(state, edit, level).added)
    ensures Numbers(ApplyAt(state, edit, level).added) == Numbers(state.added) + Numbers(FilesAt(edit.newFiles, level))
  {
    var A, D := FilesAt(edit.newFiles, level), DeletedAt(edit, level);
    var after, alone, mid := ApplyAt(state, edit, level), ApplyAt(EMPTY_LEVEL_STATE, edit, level), Saved(base, state);
    AddNewFilesAdds(LevelState(state.deleted + D, state.added), edit.newFiles, level);
    AddNewFilesAdds(LevelState(EMPTY_LEVEL_STATE.deleted + D, []), edit.newFiles, level);
    DisjointIsFresh(base, state.added);
    SavedIs(base, state);
    assert Numbers(after.added) == Numbers(state.added) + Numbers(A);
    DisjointIsFresh(base, after.added);
    SavedIs(base, after);
    assert Numbers(mid) <= Numbers(base) + Numbers(state.added);
    assert Numbers(alone.added) == Numbers(A);
    DisjointIsFresh(mid, alone.added);
    SavedIs(mid, alone);
    forall f ensures f in Saved(base, after) <==> f in Saved(mid, alone) {
      SameFate(base, state, A, D, f);
    }
    SortedFilesUnique(Saved(base, after), Saved(mid, alone));
  }

  lemma {:induction false} SameFate(base: Level, state: LevelState, A: Level, D: set<nat>, f: File)
    requires Numbers(A) !! (Numbers(base) + Numbers(state.added))
    ensures (f in base || f in state.added || f in A) && f.number !in (state.deleted + D) - Numbers(A) <==>
      (((f in base || f in state.added) && f.number !in state.deleted) || f in A) && f.number !in D - Numbers(A)
  {
    if f in A {
      NumberOf(A, f);
    } else if f in base {
      NumberOf(base, f);
    } else if f in state.added {
      NumberOf(state.added, f);
    }
  }

  /** One builder over a run of edits, saved once, gives what installing every edit gives. */
  lemma {:induction false} OneSaveIsEnough(base: Level, state: LevelState, edits: seq<VersionEdit>, level: nat)
    requires SortedBySmallest(base) && SortedBySmallest(state.added) && Numbers(base) !! Numbers(state.added)
    requires AddedOnce(Numbers(base) + Numbers(state.added), edits, level)
    ensures Saved(base, ApplyAll(state, edits, level)) == InstallAll(Saved(base, state), edits, level)
    decreases |edits|
  {
    if edits != [] {
      var files := FilesAt(edits[0].newFiles, level);
      var next := ApplyAt(state, edits[0], level);
      ApplyCommutesWithSave(base, state, edits[0], level);
      assert Numbers(base) + Numbers(state.added) + Numbers(files) == Numbers(base) + Numbers(next.added);
      OneSaveIsEnough(base, next, edits[1..], level);
    }
  }

  // ----- The manifest: a snapshot of a version followed by edits

  function Tagged(files: Level, level: nat): seq<(nat, File)> {
    seq(|files|, i requires 0 <= i < |files| => (level, files[i]))
  }

  function NewFilesFrom(v: Version, level: nat): seq<(nat, File)>
    requires level <= |v|
    decreases |v| - level
  {
    if level == |v| then [] else Tagged(v[level], level) + NewFilesFrom(v, level + 1)
  }

  /** The edit that opens a manifest: it adds every file of the version. */
  function SnapshotEdit(v: Version): VersionEdit {
    VersionEdit({}, NewFilesFrom(v, 0))
  }

  lemma {:induction false} FilesAtConcat(a: seq<(nat, File)>, b: seq<(nat, File)>, level: nat)
    ensures FilesAt(a + b, level) == FilesAt(a, level) + FilesAt(b, level)
  {
    if a == [] {
      assert a + b == b;
    } else {
      assert (a + b)[0] == a[0] && (a + b)[1..] == a[1..] + b;
      FilesAtConcat(a[1..], b, level);
      var head := if a[0].0 == level then [a[0].1] else [];
      assert (head + FilesAt(a[1..], level)) + FilesAt(b, level) == head + (FilesAt(a[1..], level) + FilesAt(b, level));
    }
  }

  lemma {:induction false} FilesAtTagged(files: Level, l: nat, level: nat)
    ensures FilesAt(Tagged(files, l), level) == if l == level then files else []
  {
    if files != [] {
      assert Tagged(files, l)[1..] == Tagged(files[1..], l);
      FilesAtTagged(files[1..], l, level);
      assert files == [files[0]] + files[1..];
    }
  }

  lemma {:induction false} SnapshotFilesAt(v: Version, from: nat, level: nat)
    requires from <= |v| && level < |v|
    ensures FilesAt(NewFilesFrom(v, from), level) == if from <= level then v[level] else []
    decreases |v| - from
  {
    if from < |v| {
      SnapshotFilesAt(v, from + 1, level);
      FilesAtConcat(Tagged(v[from], from), NewFilesFrom(v, from + 1), level);
      FilesAtTagged(v[from], from, level);
    }
  }

  /** Replaying a manifest into an empty version rebuilds the version its edits led to. */
  lemma {:induction false} ManifestRebuilds(v: Version, edits: seq<VersionEdit>, level: nat)
    requires level < |v| && SortedBySmallest(v[level]) && DistinctNumbers(v[level])
    requires AddedOnce(Numbers(v[level]), edits, level)
    ensures Saved([], ApplyAll(EMPTY_LEVEL_STATE, [SnapshotEdit(v)] + edits, level)) == InstallAll(v[level], edits, level)
  {
    var all, state := [SnapshotEdit(v)] + edits, ApplyAt(EMPTY_LEVEL_STATE, SnapshotEdit(v), level);
    SnapshotFilesAt(v, 0, level);
    assert all[1..] == edits && Numbers([]) == {} && EMPTY_LEVEL_STATE.added == [];
    assert Numbers([]) + Numbers([]) == {} && {} + Numbers(v[level]) == Numbers(v[level]);
    assert AddedOnce({}, all, level);
    OneSaveIsEnough([], EMPTY_LEVEL_STATE, all, level);
    AddNewFilesAdds(EMPTY_LEVEL_STATE, SnapshotEdit(v).newFiles, level);
    assert EMPTY_LEVEL_STATE.deleted + DeletedAt(SnapshotEdit(v), level) == {};
    assert FreshNames([], state.added);
    SavedIs([], state);
    SavedIs([], EMPTY_LEVEL_STATE);
    SortedFilesUnique(Saved([], state), v[level]);
    assert Saved([], EMPTY_LEVEL_STATE) == [];
  }
}
