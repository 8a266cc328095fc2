/** Opening a database: from the bytes of the manifest to the files of the current version. */
module VersionRecovery {
  import opened Coding
  import opened InternalKeys
  import opened Versions
  import opened Builder
  import opened Manifest
  import E = VersionEdits
  import LogFormat

  // ----- What an edit on bytes means

  // How key bounds are read, and what the table file of a number holds.
  datatype Disk = Disk(bound: Bytes -> InternalKey, contents: nat -> seq<Entry>)

  function FileOf(r: E.FileRecord, disk: Disk): File {
    File(r.number, r.size, disk.bound(r.smallest), disk.bound(r.largest), disk.contents(r.number))
  }

  function Understood(e: E.Edit, disk: Disk): VersionEdit {
    VersionEdit(set d | d in e.deletedFiles,
                seq(|e.newFiles|, i requires 0 <= i < |e.newFiles| => (e.newFiles[i].0, FileOf(e.newFiles[i].1, disk))))
  }

  function AllUnderstood(edits: seq<E.Edit>, disk: Disk): seq<VersionEdit> {
    seq(|edits|, i requires 0 <= i < |edits| => Understood(edits[i], disk))
  }

  /** The manifest of a version: what it was when the manifest was started, and every edit since. */
  ghost predicate ManifestOf(edits: seq<E.Edit>, v: Version, installed: seq<VersionEdit>, disk: Disk) {
    AllUnderstood(edits, disk) == [SnapshotEdit(v)] + installed
  }

  ghost predicate Installable(v: Version, installed: seq<VersionEdit>) {
    && |v| == NUM_LEVELS
    && forall level | 0 <= level < |v| ::
      SortedBySmallest(v[level]) && DistinctNumbers(v[level]) && AddedOnce(Numbers(v[level]), installed, level)
  }

  // ----- Replaying it

  lemma {:induction false} AddedOncePrefix(used: set<nat>, edits: seq<VersionEdit>, n: nat, level: nat)
    requires n <= |edits| && AddedOnce(used, edits, level)
    ensures AddedOnce(used, edits[..n], level)
    decreases n
  {
    if n > 0 {
      assert edits[..n][0] == edits[0] && edits[..n][1..] == edits[1..][..n - 1];
      AddedOncePrefix(used + Numbers(FilesAt(edits[0].newFiles, level)), edits[1..], n - 1, level);
    }
  }

  lemma {:induction false} ApplyAllSnoc(state: LevelState, edits: seq<VersionEdit>, e: VersionEdit, level: nat)
    ensures ApplyAll(state, edits + [e], level) == ApplyAt(ApplyAll(state, edits, level), e, level)
    decreases |edits|
  {
    hide ApplyAt;
    if edits == [] {
      assert ([] + [e])[0] == e && ([] + [e])[1..] == [];
    } else {
      assert (edits + [e])[0] == edits[0] && (edits + [e])[1..] == edits[1..] + [e];
      ApplyAllSnoc(ApplyAt(state, edits[0], level), edits[1..], e, level);
    }
  }

  /** The first n edits of a manifest, in one builder, give the version as of the last of them. */
  lemma {:induction false} ReplayRebuilds(edits: seq<E.Edit>, v: Version, installed: seq<VersionEdit>, disk: Disk, n: nat, level: nat)
    requires ManifestOf(edits, v, installed, disk) && Installable(v, installed) && 1 <= n <= |edits| && level < |v|
    ensures n - 1 <= |installed|
    ensures Saved([], ApplyAll(EMPTY_LEVEL_STATE, AllUnderstood(edits[..n], disk), level)) == InstallAll(v[level], installed[..n - 1], level)
  {
    hide Understood, SnapshotEdit, ApplyAll, InstallAll, Saved, AddedOnce, SortedBySmallest, DistinctNumbers;
    var all := [SnapshotEdit(v)] + installed;
    assert AllUnderstood(edits[..n], disk) == AllUnderstood(edits, disk)[..n] == all[..n];
    assert all[..n] == [SnapshotEdit(v)] + installed[..n - 1];
    AddedOncePrefix(Numbers(v[level]), installed, n - 1, level);
    ManifestRebuilds(v, installed[..n - 1], level);
  }

  lemma {:induction false} LevelsAreThere(e: E.Edit, disk: Disk)
    requires E.ValidEdit(e)
    ensures forall x | x in Understood(e, disk).newFiles :: x.0 < NUM_LEVELS
  {
    hide E.ValidFields;
    forall x | x in Understood(e, disk).newFiles ensures x.0 < NUM_LEVELS {
      var i: nat :| i < |e.newFiles| && Understood(e, disk).newFiles[i] == x;
      NewFileIsField(e, i);
    }
  }

  lemma {:induction false} NewFileIsField(e: E.Edit, i: nat)
    requires E.ValidEdit(e) && i < |e.newFiles|
    ensures e.newFiles[i].0 < NUM_LEVELS
  {
    var news := E.NewFields(e.newFiles);
    var f := E.NewFile(e.newFiles[i].0, e.newFiles[i].1);
    assert news[i] == f && f in news;
    assert f in E.FieldsOf(e);
    assert E.ValidField(f);
  }

  /** Applies the edits in one builder and saves once. */
  method BuildFrom(edits: seq<E.Edit>, disk: Disk) returns (current: Version)
    requires ValidEdits(edits)
    ensures |current| == NUM_LEVELS
    ensures forall level | 0 <= level < NUM_LEVELS :: current[level] == Saved([], ApplyAll(EMPTY_LEVEL_STATE, AllUnderstood(edits, disk), level))
  {
    hide Understood, ApplyAll, ApplyAt, Saved, E.ValidEdit;
    var empty: Version := seq(NUM_LEVELS, _ => []);
    var builder := new VersionBuilder(empty);
    NothingApplied(disk);
    for i := 0 to |edits|
      invariant forall level | 0 <= level < NUM_LEVELS :: builder.levels[level] == ApplyAll(EMPTY_LEVEL_STATE, AllUnderstood(edits[..i], disk), level)
    {
      var edit := Understood(edits[i], disk);
      LevelsAreThere(edits[i], disk);
      builder.Apply(edit);
      assert AllUnderstood(edits[..i + 1], disk) == AllUnderstood(edits[..i], disk) + [edit];
      forall level | 0 <= level < NUM_LEVELS
        ensures ApplyAll(EMPTY_LEVEL_STATE, AllUnderstood(edits[..i + 1], disk), level)
             == ApplyAt(ApplyAll(EMPTY_LEVEL_STATE, AllUnderstood(edits[..i], disk), level), edit, level)
      {
        ApplyAllSnoc(EMPTY_LEVEL_STATE, AllUnderstood(edits[..i], disk), edit, level);
      }
    }
    assert edits[..|edits|] == edits;
    current := builder.Save();
  }

  lemma {:induction false} NothingApplied(disk: Disk)
    ensures forall level :: ApplyAll(EMPTY_LEVEL_STATE, AllUnderstood([], disk), level) == EMPTY_LEVEL_STATE
  {
  }

  /**
   * Reads a manifest file that may end in the middle of a record, and builds the version: when the
   * numbers it needs are there, its files are those of the version after the edits that are there as
   * a whole.
   */
  method Recover(file: Bytes, comparator: Bytes, disk: Disk, ghost edits: seq<E.Edit>, ghost v: Version, ghost installed: seq<VersionEdit>)
    returns (outcome: Outcome, current: Version, ghost n: nat)
    requires ValidEdits(edits) && file <= LogFormat.Log(RecordsOf(edits))
    requires ManifestOf(edits, v, installed, disk) && Installable(v, installed)
    ensures n <= |edits| && WholeEdits(file, edits, n) && outcome == Decide(edits[..n], comparator)
    ensures IsOutcome(outcome, edits[..n], comparator)
    ensures outcome.Replayed? ==> 1 <= n && |current| == |v|
    ensures outcome.Replayed? ==> forall level | 0 <= level < |v| :: current[level] == InstallAll(v[level], installed[..n - 1], level)
  {
    hide WholeEdits, ManifestOf, Decide, IsOutcome, ApplyAll, InstallAll, Saved, AllUnderstood, E.ValidEdit, LogFormat.Log;
    outcome, n := Replay(file, comparator, edits, true);
    Counts(file, edits, n, v, installed, disk);
    current := seq(NUM_LEVELS, _ => []);
    if outcome.Replayed? {
      NeedsAnEdit(edits[..n], comparator);
      current := BuildFrom(outcome.edits, disk);
      forall level | 0 <= level < |v| ensures current[level] == InstallAll(v[level], installed[..n - 1], level) {
        ReplayRebuilds(edits, v, installed, disk, n, level);
      }
    }
  }

  lemma {:induction false} Counts(file: Bytes, edits: seq<E.Edit>, n: nat, v: Version, installed: seq<VersionEdit>, disk: Disk)
    requires WholeEdits(file, edits, n) && ManifestOf(edits, v, installed, disk)
    ensures n <= |edits| && |edits| == |installed| + 1
  {
    hide SnapshotEdit, Understood;
    assert |AllUnderstood(edits, disk)| == |edits|;
  }

  lemma {:induction false} NeedsAnEdit(edits: seq<E.Edit>, comparator: Bytes)
    requires Decide(edits, comparator).Replayed?
    ensures edits != [] && Decide(edits, comparator).edits == edits
  {
  }
}
