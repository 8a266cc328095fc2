/** Every step of the engine keeps its invariant; hence every run reads its history. */
module MachineSteps {
  import opened InternalKeys
  import opened Options
  import opened Versions
  import opened DropRule
  import opened Store
  import opened Builder
  import opened Installs
  import opened Compactions
  import opened CompactionInstalls
  import opened Machine

  // ----- Reads under larger and smaller contents

  lemma {:induction false} NewWritesAgreeAt(H: set<Entry>, E: set<Entry>, N: set<Entry>, snap: nat, bound: nat, k: UserKey, s: nat)
    requires ReadsKept(H, E, snap) && E <= H && UniqueSequences(H + N) && s >= snap
    requires (forall e | e in H :: e.key.sequence <= bound) && (forall e | e in N :: e.key.sequence > bound)
    ensures ClientRead(E + N, k, s) == ClientRead(H + N, k, s)
  {
    UniqueSubset(H + N, E + N);
    if exists x :: x in N && VisibleAt(x, k, s) {
      var x :| x in N && VisibleAt(x, k, s);
      var n := NewestExists(N, k, s, x);
      assert Newest(H + N, k, s, n);
      SameNewestSameRead(H + N, E + N, k, s, n);
    } else {
      UniqueSubset(H + N, H);
      UniqueSubset(H + N, E);
      ReadOfVisible(H + N, H, k, s, s);
      ReadOfVisible(E + N, E, k, s, s);
    }
  }

  lemma {:induction false} NewWritesAgree(H: set<Entry>, E: set<Entry>, N: set<Entry>, snap: nat, bound: nat)
    requires ReadsKept(H, E, snap) && E <= H && UniqueSequences(H + N)
    requires (forall e | e in H :: e.key.sequence <= bound) && (forall e | e in N :: e.key.sequence > bound)
    ensures ReadsKept(H + N, E + N, snap)
  {
    forall k, s: nat | s >= snap ensures ClientRead(E + N, k, s) == ClientRead(H + N, k, s) {
      NewWritesAgreeAt(H, E, N, snap, bound, k, s);
    }
  }

  lemma {:induction false} LaterSnapshots(H: set<Entry>, E: set<Entry>, snap: nat, later: nat)
    requires ReadsKept(H, E, snap) && snap <= later
    ensures ReadsKept(H, E, later)
  {
  }

  lemma {:induction false} ReadsKeptTwice(H: set<Entry>, E: set<Entry>, F: set<Entry>, snap: nat)
    requires ReadsKept(H, E, snap) && ReadsKept(E, F, snap)
    ensures ReadsKept(H, F, snap)
  {
    forall k, s: nat | s >= snap ensures ClientRead(F, k, s) == ClientRead(H, k, s) {
      assert ClientRead(F, k, s) == ClientRead(E, k, s);
    }
  }

  // ----- Logs

  lemma {:induction false} ReplayAppend(logs: seq<LogFile>, entries: seq<Entry>, min: nat)
    requires logs != [] && logs[|logs| - 1].number >= min
    ensures Replay(AppendToCurrentLog(logs, entries), min) == Replay(logs, min) + entries
  {
    var last := |logs| - 1;
    assert AppendToCurrentLog(logs, entries)[..last] == logs[..last];
  }

  lemma {:induction false} SuffixAppend(ops: seq<Op>, batch: seq<Op>, lo: nat)
    requires lo <= |ops|
    ensures HistorySuffix(ops + batch, lo) == HistorySuffix(ops, lo) + OpsEntries(ops + batch, |ops|, |ops + batch|)
  {
    assert forall i | 0 <= i < |ops| :: EntryOf(ops + batch, i) == EntryOf(ops, i);
  }

  lemma {:induction false} ReplayNewLog(logs: seq<LogFile>, log: LogFile, min: nat)
    ensures Replay(logs + [log], min) == Replay(logs, min) + (if log.number >= min then log.entries else [])
  {
    assert (logs + [log])[..|logs|] == logs;
  }

  /** Only the last log is numbered as high as itself. */
  lemma {:induction false} ReplayCurrent(logs: seq<LogFile>)
    requires logs != [] && AscendingLogs(logs)
    ensures Replay(logs, logs[|logs| - 1].number) == logs[|logs| - 1].entries
  {
    ReplayNothing(logs[..|logs| - 1], logs[|logs| - 1].number);
  }

  lemma {:induction false} ReplayNothing(logs: seq<LogFile>, min: nat)
    requires forall i | 0 <= i < |logs| :: logs[i].number < min
    ensures Replay(logs, min) == []
  {
    if logs != [] {
      ReplayNothing(logs[..|logs| - 1], min);
    }
  }

  lemma {:induction false} KeepLogsKeeps(logs: seq<LogFile>, min: nat)
    requires AscendingLogs(logs)
    ensures AscendingLogs(KeepLogs(logs, min)) && Replay(KeepLogs(logs, min), min) == Replay(logs, min)
    ensures forall l | l in KeepLogs(logs, min) :: l in logs
    ensures logs != [] && logs[|logs| - 1].number >= min ==>
      KeepLogs(logs, min) != [] && KeepLogs(logs, min)[|KeepLogs(logs, min)| - 1] == logs[|logs| - 1]
  {
    if logs != [] {
      var last := logs[|logs| - 1];
      var front := logs[..|logs| - 1];
      KeepLogsKeeps(front, min);
      var kept := KeepLogs(front, min);
      forall i | 0 <= i < |kept| ensures kept[i].number < last.number {
        assert kept[i] in front;
      }
      ReplayNewLog(kept, last, min);
      assert last.number < min ==> KeepLogs(logs, min) == kept;
    }
  }

  // ----- Writing, switching, snapshots

  lemma {:induction false} WriteKeepsTables(s: State, s': State, batch: seq<Op>)
    requires Inv(s) && WriteStep(s, s', batch)
    ensures ValidTablesOf(s')
    ensures Contents(s'.tables) == Contents(s.tables) + OpsRange(s'.ops, |s.ops|, |s'.ops|)
  {
    var n := |s.ops|;
    OpsRangeMonotone(s.ops, batch, s.switched, n);
    OpsRangeMonotone(s.ops, batch, s.flushed, s.switched);
    OpsRangeMonotone(s.ops, batch, 0, s.flushed);
    OpsRangeSplit(s'.ops, s.switched, n, |s'.ops|);
    forall e | e in s.tables.mem ensures e.key.sequence <= n {
      assert e in Elements(s.tables.mem);
      RangeSequences(s.ops, s.switched, n, e);
    }
    InsertOpsInserts(s.tables.mem, s'.ops, n, |s'.ops|);
  }

  lemma {:induction false} WriteKeepsReads(s: State, s': State, batch: seq<Op>)
    requires Inv(s) && WriteStep(s, s', batch) && ValidTablesOf(s')
    requires Contents(s'.tables) == Contents(s.tables) + OpsRange(s'.ops, |s.ops|, |s'.ops|)
    ensures ReadsAgree(s')
  {
    var n := |s.ops|;
    var H, N := OpsRange(s.ops, 0, n), OpsRange(s'.ops, n, |s'.ops|);
    OpsRangeMonotone(s.ops, batch, 0, n);
    OpsRangeSplit(s'.ops, 0, n, |s'.ops|);
    HistoryIsUnique(s'.ops, H + N);
    ContentsInHistory(s);
    NewWritesAgree(H, Contents(s.tables), N, SmallestSnapshot(s), n);
    LaterSnapshots(H + N, Contents(s.tables) + N, SmallestSnapshot(s), SmallestSnapshot(s'));
  }

  lemma {:induction false} WriteKeepsLogs(s: State, s': State, batch: seq<Op>)
    requires Inv(s) && WriteStep(s, s', batch)
    ensures ValidLogs(s')
  {
    var entries := OpsEntries(s'.ops, |s.ops|, |s'.ops|);
    ReplayAppend(s.logs, entries, s.logNumber);
    SuffixAppend(s.ops, batch, s.flushed);
    SuffixAppend(s.ops, batch, s.switched);
  }

  lemma {:induction false} WriteKeepsInv(s: State, s': State, batch: seq<Op>)
    requires Inv(s) && WriteStep(s, s', batch)
    ensures Inv(s')
  {
    WriteKeepsTables(s, s', batch);
    WriteKeepsReads(s, s', batch);
    WriteKeepsLogs(s, s', batch);
  }

  lemma {:induction false} RangeWitness(ops: seq<Op>, lo: nat, hi: nat)
    requires lo < hi <= |ops|
    ensures EntryOf(ops, lo) in OpsRange(ops, lo, hi)
  {
  }

  lemma {:induction false} SwitchKeepsInv(s: State, s': State)
    requires Inv(s) && SwitchStep(s, s')
    ensures Inv(s')
  {
    hide ValidVersion, VersionEntries, ReadsKept, NumberedBelow, DistinctAcross;
    ReplayNewLog(s.logs, LogFile(s.nextFile, []), s.logNumber);
    assert OpsRange(s.ops, s.flushed, s.switched) == {};
    assert Contents(s'.tables) == Contents(s.tables);
    if s.flushed < s.switched {
      RangeWitness(s.ops, s.flushed, s.switched);
    }
  }

  lemma {:induction false} TakeSnapshotKeepsInv(s: State, s': State)
    requires Inv(s) && s' == s.(snapshots := s.snapshots + [s.lastSequence])
    ensures Inv(s')
  {
  }

  lemma {:induction false} ReleaseKeepsInv(s: State, s': State, index: nat)
    requires Inv(s) && ReleaseStep(s, s', index)
    ensures Inv(s')
  {
    LaterSnapshots(OpsRange(s.ops, 0, |s.ops|), Contents(s.tables), SmallestSnapshot(s), SmallestSnapshot(s'));
  }

  lemma {:induction false} DeleteLogsKeepsLogs(s: State, s': State)
    requires ValidLogs(s) && s' == s.(logs := KeepLogs(s.logs, s.logNumber))
    ensures ValidLogs(s')
  {
    KeepLogsKeeps(s.logs, s.logNumber);
  }

  lemma {:induction false} DeleteLogsKeepsInv(s: State, s': State)
    requires Inv(s) && s' == s.(logs := KeepLogs(s.logs, s.logNumber))
    ensures Inv(s')
  {
    hide ValidVersion, ValidLogs, OpsRange, Contents, VersionEntries, NumberedBelow, DistinctAcross, Sorted, ReadsKept, KeepLogs;
    DeleteLogsKeepsLogs(s, s');
  }

  // ----- Flushing

  lemma {:induction false} InstalledNumbers(v: Version, v': Version, l: nat, inputs0: Level, m: nat, inputs1: Level, outs: Level, bound: nat, bound': nat)
    requires NumberedBelow(v, bound) && DistinctAcross(v) && m < |v| && bound <= bound'
    requires Installed(v, v', l, inputs0, m, inputs1, outs)
    requires forall o | o in outs :: bound <= o.number < bound'
    requires DistinctNumbers(outs)
    ensures NumberedBelow(v', bound') && DistinctAcross(v')
  {
    forall i, j, f, g | 0 <= i < |v'| && 0 <= j < |v'| && f in v'[i] && g in v'[j] && f.number == g.number
      ensures i == j && f == g
    {
      if f in v[i] && g in v[j] {
        assert f.number < bound;
      } else if f in outs && g in outs {
        DistinctByNumber(outs, f, g);
        assert f in v[i] ==> f.number < bound;
        assert g in v[j] ==> g.number < bound;
      }
    }
  }

  lemma {:induction false} AddingNothing(v: Version, level: nat)
    requires level == 0 < |v|
    ensures ValidAdd(v, level, []) && LevelEntries([]) == {}
  {
  }

  lemma {:induction false} OneFileIsValidAdd(v: Version, level: nat, f: File)
    requires level < |v| && WellFormedFile(f) && NumberedBelow(v, f.number)
    requires Newer(Elements(f.entries), VersionEntries(v))
    requires level > 0 ==> forall i | 0 <= i <= level :: Inputs.NoOverlapIn(v[i], f.smallest.user, f.largest.user)
    ensures ValidAdd(v, level, [f])
    ensures LevelEntries([f]) == Elements(f.entries)
  {
    hide Sorted, WellFormedFile, VersionEntries;
  }

  lemma {:induction false} FlushIsValidAdd(s: State, level: nat, outs: Level)
    requires Inv(s) && s.tables.imm.Some? && level < |s.tables.version|
    requires if s.tables.imm.value == [] then outs == [] && level == 0
             else |outs| == 1 && WellFormedFile(outs[0]) && outs[0].entries == s.tables.imm.value && outs[0].number == s.nextFile
    requires level > 0 ==> forall i | 0 <= i <= level :: Inputs.NoOverlapIn(s.tables.version[i], outs[0].smallest.user, outs[0].largest.user)
    ensures ValidAdd(s.tables.version, level, outs)
    ensures LevelEntries(outs) == Elements(ImmRun(s.tables))
  {
    hide ValidVersion, WellFormedFile, ReadsAgree, ValidLogs, LevelEntries, VersionEntries, OpsRange, DistinctAcross;
    if outs == [] {
      AddingNothing(s.tables.version, level);
    } else {
      assert outs == [outs[0]];
      NewerRanges(s.ops, 0, s.flushed, s.switched, Elements(ImmRun(s.tables)), VersionEntries(s.tables.version));
      OneFileIsValidAdd(s.tables.version, level, outs[0]);
    }
  }

  lemma {:induction false} FlushKeepsTables(s: State, s': State, level: nat, outs: Level)
    requires Inv(s) && FlushStep(s, s', level, outs)
    ensures ValidTablesOf(s') && Contents(s'.tables) == Contents(s.tables)
  {
    hide ValidVersion, ReadsAgree, ValidLogs, ValidNumbers, ApplyEdit, LevelEntries;
    FlushIsValidAdd(s, level, outs);
    AddKeepsValid(s.tables.version, level, outs);
    OpsRangeSplit(s.ops, 0, s.flushed, s.switched);
  }

  lemma {:induction false} AddKeepsNumbers(v: Version, level: nat, outs: Level, bound: nat, bound': nat)
    requires ValidVersion(v) && ValidAdd(v, level, outs)
    requires NumberedBelow(v, bound) && DistinctAcross(v) && bound <= bound'
    requires forall o | o in outs :: bound <= o.number < bound'
    ensures NumberedBelow(AddResult(v, level, outs), bound') && DistinctAcross(AddResult(v, level, outs))
  {
    EditInstalls(v, 0, [], level, [], outs);
    InstalledNumbers(v, AddResult(v, level, outs), 0, [], level, [], outs, bound, bound');
  }

  lemma {:induction false} FlushKeepsNumbers(s: State, s': State, level: nat, outs: Level)
    requires ValidNumbers(s) && FlushStep(s, s', level, outs)
    requires ValidVersion(s.tables.version) && ValidAdd(s.tables.version, level, outs)
    ensures ValidNumbers(s')
  {
    assert NumberedBelow(s.tables.version, s.nextFile);
    AddKeepsNumbers(s.tables.version, level, outs, s.nextFile, s.nextFile + 1);
  }

  lemma {:induction false} FlushKeepsLogs(s: State, s': State, level: nat, outs: Level)
    requires ValidLogs(s) && s.lastSequence == |s.ops| && FlushStep(s, s', level, outs)
    ensures ValidLogs(s')
  {
    hide ApplyEdit, WellFormedFile, HistorySuffix;
    ReplayCurrent(s.logs);
  }

  lemma {:induction false} FlushKeepsReads(s: State, s': State, level: nat, outs: Level)
    requires ReadsAgree(s) && ValidSnapshots(s) && FlushStep(s, s', level, outs) && Contents(s'.tables) == Contents(s.tables)
    ensures ReadsAgree(s') && ValidSnapshots(s')
  {
    hide ApplyEdit, WellFormedFile, Contents, OpsRange, ReadsKept;
  }

  lemma {:induction false} FlushKeepsInv(s: State, s': State, level: nat, outs: Level)
    requires Inv(s) && FlushStep(s, s', level, outs)
    ensures Inv(s')
  {
    hide ValidVersion, ApplyEdit, VersionEntries, ValidNumbers, ValidLogs, ValidSnapshots, ReadsAgree, Contents, WellFormedFile, ValidAdd;
    FlushKeepsTables(s, s', level, outs);
    FlushIsValidAdd(s, level, outs);
    FlushKeepsNumbers(s, s', level, outs);
    FlushKeepsLogs(s, s', level, outs);
    FlushKeepsReads(s, s', level, outs);
  }

  // ----- Compacting and moving

  lemma {:induction false} CompactEntries(s: State, c: Merge)
    requires Inv(s) && ValidMerge(s.tables.version, c, SmallestSnapshot(s))
    ensures ValidVersion(MergeResult(s.tables.version, c))
    ensures ReadableRun(Contents(s.tables), c.run)
    ensures Contents(s.tables.(version := MergeResult(s.tables.version, c))) ==
      Contents(s.tables) - DroppedEntries(c.run, SmallestSnapshot(s), s.tables.version, c.level)
  {
    hide ValidVersion, OpsRange, Sorted, ValidLogs, ReadsAgree, ValidNumbers, DroppedEntries, MergeResult, Survivors, VersionEntries, ValidTablesOf;
    var v, snap := s.tables.version, SmallestSnapshot(s);
    ContentsInHistory(s);
    TablesAreLayered(s);
    MergeKeepsValid(v, c, snap);
    MergeEntries(v, c, snap);
    forall e | e in c.run ensures e in VersionEntries(v) && e !in s.tables.mem && e !in ImmRun(s.tables) {
      assert e in Elements(c.run);
      VersionFromInv(s);
      RunNotInMemory(s, e);
    }
    DroppedIsInRun(c.run, snap, v, c.level);
    WithoutSome(Elements(s.tables.mem) + Elements(ImmRun(s.tables)), VersionEntries(v), DroppedEntries(c.run, snap, v, c.level));
    RunIsSorted(v, c, snap);
  }

  lemma {:induction false} VersionFromInv(s: State)
    requires Inv(s)
    ensures ValidTablesOf(s) && ValidVersion(s.tables.version)
  {
  }

  lemma {:induction false} RunIsSorted(v: Version, c: Merge, snap: nat)
    requires ValidMerge(v, c, snap)
    ensures Sorted(c.run) && Elements(c.run) == InputEntries(c)
  {
  }

  lemma {:induction false} DroppedIsInRun(run: seq<Entry>, snap: nat, v: Version, level: nat)
    ensures forall e | e in DroppedEntries(run, snap, v, level) :: e in run
  {
  }

  lemma {:induction false} WithoutSome<T>(a: set<T>, b: set<T>, gone: set<T>)
    requires a !! gone
    ensures a + (b - gone) == (a + b) - gone
  {
  }

  lemma {:induction false} RunNotInMemory(s: State, e: Entry)
    requires ValidTablesOf(s) && e in VersionEntries(s.tables.version)
    ensures e !in s.tables.mem && e !in ImmRun(s.tables)
  {
    RangeSequences(s.ops, 0, s.flushed, e);
    assert forall x | x in s.tables.mem :: x in OpsRange(s.ops, s.switched, |s.ops|);
    assert forall x | x in ImmRun(s.tables) :: x in OpsRange(s.ops, s.flushed, s.switched);
  }

  lemma {:induction false} CompactKeepsTables(s: State, s': State, c: Merge)
    requires Inv(s) && CompactStep(s, s', c)
    ensures ValidTablesOf(s')
    ensures Contents(s'.tables) == Contents(s.tables) - DroppedEntries(c.run, SmallestSnapshot(s), s.tables.version, c.level)
  {
    CompactEntries(s, c);
    ContentsInHistory(s);
    MergeEntries(s.tables.version, c, SmallestSnapshot(s));
  }

  lemma {:induction false} CompactKeepsNumbers(s: State, s': State, c: Merge)
    requires Inv(s) && CompactStep(s, s', c)
    ensures ValidNumbers(s')
  {
    var v := s.tables.version;
    MergeCanReplace(v, c, SmallestSnapshot(s));
    EditInstalls(v, c.level, c.inputs0, c.level + 1, c.inputs1, c.outs);
    InstalledNumbers(v, MergeResult(v, c), c.level, c.inputs0, c.level + 1, c.inputs1, c.outs, s.nextFile, s'.nextFile);
  }

  lemma {:induction false} CompactKeepsReads(s: State, s': State, c: Merge)
    requires Inv(s) && CompactStep(s, s', c) && NothingResurrected(s, c)
    ensures ReadsAgree(s')
  {
    var snap, E := SmallestSnapshot(s), Contents(s.tables);
    CompactEntries(s, c);
    DropRuleIsInvisibleIff(E, c.run, snap, s.tables.version, c.level);
    ReadsKeptTwice(OpsRange(s.ops, 0, |s.ops|), E, Contents(s'.tables), snap);
  }

  lemma {:induction false} CompactKeepsCounters(s: State, s': State, c: Merge)
    requires Inv(s) && CompactStep(s, s', c)
    ensures s'.lastSequence == |s'.ops| < MAX_SEQUENCE && ValidSnapshots(s') && ValidLogs(s')
  {
  }

  lemma {:induction false} CompactKeepsInv(s: State, s': State, c: Merge)
    requires Inv(s) && CompactStep(s, s', c) && NothingResurrected(s, c)
    ensures Inv(s')
  {
    CompactKeepsTables(s, s', c);
    CompactKeepsNumbers(s, s', c);
    CompactKeepsReads(s, s', c);
    CompactKeepsCounters(s, s', c);
  }

  lemma {:induction false} MovedMember(v: Version, v': Version, level: nat, f: File, i: nat, g: File)
    requires Installed(v, v', level, [f], level + 1, [], [f]) && i < |v| && g in v'[i]
    ensures (g in v[i] && (i == level ==> g != f)) || (i == level + 1 && g == f)
  {
    var stays := Stays(i, g, level, [f], level + 1, []);
  }

  lemma {:induction false} MovedNumbers(v: Version, v': Version, level: nat, f: File, bound: nat)
    requires NumberedBelow(v, bound) && DistinctAcross(v) && level + 1 < |v| && f in v[level]
    requires Installed(v, v', level, [f], level + 1, [], [f])
    ensures NumberedBelow(v', bound) && DistinctAcross(v')
  {
    forall i, g | 0 <= i < |v'| && g in v'[i] ensures g.number < bound {
      MovedMember(v, v', level, f, i, g);
    }
    forall i, j, g, h | 0 <= i < |v'| && 0 <= j < |v'| && g in v'[i] && h in v'[j] && g.number == h.number
      ensures i == j && g == h
    {
      MovedMember(v, v', level, f, i, g);
      MovedMember(v, v', level, f, j, h);
    }
  }

  lemma {:induction false} MoveKeepsNumbers(s: State, s': State, level: nat, f: File)
    requires Inv(s) && MoveStep(s, s', level, f)
    ensures ValidNumbers(s')
  {
    var v := s.tables.version;
    assert Numbers([f]) !! Numbers(v[level + 1]);
    EditInstalls(v, level, [f], level + 1, [], [f]);
    MovedNumbers(v, MoveResult(v, level, f), level, f, s.nextFile);
  }

  lemma {:induction false} MoveKeepsInv(s: State, s': State, level: nat, f: File)
    requires Inv(s) && MoveStep(s, s', level, f)
    ensures Inv(s')
  {
    hide ValidVersion, ApplyEdit, VersionEntries, OpsRange, ReadsKept, DistinctAcross, NumberedBelow, Sorted;
    ContentsInHistory(s);
    MoveKeepsValid(s.tables.version, level, f);
    MoveKeepsNumbers(s, s', level, f);
  }
}
