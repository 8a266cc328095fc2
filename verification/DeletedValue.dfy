/**
 * A run of the engine that ends in a state from which a compaction whose inputs are closed as the
 * code closes them brings a deleted value back. A snapshot makes one compaction split the versions
 * of a key between two files; the next one takes only the first of them.
 */
module DeletedValue {
  import opened InternalKeys
  import opened Options
  import opened Versions
  import opened Inputs
  import opened DropRule
  import opened Store
  import opened Builder
  import opened Installs
  import opened Compactions
  import opened CompactionInstalls
  import opened Machine
  import opened Recovery
  import opened BoundaryGap

  // ----- The entries and the files

  const X := Entry(InternalKey(1, 1, Put), "x")
  const OLD := Entry(InternalKey(2, 2, Put), "old")
  const TOMBSTONE := Entry(InternalKey(2, 3, Deletion), "")
  const Y := Entry(InternalKey(1, 4, Put), "y")

  function FileOf(number: nat, entries: seq<Entry>): File
    requires entries != []
  {
    File(number, 1, entries[0].key, entries[|entries| - 1].key, entries)
  }

  const BOTH := FileOf(5, [X, OLD])
  const DELETION := FileOf(7, [TOMBSTONE])
  const FIRST := FileOf(8, [X, TOMBSTONE])
  const SECOND := FileOf(9, [OLD])
  const TOP := FileOf(11, [Y])
  const LAST := FileOf(12, [Y])

  lemma {:induction false} FilesAreWellFormed()
    ensures WellFormedFiles([BOTH]) && WellFormedFiles([DELETION]) && WellFormedFiles([FIRST, SECOND]) && WellFormedFiles([TOP])
    ensures WellFormedFiles([LAST])
  {
    assert Sorted(BOTH.entries) && Sorted(DELETION.entries) && Sorted(FIRST.entries) && Sorted(SECOND.entries);
    assert Sorted(TOP.entries) && Sorted(LAST.entries);
  }

  /** Files at levels 1 and 2 only. */
  function TwoLevels(one: Level, two: Level): Version {
    [[], one, two, [], [], [], []]
  }

  lemma {:induction false} SingleFile(f: File)
    ensures LevelEntries([f]) == Elements(f.entries) && SortedBySmallest([f]) && DistinctNumbers([f]) && Numbers([f]) == {f.number}
    ensures LevelEntries([]) == {} && SortedBySmallest([]) && Numbers([]) == {}
  {
    assert f in [f];
  }

  lemma {:induction false} PairOfFiles(f: File, g: File)
    requires FileLess(f, g) && f.number != g.number
    ensures LevelEntries([f, g]) == Elements(f.entries) + Elements(g.entries) && SortedBySmallest([f, g])
    ensures DistinctNumbers([f, g]) && Numbers([f, g]) == {f.number, g.number}
  {
    assert f in [f, g] && g in [f, g];
  }

  lemma {:induction false} InstalledAt(v: Version, l: nat, inputs0: Level, m: nat, inputs1: Level, outs: Level, v': Version, i: nat, f: File)
    requires Installed(v, v', l, inputs0, m, inputs1, outs) && i < |v|
    ensures SortedBySmallest(v'[i])
    ensures f in v'[i] <==> (f in v[i] && Stays(i, f, l, inputs0, m, inputs1)) || (i == m && f in outs)
  {
    var produced := f in outs;
  }

  /** An edit has only one result. */
  lemma {:induction false} OneResult(v: Version, l: nat, inputs0: Level, m: nat, inputs1: Level, outs: Level, v': Version)
    requires ValidVersion(v) && CanReplace(v, l, inputs0, m, inputs1, outs) && Installed(v, v', l, inputs0, m, inputs1, outs)
    ensures ApplyEdit(v, ReplaceEdit(l, inputs0, m, inputs1, outs)) == v'
  {
    hide CanReplace, ApplyEdit;
    var r := ApplyEdit(v, ReplaceEdit(l, inputs0, m, inputs1, outs));
    EditInstalls(v, l, inputs0, m, inputs1, outs);
    forall i | 0 <= i < |v| ensures r[i] == v'[i] {
      forall f ensures f in r[i] <==> f in v'[i] {
        InstalledAt(v, l, inputs0, m, inputs1, outs, v', i, f);
        InstalledAt(v, l, inputs0, m, inputs1, outs, r, i, f);
      }
      SortedFilesUnique(r[i], v'[i]);
    }
  }

  /** What an edit makes of levels 1 and 2, the only ones it concerns. */
  lemma {:induction false} TwoLevelEdit(one: Level, two: Level, l: nat, inputs0: Level, m: nat, inputs1: Level, outs: Level, one': Level, two': Level)
    requires ValidVersion(TwoLevels(one, two)) && CanReplace(TwoLevels(one, two), l, inputs0, m, inputs1, outs)
    requires 1 <= m <= 2 && SortedBySmallest(one') && SortedBySmallest(two')
    requires forall f :: f in one' <==> (f in one && Stays(1, f, l, inputs0, m, inputs1)) || (m == 1 && f in outs)
    requires forall f :: f in two' <==> (f in two && Stays(2, f, l, inputs0, m, inputs1)) || (m == 2 && f in outs)
    ensures ApplyEdit(TwoLevels(one, two), ReplaceEdit(l, inputs0, m, inputs1, outs)) == TwoLevels(one', two')
  {
    hide ValidVersion, CanReplace;
    var v, v' := TwoLevels(one, two), TwoLevels(one', two');
    forall i, f | 0 <= i < NUM_LEVELS
      ensures SortedBySmallest(v'[i])
      ensures f in v'[i] <==> (f in v[i] && Stays(i, f, l, inputs0, m, inputs1)) || (i == m && f in outs)
    {
      assert i != 1 && i != 2 ==> v[i] == [] && v'[i] == [];
    }
    OneResult(v, l, inputs0, m, inputs1, outs, v');
  }

  // ----- The run

  const WRITES := [Op(1, Put, "x"), Op(2, Put, "old"), Op(2, Deletion, ""), Op(1, Put, "y")]

  lemma {:induction false} EntriesOfWrites()
    ensures EntryOf(WRITES[..2], 0) == X && EntryOf(WRITES[..2], 1) == OLD && EntryOf(WRITES[..3], 2) == TOMBSTONE && EntryOf(WRITES, 3) == Y
  {
  }

  const LOG3 := LogFile(3, [X, OLD])
  const LOG4 := LogFile(4, [TOMBSTONE])
  const LOG6 := LogFile(6, [Y])

  const CUT := Merge(1, [DELETION], [BOTH], [X, TOMBSTONE, OLD], [[X, TOMBSTONE], [OLD]], [FIRST, SECOND])

  const EMPTY := TwoLevels([], [])

  const AT_START := State([], 0, 0, Tables([], None, EMPTY), 0, [], 4, [LogFile(3, [])], 3, 0, 4)
  const TWO_WRITTEN := State(WRITES[..2], 0, 0, Tables([X, OLD], None, EMPTY), 2, [], 4, [LOG3], 3, 0, 4)
  const SNAPSHOT_TAKEN := State(WRITES[..2], 0, 0, Tables([X, OLD], None, EMPTY), 2, [2], 4, [LOG3], 3, 0, 4)
  const SWITCHED := State(WRITES[..2], 2, 0, Tables([], Some([X, OLD]), EMPTY), 2, [2], 5, [LOG3, LogFile(4, [])], 3, 0, 4)
  const FLUSHED := State(WRITES[..2], 2, 2, Tables([], None, TwoLevels([], [BOTH])), 2, [2], 6, [LOG3, LogFile(4, [])], 4, 2, 6)
  const DELETED := State(WRITES[..3], 2, 2, Tables([TOMBSTONE], None, TwoLevels([], [BOTH])), 3, [2], 6, [LOG3, LOG4], 4, 2, 6)
  const DELETED_SWITCHED := State(WRITES[..3], 3, 2, Tables([], Some([TOMBSTONE]), TwoLevels([], [BOTH])), 3, [2], 7,
                                  [LOG3, LOG4, LogFile(6, [])], 4, 2, 6)
  const DELETED_FLUSHED := State(WRITES[..3], 3, 3, Tables([], None, TwoLevels([DELETION], [BOTH])), 3, [2], 8,
                                 [LOG3, LOG4, LogFile(6, [])], 6, 3, 8)
  const MERGED := State(WRITES[..3], 3, 3, Tables([], None, TwoLevels([], [FIRST, SECOND])), 3, [2], 10,
                        [LOG3, LOG4, LogFile(6, [])], 6, 3, 10)
  const RELEASED := State(WRITES[..3], 3, 3, Tables([], None, TwoLevels([], [FIRST, SECOND])), 3, [], 10,
                          [LOG3, LOG4, LogFile(6, [])], 6, 3, 10)
  const OVERWRITTEN := State(WRITES, 3, 3, Tables([Y], None, TwoLevels([], [FIRST, SECOND])), 4, [], 10,
                             [LOG3, LOG4, LOG6], 6, 3, 10)
  const SWITCHED_AGAIN := State(WRITES, 4, 3, Tables([], Some([Y]), TwoLevels([], [FIRST, SECOND])), 4, [], 11,
                                [LOG3, LOG4, LOG6, LogFile(10, [])], 6, 3, 10)
  const AT_END := State(WRITES, 4, 4, Tables([], None, TwoLevels([TOP], [FIRST, SECOND])), 4, [], 12,
                        [LOG3, LOG4, LOG6, LogFile(10, [])], 10, 4, 12)

  // ----- Its steps

  lemma {:induction false} Starts()
    ensures Initial(AT_START)
  {
    assert seq(NUM_LEVELS, _ => []) == EMPTY;
  }

  lemma {:induction false} OneInserted(ops: seq<Op>)
    requires ops != []
    ensures InsertOps([], ops, |ops| - 1, |ops|) == [EntryOf(ops, |ops| - 1)]
    ensures OpsEntries(ops, |ops| - 1, |ops|) == [EntryOf(ops, |ops| - 1)]
  {
    assert InsertOps([], ops, |ops| - 1, |ops| - 1) == [];
  }

  lemma {:induction false} LogGrows(older: seq<LogFile>, number: nat, entries: seq<Entry>)
    ensures AppendToCurrentLog(older + [LogFile(number, [])], entries) == older + [LogFile(number, entries)]
  {
    assert [] + entries == entries;
  }

  lemma {:induction false} WriteIsStep(s: State, s': State, batch: seq<Op>, ops: seq<Op>, older: seq<LogFile>, number: nat,
                                       entries: seq<Entry>, mem: seq<Entry>)
    requires s.ops + batch == ops && |ops| < MAX_SEQUENCE && s.lastSequence == |s.ops|
    requires s.logs == older + [LogFile(number, [])] && s.tables.mem == []
    requires OpsEntries(ops, |s.ops|, |ops|) == entries && InsertOps([], ops, |s.ops|, |ops|) == mem
    requires s' == State(ops, s.switched, s.flushed, Tables(mem, s.tables.imm, s.tables.version), |ops|, s.snapshots, s.nextFile,
                         older + [LogFile(number, entries)], s.logNumber, s.manifestSequence, s.manifestNext)
    ensures WriteStep(s, s', batch)
  {
    hide InsertOps, OpsEntries, AppendToCurrentLog;
    LogGrows(older, number, entries);
  }

  lemma {:induction false} FirstWrite()
    ensures WriteStep(AT_START, TWO_WRITTEN, WRITES[..2])
  {
    var ops := WRITES[..2];
    assert [] + ops == ops;
    EntriesOfWrites();
    assert OpsEntries(ops, 0, 2) == [X, OLD];
    assert InsertOps([], ops, 0, 0) == [];
    assert Seek([], X.key) == 0;
    assert InsertOps([], ops, 0, 1) == [X];
    assert Less(X.key, OLD.key);
    assert Seek([X], OLD.key) == 1;
    assert InsertOps([], ops, 0, 2) == [X, OLD];
    assert [] + [LOG3] == [LOG3] && [] + [LogFile(3, [])] == [LogFile(3, [])];
    WriteIsStep(AT_START, TWO_WRITTEN, ops, ops, [], 3, [X, OLD], [X, OLD]);
  }

  lemma {:induction false} SecondWrite()
    ensures WriteStep(FLUSHED, DELETED, WRITES[2..3])
  {
    var ops := WRITES[..3];
    assert WRITES[..2] + WRITES[2..3] == ops;
    EntriesOfWrites();
    OneInserted(ops);
    WriteIsStep(FLUSHED, DELETED, WRITES[2..3], ops, [LOG3], 4, [TOMBSTONE], [TOMBSTONE]);
  }

  lemma {:induction false} ThirdWrite()
    ensures WriteStep(RELEASED, OVERWRITTEN, WRITES[3..])
  {
    assert WRITES[..3] + WRITES[3..] == WRITES;
    EntriesOfWrites();
    OneInserted(WRITES);
    WriteIsStep(RELEASED, OVERWRITTEN, WRITES[3..], WRITES, [LOG3, LOG4], 6, [Y], [Y]);
  }

  lemma {:induction false} Switches()
    ensures SwitchStep(SNAPSHOT_TAKEN, SWITCHED) && SwitchStep(DELETED, DELETED_SWITCHED) && SwitchStep(OVERWRITTEN, SWITCHED_AGAIN)
  {
  }

  lemma {:induction false} FlushAt(one: Level, two: Level, level: nat, f: File, one': Level, two': Level)
    requires ValidVersion(TwoLevels(one, two)) && 1 <= level <= 2
    requires one' == if level == 1 then [f] else one
    requires two' == if level == 2 then [f] else two
    requires if level == 1 then one == [] else two == []
    ensures AddResult(TwoLevels(one, two), level, [f]) == TwoLevels(one', two')
  {
    SingleFile(f);
    assert SortedBySmallest(TwoLevels(one, two)[1]) && SortedBySmallest(TwoLevels(one, two)[2]);
    TwoLevelEdit(one, two, 0, [], level, [], [f], one', two');
  }

  lemma {:induction false} FlushIsStep(s: State, s': State, one: Level, two: Level, level: nat, f: File, one': Level, two': Level)
    requires s.tables.version == TwoLevels(one, two) && ValidVersion(TwoLevels(one, two)) && 1 <= level <= 2
    requires one == [] && (level == 2 ==> two == []) && one' == (if level == 1 then [f] else one) && two' == (if level == 2 then [f] else two)
    requires s.tables.imm == Some(f.entries) && f.entries != [] && WellFormedFile(f) && f.number == s.nextFile && s.logs != []
    requires s' == State(s.ops, s.switched, s.switched, Tables(s.tables.mem, None, TwoLevels(one', two')), s.lastSequence, s.snapshots,
                         s.nextFile + 1, s.logs, CurrentLog(s).number, s.lastSequence, s.nextFile + 1)
    ensures FlushStep(s, s', level, [f])
  {
    hide ValidVersion, WellFormedFile;
    FlushAt(one, two, level, f, one', two');
    forall i | 0 <= i <= level ensures Inputs.NoOverlapIn(s.tables.version[i], f.smallest.user, f.largest.user) {
      assert s.tables.version[i] == [];
    }
  }

  lemma {:induction false} FirstFlush()
    requires Inv(SWITCHED)
    ensures FlushStep(SWITCHED, FLUSHED, 2, [BOTH])
  {
    hide SortedBySmallest, DistinctNumbers, AgeOrdered, LevelsLayered;
    FilesAreWellFormed();
    assert BOTH in [BOTH];
    FlushIsStep(SWITCHED, FLUSHED, [], [], 2, BOTH, [], [BOTH]);
  }

  lemma {:induction false} SecondFlush()
    requires Inv(DELETED_SWITCHED)
    ensures FlushStep(DELETED_SWITCHED, DELETED_FLUSHED, 1, [DELETION])
  {
    FilesAreWellFormed();
    assert DELETION in [DELETION];
    FlushIsStep(DELETED_SWITCHED, DELETED_FLUSHED, [], [BOTH], 1, DELETION, [DELETION], [BOTH]);
  }

  lemma {:induction false} ThirdFlush()
    requires Inv(SWITCHED_AGAIN)
    ensures FlushStep(SWITCHED_AGAIN, AT_END, 1, [TOP])
  {
    FilesAreWellFormed();
    assert TOP in [TOP];
    FlushIsStep(SWITCHED_AGAIN, AT_END, [], [FIRST, SECOND], 1, TOP, [TOP], [FIRST, SECOND]);
  }

  // ----- Its two compactions

  lemma {:induction false} StoredInTwoLevels(one: Level, two: Level)
    ensures VersionEntries(TwoLevels(one, two)) == LevelEntries(one) + LevelEntries(two)
  {
    hide LevelEntries;
    var v := TwoLevels(one, two);
    assert LevelEntries([]) == {} by {
      SingleFile(TOP);
    }
    forall e ensures e in VersionEntries(v) <==> e in LevelEntries(one) || e in LevelEntries(two) {
      if e in LevelEntries(one) {
        assert e in LevelEntries(v[1]);
      }
      if e in LevelEntries(two) {
        assert e in LevelEntries(v[2]);
      }
      if e in VersionEntries(v) {
        var i :| 0 <= i < |v| && e in LevelEntries(v[i]);
        assert v[i] == if i == 1 then one else if i == 2 then two else [];
      }
    }
  }

  /** The lone file of level 1 and the files of level 2 that overlap it. */
  lemma {:induction false} ClosedPair(f: File, two: Level, hit: Level)
    requires hit == OverlapFilter(two, Some(f.smallest.user), Some(f.largest.user))
    ensures ClosedInputs(TwoLevels([f], two), 1, [f], hit)
  {
    hide OverlapFilter;
    var v := TwoLevels([f], two);
    assert IsSlice(v[1], [f], 0, 1) && EndsAtBoundary(v[1], 1);
    forall lo, hi | IsRange([f], lo, hi) ensures hit == OverlapFilter(v[2], Some(lo.user), Some(hi.user)) {
      assert f in [f];
    }
  }

  lemma {:induction false} FilterOne(f: File, lo: UserKey, hi: UserKey)
    ensures OverlapFilter([f], Some(lo), Some(hi)) == if Overlaps(f, Some(lo), Some(hi)) then [f] else []
  {
    assert [f][..0] == [];
  }

  lemma {:induction false} NothingBelow(one: Level, two: Level, k: UserKey)
    ensures IsBaseLevel(TwoLevels(one, two), 1, k)
  {
  }

  lemma {:induction false} CutKeepsAll()
    ensures Survivors(CUT.run, 3, 2, TwoLevels([DELETION], [BOTH]), 1) == CUT.run
    ensures forall i | 0 <= i < 3 :: !Obsolete(CUT.run, i, 2, TwoLevels([DELETION], [BOTH]), 1)
  {
    var run, v := CUT.run, TwoLevels([DELETION], [BOTH]);
    assert !Dropped(run, 0, 2, v, 1) && !Dropped(run, 1, 2, v, 1) && !Dropped(run, 2, 2, v, 1);
    assert Survivors(run, 1, 2, v, 1) == [X];
    assert Survivors(run, 2, 2, v, 1) == [X, TOMBSTONE];
  }

  lemma {:induction false} CutOutputs()
    ensures OutputFiles(CUT.outputs, CUT.outs) && Concat(CUT.outputs) == CUT.run
    ensures DistinctNumbers(CUT.outs) && Numbers(CUT.outs) == {8, 9} && SortedBySmallest(CUT.outs)
  {
    hide Concat, SortedBySmallest, DistinctNumbers, Numbers;
    FilesAreWellFormed();
    PairOfFiles(FIRST, SECOND);
    ConcatTwo([X, TOMBSTONE], [OLD]);
  }

  lemma {:induction false} ConcatTwo(a: seq<Entry>, b: seq<Entry>)
    ensures Concat([a]) == a && Concat([a, b]) == a + b
  {
    assert [a][..0] == [] && [a, b][..1] == [a];
  }

  lemma {:induction false} CutIsValid()
    ensures ValidMerge(TwoLevels([DELETION], [BOTH]), CUT, 2)
  {
    hide OutputFiles, ClosedInputs, Survivors, Concat, DistinctNumbers, Numbers, OverlapFilter;
    FilterOne(BOTH, 2, 2);
    ClosedPair(DELETION, [BOTH], [BOTH]);
    CutKeepsAll();
    CutOutputs();
    SingleFile(DELETION);
    SingleFile(BOTH);
    assert Sorted(CUT.run);
  }

  /** What a merge makes of the lone file of level 1 and the files of level 2. */
  lemma {:induction false} MergeAt(f: File, two: Level, c: Merge, two': Level)
    requires ValidVersion(TwoLevels([f], two)) && c.level == 1 && c.inputs0 == [f]
    requires (forall g | g in c.inputs1 :: g in two) && DistinctNumbers(c.outs) && Numbers(c.outs) !! Numbers(two)
    requires SortedBySmallest(two') && forall g :: g in two' <==> (g in two && g !in c.inputs1) || g in c.outs
    ensures MergeResult(TwoLevels([f], two), c) == TwoLevels([], two')
  {
    hide ValidVersion, DistinctNumbers, Numbers;
    assert SortedBySmallest([]);
    TwoLevelEdit([f], two, 1, [f], 2, c.inputs1, c.outs, [], two');
  }

  lemma {:induction false} CutIsStep()
    requires Inv(DELETED_FLUSHED)
    ensures CompactStep(DELETED_FLUSHED, MERGED, CUT) && NothingResurrected(DELETED_FLUSHED, CUT)
  {
    hide ValidMerge, ValidVersion, SortedBySmallest, DistinctNumbers, Numbers, Obsolete, MergeResult, ValidNumbers, ValidLogs, ReadsAgree;
    CutIsValid();
    CutKeepsAll();
    CutOutputs();
    SingleFile(BOTH);
    MergeAt(DELETION, [BOTH], CUT, [FIRST, SECOND]);
  }

  // ----- The run and what comes after it

  function RunStates(): seq<State> {
    [AT_START, TWO_WRITTEN, SNAPSHOT_TAKEN, SWITCHED, FLUSHED, DELETED, DELETED_SWITCHED, DELETED_FLUSHED, MERGED, RELEASED,
     OVERWRITTEN, SWITCHED_AGAIN, AT_END]
  }

  function RunEvents(): seq<Event> {
    [WriteBatch(WRITES[..2]), TakeSnapshot, SwitchMemTable, FlushMemTable(2, [BOTH]),
     WriteBatch(WRITES[2..3]), SwitchMemTable, FlushMemTable(1, [DELETION]), Compact(CUT),
     ReleaseSnapshot(0), WriteBatch(WRITES[3..]), SwitchMemTable, FlushMemTable(1, [TOP])]
  }

  lemma {:induction false} UpToTheFlush()
    ensures Step(AT_START, WriteBatch(WRITES[..2]), TWO_WRITTEN) && Step(TWO_WRITTEN, TakeSnapshot, SNAPSHOT_TAKEN)
    ensures Step(SNAPSHOT_TAKEN, SwitchMemTable, SWITCHED) && Step(SWITCHED, FlushMemTable(2, [BOTH]), FLUSHED)
    ensures Inv(FLUSHED)
  {
    hide Inv, WriteStep, SwitchStep, FlushStep;
    Starts();
    InitialInv(AT_START);
    FirstWrite();
    StepKeepsInv(AT_START, WriteBatch(WRITES[..2]), TWO_WRITTEN);
    StepKeepsInv(TWO_WRITTEN, TakeSnapshot, SNAPSHOT_TAKEN);
    Switches();
    StepKeepsInv(SNAPSHOT_TAKEN, SwitchMemTable, SWITCHED);
    FirstFlush();
    StepKeepsInv(SWITCHED, FlushMemTable(2, [BOTH]), FLUSHED);
  }

  lemma {:induction false} UpToTheMerge()
    requires Inv(FLUSHED)
    ensures Step(FLUSHED, WriteBatch(WRITES[2..3]), DELETED) && Step(DELETED, SwitchMemTable, DELETED_SWITCHED)
    ensures Step(DELETED_SWITCHED, FlushMemTable(1, [DELETION]), DELETED_FLUSHED) && Step(DELETED_FLUSHED, Compact(CUT), MERGED)
    ensures Inv(MERGED)
  {
    hide Inv, WriteStep, SwitchStep, FlushStep, CompactStep, NothingResurrected;
    SecondWrite();
    StepKeepsInv(FLUSHED, WriteBatch(WRITES[2..3]), DELETED);
    Switches();
    StepKeepsInv(DELETED, SwitchMemTable, DELETED_SWITCHED);
    SecondFlush();
    StepKeepsInv(DELETED_SWITCHED, FlushMemTable(1, [DELETION]), DELETED_FLUSHED);
    CutIsStep();
    StepKeepsInv(DELETED_FLUSHED, Compact(CUT), MERGED);
  }

  lemma {:induction false} UpToTheEnd()
    requires Inv(MERGED)
    ensures Step(MERGED, ReleaseSnapshot(0), RELEASED) && Step(RELEASED, WriteBatch(WRITES[3..]), OVERWRITTEN)
    ensures Step(OVERWRITTEN, SwitchMemTable, SWITCHED_AGAIN) && Step(SWITCHED_AGAIN, FlushMemTable(1, [TOP]), AT_END)
    ensures Inv(AT_END)
  {
    hide Inv, WriteStep, SwitchStep, FlushStep;
    assert ReleaseStep(MERGED, RELEASED, 0);
    StepKeepsInv(MERGED, ReleaseSnapshot(0), RELEASED);
    ThirdWrite();
    StepKeepsInv(RELEASED, WriteBatch(WRITES[3..]), OVERWRITTEN);
    Switches();
    StepKeepsInv(OVERWRITTEN, SwitchMemTable, SWITCHED_AGAIN);
    ThirdFlush();
    StepKeepsInv(SWITCHED_AGAIN, FlushMemTable(1, [TOP]), AT_END);
  }

  lemma {:induction false} RunIsRun()
    ensures IsRun(RunStates(), RunEvents()) && RunStates()[12] == AT_END && Inv(AT_END)
  {
    hide Inv, Step, Initial;
    Starts();
    UpToTheFlush();
    UpToTheMerge();
    UpToTheEnd();
  }

  // The next compaction of the file at level 1, with every snapshot gone.
  const REVIVE := Merge(1, [TOP], [FIRST], [Y, X, TOMBSTONE], [[Y]], [LAST])
  const REVIVED := State(WRITES, 4, 4, Tables([], None, TwoLevels([], [LAST, SECOND])), 4, [], 13,
                         [LOG3, LOG4, LOG6, LogFile(10, [])], 10, 4, 13)

  lemma {:induction false} ReviveDrops()
    ensures Survivors(REVIVE.run, 3, 4, TwoLevels([TOP], [FIRST, SECOND]), 1) == [Y]
  {
    var run, v := REVIVE.run, TwoLevels([TOP], [FIRST, SECOND]);
    NothingBelow([TOP], [FIRST, SECOND], 2);
    assert !Dropped(run, 0, 4, v, 1) && Hidden(run, 1, 4) && Obsolete(run, 2, 4, v, 1);
    assert Survivors(run, 1, 4, v, 1) == [Y];
    assert Survivors(run, 2, 4, v, 1) == [Y];
  }

  lemma {:induction false} FilterTwo()
    ensures OverlapFilter([FIRST, SECOND], Some(1), Some(1)) == [FIRST]
  {
    assert [FIRST, SECOND][..1] == [FIRST];
    FilterOne(FIRST, 1, 1);
  }

  lemma {:induction false} ReviveIsValid()
    ensures ValidMerge(TwoLevels([TOP], [FIRST, SECOND]), REVIVE, 4)
  {
    hide ClosedInputs, Survivors, Concat, DistinctNumbers, Numbers, OverlapFilter;
    FilterTwo();
    ClosedPair(TOP, [FIRST, SECOND], [FIRST]);
    ReviveDrops();
    ConcatTwo([Y], []);
    FilesAreWellFormed();
    SingleFile(LAST);
    SingleFile(TOP);
    SingleFile(FIRST);
    PairOfFiles(FIRST, SECOND);
    assert Sorted(REVIVE.run);
  }

  lemma {:induction false} ReviveIsStep()
    requires Inv(AT_END)
    ensures CompactStep(AT_END, REVIVED, REVIVE)
  {
    hide ValidMerge, ValidVersion, SortedBySmallest, DistinctNumbers, Numbers, MergeResult, ValidNumbers, ValidLogs, ReadsAgree;
    ReviveIsValid();
    SingleFile(LAST);
    PairOfFiles(FIRST, SECOND);
    PairOfFiles(LAST, SECOND);
    assert FIRST != SECOND && FIRST in [FIRST, SECOND];
    MergeAt(TOP, [FIRST, SECOND], REVIVE, [LAST, SECOND]);
  }

  lemma {:induction false} ReadsAfterRevival()
    requires Inv(AT_END) && CompactStep(AT_END, REVIVED, REVIVE)
    ensures TablesGet(REVIVED.tables, 2, 4) == Some("old")
  {
    hide ValidMerge, Inv, ValidVersion, LevelEntries, VersionEntries, MergeResult, TablesGet, VersionGet, SortedBySmallest, DistinctNumbers, Numbers;
    var v := TwoLevels([], [LAST, SECOND]);
    VersionOfInv(AT_END);
    MergeKeepsValid(AT_END.tables.version, REVIVE, 4);
    StoredInTwoLevels([], [LAST, SECOND]);
    PairOfFiles(LAST, SECOND);
    SingleFile(TOP);
    assert Contents(REVIVED.tables) == {Y, OLD};
    TablesGetReadsContents(REVIVED.tables, 2, 4);
    assert Newest({Y, OLD}, 2, 4, OLD);
  }

  lemma {:induction false} HistoryHasNothing()
    ensures HistoryRead(WRITES, 2, 4) == None
  {
    assert HistoryRead(WRITES, 2, 3) == None;
  }

  /**
   * After this run the key reads as deleted. A compaction with inputs closed as the code closes them
   * leads from there to a state that reads the value from before the deletion.
   */
  lemma {:induction false} DeletedValueComesBack()
    ensures IsRun(RunStates(), RunEvents()) && RunStates()[12] == AT_END
    ensures CompactStep(AT_END, REVIVED, REVIVE) && !NothingResurrected(AT_END, REVIVE)
    ensures HistoryRead(AT_END.ops, 2, 4) == None && AT_END.lastSequence == REVIVED.lastSequence == 4 && AT_END.ops == REVIVED.ops
    ensures TablesGet(AT_END.tables, 2, 4) == None
    ensures TablesGet(REVIVED.tables, 2, 4) == Some("old")
  {
    hide IsRun, Inv, CompactStep, NothingResurrected, TablesGet, HistoryRead;
    RunIsRun();
    ReviveIsStep();
    HistoryHasNothing();
    EveryRunReadsItsHistory(RunStates(), RunEvents(), 12, 2, 4);
    ReadsAfterRevival();
    if NothingResurrected(AT_END, REVIVE) {
      StepKeepsInv(AT_END, Compact(REVIVE), REVIVED);
      InvReadsHistory(REVIVED, 2, 4);
      assert false;
    }
  }
}
