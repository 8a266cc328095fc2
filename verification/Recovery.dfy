/** A crash followed by recovery loses nothing; every run of the engine reads its history. */
module Recovery {
  import opened InternalKeys
  import opened Options
  import opened Versions
  import opened Store
  import opened Installs
  import opened Compactions
  import opened CompactionInstalls
  import opened Machine
  import opened MachineSteps

  // ----- Replayed entries come in sequence order

  ghost predicate AscendingSequences(run: seq<Entry>) {
    forall i, j | 0 <= i < j < |run| :: run[i].key.sequence < run[j].key.sequence
  }

  lemma {:induction false} ChunkOrder(chunks: seq<seq<Entry>>, i: nat, j: nat, a: Entry, b: Entry)
    requires AscendingSequences(Concat(chunks)) && i < j < |chunks| && a in chunks[i] && b in chunks[j]
    ensures a.key.sequence < b.key.sequence
    decreases |chunks|
  {
    var last := |chunks| - 1;
    var front := chunks[..last];
    var c := Concat(front);
    assert forall x, y | 0 <= x < y < |c| :: Concat(chunks)[x] == c[x] && Concat(chunks)[y] == c[y];
    if j < last {
      ChunkOrder(front, i, j, a, b);
    } else {
      ConcatMembers(front, a);
      assert front[i] == chunks[i];
      var x :| 0 <= x < |c| && c[x] == a;
      var y :| 0 <= y < |chunks[last]| && chunks[last][y] == b;
      assert Concat(chunks)[x] == a && Concat(chunks)[|c| + y] == b;
    }
  }

  lemma {:induction false} SuffixElements(ops: seq<Op>, lo: nat)
    requires lo <= |ops|
    ensures Elements(HistorySuffix(ops, lo)) == OpsRange(ops, lo, |ops|)
    ensures AscendingSequences(HistorySuffix(ops, lo))
  {
    forall e ensures e in HistorySuffix(ops, lo) <==> e in OpsRange(ops, lo, |ops|) {
      if e in OpsRange(ops, lo, |ops|) {
        var i :| lo <= i < |ops| && e == EntryOf(ops, i);
        assert HistorySuffix(ops, lo)[i - lo] == e;
      }
    }
  }

  /** The replayed history up to the part that stays in the memtable. */
  lemma {:induction false} CutSuffix(ops: seq<Op>, lo: nat, cut: nat, front: seq<Entry>, kept: seq<Entry>)
    requires lo <= |ops| && |kept| <= |ops| && cut == |ops| - |kept|
    requires front + kept == HistorySuffix(ops, lo)
    ensures lo <= cut && kept == HistorySuffix(ops, cut)
    ensures Elements(front) == OpsRange(ops, lo, cut) && AscendingSequences(front)
  {
    var all := HistorySuffix(ops, lo);
    assert |front| == cut - lo;
    assert forall i | 0 <= i < |front| :: front[i] == all[i] == EntryOf(ops, lo + i);
    assert forall i | 0 <= i < |kept| :: kept[i] == all[|front| + i] == EntryOf(ops, cut + i);
    forall e ensures e in front <==> e in OpsRange(ops, lo, cut) {
      if e in OpsRange(ops, lo, cut) {
        var i :| lo <= i < cut && e == EntryOf(ops, i);
        assert front[i - lo] == e;
      }
    }
  }

  // ----- The recovered tables

  lemma {:induction false} RecoveredEntries(chunks: seq<seq<Entry>>, outs: Level)
    requires |outs| == |chunks| && forall i | 0 <= i < |outs| :: WrittenFrom(chunks[i], outs[i])
    ensures WellFormedFiles(outs) && LevelEntries(outs) == Elements(Concat(chunks))
  {
    forall e ensures e in LevelEntries(outs) <==> e in Concat(chunks) {
      ConcatMembers(chunks, e);
      if e in LevelEntries(outs) {
        var o :| o in outs && e in o.entries;
        var i :| 0 <= i < |outs| && outs[i] == o;
        assert e in Elements(chunks[i]);
      }
      if e in Concat(chunks) {
        var i :| 0 <= i < |chunks| && e in chunks[i];
        assert e in Elements(outs[i].entries) && outs[i] in outs;
      }
    }
  }

  lemma {:induction false} RecoveredOrder(chunks: seq<seq<Entry>>, outs: Level, o: File, p: File)
    requires |outs| == |chunks| && forall i | 0 <= i < |outs| :: WrittenFrom(chunks[i], outs[i])
    requires forall i, j | 0 <= i < j < |outs| :: outs[i].number < outs[j].number
    requires AscendingSequences(Concat(chunks)) && o in outs && p in outs && o.number > p.number
    ensures NewerFile(o, p)
  {
    var i :| 0 <= i < |outs| && outs[i] == o;
    var j :| 0 <= j < |outs| && outs[j] == p;
    assert j < i;
    forall a, b | a in o.entries && b in p.entries ensures a.key.sequence > b.key.sequence {
      assert a in Elements(chunks[i]) && b in Elements(chunks[j]);
      ChunkOrder(chunks, j, i, b, a);
    }
  }

  lemma {:induction false} RecoveredIsValidAdd(v: Version, ops: seq<Op>, lo: nat, cut: nat, chunks: seq<seq<Entry>>, outs: Level, bound: nat)
    requires ValidVersion(v) && NumberedBelow(v, bound) && lo <= cut <= |ops|
    requires VersionEntries(v) <= OpsRange(ops, 0, lo)
    requires Elements(Concat(chunks)) == OpsRange(ops, lo, cut) && AscendingSequences(Concat(chunks))
    requires |outs| == |chunks| && DistinctNumbers(outs) && forall i | 0 <= i < |outs| :: WrittenFrom(chunks[i], outs[i])
    requires forall i, j | 0 <= i < j < |outs| :: outs[i].number < outs[j].number
    requires forall o | o in outs :: bound < o.number
    ensures ValidAdd(v, 0, outs) && LevelEntries(outs) == OpsRange(ops, lo, cut)
  {
    RecoveredEntries(chunks, outs);
    forall o, p | o in outs && p in outs && o.number > p.number ensures NewerFile(o, p) {
      RecoveredOrder(chunks, outs, o, p);
    }
    forall o | o in outs ensures Newer(Elements(o.entries), VersionEntries(v)) {
      assert Elements(o.entries) <= LevelEntries(outs);
      NewerRanges(ops, 0, lo, cut, Elements(o.entries), VersionEntries(v));
    }
  }

  lemma {:induction false} RecoverSetup(s: State, s': State, chunks: seq<seq<Entry>>, outs: Level, reuseLog: bool, saved: bool, newLog: nat)
    returns (cut: nat)
    requires Inv(s) && RecoverStep(s, s', chunks, outs, reuseLog, saved, newLog)
    ensures s.flushed <= cut <= |s.ops| && cut == s'.switched == s'.flushed
    ensures reuseLog ==> cut == s.switched
    ensures !reuseLog ==> cut == |s.ops|
    ensures chunks == [] ==> cut == s.flushed
    ensures Elements(s'.tables.mem) == OpsRange(s.ops, cut, |s.ops|)
    ensures ValidAdd(s.tables.version, 0, outs) && LevelEntries(outs) == OpsRange(s.ops, s.flushed, cut)
  {
    hide ValidVersion, ReadsAgree, VersionEntries, Sorted, NumberedBelow, DistinctAcross, OpsRange, WrittenFrom, AddResult, Replay;
    var kept := if reuseLog then CurrentLog(s).entries else [];
    cut := |s.ops| - |kept|;
    CutSuffix(s.ops, s.flushed, cut, Concat(chunks), kept);
    SuffixElements(s.ops, cut);
    forall o | o in outs ensures s.manifestNext < o.number {
      var i :| 0 <= i < |outs| && outs[i] == o;
    }
    RecoveredIsValidAdd(s.tables.version, s.ops, s.flushed, cut, chunks, outs, s.manifestNext);
  }

  lemma {:induction false} RecoverKeepsTables(s: State, s': State, chunks: seq<seq<Entry>>, outs: Level, reuseLog: bool, saved: bool, newLog: nat)
    requires Inv(s) && RecoverStep(s, s', chunks, outs, reuseLog, saved, newLog)
    ensures ValidTablesOf(s') && Contents(s'.tables) == Contents(s.tables)
  {
    var cut := RecoverSetup(s, s', chunks, outs, reuseLog, saved, newLog);
    RecoveredTables(s, s', cut, outs);
  }

  lemma {:induction false} RecoveredTables(s: State, s': State, cut: nat, outs: Level)
    requires ValidTablesOf(s) && s.flushed <= cut <= |s.ops|
    requires s'.ops == s.ops && s'.switched == s'.flushed == cut
    requires s'.tables == Tables(s'.tables.mem, None, AddResult(s.tables.version, 0, outs)) && Sorted(s'.tables.mem)
    requires Elements(s'.tables.mem) == OpsRange(s.ops, cut, |s.ops|)
    requires ValidAdd(s.tables.version, 0, outs) && LevelEntries(outs) == OpsRange(s.ops, s.flushed, cut)
    ensures ValidTablesOf(s') && Contents(s'.tables) == Contents(s.tables)
  {
    AddKeepsValid(s.tables.version, 0, outs);
    OpsRangeSplit(s.ops, 0, s.flushed, cut);
    OpsRangeSplit(s.ops, s.flushed, cut, |s.ops|);
    OpsRangeSplit(s.ops, s.flushed, s.switched, |s.ops|);
  }

  lemma {:induction false} RecoverKeepsNumbers(s: State, s': State, chunks: seq<seq<Entry>>, outs: Level, reuseLog: bool, saved: bool, newLog: nat)
    requires Inv(s) && RecoverStep(s, s', chunks, outs, reuseLog, saved, newLog)
    ensures ValidNumbers(s')
  {
    var cut := RecoverSetup(s, s', chunks, outs, reuseLog, saved, newLog);
    forall o | o in outs ensures s.manifestNext <= o.number < s'.nextFile {
      var i :| 0 <= i < |outs| && outs[i] == o;
    }
    AddKeepsNumbers(s.tables.version, 0, outs, s.manifestNext, if saved then s'.nextFile else s.manifestNext);
  }

  /** The recovered sequence is exactly the last one published before the crash. */
  lemma {:induction false} RecoveredSequence(s: State)
    requires Inv(s)
    ensures Max(s.manifestSequence, LastSequenceOf(Replay(s.logs, s.logNumber))) == s.lastSequence
  {
  }

  /** The last log stays in use together with its memtable. */
  lemma {:induction false} ReusedLog(s: State, s': State, saved: bool)
    requires ValidLogs(s) && s.lastSequence == |s.ops|
    requires s'.ops == s.ops && s'.logs == s.logs && s'.switched == s'.flushed == s.switched
    requires CurrentLog(s).number < s'.nextFile
    requires s'.logNumber == if saved then CurrentLog(s).number else s.logNumber
    requires s'.manifestSequence == if saved then |s.ops| else s.manifestSequence
    requires !saved ==> s.switched == s.flushed
    ensures ValidLogs(s')
  {
    ReplayCurrent(s.logs);
  }

  /** A new log is started; everything replayed is in tables. */
  lemma {:induction false} StartedLog(s: State, s': State, saved: bool, newLog: nat)
    requires ValidLogs(s) && s.lastSequence == |s.ops| && CurrentLog(s).number < newLog < s'.nextFile
    requires s'.ops == s.ops && s'.logs == s.logs + [LogFile(newLog, [])] && s'.switched == s'.flushed == |s.ops|
    requires s'.logNumber == if saved then newLog else s.logNumber
    requires s'.manifestSequence == if saved then |s.ops| else s.manifestSequence
    requires !saved ==> s.flushed == |s.ops|
    ensures ValidLogs(s')
  {
    assert AscendingLogs(s'.logs);
    ReplayCurrent(s'.logs);
    ReplayNewLog(s.logs, LogFile(newLog, []), s.logNumber);
  }

  lemma {:induction false} RecoverKeepsLogs(s: State, s': State, chunks: seq<seq<Entry>>, outs: Level, reuseLog: bool, saved: bool, newLog: nat)
    requires Inv(s) && RecoverStep(s, s', chunks, outs, reuseLog, saved, newLog)
    ensures ValidLogs(s')
  {
    var cut := RecoverSetup(s, s', chunks, outs, reuseLog, saved, newLog);
    RecoveredSequence(s);
    if reuseLog {
      ReusedLog(s, s', saved);
    } else {
      StartedLog(s, s', saved, newLog);
    }
  }

  lemma {:induction false} RecoverKeepsInv(s: State, s': State, chunks: seq<seq<Entry>>, outs: Level, reuseLog: bool, saved: bool, newLog: nat)
    requires Inv(s) && RecoverStep(s, s', chunks, outs, reuseLog, saved, newLog)
    ensures Inv(s')
    ensures s'.ops == s.ops && s'.lastSequence == s.lastSequence && Contents(s'.tables) == Contents(s.tables)
  {
    RecoverKeepsTables(s, s', chunks, outs, reuseLog, saved, newLog);
    RecoverKeepsNumbers(s, s', chunks, outs, reuseLog, saved, newLog);
    RecoverKeepsLogs(s, s', chunks, outs, reuseLog, saved, newLog);
    RecoveredSequence(s);
    LaterSnapshots(OpsRange(s.ops, 0, |s.ops|), Contents(s.tables), SmallestSnapshot(s), SmallestSnapshot(s'));
  }

  // ----- Runs

  lemma {:induction false} StepKeepsInv(s: State, e: Event, s': State)
    requires Inv(s) && Step(s, e, s')
    ensures Inv(s')
  {
    match e
    case WriteBatch(batch) => WriteKeepsInv(s, s', batch);
    case SwitchMemTable => SwitchKeepsInv(s, s');
    case FlushMemTable(level, outs) => FlushKeepsInv(s, s', level, outs);
    case Compact(c) => CompactKeepsInv(s, s', c);
    case MoveDown(level, f) => MoveKeepsInv(s, s', level, f);
    case TakeSnapshot => TakeSnapshotKeepsInv(s, s');
    case ReleaseSnapshot(index) => ReleaseKeepsInv(s, s', index);
    case DeleteOldLogs => DeleteLogsKeepsInv(s, s');
    case CrashAndRecover(chunks, outs, reuseLog, saved, newLog) => RecoverKeepsInv(s, s', chunks, outs, reuseLog, saved, newLog);
  }

  /** A freshly created database: one empty log, no tables. */
  ghost predicate Initial(s: State) {
    s == State([], 0, 0, Tables([], None, seq(NUM_LEVELS, _ => [])), 0, [], 4, [LogFile(3, [])], 3, 0, 4)
  }

  lemma {:induction false} InitialTables(s: State)
    requires Initial(s)
    ensures ValidTablesOf(s) && ValidNumbers(s) && Contents(s.tables) == {}
  {
    hide ValidVersion, SortedBySmallest, AgeOrdered, LevelsLayered, VersionEntries;
    EmptyVersion(s.tables.version);
    assert OpsRange(s.ops, 0, 0) == {};
  }

  lemma {:induction false} EmptyVersion(v: Version)
    requires |v| == NUM_LEVELS && forall i | 0 <= i < |v| :: v[i] == []
    ensures ValidVersion(v) && VersionEntries(v) == {}
  {
    hide WellFormedFile, Sorted;
    assert forall i | 0 <= i < |v| :: LevelEntries(v[i]) == {};
  }

  lemma {:induction false} InitialInv(s: State)
    requires Initial(s)
    ensures Inv(s)
  {
    hide ValidTablesOf, ValidNumbers;
    InitialTables(s);
    assert OpsRange(s.ops, 0, 0) == {};
    assert Replay(s.logs[..0], s.logNumber) == [];
  }

  ghost predicate IsRun(states: seq<State>, events: seq<Event>) {
    && |states| == |events| + 1 && Initial(states[0])
    && forall i | 0 <= i < |events| :: Step(states[i], events[i], states[i + 1])
  }

  lemma {:induction false} RunKeepsInv(states: seq<State>, events: seq<Event>, n: nat)
    requires IsRun(states, events) && n < |states|
    ensures Inv(states[n])
  {
    if n == 0 {
      InitialInv(states[0]);
    } else {
      RunKeepsInv(states, events, n - 1);
      StepKeepsInv(states[n - 1], events[n - 1], states[n]);
    }
  }

  /** In every state of every run, every live snapshot and every fresh reader reads the newest
      acknowledged write not newer than its sequence. */
  lemma {:induction false} EveryRunReadsItsHistory(states: seq<State>, events: seq<Event>, n: nat, k: UserKey, sn: nat)
    requires IsRun(states, events) && n < |states|
    requires sn in states[n].snapshots || sn == states[n].lastSequence
    ensures sn <= |states[n].ops| && Inv(states[n])
    ensures TablesGet(states[n].tables, k, sn) == HistoryRead(states[n].ops, k, sn)
  {
    RunKeepsInv(states, events, n);
    var s := states[n];
    if sn in s.snapshots {
      var i :| 0 <= i < |s.snapshots| && s.snapshots[i] == sn;
      assert s.snapshots[0] <= s.snapshots[i];
    }
    InvReadsHistory(s, k, sn);
  }
}
