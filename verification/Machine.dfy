/** The storage engine as a state machine: its steps, its invariant, and what readers see. */
module Machine {
  import opened InternalKeys
  import opened Options
  import opened Versions
  import opened DropRule
  import opened Store
  import opened Installs
  import opened Compactions
  import opened CompactionInstalls

  datatype LogFile = LogFile(number: nat, entries: seq<Entry>)

  /**
   * ops is the history of acknowledged writes. The memtable holds the writes from `switched` on, the
   * immutable memtable those from `flushed` on. manifestSequence and manifestNext are what the
   * manifest recorded last.
   */
  datatype State = State(
    ops: seq<Op>, switched: nat, flushed: nat,
    tables: Tables, lastSequence: nat, snapshots: seq<nat>, nextFile: nat,
    logs: seq<LogFile>, logNumber: nat, manifestSequence: nat, manifestNext: nat)

  /** The sequence below which old versions may be forgotten. */
  function SmallestSnapshot(s: State): nat {
    if s.snapshots == [] then s.lastSequence else s.snapshots[0]
  }

  // ----- Logs

  function HistorySuffix(ops: seq<Op>, lo: nat): seq<Entry>
    requires lo <= |ops|
  {
    seq(|ops| - lo, i requires 0 <= i < |ops| - lo => EntryOf(ops, lo + i))
  }

  /** The entries of all logs numbered min or higher, in order. */
  function Replay(logs: seq<LogFile>, min: nat): seq<Entry> {
    if logs == [] then []
    else
      var last := logs[|logs| - 1];
      Replay(logs[..|logs| - 1], min) + (if last.number >= min then last.entries else [])
  }

  function CurrentLog(s: State): LogFile
    requires s.logs != []
  {
    s.logs[|s.logs| - 1]
  }

  // ----- The invariant

  ghost predicate ValidTablesOf(s: State) {
    && s.flushed <= s.switched <= |s.ops|
    && Sorted(s.tables.mem) && Elements(s.tables.mem) == OpsRange(s.ops, s.switched, |s.ops|)
    && Sorted(ImmRun(s.tables)) && Elements(ImmRun(s.tables)) == OpsRange(s.ops, s.flushed, s.switched)
    && ValidVersion(s.tables.version) && VersionEntries(s.tables.version) <= OpsRange(s.ops, 0, s.flushed)
  }

  ghost predicate NumberedBelow(v: Version, bound: nat) {
    forall i, f | 0 <= i < |v| && f in v[i] :: f.number < bound
  }

  ghost predicate DistinctAcross(v: Version) {
    forall i, j, f, g | 0 <= i < |v| && 0 <= j < |v| && f in v[i] && g in v[j] && f.number == g.number :: i == j && f == g
  }

  ghost predicate ValidNumbers(s: State) {
    && NumberedBelow(s.tables.version, s.manifestNext) && DistinctAcross(s.tables.version)
    && s.manifestNext <= s.nextFile
  }

  ghost predicate ValidSnapshots(s: State) {
    && (forall i, j | 0 <= i <= j < |s.snapshots| :: s.snapshots[i] <= s.snapshots[j])
    && (forall i | 0 <= i < |s.snapshots| :: s.snapshots[i] <= s.lastSequence)
  }

  ghost predicate AscendingLogs(logs: seq<LogFile>) {
    forall i, j | 0 <= i < j < |logs| :: logs[i].number < logs[j].number
  }

  ghost predicate ValidLogs(s: State) {
    && s.logs != [] && AscendingLogs(s.logs)
    && s.logNumber <= CurrentLog(s).number < s.nextFile
    && s.flushed <= s.switched <= |s.ops|
    && Replay(s.logs, s.logNumber) == HistorySuffix(s.ops, s.flushed)
    && CurrentLog(s).entries == HistorySuffix(s.ops, s.switched)
    && s.flushed <= s.manifestSequence <= |s.ops|
  }

  ghost predicate ReadsAgree(s: State) {
    ReadsKept(OpsRange(s.ops, 0, |s.ops|), Contents(s.tables), SmallestSnapshot(s))
  }

  ghost predicate Inv(s: State) {
    && s.lastSequence == |s.ops| < MAX_SEQUENCE
    && ValidTablesOf(s) && ValidNumbers(s) && ValidSnapshots(s) && ValidLogs(s) && ReadsAgree(s)
  }

  // ----- The steps

  datatype Event =
    | WriteBatch(batch: seq<Op>)
    | SwitchMemTable
    | FlushMemTable(level: nat, outs: Level)
    | Compact(merge: Merge)
    | MoveDown(moveLevel: nat, file: File)
    | TakeSnapshot
    | ReleaseSnapshot(index: nat)
    | DeleteOldLogs
    | CrashAndRecover(chunks: seq<seq<Entry>>, recovered: Level, reuseLog: bool, saved: bool, newLog: nat)

  function AppendToCurrentLog(logs: seq<LogFile>, entries: seq<Entry>): seq<LogFile>
    requires logs != []
  {
    var last := |logs| - 1;
    logs[last := logs[last].(entries := logs[last].entries + entries)]
  }

  function OpsEntries(ops: seq<Op>, lo: nat, hi: nat): seq<Entry>
    requires lo <= hi <= |ops|
  {
    seq(hi - lo, i requires 0 <= i < hi - lo => EntryOf(ops, lo + i))
  }

  function Written(s: State, batch: seq<Op>): State
    requires s.logs != []
  {
    var ops := s.ops + batch;
    s.(ops := ops, lastSequence := s.lastSequence + |batch|,
       logs := AppendToCurrentLog(s.logs, OpsEntries(ops, |s.ops|, |ops|)),
       tables := s.tables.(mem := InsertOps(s.tables.mem, ops, |s.ops|, |ops|)))
  }

  /** Log first, then the memtable, then publish the sequence. */
  ghost predicate WriteStep(s: State, s': State, batch: seq<Op>) {
    s.logs != [] && |s.ops + batch| < MAX_SEQUENCE && s' == Written(s, batch)
  }

  ghost predicate SwitchStep(s: State, s': State) {
    && s.tables.imm.None?
    && s' == s.(tables := s.tables.(mem := [], imm := Some(s.tables.mem)), switched := |s.ops|,
                logs := s.logs + [LogFile(s.nextFile, [])], nextFile := s.nextFile + 1)
  }

  /** An edit is installed: the manifest records the counters of this moment. */
  function Recorded(s: State, v: Version): State {
    s.(tables := s.tables.(version := v), manifestSequence := s.lastSequence, manifestNext := s.nextFile)
  }

  /** The new table is installed; the immutable memtable and the logs before the current one are done with. */
  function Flushed(s: State, level: nat, outs: Level): State
    requires s.logs != []
  {
    Recorded(s, AddResult(s.tables.version, level, outs)).(
      tables := Tables(s.tables.mem, None, AddResult(s.tables.version, level, outs)),
      flushed := s.switched, logNumber := CurrentLog(s).number)
  }

  ghost predicate FlushStep(s: State, s': State, level: nat, outs: Level) {
    && s.tables.imm.Some? && s.logs != [] && level < |s.tables.version|
    && (if s.tables.imm.value == [] then outs == [] && level == 0
        else |outs| == 1 && WellFormedFile(outs[0]) && outs[0].entries == s.tables.imm.value && outs[0].number == s.nextFile)
    && (level > 0 ==> forall i | 0 <= i <= level :: Inputs.NoOverlapIn(s.tables.version[i], outs[0].smallest.user, outs[0].largest.user))
    && s' == Flushed(s.(nextFile := s.nextFile + 1), level, outs)
  }

  /** The hypothesis on the level below: dropping must not bring a value back. */
  ghost predicate NothingResurrected(s: State, c: Merge) {
    forall i | 0 <= i < |c.run| :: !Resurrects(Contents(s.tables), c.run, i, SmallestSnapshot(s), s.tables.version, c.level)
  }

  ghost predicate CompactStep(s: State, s': State, c: Merge) {
    && ValidMerge(s.tables.version, c, SmallestSnapshot(s))
    && (forall o | o in c.outs :: s.nextFile <= o.number < s'.nextFile)
    && s.nextFile <= s'.nextFile
    && s' == Recorded(s.(nextFile := s'.nextFile), MergeResult(s.tables.version, c))
  }

  ghost predicate MoveStep(s: State, s': State, level: nat, f: File) {
    && ValidMove(s.tables.version, level, f)
    && s' == Recorded(s, MoveResult(s.tables.version, level, f))
  }

  ghost predicate ReleaseStep(s: State, s': State, index: nat) {
    && index < |s.snapshots|
    && s' == s.(snapshots := s.snapshots[..index] + s.snapshots[index + 1..])
  }

  function KeepLogs(logs: seq<LogFile>, min: nat): seq<LogFile> {
    if logs == [] then []
    else
      var last := logs[|logs| - 1];
      KeepLogs(logs[..|logs| - 1], min) + (if last.number >= min then [last] else [])
  }

  function Max(a: nat, b: nat): nat {
    if a < b then b else a
  }

  function LastSequenceOf(entries: seq<Entry>): nat {
    if entries == [] then 0 else entries[|entries| - 1].key.sequence
  }

  /** A file written from a chunk of replayed entries. */
  ghost predicate WrittenFrom(chunk: seq<Entry>, f: File) {
    WellFormedFile(f) && Elements(f.entries) == Elements(chunk)
  }

  /** The level-0 tables written during recovery, in the order of their chunks. */
  ghost predicate RecoveredFiles(chunks: seq<seq<Entry>>, outs: Level, lo: nat, hi: nat) {
    && |outs| == |chunks| && DistinctNumbers(outs)
    && (forall i | 0 <= i < |outs| :: WrittenFrom(chunks[i], outs[i]) && lo < outs[i].number < hi)
    && (forall i, j | 0 <= i < j < |outs| :: outs[i].number < outs[j].number)
  }

  function LogsAfterRecovery(s: State, reuseLog: bool, newLog: nat): seq<LogFile> {
    if reuseLog then s.logs else s.logs + [LogFile(newLog, [])]
  }

  /** The state once the replayed tables are installed; a saved manifest records the new counters. */
  function Recovered(s: State, mem: seq<Entry>, kept: nat, outs: Level, logs: seq<LogFile>, saved: bool, nextFile: nat): State
    requires kept <= |s.ops| && logs != []
  {
    var last := Max(s.manifestSequence, LastSequenceOf(Replay(s.logs, s.logNumber)));
    State(s.ops, |s.ops| - kept, |s.ops| - kept, Tables(mem, None, AddResult(s.tables.version, 0, outs)), last, [], nextFile,
          logs, if saved then logs[|logs| - 1].number else s.logNumber,
          if saved then last else s.manifestSequence, if saved then nextFile else s.manifestNext)
  }

  /**
   * Memory is lost. The logs numbered logNumber or higher are replayed in order, chunk by chunk, into
   * level-0 tables; the last log may instead stay in use together with its memtable.
   */
  ghost predicate RecoverStep(s: State, s': State, chunks: seq<seq<Entry>>, outs: Level, reuseLog: bool, saved: bool, newLog: nat) {
    && s.logs != []
    && var kept := if reuseLog then CurrentLog(s).entries else [];
       && Concat(chunks) + kept == Replay(s.logs, s.logNumber) && AllNonEmpty(chunks)
       && (!saved ==> chunks == [])
       && RecoveredFiles(chunks, outs, s.manifestNext, s'.nextFile)
       && s.manifestNext < s'.nextFile && CurrentLog(s).number < s'.nextFile
       && (!reuseLog ==> CurrentLog(s).number < newLog < s'.nextFile)
       && |kept| <= |s.ops|
       && Sorted(s'.tables.mem) && Elements(s'.tables.mem) == Elements(kept)
       && s' == Recovered(s, s'.tables.mem, |kept|, outs, LogsAfterRecovery(s, reuseLog, newLog), saved, s'.nextFile)
  }

  ghost predicate Step(s: State, e: Event, s': State) {
    match e
    case WriteBatch(batch) => WriteStep(s, s', batch)
    case SwitchMemTable => SwitchStep(s, s')
    case FlushMemTable(level, outs) => FlushStep(s, s', level, outs)
    case Compact(c) => CompactStep(s, s', c) && NothingResurrected(s, c)
    case MoveDown(level, f) => MoveStep(s, s', level, f)
    case TakeSnapshot => s' == s.(snapshots := s.snapshots + [s.lastSequence])
    case ReleaseSnapshot(index) => ReleaseStep(s, s', index)
    case DeleteOldLogs => s' == s.(logs := KeepLogs(s.logs, s.logNumber))
    case CrashAndRecover(chunks, outs, reuseLog, saved, newLog) => RecoverStep(s, s', chunks, outs, reuseLog, saved, newLog)
  }

  // ----- Steps keep the invariant: tables and reads

  lemma {:induction false} OpsRangeMonotone(ops: seq<Op>, more: seq<Op>, lo: nat, hi: nat)
    requires lo <= hi <= |ops|
    ensures OpsRange(ops + more, lo, hi) == OpsRange(ops, lo, hi)
  {
    assert forall i | lo <= i < hi :: EntryOf(ops + more, i) == EntryOf(ops, i);
  }

  lemma {:induction false} OpsRangeSplit(ops: seq<Op>, lo: nat, mid: nat, hi: nat)
    requires lo <= mid <= hi <= |ops|
    ensures OpsRange(ops, lo, hi) == OpsRange(ops, lo, mid) + OpsRange(ops, mid, hi)
  {
  }

  lemma {:induction false} RangeSequences(ops: seq<Op>, lo: nat, hi: nat, e: Entry)
    requires lo <= hi <= |ops| && e in OpsRange(ops, lo, hi)
    ensures lo < e.key.sequence <= hi
  {
  }

  lemma {:induction false} ContentsInHistory(s: State)
    requires ValidTablesOf(s)
    ensures Contents(s.tables) <= OpsRange(s.ops, 0, |s.ops|)
    ensures UniqueSequences(Contents(s.tables)) && UniqueSequences(VersionEntries(s.tables.version))
  {
    OpsRangeSplit(s.ops, 0, s.switched, |s.ops|);
    OpsRangeSplit(s.ops, 0, s.flushed, s.switched);
    HistoryIsUnique(s.ops, Contents(s.tables));
    HistoryIsUnique(s.ops, VersionEntries(s.tables.version));
  }

  lemma {:induction false} NewerRanges(ops: seq<Op>, lo: nat, mid: nat, hi: nat, A: set<Entry>, B: set<Entry>)
    requires lo <= mid <= hi <= |ops| && A <= OpsRange(ops, mid, hi) && B <= OpsRange(ops, lo, mid)
    ensures Newer(A, B)
  {
    forall a, b | a in A && b in B ensures a.key.sequence > b.key.sequence {
      RangeSequences(ops, mid, hi, a);
      RangeSequences(ops, lo, mid, b);
    }
  }

  lemma {:induction false} TablesAreLayered(s: State)
    requires ValidTablesOf(s)
    ensures ValidTables(s.tables)
  {
    OpsRangeSplit(s.ops, 0, s.flushed, s.switched);
    NewerRanges(s.ops, 0, s.switched, |s.ops|, Elements(s.tables.mem), Elements(ImmRun(s.tables)) + VersionEntries(s.tables.version));
    NewerRanges(s.ops, 0, s.flushed, s.switched, Elements(ImmRun(s.tables)), VersionEntries(s.tables.version));
  }

  /** In a state with the invariant every live reader reads exactly the history. */
  lemma {:induction false} InvReadsHistory(s: State, k: UserKey, sn: nat)
    requires Inv(s) && SmallestSnapshot(s) <= sn <= s.lastSequence
    ensures TablesGet(s.tables, k, sn) == HistoryRead(s.ops, k, sn)
  {
    TablesAreLayered(s);
    ContentsInHistory(s);
    TablesGetReadsContents(s.tables, k, sn);
    HistoryReadIsClientRead(s.ops, k, sn);
  }
}
