/** The database object: every operation is one step of the state machine. */
module Engine {
  import opened InternalKeys
  import opened Options
  import opened Versions
  import opened Inputs
  import opened Builder
  import opened Installs
  import opened DropRule
  import opened Compactions
  import opened CompactionInstalls
  import opened InputIterators
  import opened Outputs
  import opened Picking
  import opened Store
  import opened Machine
  import opened MachineSteps
  import opened Recovery
  import opened Reopen

  // ----- What the steps rely on

  lemma {:induction false} EntriesBelow(s: State)
    requires Inv(s)
    ensures Below(Contents(s.tables), MAX_SEQUENCE)
    ensures DistinctKeys(VersionEntries(s.tables.version))
  {
    ContentsInHistory(s);
    forall e | e in Contents(s.tables) ensures e.key.sequence < MAX_SEQUENCE {
      RangeSequences(s.ops, 0, |s.ops|, e);
    }
  }

  lemma {:induction false} InputsBelow(s: State, c: Merge)
    requires Inv(s) && c.level + 1 < NUM_LEVELS && ClosedInputs(s.tables.version, c.level, c.inputs0, c.inputs1)
    requires Sorted(c.run) && Elements(c.run) == InputEntries(c)
    requires Concat(c.outputs) == Survivors(c.run, |c.run|, SmallestSnapshot(s), s.tables.version, c.level)
    ensures Sorted(Concat(c.outputs)) && Below(Elements(Concat(c.outputs)), MAX_SEQUENCE)
  {
    EntriesBelow(s);
    SurvivorsSorted(c.run, |c.run|, SmallestSnapshot(s), s.tables.version, c.level);
    forall e | e in Elements(Concat(c.outputs)) ensures e.key.sequence < MAX_SEQUENCE {
      var i :| 0 <= i < |c.run| && c.run[i] == e;
      assert e in Elements(c.run);
      var j, f := InputFileOf(s.tables.version, c, e);
      EntryOfFile(s.tables.version, j, f, e);
    }
  }

  function MergedState(s: State, level: nat, inputs0: Level, inputs1: Level, outs: Level): State {
    Recorded(s.(nextFile := s.nextFile + |outs|), ApplyEdit(s.tables.version, Installs.ReplaceEdit(level, inputs0, level + 1, inputs1, outs)))
  }

  lemma {:induction false} OutputsMakeMerge(v: Version, c: Merge, snap: nat, first: nat)
    requires |v| == NUM_LEVELS && NumberedBelow(v, first)
    requires c.level + 1 < NUM_LEVELS && ClosedInputs(v, c.level, c.inputs0, c.inputs1)
    requires Sorted(c.run) && Elements(c.run) == InputEntries(c)
    requires Concat(c.outputs) == Survivors(c.run, |c.run|, snap, v, c.level)
    requires OutputFiles(c.outputs, c.outs) && NumberedFrom(c.outs, first)
    ensures ValidMerge(v, c, snap)
  {
    FreshNumbers(v, c.outs, first, c.level + 1);
  }

  lemma {:induction false} MergeIsStep(s: State, c: Merge)
    requires ValidMerge(s.tables.version, c, SmallestSnapshot(s)) && NumberedFrom(c.outs, s.nextFile)
    ensures CompactStep(s, MergedState(s, c.level, c.inputs0, c.inputs1, c.outs), c)
  {
    hide ApplyEdit, Concat, Survivors, OutputFiles;
    var next := MergedState(s, c.level, c.inputs0, c.inputs1, c.outs);
    assert next.nextFile == s.nextFile + |c.outs|;
    assert next == Recorded(s.(nextFile := next.nextFile), MergeResult(s.tables.version, c));
  }

  lemma {:induction false} MergeKeepsInv(s: State, s': State, c: Merge)
    requires Inv(s) && CompactStep(s, s', c)
    ensures NothingResurrected(s, c) ==> Inv(s')
  {
    if NothingResurrected(s, c) {
      CompactKeepsInv(s, s', c);
    }
  }

  lemma {:induction false} NumbersBelowNext(s: State)
    requires Inv(s)
    ensures NumberedBelow(s.tables.version, s.nextFile)
  {
  }

  /** The entries of a batch whose first write gets the sequence `first`. */
  function BatchEntries(batch: seq<Op>, first: nat): seq<Entry> {
    seq(|batch|, i requires 0 <= i < |batch| => Entry(InternalKey(batch[i].user, first + i, batch[i].kind), batch[i].value))
  }

  lemma {:induction false} BatchFollowsHistory(ops: seq<Op>, batch: seq<Op>)
    ensures BatchEntries(batch, |ops| + 1) == OpsEntries(ops + batch, |ops|, |ops| + |batch|)
  {
    var all := ops + batch;
    var a, b := BatchEntries(batch, |ops| + 1), OpsEntries(all, |ops|, |all|);
    forall i | 0 <= i < |batch| ensures a[i] == b[i] {
      assert all[|ops| + i] == batch[i] && b[i] == EntryOf(all, |ops| + i);
    }
  }

  datatype ManualCompaction = ManualCompaction(level: nat, begin: Option<UserKey>, end: Option<UserKey>)

  /** What is compacted when something is due: a manual range first, then a full level, then a file with too many seeks. */
  ghost predicate IsDue(v: Version, pointers: seq<Option<InternalKey>>, maxFileSize: nat, manual: Option<ManualCompaction>,
                        size: Option<nat>, seek: Option<(nat, File)>, level: nat, inputs: Level) {
    if manual.Some? then
      var m := manual.value;
      && level == m.level < |v|
      && exists start :: StartOfRange(v[level], level, m.begin, m.end, maxFileSize, start) && forall f | f in start :: f in inputs
    else if size.Some? then
      && level == size.value < |v| && level < |pointers|
      && exists f :: IsNext(v[level], pointers[level], f) && f in inputs
    else
      seek.Some? && level == seek.value.0 && seek.value.1 in inputs
  }

  /** A merge that the file takes part in one level down would not have to read much more than itself. */
  ghost predicate FewGrandparents(v: Version, level: nat, f: File, maxFileSize: nat) {
    level + 2 < |v| ==> TotalFileSize(OverlapFilter(v[level + 2], Some(f.smallest.user), Some(f.largest.user))) <= 10 * maxFileSize
  }

  lemma {:induction false} LoneGrandparents(v: Version, level: nat, inputs0: Level, inputs1: Level, grandparents: Level, maxFileSize: nat)
    requires AreGrandparents(v, level, inputs0, inputs1, grandparents) && inputs0 != []
    ensures |inputs0| == 1 && inputs1 == [] ==>
      (FewGrandparents(v, level, inputs0[0], maxFileSize) <==> TotalFileSize(grandparents) <= 10 * maxFileSize)
  {
    assert TotalFileSize([]) == 0;
    hide TotalFileSize, OverlapFilter;
    if |inputs0| == 1 && inputs1 == [] && level + 2 < |v| {
      var lo, hi :| IsRange(inputs0 + inputs1, lo, hi) && grandparents == OverlapFilter(v[level + 2], Some(lo.user), Some(hi.user));
      assert inputs0 + inputs1 == [inputs0[0]];
    }
  }

  /**
   * The compaction of a level with these inputs. A single file that overlaps nothing one level down
   * and little two levels down is moved as it is, unless that is not allowed; anything else is merged.
   */
  ghost predicate IsCompaction(v: Version, maxFileSize: nat, e: Event, mayMove: bool, level: nat, inputs: Level) {
    match e
    case MoveDown(l, f) => mayMove && l == level && inputs == [f] && FewGrandparents(v, level, f, maxFileSize)
    case Compact(merge) =>
      && merge.level == level && merge.inputs0 == inputs
      && !(mayMove && |inputs| == 1 && merge.inputs1 == [] && FewGrandparents(v, level, inputs[0], maxFileSize))
    case _ => false
  }

  /** Only the pointer of the level has moved, to the largest key of the inputs. */
  ghost predicate Advanced(before: seq<Option<InternalKey>>, after: seq<Option<InternalKey>>, level: nat, inputs: Level) {
    level < |before| && exists lo, hi :: IsRange(inputs, lo, hi) && after == before[level := Some(hi)]
  }

  /** Nothing was asked for, or a manual range that no file of its level overlaps any more. */
  ghost predicate NothingDue(v: Version, manual: Option<ManualCompaction>, size: Option<nat>, seek: Option<(nat, File)>) {
    if manual.Some? then
      manual.value.level < |v| && forall f | f in v[manual.value.level] :: !Overlaps(f, manual.value.begin, manual.value.end)
    else size.None? && seek.None?
  }

  class DBImpl {
    var mem: seq<Entry>
    var imm: Option<seq<Entry>>
    var version: Version
    var lastSequence: nat
    var snapshots: seq<nat>
    var nextFile: nat
    var logs: seq<LogFile>
    var logNumber: nat
    var manifestSequence: nat
    var manifestNext: nat
    var compactPointers: seq<Option<InternalKey>>
    const maxFileSize: nat

    ghost var ops: seq<Op>
    ghost var switched: nat
    ghost var flushed: nat

    ghost function View(): State
      reads this
    {
      State(ops, switched, flushed, Tables(mem, imm, version), lastSequence, snapshots, nextFile,
            logs, logNumber, manifestSequence, manifestNext)
    }

    ghost predicate Ok()
      reads this
    {
      Inv(View()) && |compactPointers| == NUM_LEVELS
    }

    /** A new, empty database. */
    constructor (maxFileSize: nat)
      ensures Ok() && Initial(View()) && this.maxFileSize == maxFileSize
    {
      this.maxFileSize := maxFileSize;
      mem, imm, version := [], None, seq(NUM_LEVELS, _ => []);
      lastSequence, snapshots, nextFile := 0, [], 4;
      logs, logNumber, manifestSequence, manifestNext := [LogFile(3, [])], 3, 0, 4;
      compactPointers := seq(NUM_LEVELS, _ => None);
      ops, switched, flushed := [], 0, 0;
      new;
      InitialInv(View());
    }

    // ----- Clients

    /** Inserts the entries of the writes from number `from` on into the memtable. */
    method InsertInto(entries: seq<Entry>, ghost all: seq<Op>, ghost from: nat)
      requires from <= |all| && entries == OpsEntries(all, from, |all|)
      modifies this`mem
      ensures mem == InsertOps(old(mem), all, from, |all|)
    {
      for i := 0 to |entries|
        invariant mem == InsertOps(old(mem), all, from, from + i)
      {
        mem := InsertEntry(mem, entries[i]);
      }
    }

    /** Appends the batch to the log, inserts it into the memtable and publishes the new sequence. */
    method ApplyBatch(batch: seq<Op>)
      requires logs != [] && lastSequence == |ops|
      modifies this
      ensures View() == Written(old(View()), batch) && compactPointers == old(compactPointers)
    {
      hide InsertOps, ApplyEdit;
      var entries := BatchEntries(batch, lastSequence + 1);
      BatchFollowsHistory(ops, batch);
      var last := |logs| - 1;
      logs := logs[last := logs[last].(entries := logs[last].entries + entries)];
      InsertInto(entries, ops + batch, |ops|);
      lastSequence := lastSequence + |batch|;
      ops := ops + batch;
    }

    method Write(batch: seq<Op>)
      requires Ok() && lastSequence + |batch| < MAX_SEQUENCE
      modifies this
      ensures Ok() && WriteStep(old(View()), View(), batch)
    {
      ghost var was := View();
      ReadyToInstall();
      ApplyBatch(batch);
      WriteKeepsInv(was, View(), batch);
    }

    /** The value of a key at a live snapshot, or at the present. */
    method Get(k: UserKey, snapshot: Option<nat>) returns (r: Option<string>)
      requires Ok() && (snapshot.Some? ==> snapshot.value in snapshots)
      ensures var s := if snapshot.Some? then snapshot.value else lastSequence;
        s <= |ops| && r == HistoryRead(ops, k, s)
    {
      var s := if snapshot.Some? then snapshot.value else lastSequence;
      if snapshot.Some? {
        SnapshotIsLive(s);
      }
      TablesAreLayered(View());
      InvReadsHistory(View(), k, s);
      r := Store.Get(Tables(mem, imm, version), k, s);
    }

    lemma SnapshotIsLive(s: nat)
      requires Ok() && s in snapshots
      ensures SmallestSnapshot(View()) <= s <= lastSequence
    {
      var i :| 0 <= i < |snapshots| && snapshots[i] == s;
      assert snapshots[0] <= snapshots[i];
    }

    method GetSnapshot() returns (s: nat)
      requires Ok()
      modifies this`snapshots
      ensures Ok() && Step(old(View()), TakeSnapshot, View()) && s == lastSequence && s in snapshots
    {
      ghost var was := View();
      s := lastSequence;
      snapshots := snapshots + [s];
      TakeSnapshotKeepsInv(was, View());
      assert snapshots[|snapshots| - 1] == s;
    }

    method ReleaseSnapshot(index: nat)
      requires Ok() && index < |snapshots|
      modifies this`snapshots
      ensures Ok() && ReleaseStep(old(View()), View(), index)
    {
      ghost var was := View();
      snapshots := snapshots[..index] + snapshots[index + 1..];
      ReleaseKeepsInv(was, View(), index);
    }

    // ----- The memtable

    /** The full memtable becomes the immutable one; a new log starts. */
    method SwitchMemTable()
      requires Ok() && imm.None?
      modifies this
      ensures Ok() && SwitchStep(old(View()), View())
    {
      hide ValidVersion, Replay, OpsRange, ReadsAgree;
      ghost var was := View();
      logs := logs + [LogFile(nextFile, [])];
      nextFile := nextFile + 1;
      imm, mem := Some(mem), [];
      switched := |ops|;
      SwitchKeepsInv(was, View());
    }

    /** Installs the edit as the current version and records it, with the counters, in the manifest. */
    method LogAndApply(edit: VersionEdit)
      requires forall i | 0 <= i < |version| :: SortedBySmallest(version[i])
      requires forall n | 0 <= n < |edit.newFiles| :: edit.newFiles[n].0 < |version|
      modifies this`version, this`manifestSequence, this`manifestNext
      ensures version == ApplyEdit(old(version), edit)
      ensures manifestSequence == lastSequence && manifestNext == nextFile
    {
      var builder := new VersionBuilder(version);
      builder.Apply(edit);
      var v := builder.Save();
      assert v == ApplyEdit(version, edit);
      version, manifestSequence, manifestNext := v, lastSequence, nextFile;
    }

    /** Writes a memtable as a table; with a base version it may go below level 0. */
    method WriteLevel0Table(run: seq<Entry>, base: Option<Version>) returns (level: nat, outs: Level)
      requires Sorted(run) && Below(Elements(run), MAX_SEQUENCE)
      requires base.Some? ==> ValidVersion(base.value)
      modifies this`nextFile
      ensures nextFile == old(nextFile) + 1 && level <= MAX_MEM_COMPACT_LEVEL
      ensures if run == [] then outs == [] && level == 0
              else |outs| == 1 && WellFormedFile(outs[0]) && outs[0].entries == run && outs[0].number == old(nextFile)
      ensures base.None? ==> level == 0
      ensures base.Some? && run != [] ==> IsOutputLevel(base.value, outs[0].smallest.user, outs[0].largest.user, maxFileSize, level)
      ensures level > 0 ==> forall i | 0 <= i <= level :: NoOverlapIn(base.value[i], outs[0].smallest.user, outs[0].largest.user)
    {
      var number := nextFile;
      nextFile := nextFile + 1;
      level, outs := 0, [];
      if run != [] {
        var f := BuildTable(number, run);
        if base.Some? {
          level := PickLevelForMemTableOutput(base.value, f.smallest.user, f.largest.user, maxFileSize);
        }
        outs := [f];
      }
    }

    /** What a flush and an installation need to know about the state. */
    lemma ReadyToInstall()
      requires Ok()
      ensures ValidVersion(version) && logs != [] && |version| == NUM_LEVELS
      ensures imm.Some? ==> Sorted(imm.value) && Below(Elements(imm.value), MAX_SEQUENCE)
      ensures SmallestSnapshot(View()) < MAX_SEQUENCE && lastSequence == |ops|
    {
      EntriesBelow(View());
      assert imm.Some? ==> ImmRun(View().tables) == imm.value;
    }

    lemma EditIsApplicable(level: nat, outs: Level)
      requires ValidVersion(version) && level < NUM_LEVELS
      ensures forall i | 0 <= i < |version| :: SortedBySmallest(version[i])
      ensures var edit := Installs.ReplaceEdit(0, [], level, [], outs);
        forall n | 0 <= n < |edit.newFiles| :: edit.newFiles[n].0 < |version|
    {
    }

    method InstallFlush(level: nat, outs: Level)
      requires ValidVersion(version) && logs != [] && level < NUM_LEVELS
      modifies this`version, this`manifestSequence, this`manifestNext, this`logNumber, this`imm, this`flushed
      ensures View() == Flushed(old(View()), level, outs) && compactPointers == old(compactPointers)
    {
      hide ApplyEdit, ValidVersion, Installs.ReplaceEdit;
      ghost var was := View();
      EditIsApplicable(level, outs);
      LogAndApply(Installs.ReplaceEdit(0, [], level, [], outs));
      assert version == AddResult(was.tables.version, level, outs);
      logNumber := logs[|logs| - 1].number;
      imm := None;
      flushed := switched;
    }

    method CompactMemTable() returns (ghost level: nat, ghost outs: Level)
      requires Ok() && imm.Some?
      modifies this
      ensures Ok() && FlushStep(old(View()), View(), level, outs) && compactPointers == old(compactPointers)
    {
      hide ApplyEdit, Sorted, Replay, OpsRange, WellFormedFile, IsOutputLevel;
      ghost var was := View();
      ReadyToInstall();
      var l, o := WriteLevel0Table(imm.value, Some(version));
      InstallFlush(l, o);
      level, outs := l, o;
      FlushKeepsInv(was, View(), level, outs);
    }

    // ----- Compactions

    /** One input file and nothing below it: the file moves down as it is. */
    method TrivialMove(c: Compaction) returns (ghost f: File)
      requires Ok() && c.level + 1 < NUM_LEVELS && c.inputVersion == version
      requires ClosedInputs(version, c.level, c.inputs0, c.inputs1) && |c.inputs0| == 1 && c.inputs1 == []
      modifies this
      ensures Ok() && MoveStep(old(View()), View(), c.level, f) && c.inputs0 == [f] && compactPointers == old(compactPointers)
    {
      hide Replay, OpsRange, ReadsAgree, ApplyEdit, Sorted;
      ghost var was := View();
      var g := c.inputs0[0];
      f := g;
      MoveIsValid(c, g);
      LogAndApply(Installs.ReplaceEdit(c.level, [g], c.level + 1, [], [g]));
      MoveKeepsInv(was, View(), c.level, g);
    }

    lemma MoveIsValid(c: Compaction, f: File)
      requires Ok() && c.level + 1 < NUM_LEVELS && c.inputVersion == version
      requires ClosedInputs(version, c.level, c.inputs0, c.inputs1) && c.inputs0 == [f] && c.inputs1 == []
      ensures ValidMove(version, c.level, f)
    {
      ClosedInputsAreFiles(version, c.level, c.inputs0, c.inputs1);
      assert f in c.inputs0;
    }

    method InstallMerge(c: Compaction, outs: Level)
      requires ValidVersion(version) && c.level + 1 < NUM_LEVELS
      modifies this`nextFile, this`version, this`manifestSequence, this`manifestNext
      ensures View() == MergedState(old(View()), c.level, c.inputs0, c.inputs1, outs)
    {
      nextFile := nextFile + |outs|;
      LogAndApply(Installs.ReplaceEdit(c.level, c.inputs0, c.level + 1, c.inputs1, outs));
    }

    /** Reads the inputs through the merging iterator and applies the drop rule. */
    method MergeInputs(c: Compaction, smallestSnapshot: nat) returns (outputs: seq<seq<Entry>>, ghost run: seq<Entry>)
      requires ValidVersion(version) && DistinctKeys(VersionEntries(version)) && smallestSnapshot < MAX_SEQUENCE
      requires c.level + 1 < NUM_LEVELS && c.inputVersion == version && c.Unused()
      requires ClosedInputs(version, c.level, c.inputs0, c.inputs1)
      modifies c.levelPtrs
      ensures Sorted(run) && Elements(run) == LevelEntries(c.inputs0) + LevelEntries(c.inputs1)
      ensures Concat(outputs) == Survivors(run, |run|, smallestSnapshot, version, c.level) && AllNonEmpty(outputs)
    {
      var input := MakeInputIterator(version, c.level, c.inputs0, c.inputs1);
      outputs := c.DoCompactionWork(input, smallestSnapshot);
      run := input.merged;
    }

    /** Merges the inputs, applies the drop rule and installs the outputs. */
    method CompactFiles(c: Compaction) returns (ghost merge: Merge)
      requires Ok() && c.level + 1 < NUM_LEVELS && c.inputVersion == version && c.Unused()
      requires ClosedInputs(version, c.level, c.inputs0, c.inputs1)
      modifies this, c.levelPtrs
      ensures CompactStep(old(View()), View(), merge) && compactPointers == old(compactPointers)
      ensures merge.level == c.level && merge.inputs0 == c.inputs0 && merge.inputs1 == c.inputs1
      ensures NothingResurrected(old(View()), merge) ==> Ok()
    {
      hide ApplyEdit, Sorted, Replay, OpsRange, Survivors, Concat, Inv, ValidMerge, NothingResurrected, LevelEntries, VersionEntries, Contents, ClosedInputs, OutputFiles, ValidVersion, CompactStep, MergedState, Below, AllNonEmpty, NumberedBelow, NumberedFrom, DistinctKeys;
      ghost var was := View();
      var smallestSnapshot := if snapshots == [] then lastSequence else snapshots[0];
      ReadyToInstall();
      EntriesBelow(was);
      var outputs;
      ghost var run;
      outputs, run := MergeInputs(c, smallestSnapshot);
      merge := Merge(c.level, c.inputs0, c.inputs1, run, outputs, []);
      InputsBelow(was, merge);
      NumbersBelowNext(was);
      var outs := WriteOutputs(outputs, nextFile);
      merge := merge.(outs := outs);
      OutputsMakeMerge(version, merge, smallestSnapshot, nextFile);
      MergeIsStep(was, merge);
      InstallMerge(c, outs);
      MergeKeepsInv(was, View(), merge);
    }

    // ----- Background work

    /** Picks files by a manual range, by level size or by seeks, in that order of precedence. */
    method ChooseCompaction(manual: Option<ManualCompaction>, size: Option<nat>, seek: Option<(nat, File)>) returns (c: Compaction?)
      requires Ok()
      requires manual.Some? ==> manual.value.level + 1 < NUM_LEVELS
      requires size.Some? ==> size.value + 1 < NUM_LEVELS && version[size.value] != []
      requires seek.Some? ==> seek.value.0 + 1 < NUM_LEVELS && seek.value.1 in version[seek.value.0]
      ensures c != null ==> fresh(c) && fresh(c.levelPtrs) && c.Unused() && c.level + 1 < NUM_LEVELS && c.inputVersion == version
      ensures c != null ==> ClosedInputs(version, c.level, c.inputs0, c.inputs1)
      ensures c != null ==> AreGrandparents(version, c.level, c.inputs0, c.inputs1, c.grandparents)
      ensures c == null <==> NothingDue(version, manual, size, seek)
      ensures c != null ==> IsDue(version, compactPointers, maxFileSize, manual, size, seek, c.level, c.inputs0)
    {
      hide AreGrandparents, ClosedInputs;
      ReadyToInstall();
      if manual.Some? {
        var m := manual.value;
        c := CompactRange(version, m.level, m.begin, m.end, maxFileSize, maxFileSize);
      } else if size.Some? {
        var f := PickFile(version[size.value], compactPointers[size.value]);
        c := PickCompaction(version, size.value, f, maxFileSize);
      } else if seek.Some? {
        c := PickCompaction(version, seek.value.0, seek.value.1, maxFileSize);
      } else {
        c := null;
      }
    }

    /** The next size compaction of the level starts after this one. */
    method AdvancePointer(c: Compaction)
      requires Ok() && c.level < NUM_LEVELS && c.inputs0 != []
      modifies this`compactPointers
      ensures Ok() && View() == old(View())
      ensures Advanced(old(compactPointers), compactPointers, c.level, c.inputs0)
    {
      var smallest, largest := GetRange(c.inputs0);
      compactPointers := compactPointers[c.level := Some(largest)];
    }

    /** Moves a lone file down or merges; the next size compaction of the level starts after its inputs. */
    method RunCompaction(c: Compaction, mayMove: bool) returns (ghost event: Event)
      requires Ok() && c.level + 1 < NUM_LEVELS && c.inputVersion == version && c.Unused()
      requires ClosedInputs(version, c.level, c.inputs0, c.inputs1)
      requires AreGrandparents(version, c.level, c.inputs0, c.inputs1, c.grandparents)
      modifies this, c.levelPtrs
      ensures IsCompaction(old(version), maxFileSize, event, mayMove, c.level, c.inputs0)
      ensures Advanced(old(compactPointers), compactPointers, c.level, c.inputs0)
      ensures event.MoveDown? ==> Step(old(View()), event, View()) && Ok()
      ensures event.Compact? ==> CompactStep(old(View()), View(), event.merge)
      ensures event.Compact? && NothingResurrected(old(View()), event.merge) ==> Step(old(View()), event, View()) && Ok()
    {
      hide Inv, FlushStep, CompactStep, MoveStep, NothingResurrected, ClosedInputs, Advanced, AreGrandparents, FewGrandparents;
      ReadyToInstall();
      ClosedNotEmpty(c);
      LoneGrandparents(version, c.level, c.inputs0, c.inputs1, c.grandparents, maxFileSize);
      AdvancePointer(c);
      if mayMove && |c.inputs0| == 1 && c.inputs1 == [] && TotalFileSize(c.grandparents) <= 10 * maxFileSize {
        ghost var f := TrivialMove(c);
        event := MoveDown(c.level, f);
      } else {
        ghost var merge := CompactFiles(c);
        event := Compact(merge);
      }
    }

    /** One round of background work: a waiting memtable goes first, then what is due, one step of the machine either way. */
    method BackgroundCompaction(manual: Option<ManualCompaction>, size: Option<nat>, seek: Option<(nat, File)>)
      returns (ghost event: Option<Event>)
      requires Ok()
      requires manual.Some? ==> manual.value.level + 1 < NUM_LEVELS
      requires size.Some? ==> size.value + 1 < NUM_LEVELS && version[size.value] != []
      requires seek.Some? ==> seek.value.0 + 1 < NUM_LEVELS && seek.value.1 in version[seek.value.0]
      modifies this
      ensures event.None? ==> View() == old(View()) && Ok() && compactPointers == old(compactPointers)
      ensures event.Some? && !event.value.Compact? ==> Step(old(View()), event.value, View()) && Ok()
      ensures event.Some? && event.value.Compact? ==> CompactStep(old(View()), View(), event.value.merge)
      ensures event.Some? && event.value.Compact? && NothingResurrected(old(View()), event.value.merge) ==> Step(old(View()), event.value, View()) && Ok()
      ensures old(imm.Some?) ==> event.Some? && event.value.FlushMemTable? && compactPointers == old(compactPointers)
      ensures old(imm.None?) ==> (event.None? <==> NothingDue(old(version), manual, size, seek))
      ensures old(imm.None?) && event.Some? ==> exists level, inputs ::
        && IsCompaction(old(version), maxFileSize, event.value, manual.None?, level, inputs)
        && IsDue(old(version), old(compactPointers), maxFileSize, manual, size, seek, level, inputs)
        && Advanced(old(compactPointers), compactPointers, level, inputs)
    {
      hide Inv, FlushStep, CompactStep, MoveStep, NothingResurrected, ClosedInputs, IsDue, NothingDue, Advanced;
      if imm.Some? {
        ghost var level, outs := CompactMemTable();
        event := Some(FlushMemTable(level, outs));
        return;
      }
      var c := ChooseCompaction(manual, size, seek);
      event := None;
      if c != null {
        ghost var compaction := RunCompaction(c, manual.None?);
        event := Some(compaction);
      }
    }

    lemma ClosedNotEmpty(c: Compaction)
      requires c.level + 1 < |version| && ClosedInputs(version, c.level, c.inputs0, c.inputs1)
      ensures c.inputs0 != []
    {
      ClosedInputsAreFiles(version, c.level, c.inputs0, c.inputs1);
    }

    /** Logs before the manifest's log number are no longer needed. */
    method DeleteObsoleteLogs()
      requires Ok()
      modifies this`logs
      ensures Ok() && Step(old(View()), DeleteOldLogs, View())
      ensures forall l :: l in logs <==> l in old(logs) && l.number >= logNumber
    {
      hide Inv;
      ghost var was := View();
      var kept := [];
      for i := 0 to |logs|
        invariant kept == KeepLogs(logs[..i], logNumber)
        invariant forall l :: l in kept <==> l in logs[..i] && l.number >= logNumber
      {
        assert logs[..i + 1][..i] == logs[..i] && logs[..i + 1] == logs[..i] + [logs[i]];
        if logs[i].number >= logNumber {
          kept := kept + [logs[i]];
        }
      }
      assert logs[..|logs|] == logs;
      logs := kept;
      DeleteLogsKeepsInv(was, View());
    }

    // ----- Crash and recovery

    lemma ReplayIsOrdered()
      requires Ok()
      ensures logs != [] && logs[|logs| - 1].number >= logNumber && ValidVersion(version)
      ensures AscendingSequences(Replay(logs, logNumber)) && Below(Elements(Replay(logs, logNumber)), MAX_SEQUENCE)
      ensures Replay(logs, logNumber) == HistorySuffix(ops, flushed) && lastSequence == |ops|
    {
      SuffixElements(ops, flushed);
      forall e | e in Elements(Replay(logs, logNumber)) ensures e.key.sequence < MAX_SEQUENCE {
        RangeSequences(ops, flushed, |ops|, e);
      }
    }

    /** Everything in memory is as after the replay; nothing has reached the manifest yet. */
    method ForgetMemory(run: seq<Entry>, ghost kept: nat, newLogs: seq<LogFile>, next: nat)
      requires kept <= |ops|
      modifies this`lastSequence, this`mem, this`imm, this`snapshots, this`logs, this`nextFile, this`switched, this`flushed
      ensures View() == State(ops, |ops| - kept, |ops| - kept, Tables(run, None, version),
                              Max(manifestSequence, LastSequenceOf(Replay(old(logs), logNumber))), [], next,
                              newLogs, logNumber, manifestSequence, manifestNext)
    {
      hide Replay, LastSequenceOf, Max;
      lastSequence := Max(manifestSequence, LastSequenceOf(Replay(logs, logNumber)));
      mem, imm, snapshots, logs, nextFile := run, None, [], newLogs, next;
      switched, flushed := |ops| - kept, |ops| - kept;
    }

    method InstallRecovered(run: seq<Entry>, ghost kept: nat, files: Level, newLogs: seq<LogFile>, save: bool, next: nat)
      requires ValidVersion(version) && kept <= |ops| && newLogs != [] && (save || files == [])
      modifies this
      ensures View() == Recovered(old(View()), run, kept, files, newLogs, save, next) && compactPointers == old(compactPointers)
    {
      hide ApplyEdit, Replay, AddResult, ValidVersion, Max, LastSequenceOf;
      ForgetMemory(run, kept, newLogs, next);
      if save {
        InstallAdded(files);
        logNumber := newLogs[|newLogs| - 1].number;
      } else {
        AddNothing(version);
      }
    }

    method InstallAdded(files: Level)
      requires ValidVersion(version)
      modifies this`version, this`manifestSequence, this`manifestNext
      ensures version == AddResult(old(version), 0, files)
      ensures manifestSequence == lastSequence && manifestNext == nextFile
    {
      LogAndApply(Installs.ReplaceEdit(0, [], 0, [], files));
    }

    /** Opens the database from what is on disk: the version, the logs and the manifest's counters. */
    method Recover(reuseLogs: bool, saveManifest: bool)
      returns (ghost chunks: seq<seq<Entry>>, ghost outs: Level, ghost reused: bool, ghost saved: bool, ghost newLog: nat)
      requires Ok()
      modifies this
      ensures Ok() && RecoverStep(old(View()), View(), chunks, outs, reused, saved, newLog)
      ensures ops == old(ops) && lastSequence == old(lastSequence)
    {
      hide AscendingSequences, HistorySuffix, Replayed, RecoveredFiles, RecoverStep, NumbersUsed, ValidTablesOf, ReadsAgree;
      ghost var was := View();
      ReplayIsOrdered();
      var files, run, keptLog, next;
      ghost var kept;
      chunks, files, run, kept, keptLog, next := RecoverLogs(logs, logNumber, reuseLogs, manifestNext);
      RecoveredParts(was, chunks, files, run, kept, keptLog, next);
      outs, reused, saved, newLog := files, keptLog, saveManifest || files != [], next;
      if keptLog {
        InstallRecovered(run, |kept|, files, logs, saveManifest || files != [], next);
      } else {
        InstallRecovered(run, |kept|, files, logs + [LogFile(next, [])], saveManifest || files != [], next + 1);
      }
      RecoveryIsStep(was, View(), chunks, outs, run, kept, reused, saved, next);
      RecoverKeepsInv(was, View(), chunks, outs, reused, saved, newLog);
    }
  }

  lemma {:induction false} KeepsAll(files: Level)
    ensures KeepUndeleted(files, {}) == files
  {
    if files != [] {
      KeepsAll(files[1..]);
      assert files == [files[0]] + files[1..];
    }
  }

  lemma {:induction false} AddNothing(v: Version)
    ensures AddResult(v, 0, []) == v
  {
    var edit := Installs.ReplaceEdit(0, [], 0, [], []);
    forall i | 0 <= i < |v| ensures AddResult(v, 0, [])[i] == v[i] {
      var state := ApplyAt(EMPTY_LEVEL_STATE, edit, i);
      assert DeletedAt(edit, i) == {} && edit.newFiles == [];
      assert state.deleted == {} && state.added == [];
      KeepsAll(v[i]);
    }
  }

  /** What replaying the logs of a crashed state yields. */
  ghost predicate ReplayResult(s: State, chunks: seq<seq<Entry>>, files: Level, run: seq<Entry>, kept: seq<Entry>, reused: bool, next: nat) {
    && s.logs != [] && |kept| <= |s.ops|
    && s.manifestNext < next && RecoveredFiles(chunks, files, s.manifestNext, next) && AllNonEmpty(chunks)
    && CurrentLog(s).number < next
    && kept == (if reused then CurrentLog(s).entries else [])
    && Replayed(Replay(s.logs, s.logNumber), chunks, kept, run)
  }

  lemma {:induction false} RecoveredParts(s: State, chunks: seq<seq<Entry>>, files: Level, run: seq<Entry>, kept: seq<Entry>, reused: bool, next: nat)
    requires ValidLogs(s)
    requires s.manifestNext < next && RecoveredFiles(chunks, files, s.manifestNext, next) && AllNonEmpty(chunks)
    requires NumbersUsed(s.logs, s.logNumber, next)
    requires kept == if reused then CurrentLog(s).entries else []
    requires Replayed(Replay(s.logs, s.logNumber), chunks, kept, run)
    ensures ReplayResult(s, chunks, files, run, kept, reused, next)
  {
    assert |Replay(s.logs, s.logNumber)| == |s.ops| - s.flushed;
  }

  lemma {:induction false} RecoveryIsStep(s: State, s': State, chunks: seq<seq<Entry>>, outs: Level, run: seq<Entry>, kept: seq<Entry>,
                                         reused: bool, saved: bool, next: nat)
    requires ReplayResult(s, chunks, outs, run, kept, reused, next) && (outs != [] ==> saved)
    requires s' == Recovered(s, run, |kept|, outs, LogsAfterRecovery(s, reused, next), saved, if reused then next else next + 1)
    ensures RecoverStep(s, s', chunks, outs, reused, saved, next)
  {
    hide AddResult, Replay, Sorted, Concat, WellFormedFile, WrittenFrom, Max, LastSequenceOf, AllNonEmpty, DistinctNumbers;
    var hi := s'.nextFile;
    assert RecoveredFiles(chunks, outs, s.manifestNext, hi);
  }
}
