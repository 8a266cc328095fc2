/** The iterator over the whole database: what the iterators built one on the other show together. */
module DatabaseIterators {
  import opened InternalKeys
  import opened Options
  import opened Iterators
  import opened Merger
  import opened TwoLevel
  import opened Versions
  import opened DropRule
  import opened Store
  import opened Installs
  import opened InputIterators
  import DbIter
  import Machine
  import Recovery

  // ----- The files of a level

  /** The index of a level: the largest key of each file. */
  function FileIndex(files: Level): seq<Entry> {
    seq(|files|, i requires 0 <= i < |files| => Entry(files[i].largest, ""))
  }

  /** With that index the two-level iterator over a sorted level is a cursor over all its entries. */
  lemma {:induction false} LevelIsIndexed(files: Level)
    requires WellFormedFiles(files) && SortedLevel(files)
    ensures Separates(FileIndex(files), FileRuns(files))
    ensures Sorted(Flatten(FileRuns(files))) && Elements(Flatten(FileRuns(files))) == LevelEntries(files)
  {
    hide WellFormedFile;
    var index, blocks := FileIndex(files), FileRuns(files);
    LevelRun(files);
    forall i: nat, j: nat, e: Entry | i < |files| && j < |files| && e in blocks[j]
      ensures if j <= i then !Less(index[i].key, e.key) else Less(index[i].key, e.key)
    {
      KeyAgainstFile(files, i, j, e);
    }
    forall i, j | 0 <= i < j < |files| ensures Less(index[i].key, index[j].key) {
      KeyOfFile(files, j);
      KeyAgainstFile(files, i, j, files[j].entries[0]);
      KeyAgainstFile(files, j, j, files[j].entries[0]);
    }
  }

  lemma {:induction false} KeyOfFile(files: Level, j: nat)
    requires WellFormedFiles(files) && j < |files|
    ensures files[j].entries != [] && files[j].entries[0] in files[j].entries
  {
    assert files[j] in files;
  }

  lemma {:induction false} KeyAgainstFile(files: Level, i: nat, j: nat, e: Entry)
    requires WellFormedFiles(files) && SortedLevel(files) && i < |files| && j < |files| && e in files[j].entries
    ensures if j <= i then !Less(files[i].largest, e.key) else Less(files[i].largest, e.key)
  {
    assert files[i] in files && files[j] in files;
    FileKeysWithinBounds(files[j], e);
    if j < i {
      Inputs.SmallestNotAfterLargest(files[i]);
    }
  }

  // ----- The children

  ghost function EntriesBelow(v: Version, level: nat): set<Entry>
    requires level <= |v|
  {
    set i, e | 0 <= i < level && e in LevelEntries(v[i]) :: e
  }

  lemma {:induction false} OneLevelMore(v: Version, level: nat)
    requires ValidVersion(v) && level < |v|
    ensures EntriesBelow(v, level + 1) == EntriesBelow(v, level) + LevelEntries(v[level])
    ensures EntriesBelow(v, level) !! LevelEntries(v[level])
    ensures EntriesBelow(v, level + 1) <= VersionEntries(v)
  {
    hide ValidVersion;
    forall e | e in LevelEntries(v[level]) ensures e !in EntriesBelow(v, level) {
      if e in EntriesBelow(v, level) {
        var i :| 0 <= i < level && e in LevelEntries(v[i]);
        var f :| f in v[level] && e in f.entries;
        var g :| g in v[i] && e in g.entries;
        FilesShareNothing(v, level, f, i, g, e);
      }
    }
  }

  /** One child for each level-0 file. */
  method AddFiles(v: Version, children: seq<RunIterator>, ghost merged: seq<Entry>, ghost memory: set<Entry>)
    returns (r: seq<RunIterator>)
    requires ValidVersion(v) && Sorted(merged) && VersionEntries(v) <= Elements(merged) && memory !! VersionEntries(v)
    requires Children(children, merged, memory)
    ensures Children(r, merged, memory + LevelEntries(v[0]))
    ensures forall c | c in r :: c in children || fresh(c)
  {
    hide Sorted, ValidVersion, SortedBySmallest, DistinctNumbers, VersionEntries;
    r := children;
    FirstLevel(v);
    var files := v[0];
    assert memory + LevelEntries(files[..0]) == memory;
    for i := 0 to |files|
      invariant Children(r, merged, memory + LevelEntries(files[..i]))
      invariant forall c | c in r :: c in children || fresh(c)
    {
      NextFile(v, files, merged, i);
      FileNotInMemory(v, files[i], memory);
      ghost var before := r;
      r := AddChild(r, files[i].entries, merged, memory + LevelEntries(files[..i]));
      assert r == before + [r[|before|]];
      assert memory + LevelEntries(files[..i]) + Elements(files[i].entries) == memory + LevelEntries(files[..i + 1]);
    }
    assert files[..|files|] == files;
  }

  lemma {:induction false} FirstLevel(v: Version)
    requires ValidVersion(v)
    ensures |v| == NUM_LEVELS && DistinctNumbers(v[0]) && LevelEntries(v[0]) <= VersionEntries(v) && LevelEntries([]) == {}
    ensures EntriesBelow(v, 1) == LevelEntries(v[0])
  {
    assert forall e | e in LevelEntries(v[0]) :: e in VersionEntries(v);
  }

  lemma {:induction false} FileNotInMemory(v: Version, f: File, memory: set<Entry>)
    requires |v| > 0 && f in v[0] && memory !! VersionEntries(v)
    ensures forall e | e in f.entries :: e !in memory
  {
    forall e | e in f.entries ensures e !in memory {
      EntryOfFile(v, 0, f, e);
    }
  }

  /** One child for each other level that has files. */
  method AddLevels(v: Version, children: seq<RunIterator>, ghost merged: seq<Entry>, ghost memory: set<Entry>)
    returns (r: seq<RunIterator>)
    requires ValidVersion(v) && Sorted(merged) && VersionEntries(v) <= Elements(merged) && memory !! VersionEntries(v)
    requires Children(children, merged, memory + EntriesBelow(v, 1))
    ensures Children(r, merged, memory + VersionEntries(v))
    ensures forall c | c in r :: c in children || fresh(c)
  {
    hide Sorted, ValidVersion, SortedBySmallest, DistinctNumbers, LevelEntries;
    r := children;
    FirstLevel(v);
    for level := 1 to NUM_LEVELS
      invariant Children(r, merged, memory + EntriesBelow(v, level))
      invariant forall c | c in r :: c in children || fresh(c)
    {
      OneLevelMore(v, level);
      SortedFrom(v, level);
      assert memory + EntriesBelow(v, level + 1) == memory + EntriesBelow(v, level) + LevelEntries(v[level]);
      if v[level] != [] {
        ghost var before := r;
        r := AddLevel(r, v[level], merged, memory + EntriesBelow(v, level));
        assert r == before + [r[|before|]];
      }
    }
    assert EntriesBelow(v, NUM_LEVELS) == VersionEntries(v);
  }

  lemma {:induction false} SortedFrom(v: Version, level: nat)
    requires ValidVersion(v) && 0 < level < |v|
    ensures WellFormedFiles(v[level]) && SortedLevel(v[level])
    ensures v[level] == [] ==> LevelEntries(v[level]) == {}
  {
  }

  /** Memtable, immutable memtable, level-0 files and levels, read as one cursor over everything stored. */
  method NewInternalIterator(t: Tables) returns (it: MergingIterator)
    requires ValidTables(t) && UniqueSequences(Contents(t))
    ensures it.Ok() && fresh(it) && forall c | c in it.children :: fresh(c)
    ensures Elements(it.merged) == Contents(t)
  {
    hide Sorted, ValidVersion, VersionEntries, Newer;
    PartsApart(t);
    ghost var merged := SortedUnion(Contents(t));
    ghost var V := VersionEntries(t.version);
    assert forall e :: e in merged <==> e in Elements(merged);
    var children: seq<RunIterator> := [];
    children := AddChild(children, t.mem, merged, {});
    assert children == [children[0]];
    ghost var memory := Elements(t.mem);
    assert {} + memory == memory;
    if t.imm.Some? {
      ghost var before := children;
      children := AddChild(children, t.imm.value, merged, memory);
      assert children == before + [children[1]];
      memory := memory + Elements(t.imm.value);
    }
    assert memory == Elements(t.mem) + Elements(ImmRun(t));
    assert forall c | c in children :: fresh(c);
    var withFiles := AddFiles(t.version, children, merged, memory);
    FirstLevel(t.version);
    var all := AddLevels(t.version, withFiles, merged, memory);
    assert memory + V == Contents(t);
    assert forall c | c in all :: fresh(c);
    it := new MergingIterator(all, merged);
  }

  lemma {:induction false} PartsApart(t: Tables)
    requires ValidTables(t) && UniqueSequences(Contents(t))
    ensures DistinctKeys(Contents(t)) && Sorted(t.mem) && Sorted(ImmRun(t)) && ValidVersion(t.version)
    ensures Elements(t.mem) !! Elements(ImmRun(t)) && Elements(t.mem) + Elements(ImmRun(t)) !! VersionEntries(t.version)
  {
    hide Sorted, ValidVersion, VersionEntries;
    forall e | e in Elements(t.mem) ensures e !in Elements(ImmRun(t)) && e !in VersionEntries(t.version) {
      var below := Elements(ImmRun(t)) + VersionEntries(t.version);
      assert e in below ==> e.key.sequence > e.key.sequence;
    }
    forall e | e in Elements(ImmRun(t)) ensures e !in VersionEntries(t.version) {
      assert e in VersionEntries(t.version) ==> e.key.sequence > e.key.sequence;
    }
  }

  // ----- What the database iterator over it shows

  /** The list walked is ascending and holds exactly the keys and values that point reads find. */
  lemma {:induction false} IterationAgreesWithGet(t: Tables, run: seq<Entry>, s: nat)
    requires ValidTables(t) && UniqueSequences(Contents(t)) && Sorted(run) && Elements(run) == Contents(t)
    ensures var view := DbIter.View(run, s, |run|);
      && (forall i, j | 0 <= i < j < |view| :: view[i].user < view[j].user)
      && (forall k, v :: DbIter.Pair(k, v) in view <==> TablesGet(t, k, s) == Some(v))
  {
    hide ValidTables, Contents, TablesGet, DbIter.View, Sorted, UniqueSequences;
    DbIter.ViewIsSnapshot(run, s);
    LevelZeroNumbers(t);
    forall k, v ensures Answers(Contents(t), k, s, Found(v)) <==> TablesGet(t, k, s) == Some(v) {
      TablesGetReadsContents(t, k, s);
      ReadIsAnswer(Contents(t), k, s, v);
    }
  }

  lemma {:induction false} LevelZeroNumbers(t: Tables)
    requires ValidTables(t)
    ensures |t.version| > 0 && DistinctNumbers(t.version[0])
  {
  }

  lemma {:induction false} ReadIsAnswer(E: set<Entry>, k: UserKey, s: nat, v: string)
    requires UniqueSequences(E)
    ensures Answers(E, k, s, Found(v)) <==> ClientRead(E, k, s) == Some(v)
  {
    if Answers(E, k, s, Found(v)) {
      ReadOfAnswer(E, k, s, Found(v));
    }
  }

  /** In every state of every run an iterator at a live snapshot or at the present walks exactly the
      keys that the acknowledged writes up to its sequence leave alive, with their newest values. */
  lemma {:induction false} EveryRunIteratesItsHistory(states: seq<Machine.State>, events: seq<Machine.Event>, n: nat, run: seq<Entry>, sn: nat)
    requires Recovery.IsRun(states, events) && n < |states|
    requires sn in states[n].snapshots || sn == states[n].lastSequence
    requires Sorted(run) && Elements(run) == Contents(states[n].tables)
    ensures sn <= |states[n].ops|
    ensures var view := DbIter.View(run, sn, |run|);
      && (forall i, j | 0 <= i < j < |view| :: view[i].user < view[j].user)
      && (forall k, v :: DbIter.Pair(k, v) in view <==> HistoryRead(states[n].ops, k, sn) == Some(v))
  {
    hide Recovery.IsRun, Contents, TablesGet, DbIter.View, Sorted, UniqueSequences, ValidTables, HistoryRead, Machine.ValidLogs, Machine.ReadsAgree;
    Recovery.RunKeepsInv(states, events, n);
    var s := states[n];
    Recovery.EveryRunReadsItsHistory(states, events, n, 0, sn);
    Machine.TablesAreLayered(s);
    Machine.ContentsInHistory(s);
    IterationAgreesWithGet(s.tables, run, sn);
    forall k ensures TablesGet(s.tables, k, sn) == HistoryRead(s.ops, k, sn) {
      Recovery.EveryRunReadsItsHistory(states, events, n, k, sn);
    }
  }
}
