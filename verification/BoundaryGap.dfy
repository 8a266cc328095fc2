/**
 * The inputs of the next level are gathered without their boundary files. When the drop rule can
 * bring a value back because of that, and when it cannot.
 */
module BoundaryGap {
  import opened InternalKeys
  import opened Options
  import opened Versions
  import opened Inputs
  import opened DropRule
  import opened Store
  import opened Installs
  import opened Compactions
  import opened CompactionInstalls
  import opened Machine
  import opened Recovery

  // ----- When it cannot

  /** No file left at the next level continues the versions of a user key of the inputs. */
  ghost predicate NextLevelSeparated(v: Version, c: Merge)
    requires c.level + 1 < |v|
  {
    forall g, f | g in v[c.level + 1] && g !in c.inputs1 && f in c.inputs1 ::
      Less(g.largest, f.smallest) || f.largest.user < g.smallest.user
  }

  ghost function LeftAtNextLevel(v: Version, c: Merge): set<Entry>
    requires c.level + 1 < |v|
  {
    set g, e | g in v[c.level + 1] && g !in c.inputs1 && e in g.entries :: e
  }

  lemma {:induction false} OlderLeftoverFile(v: Version, c: Merge, n: Entry, j: nat, g: File, e: Entry)
    requires ValidVersion(v) && UniqueSequences(VersionEntries(v)) && c.level + 1 < |v|
    requires ClosedInputs(v, c.level, c.inputs0, c.inputs1)
    requires n in InputEntries(c) && IsBaseLevel(v, c.level, n.key.user)
    requires j < |v| && g in v[j] && e in g.entries && e !in InputEntries(c)
    requires e.key.user == n.key.user && e.key.sequence <= n.key.sequence
    ensures j == c.level + 1 && g !in c.inputs1
  {
    FileKeysWithinBounds(g, e);
    assert g in c.inputs0 || g in c.inputs1 ==> e in InputEntries(c);
    if j <= c.level {
      NewerThanInput(v, c, j, g, e, n);
    }
  }

  lemma {:induction false} VersionOfInv(s: State)
    requires Inv(s)
    ensures ValidTablesOf(s) && ValidVersion(s.tables.version) && UniqueSequences(VersionEntries(s.tables.version))
  {
    ContentsInHistory(s);
  }

  /** An older version that stays behind under a droppable tombstone can only be in the next level. */
  lemma {:induction false} OlderLeftover(s: State, c: Merge, i: nat, e: Entry)
    requires Inv(s) && ValidMerge(s.tables.version, c, SmallestSnapshot(s)) && i < |c.run|
    requires Obsolete(c.run, i, SmallestSnapshot(s), s.tables.version, c.level)
    requires e in Contents(s.tables) - Elements(c.run) && VisibleAt(e, c.run[i].key.user, c.run[i].key.sequence)
    ensures e in LeftAtNextLevel(s.tables.version, c)
  {
    hide ValidVersion, Inv, ValidTablesOf, Survivors, Concat, ClosedInputs, OutputFiles, Newest;
    var v, n := s.tables.version, c.run[i];
    VersionOfInv(s);
    MergeEntries(v, c, SmallestSnapshot(s));
    assert n in Elements(c.run);
    OlderIsInVersion(s, n, e);
    var j, g := FileOfEntry(v, e);
    OlderLeftoverFile(v, c, n, j, g, e);
  }

  lemma {:induction false} OlderIsInVersion(s: State, n: Entry, e: Entry)
    requires ValidTablesOf(s) && n in VersionEntries(s.tables.version)
    requires e in Contents(s.tables) && e.key.sequence <= n.key.sequence
    ensures e in VersionEntries(s.tables.version)
  {
    RangeSequences(s.ops, 0, s.flushed, n);
    assert forall x | x in s.tables.mem :: x in OpsRange(s.ops, s.switched, |s.ops|);
    assert forall x | x in ImmRun(s.tables) :: x in OpsRange(s.ops, s.flushed, s.switched);
  }

  /** So a tombstone resurrects a value exactly when it is the newest version visible to the oldest
      snapshot and the newest older version in the files left at the next level is a value. */
  lemma {:induction false} ResurrectsFromNextLevel(s: State, c: Merge, i: nat)
    requires Inv(s) && ValidMerge(s.tables.version, c, SmallestSnapshot(s)) && i < |c.run|
    ensures Resurrects(Contents(s.tables), c.run, i, SmallestSnapshot(s), s.tables.version, c.level) <==>
      && Obsolete(c.run, i, SmallestSnapshot(s), s.tables.version, c.level)
      && Newest(Contents(s.tables), c.run[i].key.user, SmallestSnapshot(s), c.run[i])
      && ClientRead(LeftAtNextLevel(s.tables.version, c), c.run[i].key.user, c.run[i].key.sequence).Some?
  {
    var E, L := Contents(s.tables) - Elements(c.run), LeftAtNextLevel(s.tables.version, c);
    var k, sn := c.run[i].key.user, c.run[i].key.sequence;
    ContentsInHistory(s);
    LeftoverIsStored(s, c);
    UniqueSubset(Contents(s.tables), E);
    UniqueSubset(E, L);
    if Obsolete(c.run, i, SmallestSnapshot(s), s.tables.version, c.level) {
      forall e ensures (e in E && VisibleAt(e, k, sn)) <==> (e in L && VisibleAt(e, k, sn)) {
        if e in E && VisibleAt(e, k, sn) {
          OlderLeftover(s, c, i, e);
        }
      }
      ReadOfVisible(E, L, k, sn, sn);
    }
  }

  lemma {:induction false} LeftoverEntry(v: Version, c: Merge, e: Entry)
    requires ValidVersion(v) && CanReplace(v, c.level, c.inputs0, c.level + 1, c.inputs1, c.outs)
    requires e in LeftAtNextLevel(v, c)
    ensures e in VersionEntries(v) && e !in InputEntries(c)
  {
    hide Sorted, LevelsLayered, AgeOrdered, ValidVersion;
    var g :| g in v[c.level + 1] && g !in c.inputs1 && e in g.entries;
    EntryOfFile(v, c.level + 1, g, e);
    StayingEntry(v, c.level, c.inputs0, c.level + 1, c.inputs1, c.level + 1, g, e);
  }

  lemma {:induction false} LeftoverIsStored(s: State, c: Merge)
    requires ValidVersion(s.tables.version) && ValidMerge(s.tables.version, c, SmallestSnapshot(s))
    ensures LeftAtNextLevel(s.tables.version, c) <= Contents(s.tables) - Elements(c.run)
  {
    var v := s.tables.version;
    MergeCanReplace(v, c, SmallestSnapshot(s));
    forall e | e in LeftAtNextLevel(v, c) ensures e in Contents(s.tables) - Elements(c.run) {
      LeftoverEntry(v, c, e);
    }
  }

  /** With the boundary files of the next level among the inputs, dropping is invisible. */
  lemma {:induction false} SeparationIsEnough(s: State, c: Merge)
    requires Inv(s) && ValidMerge(s.tables.version, c, SmallestSnapshot(s))
    requires NextLevelSeparated(s.tables.version, c)
    ensures NothingResurrected(s, c)
  {
    forall i | 0 <= i < |c.run|
      ensures !Resurrects(Contents(s.tables), c.run, i, SmallestSnapshot(s), s.tables.version, c.level)
    {
      ResurrectsFromNextLevel(s, c, i);
      forall e | e in LeftAtNextLevel(s.tables.version, c) && e.key.user == c.run[i].key.user
        ensures e.key.sequence > c.run[i].key.sequence
      {
        SeparatedIsNewer(s, c, c.run[i], e);
      }
    }
  }

  lemma {:induction false} SeparatedIsNewer(s: State, c: Merge, n: Entry, e: Entry)
    requires Inv(s) && ValidMerge(s.tables.version, c, SmallestSnapshot(s))
    requires NextLevelSeparated(s.tables.version, c)
    requires n in c.run && e in LeftAtNextLevel(s.tables.version, c) && e.key.user == n.key.user
    ensures e.key.sequence > n.key.sequence
  {
    ContentsInHistory(s);
    assert n in Elements(c.run);
    var g :| g in s.tables.version[c.level + 1] && g !in c.inputs1 && e in g.entries;
    SeparatedFileIsNewer(s.tables.version, c, n, g, e);
  }

  lemma {:induction false} SeparatedFileIsNewer(v: Version, c: Merge, n: Entry, g: File, e: Entry)
    requires ValidVersion(v) && UniqueSequences(VersionEntries(v)) && c.level + 1 < |v|
    requires ClosedInputs(v, c.level, c.inputs0, c.inputs1) && NextLevelSeparated(v, c)
    requires n in InputEntries(c) && e.key.user == n.key.user
    requires g in v[c.level + 1] && g !in c.inputs1 && e in g.entries
    ensures e.key.sequence > n.key.sequence
  {
    FileKeysWithinBounds(g, e);
    if n in LevelEntries(c.inputs0) {
      var lo, hi := ClosedInputsRange(v, c);
      OutsideInputRange(v, c, lo, hi, g, n);
    } else {
      var lo, hi := ClosedInputsRange(v, c);
      var f :| f in c.inputs1 && n in f.entries;
      SeparatedFiles(v, c.level + 1, g, f, e, n);
    }
  }

  lemma {:induction false} SeparatedFiles(v: Version, level: nat, g: File, f: File, e: Entry, n: Entry)
    requires ValidVersion(v) && UniqueSequences(VersionEntries(v)) && level < |v|
    requires g in v[level] && f in v[level] && e in g.entries && n in f.entries && e.key.user == n.key.user
    requires Less(g.largest, f.smallest) || f.largest.user < g.smallest.user
    ensures e.key.sequence > n.key.sequence
  {
    FileKeysWithinBounds(g, e);
    FileKeysWithinBounds(f, n);
    EntryOfFile(v, level, g, e);
    EntryOfFile(v, level, f, n);
    StrictlyNewer(VersionEntries(v), e, n);
  }

  lemma {:induction false} OutsideInputRange(v: Version, c: Merge, lo: InternalKey, hi: InternalKey, g: File, n: Entry)
    requires ValidVersion(v) && c.level + 1 < |v| && IsRange(c.inputs0, lo, hi)
    requires forall f | f in c.inputs0 :: f in v[c.level]
    requires c.inputs1 == OverlapFilter(v[c.level + 1], Some(lo.user), Some(hi.user))
    requires g in v[c.level + 1] && g !in c.inputs1 && n in LevelEntries(c.inputs0)
    ensures n.key.user < g.smallest.user || g.largest.user < n.key.user
  {
    NextLevelLeftover(v, c.level, c.inputs0, c.inputs1, lo, hi, g);
    var f :| f in c.inputs0 && n in f.entries;
    FileKeysWithinBounds(f, n);
    assert !Less(f.smallest, lo) && !Less(hi, f.largest);
  }

  // ----- Runs that look at the bounds of the files only

  /** A step whose compactions are guarded by file bounds instead of by what they would bring back. */
  ghost predicate SeparatedStep(s: State, e: Event, s': State) {
    match e
    case Compact(c) => CompactStep(s, s', c) && NextLevelSeparated(s.tables.version, c)
    case _ => Step(s, e, s')
  }

  ghost predicate IsSeparatedRun(states: seq<State>, events: seq<Event>) {
    && |states| == |events| + 1 && Initial(states[0])
    && forall i | 0 <= i < |events| :: SeparatedStep(states[i], events[i], states[i + 1])
  }

  lemma {:induction false} SeparatedStepIsStep(s: State, e: Event, s': State)
    requires Inv(s) && SeparatedStep(s, e, s')
    ensures Step(s, e, s')
  {
    hide Inv, ValidMerge, NextLevelSeparated, NothingResurrected, Recorded;
    if e.Compact? {
      SeparationIsEnough(s, e.merge);
    }
  }

  lemma {:induction false} SeparatedRunIsRun(states: seq<State>, events: seq<Event>, n: nat)
    requires IsSeparatedRun(states, events) && n < |states|
    ensures IsRun(states[..n + 1], events[..n]) && Inv(states[n])
  {
    hide Inv, Step, SeparatedStep, Initial;
    if n == 0 {
      InitialInv(states[0]);
    } else {
      SeparatedRunIsRun(states, events, n - 1);
      SeparatedStepIsStep(states[n - 1], events[n - 1], states[n]);
      StepKeepsInv(states[n - 1], events[n - 1], states[n]);
      forall i | 0 <= i < n ensures Step(states[i], events[i], states[i + 1]) {
        if i < n - 1 {
          assert states[..n][i] == states[i] && events[..n - 1][i] == events[i] && states[..n][i + 1] == states[i + 1];
        }
      }
    }
  }

  /** With that guard alone, every state of every run reads its history. */
  lemma {:induction false} SeparatedRunsReadTheirHistory(states: seq<State>, events: seq<Event>, n: nat, k: UserKey, sn: nat)
    requires IsSeparatedRun(states, events) && n < |states|
    requires sn in states[n].snapshots || sn == states[n].lastSequence
    ensures sn <= |states[n].ops| && Inv(states[n])
    ensures TablesGet(states[n].tables, k, sn) == HistoryRead(states[n].ops, k, sn)
  {
    hide Inv, IsRun, SeparatedStep, TablesGet;
    SeparatedRunIsRun(states, events, n);
    EveryRunReadsItsHistory(states[..n + 1], events[..n], n, k, sn);
  }

  /** After the merge, the key of a dropped newest tombstone reads as what was left behind. */
  lemma {:induction false} ReadAfterMerge(v: Version, c: Merge, snap: nat, i: nat)
    requires ValidVersion(v) && UniqueSequences(VersionEntries(v)) && ValidMerge(v, c, snap) && i < |c.run|
    requires Obsolete(c.run, i, snap, v, c.level) && Newest(VersionEntries(v), c.run[i].key.user, snap, c.run[i])
    ensures ClientRead(VersionEntries(MergeResult(v, c)), c.run[i].key.user, snap) ==
            ClientRead(VersionEntries(v) - Elements(c.run), c.run[i].key.user, c.run[i].key.sequence)
  {
    MergeEntries(v, c, snap);
    assert ReadableRun(VersionEntries(v), c.run) by {
      forall e | e in c.run ensures e in VersionEntries(v) {
        assert e in Elements(c.run);
      }
    }
    TombstoneRead(VersionEntries(v), c.run, i, snap, snap, v, c.level);
  }
}
