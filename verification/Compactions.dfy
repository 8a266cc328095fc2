/** A compaction of one level into the next: its inputs and the closure they must have. */
module Compactions {
  import opened InternalKeys
  import opened Options
  import opened Versions
  import opened Inputs
  import opened DropRule
  import opened Merger

  // ----- What the inputs must satisfy

  /** A set of level-0 files that no other level-0 file overlaps. */
  ghost predicate OverlapClosed(files: Level, inputs: Level) {
    exists lo, hi :: ClosedRange(files, lo, hi) && inputs == OverlapFilter(files, lo, hi)
  }

  ghost predicate IsSlice(files: Level, inputs: Level, a: nat, b: nat) {
    a < b <= |files| && inputs == files[a..b]
  }

  /** The slice is not followed by a file that continues the versions of its last user key. */
  ghost predicate EndsAtBoundary(files: Level, b: nat) {
    0 < b < |files| ==> files[b].smallest.user != files[b - 1].largest.user
  }

  ghost predicate StartInputs(files: Level, level: nat, inputs: Level) {
    && inputs != []
    && if level == 0 then OverlapClosed(files, inputs) else exists a: nat, b: nat :: IsSlice(files, inputs, a, b)
  }

  ghost predicate ClosedAtLevel(files: Level, level: nat, inputs: Level) {
    && inputs != []
    && if level == 0 then OverlapClosed(files, inputs)
       else exists a: nat, b: nat :: IsSlice(files, inputs, a, b) && EndsAtBoundary(files, b)
  }

  ghost predicate ClosedInputs(v: Version, level: nat, inputs0: Level, inputs1: Level)
    requires level + 1 < |v|
  {
    && ClosedAtLevel(v[level], level, inputs0)
    && forall lo, hi | IsRange(inputs0, lo, hi) :: inputs1 == OverlapFilter(v[level + 1], Some(lo.user), Some(hi.user))
  }

  /** The files two levels down that overlap the whole range of the inputs; none if there is no such level. */
  ghost predicate AreGrandparents(v: Version, level: nat, inputs0: Level, inputs1: Level, grandparents: Level) {
    if level + 2 < |v| then
      exists lo, hi :: IsRange(inputs0 + inputs1, lo, hi) && grandparents == OverlapFilter(v[level + 2], Some(lo.user), Some(hi.user))
    else grandparents == []
  }

  // ----- Ranges and filters

  lemma {:induction false} RangeIsUnique(files: Level, lo: InternalKey, hi: InternalKey, lo': InternalKey, hi': InternalKey)
    requires IsRange(files, lo, hi) && IsRange(files, lo', hi')
    ensures lo == lo' && hi == hi'
  {
    LessIsStrictTotalOrder(lo, lo', lo);
    LessIsStrictTotalOrder(hi, hi', hi);
  }

  /** Widening the range never loses files, and adds none only if it changes nothing. */
  lemma {:induction false} OverlapFilterWidens(files: Level, lo: UserKey, hi: UserKey, wlo: UserKey, whi: UserKey)
    requires wlo <= lo && hi <= whi
    ensures |OverlapFilter(files, Some(lo), Some(hi))| <= |OverlapFilter(files, Some(wlo), Some(whi))|
    ensures |OverlapFilter(files, Some(lo), Some(hi))| == |OverlapFilter(files, Some(wlo), Some(whi))| ==>
      OverlapFilter(files, Some(lo), Some(hi)) == OverlapFilter(files, Some(wlo), Some(whi))
  {
    if files != [] {
      OverlapFilterWidens(files[..|files| - 1], lo, hi, wlo, whi);
    }
  }

  lemma {:induction false} ClosedHasNoBoundary(files: Level, inputs: Level, key: InternalKey)
    requires WellFormedFiles(files) && OverlapClosed(files, inputs) && IsLargestKey(inputs, key)
    ensures BoundaryChain(files, key) == []
  {
    var r := SmallestBoundary(files, key);
    if r.Some? {
      var lo, hi :| ClosedRange(files, lo, hi) && inputs == OverlapFilter(files, lo, hi);
      var f :| f in inputs && f.largest == key;
      SmallestNotAfterLargest(f);
      SmallestNotAfterLargest(r.value);
    }
  }

  lemma {:induction false} BoundaryClosesSlice(files: Level, a: nat, b: nat, key: InternalKey)
    requires WellFormedFiles(files) && SortedLevel(files) && a < b <= |files|
    requires IsLargestKey(files[a..b], key)
    ensures BoundaryEnd(files, b) >= b && files[a..b] + BoundaryChain(files, key) == files[a..BoundaryEnd(files, b)]
  {
    hide BoundaryChain, BoundaryEnd, Less, SortedLevel;
    SliceRange(files, a, b);
    OneLargestKey(files[a..b], key, files[b - 1].largest);
    ChainOfSlice(files, b);
    var e := BoundaryEnd(files, b);
    assert files[a..b] + files[b..e] == files[a..e];
  }

  lemma {:induction false} OneLargestKey(files: Level, a: InternalKey, b: InternalKey)
    requires IsLargestKey(files, a) && IsLargestKey(files, b)
    ensures a == b
  {
    LessIsStrictTotalOrder(a, b, a);
  }

  /** Boundary files turn a start set into one that is closed at its level. */
  lemma {:induction false} BoundaryCloses(files: Level, level: nat, inputs: Level, key: InternalKey)
    requires WellFormedFiles(files) && (level > 0 ==> SortedLevel(files))
    requires StartInputs(files, level, inputs) && IsLargestKey(inputs, key)
    ensures ClosedAtLevel(files, level, inputs + BoundaryChain(files, key))
  {
    var result := inputs + BoundaryChain(files, key);
    assert result[0] == inputs[0];
    if level == 0 {
      ClosedHasNoBoundary(files, inputs, key);
      assert result == inputs;
    } else {
      var a: nat, b: nat :| IsSlice(files, inputs, a, b);
      BoundaryClosesSlice(files, a, b, key);
      var e := BoundaryEnd(files, b);
      assert IsSlice(files, result, a, e) && EndsAtBoundary(files, e);
    }
  }

  class Compaction {
    const level: nat
    const inputVersion: Version
    var inputs0: Level
    var inputs1: Level
    var grandparents: Level
    const levelPtrs: array<nat>

    constructor (level: nat, v: Version, inputs: Level)
      ensures this.level == level && inputVersion == v && inputs0 == inputs && inputs1 == [] && grandparents == []
      ensures fresh(levelPtrs) && Unused()
    {
      this.level, inputVersion, inputs0, inputs1, grandparents := level, v, inputs, [], [];
      levelPtrs := new nat[NUM_LEVELS](_ => 0);
    }

    /** No entry has been merged yet. */
    ghost predicate Unused()
      reads levelPtrs
    {
      levelPtrs.Length == NUM_LEVELS && forall i | 0 <= i < NUM_LEVELS :: levelPtrs[i] == 0
    }

    /** Extends the start set to a closed one; the expansion step never changes the level + 1 inputs. */
    method SetupOtherInputs(maxFileSize: nat)
      requires ValidVersion(inputVersion) && level + 1 < NUM_LEVELS
      requires StartInputs(inputVersion[level], level, inputs0) && grandparents == []
      modifies this`inputs0, this`inputs1, this`grandparents
      ensures ClosedInputs(inputVersion, level, inputs0, inputs1)
      ensures AreGrandparents(inputVersion, level, inputs0, inputs1, grandparents)
      ensures forall f | f in old(inputs0) :: f in inputs0
    {
      inputs0, inputs1 := CloseInputs(inputVersion, level, inputs0, maxFileSize);
      var lo, hi := GetRange(inputs0 + inputs1);
      if level + 2 < NUM_LEVELS {
        ghost var rlo, rhi;
        grandparents, rlo, rhi := GetOverlappingInputs(inputVersion[level + 2], false, Some(lo.user), Some(hi.user));
      }
    }

    // ----- Merging the inputs

    /** The cursors have only passed files that end before the user key. */
    ghost predicate CursorsBehind(user: UserKey)
      reads levelPtrs
      requires |inputVersion| == NUM_LEVELS
    {
      && levelPtrs.Length == NUM_LEVELS
      && forall lvl | level + 2 <= lvl < NUM_LEVELS ::
        && levelPtrs[lvl] <= |inputVersion[lvl]|
        && forall j | 0 <= j < levelPtrs[lvl] :: inputVersion[lvl][j].largest.user < user
    }

    /** Moves the cursor of one level up to the first file that does not end before the user key. */
    method AdvanceCursor(lvl: nat, user: UserKey) returns (covered: bool)
      requires |inputVersion| == NUM_LEVELS && level + 2 <= lvl < NUM_LEVELS && CursorsBehind(user)
      requires WellFormedFiles(inputVersion[lvl]) && SortedLevel(inputVersion[lvl])
      modifies levelPtrs
      ensures CursorsBehind(user)
      ensures covered <==> exists f | f in inputVersion[lvl] :: f.smallest.user <= user <= f.largest.user
    {
      var files := inputVersion[lvl];
      while levelPtrs[lvl] < |files|
        invariant CursorsBehind(user)
        decreases |files| - levelPtrs[lvl]
      {
        var f := files[levelPtrs[lvl]];
        if user <= f.largest.user {
          if user >= f.smallest.user {
            return true;
          }
          break;
        }
        levelPtrs[lvl] := levelPtrs[lvl] + 1;
      }
      NoneCovers(files, levelPtrs[lvl], user);
      covered := false;
    }

    /** As long as keys arrive in order, the moving cursors give the answer of a full scan. */
    method IsBaseLevelForKey(user: UserKey) returns (base: bool)
      requires ValidVersion(inputVersion) && CursorsBehind(user)
      modifies levelPtrs
      ensures CursorsBehind(user)
      ensures base <==> IsBaseLevel(inputVersion, level, user)
    {
      var lvl := level + 2;
      while lvl < NUM_LEVELS
        invariant level + 2 <= lvl
        invariant CursorsBehind(user)
        invariant forall l, f | level + 2 <= l < lvl && l < NUM_LEVELS && f in inputVersion[l] :: !(f.smallest.user <= user <= f.largest.user)
      {
        var covered := AdvanceCursor(lvl, user);
        if covered {
          return false;
        }
        lvl := lvl + 1;
      }
      base := true;
    }

    lemma CursorsStayBehind(user: UserKey, later: UserKey)
      requires |inputVersion| == NUM_LEVELS && CursorsBehind(user) && user <= later
      ensures CursorsBehind(later)
    {
    }

    /**
     * The decision for entry i of the merged input, given the sequence of the previous version of its
     * user key. The marker for "no version seen" is the largest sequence, so at that sequence the
     * first version of every key would be taken for a hidden one.
     */
    method ShouldDrop(ghost run: seq<Entry>, ghost i: nat, ikey: InternalKey, lastSequenceForKey: nat, smallestSnapshot: nat)
      returns (drop: bool)
      requires ValidVersion(inputVersion) && i < |run| && run[i].key == ikey
      requires CursorsBehind(ikey.user)
      requires lastSequenceForKey == if i > 0 && run[i - 1].key.user == ikey.user then run[i - 1].key.sequence else MAX_SEQUENCE
      modifies levelPtrs
      ensures CursorsBehind(ikey.user)
      ensures drop <==>
        Dropped(run, i, smallestSnapshot, inputVersion, level) || (smallestSnapshot >= MAX_SEQUENCE && FirstOfItsKey(run, i))
    {
      drop := false;
      if lastSequenceForKey <= smallestSnapshot {
        drop := true;
      } else if ikey.kind.Deletion? && ikey.sequence <= smallestSnapshot {
        drop := IsBaseLevelForKey(ikey.user);
      }
    }

    /** The state of the merge loop once the first i entries have been handled. */
    ghost predicate HandledUpTo(run: seq<Entry>, i: nat, smallestSnapshot: nat, state: MergeState)
      requires ValidVersion(inputVersion) && i <= |run|
    {
      && (state.userKey.Some? <==> i > 0)
      && (i > 0 ==> state.userKey.value == run[i - 1].key.user && state.lastSequenceForKey == run[i - 1].key.sequence)
      && Concat(state.outputs) + state.current == Survivors(run, i, smallestSnapshot, inputVersion, level)
      && AllNonEmpty(state.outputs)
    }

    ghost predicate CursorsReady(run: seq<Entry>, i: nat)
      requires |inputVersion| == NUM_LEVELS
      reads levelPtrs
    {
      i < |run| ==> CursorsBehind(run[i].key.user)
    }

    /** Handles one entry: drops it or adds it to the current output. */
    method HandleEntry(ghost run: seq<Entry>, ghost i: nat, e: Entry, smallestSnapshot: nat, state: MergeState) returns (next: MergeState)
      requires ValidVersion(inputVersion) && smallestSnapshot < MAX_SEQUENCE
      requires Sorted(run) && i < |run| && run[i] == e
      requires HandledUpTo(run, i, smallestSnapshot, state) && CursorsReady(run, i)
      modifies levelPtrs
      ensures HandledUpTo(run, i + 1, smallestSnapshot, next) && CursorsReady(run, i + 1)
    {
      var outputs, current := StopBefore(state.outputs, state.current);
      var lastSequenceForKey := state.lastSequenceForKey;
      if state.userKey != Some(e.key.user) {
        lastSequenceForKey := MAX_SEQUENCE;
      }
      var drop := ShouldDrop(run, i, e.key, lastSequenceForKey, smallestSnapshot);
      if !drop {
        outputs, current := AddToOutput(outputs, current, e);
      }
      next := MergeState(outputs, current, Some(e.key.user), e.key.sequence);
      if i + 1 < |run| {
        assert Less(run[i].key, run[i + 1].key);
        CursorsStayBehind(run[i].key.user, run[i + 1].key.user);
      }
    }

    ghost predicate Handling(input: MergingIterator, smallestSnapshot: nat, state: MergeState)
      reads levelPtrs, input, input.children
    {
      && ValidVersion(inputVersion) && smallestSnapshot < MAX_SEQUENCE && input.Ok()
      && HandledUpTo(input.merged, input.at, smallestSnapshot, state) && CursorsReady(input.merged, input.at)
    }

    method HandleCurrent(input: MergingIterator, smallestSnapshot: nat, state: MergeState) returns (next: MergeState)
      requires Handling(input, smallestSnapshot, state) && input.Valid()
      modifies levelPtrs, input, input.children
      ensures Handling(input, smallestSnapshot, next) && input.at == old(input.at) + 1
    {
      next := HandleEntry(input.merged, input.at, input.Current(), smallestSnapshot, state);
      input.Next();
    }

    /**
     * Runs the drop rule over the merged input. The two tests that close an output file early
     * (overlap with grandparents, file size) are left open.
     */
    method DoCompactionWork(input: MergingIterator, smallestSnapshot: nat) returns (outputs: seq<seq<Entry>>)
      requires ValidVersion(inputVersion) && input.Ok() && smallestSnapshot < MAX_SEQUENCE
      requires Unused()
      modifies levelPtrs, input, input.children
      ensures Concat(outputs) == Survivors(input.merged, |input.merged|, smallestSnapshot, inputVersion, level)
      ensures AllNonEmpty(outputs)
    {
      var state := MergeState([], [], None, MAX_SEQUENCE);
      input.SeekToFirst();
      while input.Valid()
        invariant Handling(input, smallestSnapshot, state)
        decreases |input.merged| - input.at
      {
        state := HandleCurrent(input, smallestSnapshot, state);
      }
      var rest;
      outputs, rest := FinishOutput(state.outputs, state.current);
    }
  }

  /** The finished outputs, the open one, and the last entry's user key and sequence. */
  datatype MergeState = MergeState(
    outputs: seq<seq<Entry>>, current: seq<Entry>, userKey: Option<UserKey>, lastSequenceForKey: nat)

  function Concat(runs: seq<seq<Entry>>): seq<Entry> {
    if runs == [] then [] else Concat(runs[..|runs| - 1]) + runs[|runs| - 1]
  }

  predicate AllNonEmpty(runs: seq<seq<Entry>>) {
    forall o | o in runs :: o != []
  }

  method FinishOutput(outputs: seq<seq<Entry>>, current: seq<Entry>) returns (r: seq<seq<Entry>>, empty: seq<Entry>)
    requires AllNonEmpty(outputs)
    ensures empty == [] && Concat(r) + empty == Concat(outputs) + current
    ensures AllNonEmpty(r)
  {
    empty := [];
    r := if current == [] then outputs else outputs + [current];
    if current != [] {
      assert r[..|r| - 1] == outputs;
    }
  }

  /** Overlap with grandparents may close the current output file before the next key. */
  method StopBefore(outputs: seq<seq<Entry>>, current: seq<Entry>) returns (r: seq<seq<Entry>>, rest: seq<Entry>)
    requires AllNonEmpty(outputs)
    ensures Concat(r) + rest == Concat(outputs) + current && AllNonEmpty(r)
  {
    r, rest := outputs, current;
    if * {
      r, rest := FinishOutput(r, rest);
    }
  }

  /** Adds an entry to the current output file, which may thereby reach its maximum size. */
  method AddToOutput(outputs: seq<seq<Entry>>, current: seq<Entry>, e: Entry) returns (r: seq<seq<Entry>>, rest: seq<Entry>)
    requires AllNonEmpty(outputs)
    ensures Concat(r) + rest == (Concat(outputs) + current) + [e] && AllNonEmpty(r)
  {
    r, rest := outputs, current + [e];
    if * {
      r, rest := FinishOutput(r, rest);
    }
  }

  lemma {:induction false} NoneCovers(files: Level, p: nat, user: UserKey)
    requires WellFormedFiles(files) && SortedLevel(files) && p <= |files|
    requires forall j | 0 <= j < p :: files[j].largest.user < user
    requires p < |files| ==> user < files[p].smallest.user
    ensures forall f | f in files :: !(f.smallest.user <= user <= f.largest.user)
  {
    forall f | f in files ensures !(f.smallest.user <= user <= f.largest.user) {
      var j :| 0 <= j < |files| && files[j] == f;
      if j > p {
        SortedPositions(files, p, j);
      }
    }
  }

  ghost predicate UsableLevels(v: Version, level: nat) {
    && level + 1 < |v|
    && WellFormedFiles(v[level]) && (level > 0 ==> SortedLevel(v[level]))
    && WellFormedFiles(v[level + 1]) && SortedLevel(v[level + 1])
  }

  /** The files of the level that overlap the whole range of a compaction, closed like any other inputs. */
  ghost predicate IsExpansion(files: Level, level: nat, lo: InternalKey, hi: InternalKey, wider: Level)
    requires WellFormedFiles(files)
  {
    exists rlo, rhi, largest ::
      && (if level == 0 then LeastClosedRange(files, Some(lo.user), Some(hi.user), rlo, rhi) else rlo == Some(lo.user) && rhi == Some(hi.user))
      && IsLargestKey(OverlapFilter(files, rlo, rhi), largest)
      && wider == OverlapFilter(files, rlo, rhi) + BoundaryChain(files, largest)
  }

  /** It is worth taking: more files, below 25 files' worth of bytes, and the same number of files one level down. */
  ghost predicate WorthExpanding(v: Version, level: nat, inputs0: Level, inputs1: Level, wider: Level, maxFileSize: nat)
    requires level + 1 < |v|
  {
    && |wider| > |inputs0|
    && TotalFileSize(inputs1) + TotalFileSize(wider) < 25 * maxFileSize
    && exists lo, hi :: IsRange(wider, lo, hi) && |OverlapFilter(v[level + 1], Some(lo.user), Some(hi.user))| == |inputs1|
  }

  lemma {:induction false} NotWorth(v: Version, level: nat, inputs0: Level, inputs1: Level, wider: Level, maxFileSize: nat, lo: InternalKey, hi: InternalKey)
    requires level + 1 < |v| && IsRange(wider, lo, hi) && WorthExpanding(v, level, inputs0, inputs1, wider, maxFileSize)
    ensures |OverlapFilter(v[level + 1], Some(lo.user), Some(hi.user))| == |inputs1|
  {
    hide IsRange, OverlapFilter, TotalFileSize;
    var lo', hi' :| IsRange(wider, lo', hi') && |OverlapFilter(v[level + 1], Some(lo'.user), Some(hi'.user))| == |inputs1|;
    RangeIsUnique(wider, lo, hi, lo', hi');
  }

  /** Gathers the level by the whole range of the compaction. */
  method Widen(v: Version, level: nat, inputs0: Level, inputs1: Level, lo: InternalKey, hi: InternalKey) returns (wider: Level)
    requires UsableLevels(v, level)
    requires ClosedInputs(v, level, inputs0, inputs1) && IsRange(inputs0 + inputs1, lo, hi)
    ensures IsExpansion(v[level], level, lo, hi, wider) && ClosedAtLevel(v[level], level, wider)
    ensures forall f | f in inputs0 :: f in wider
  {
    hide ClosedAtLevel, OverlapFilter, SortedLevel, SortedBySmallest, WellFormedFile, BoundaryChain, IsRange, LeastClosedRange;
    ghost var rlo, rhi;
    wider, rlo, rhi := GetOverlappingInputs(v[level], level == 0, Some(lo.user), Some(hi.user));
    ClosedInputsAreFiles(v, level, inputs0, inputs1);
    CoversInputs(v[level], level, inputs0, inputs1, lo, hi, wider, rlo, rhi);
    ghost var start, largest := GetRange(wider);
    BoundaryCloses(v[level], level, wider, largest);
    wider := AddBoundaryInputs(v[level], wider, largest);
  }

  /** Tries to grow the level inputs without changing the set of level + 1 inputs. */
  method ExpandInputs(v: Version, level: nat, inputs0: Level, inputs1: Level, lo: InternalKey, hi: InternalKey, maxFileSize: nat)
    returns (expanded0: Level, expanded1: Level)
    requires UsableLevels(v, level)
    requires ClosedInputs(v, level, inputs0, inputs1) && IsRange(inputs0 + inputs1, lo, hi)
    ensures ClosedInputs(v, level, expanded0, expanded1)
    ensures expanded1 == inputs1 && forall f | f in inputs0 :: f in expanded0
    ensures exists wider ::
      && IsExpansion(v[level], level, lo, hi, wider)
      && expanded0 == if WorthExpanding(v, level, inputs0, inputs1, wider, maxFileSize) then wider else inputs0
  {
    hide IsExpansion, ClosedAtLevel, OverlapFilter, SortedLevel, SortedBySmallest, WellFormedFile, TotalFileSize, IsRange;
    ClosedInputsAreFiles(v, level, inputs0, inputs1);
    var wider := Widen(v, level, inputs0, inputs1, lo, hi);
    expanded0, expanded1 := inputs0, inputs1;
    if |wider| > |inputs0| && TotalFileSize(inputs1) + TotalFileSize(wider) < 25 * maxFileSize {
      var newStart, newLimit := GetRange(wider);
      ghost var rlo, rhi;
      var wider1;
      wider1, rlo, rhi := GetOverlappingInputs(v[level + 1], false, Some(newStart.user), Some(newLimit.user));
      if |wider1| == |inputs1| {
        ghost var oldStart, oldLimit := GetRange(inputs0);
        WiderRange(inputs0, wider, oldStart, oldLimit, newStart, newLimit);
        OverlapFilterWidens(v[level + 1], oldStart.user, oldLimit.user, newStart.user, newLimit.user);
        ClosedFromRange(v, level, wider, wider1, newStart, newLimit);
        expanded0, expanded1 := wider, wider1;
      } else if WorthExpanding(v, level, inputs0, inputs1, wider, maxFileSize) {
        NotWorth(v, level, inputs0, inputs1, wider, maxFileSize, newStart, newLimit);
      }
    }
  }

  /** The inputs are the closed start set, or its expansion where there is something at the next level and it is worth it. */
  ghost predicate Grown(v: Version, level: nat, closed: Level, inputs0: Level, inputs1: Level, maxFileSize: nat)
    requires UsableLevels(v, level)
  {
    if inputs1 == [] then inputs0 == closed
    else exists lo, hi, wider ::
      && IsRange(closed + inputs1, lo, hi) && IsExpansion(v[level], level, lo, hi, wider)
      && inputs0 == if WorthExpanding(v, level, closed, inputs1, wider, maxFileSize) then wider else closed
  }

  /** Adds the boundary files, the overlapping files of the next level, and what the expansion step finds. */
  method CloseInputs(v: Version, level: nat, start: Level, maxFileSize: nat) returns (inputs0: Level, inputs1: Level)
    requires UsableLevels(v, level) && StartInputs(v[level], level, start)
    ensures ClosedInputs(v, level, inputs0, inputs1)
    ensures forall f | f in start :: f in inputs0
    ensures exists key :: IsLargestKey(start, key) && Grown(v, level, start + BoundaryChain(v[level], key), inputs0, inputs1, maxFileSize)
  {
    hide BoundaryChain, IsExpansion, WorthExpanding, OverlapFilter, ClosedAtLevel, SortedLevel, WellFormedFile, TotalFileSize, ClosedInputs, Less;
    ghost var rlo, rhi;
    ghost var first, last := GetRange(start);
    BoundaryCloses(v[level], level, start, last);
    inputs0 := AddBoundaryInputs(v[level], start, last);
    var smallest, largest := GetRange(inputs0);
    inputs1, rlo, rhi := GetOverlappingInputs(v[level + 1], false, Some(smallest.user), Some(largest.user));
    ClosedFromRange(v, level, inputs0, inputs1, smallest, largest);
    ghost var closed := inputs0;
    assert IsLargestKey(start, last);
    if inputs1 != [] {
      var lo, hi := GetRange(inputs0 + inputs1);
      inputs0, inputs1 := ExpandInputs(v, level, inputs0, inputs1, lo, hi, maxFileSize);
    }
    assert Grown(v, level, closed, inputs0, inputs1, maxFileSize);
  }

  lemma {:induction false} ClosedInputsAreFiles(v: Version, level: nat, inputs0: Level, inputs1: Level)
    requires level + 1 < |v| && ClosedInputs(v, level, inputs0, inputs1)
    ensures forall f | f in inputs0 :: f in v[level]
    ensures inputs0 != []
  {
  }

  lemma {:induction false} ClosedFromRange(v: Version, level: nat, inputs0: Level, inputs1: Level, lo: InternalKey, hi: InternalKey)
    requires level + 1 < |v| && ClosedAtLevel(v[level], level, inputs0) && IsRange(inputs0, lo, hi)
    requires inputs1 == OverlapFilter(v[level + 1], Some(lo.user), Some(hi.user))
    ensures ClosedInputs(v, level, inputs0, inputs1)
  {
    forall lo', hi' | IsRange(inputs0, lo', hi')
      ensures inputs1 == OverlapFilter(v[level + 1], Some(lo'.user), Some(hi'.user))
    {
      RangeIsUnique(inputs0, lo, hi, lo', hi');
    }
  }

  lemma {:induction false} WiderRange(inputs: Level, wider: Level, lo: InternalKey, hi: InternalKey, wlo: InternalKey, whi: InternalKey)
    requires IsRange(inputs, lo, hi) && IsRange(wider, wlo, whi)
    requires forall f | f in inputs :: f in wider
    ensures wlo.user <= lo.user && hi.user <= whi.user
  {
  }

  /** Gathering by the whole range of the compaction gives a start set that contains the inputs. */
  lemma {:induction false} CoversInputs(files: Level, level: nat, inputs0: Level, inputs1: Level, lo: InternalKey, hi: InternalKey,
                                        expanded: Level, rlo: Option<UserKey>, rhi: Option<UserKey>)
    requires WellFormedFiles(files) && (level > 0 ==> SortedLevel(files))
    requires inputs0 != [] && forall f | f in inputs0 :: f in files
    requires IsRange(inputs0 + inputs1, lo, hi)
    requires expanded == OverlapFilter(files, rlo, rhi)
    requires level > 0 ==> rlo == Some(lo.user) && rhi == Some(hi.user)
    requires level == 0 ==> LeastClosedRange(files, Some(lo.user), Some(hi.user), rlo, rhi)
    ensures StartInputs(files, level, expanded)
    ensures forall f | f in inputs0 :: f in expanded
  {
    forall f | f in inputs0 ensures f in expanded {
      assert f in inputs0 + inputs1;
      SmallestNotAfterLargest(f);
    }
    assert inputs0[0] in expanded;
    if level > 0 {
      var a, b := OverlapFilterIsSlice(files, rlo, rhi);
      assert IsSlice(files, expanded, a, b);
    }
  }
}
