/** Table files, versions (seven levels of files), and the reads of a version. */
module Versions {
  import opened InternalKeys
  import opened Options

  const NUM_LEVELS: nat := 7
  const MAX_MEM_COMPACT_LEVEL: nat := 2

  // The metadata of a table together with the entries it serves.
  datatype File = File(number: nat, size: nat, smallest: InternalKey, largest: InternalKey, entries: seq<Entry>)

  type Level = seq<File>
  type Version = seq<Level>

  ghost predicate WellFormedFile(f: File) {
    && |f.entries| > 0
    && Sorted(f.entries)
    && f.smallest == f.entries[0].key
    && f.largest == f.entries[|f.entries| - 1].key
    && forall e | e in f.entries :: e.key.sequence < MAX_SEQUENCE
  }

  ghost predicate WellFormedFiles(files: Level) {
    forall f | f in files :: WellFormedFile(f)
  }

  ghost predicate SortedLevel(files: Level) {
    forall i, j | 0 <= i < j < |files| :: Less(files[i].largest, files[j].smallest)
  }

  ghost predicate DistinctNumbers(files: Level) {
    forall i, j | 0 <= i < j < |files| :: files[i].number != files[j].number
  }

  /** Files by smallest key, ties by number. */
  predicate FileLess(f: File, g: File) {
    Less(f.smallest, g.smallest) || (f.smallest == g.smallest && f.number < g.number)
  }

  ghost predicate SortedBySmallest(files: Level) {
    forall i, j | 0 <= i < j < |files| :: FileLess(files[i], files[j])
  }

  lemma FileLessIsStrictOrder(f: File, g: File, h: File)
    ensures FileLess(f, g) && FileLess(g, h) ==> FileLess(f, h)
    ensures !FileLess(f, f) && !(FileLess(f, g) && FileLess(g, f))
    ensures FileLess(f, g) || FileLess(g, f) || (f.smallest == g.smallest && f.number == g.number)
  {
  }

  ghost function LevelEntries(files: Level): set<Entry> {
    set f, e | f in files && e in f.entries :: e
  }

  /** In level 0 the file with the larger number is the younger one. */
  ghost predicate AgeOrdered(files: Level) {
    forall f, g | f in files && g in files && f.number > g.number :: Newer(Elements(f.entries), Elements(g.entries))
  }

  ghost predicate LevelsLayered(v: Version) {
    forall i, j | 0 <= i < j < |v| :: Newer(LevelEntries(v[i]), LevelEntries(v[j]))
  }

  ghost predicate ValidVersion(v: Version) {
    && |v| == NUM_LEVELS
    && (forall i | 0 <= i < |v| :: WellFormedFiles(v[i]) && SortedBySmallest(v[i]) && DistinctNumbers(v[i]))
    && (forall i | 0 < i < |v| :: SortedLevel(v[i]))
    && AgeOrdered(v[0])
    && LevelsLayered(v)
  }

  ghost function VersionEntries(v: Version): set<Entry> {
    set i, e | 0 <= i < |v| && e in LevelEntries(v[i]) :: e
  }

  lemma {:induction false} FileKeysWithinBounds(f: File, e: Entry)
    requires WellFormedFile(f) && e in f.entries
    ensures !Less(e.key, f.smallest) && !Less(f.largest, e.key)
    ensures f.smallest.user <= e.key.user <= f.largest.user
  {
    var i :| 0 <= i < |f.entries| && f.entries[i] == e;
  }

  // ----- Binary search for a file

  function FindFileIndex(files: Level, key: InternalKey): (r: nat)
    ensures r <= |files|
    ensures forall i | 0 <= i < r :: Less(files[i].largest, key)
    ensures r < |files| ==> !Less(files[r].largest, key)
  {
    if files == [] || !Less(files[0].largest, key) then 0 else 1 + FindFileIndex(files[1..], key)
  }

  /** The order the binary search relies on: largest keys ascend. */
  ghost predicate AscendingLargest(files: Level) {
    forall i, j | 0 <= i < j < |files| :: Less(files[i].largest, files[j].largest)
  }

  lemma {:induction false} SortedLevelAscends(files: Level)
    requires SortedLevel(files) && WellFormedFiles(files)
    ensures AscendingLargest(files)
  {
    forall i, j | 0 <= i < j < |files| ensures Less(files[i].largest, files[j].largest) {
      assert files[j] in files;
      FileKeysWithinBounds(files[j], files[j].entries[|files[j].entries| - 1]);
    }
  }

  method FindFile(files: Level, key: InternalKey) returns (index: nat)
    requires AscendingLargest(files)
    ensures index == FindFileIndex(files, key)
  {
    var left, right := 0, |files|;
    while left < right
      invariant 0 <= left <= right <= |files|
      invariant forall i | 0 <= i < left :: Less(files[i].largest, key)
      invariant right < |files| ==> !Less(files[right].largest, key)
    {
      var mid := (left + right) / 2;
      if Less(files[mid].largest, key) {
        left := mid + 1;
      } else {
        right := mid;
      }
    }
    index := right;
    var r := FindFileIndex(files, key);
    assert r <= right;
  }

  // ----- Overlap of a file with a user key range; None is an open end

  predicate AfterFile(k: Option<UserKey>, f: File) {
    k.Some? && k.value > f.largest.user
  }

  predicate BeforeFile(k: Option<UserKey>, f: File) {
    k.Some? && k.value < f.smallest.user
  }

  predicate Overlaps(f: File, lo: Option<UserKey>, hi: Option<UserKey>) {
    !AfterFile(lo, f) && !BeforeFile(hi, f)
  }

  method SomeFileOverlapsRange(disjoint: bool, files: Level, lo: Option<UserKey>, hi: Option<UserKey>) returns (r: bool)
    requires disjoint ==> SortedLevel(files)
    requires WellFormedFiles(files)
    ensures r <==> exists f | f in files :: Overlaps(f, lo, hi)
  {
    if !disjoint {
      for i := 0 to |files|
        invariant forall j | 0 <= j < i :: !Overlaps(files[j], lo, hi)
      {
        if Overlaps(files[i], lo, hi) {
          return true;
        }
      }
      return false;
    }
    var index := 0;
    if lo.Some? {
      SortedLevelAscends(files);
      index := FindFile(files, LookupKey(lo.value, MAX_SEQUENCE));
    }
    forall j | 0 <= j < index ensures AfterFile(lo, files[j]) {
      assert Less(files[j].largest, LookupKey(lo.value, MAX_SEQUENCE));
      assert files[j] in files;
      assert files[j].entries[|files[j].entries| - 1] in files[j].entries;
    }
    if index >= |files| {
      return false;
    }
    assert files[index] in files && !AfterFile(lo, files[index]);
    forall j | index < j < |files| && BeforeFile(hi, files[index]) ensures BeforeFile(hi, files[j]) {
      assert files[j] in files && Less(files[index].largest, files[j].smallest);
      FileKeysWithinBounds(files[index], files[index].entries[0]);
    }
    r := !BeforeFile(hi, files[index]);
  }

  // ----- Input gathering

  function OverlapFilter(files: Level, lo: Option<UserKey>, hi: Option<UserKey>): (r: Level)
    ensures forall f :: f in r <==> f in files && Overlaps(f, lo, hi)
  {
    if files == [] then []
    else
      var last := |files| - 1;
      OverlapFilter(files[..last], lo, hi) + (if Overlaps(files[last], lo, hi) then [files[last]] else [])
  }

  lemma {:induction false} OverlapFilterKeepsDistinct(files: Level, lo: Option<UserKey>, hi: Option<UserKey>)
    requires DistinctNumbers(files)
    ensures DistinctNumbers(OverlapFilter(files, lo, hi))
  {
    if files != [] {
      var last := |files| - 1;
      OverlapFilterKeepsDistinct(files[..last], lo, hi);
      var front := OverlapFilter(files[..last], lo, hi);
      assert forall i | 0 <= i < |front| :: front[i] in front;
    }
  }

  predicate RangeContains(olo: Option<UserKey>, ohi: Option<UserKey>, lo: Option<UserKey>, hi: Option<UserKey>) {
    && (olo.Some? ==> lo.Some? && olo.value <= lo.value)
    && (ohi.Some? ==> hi.Some? && hi.value <= ohi.value)
  }

  /** Every file that touches the range lies inside it. */
  ghost predicate ClosedRange(files: Level, lo: Option<UserKey>, hi: Option<UserKey>) {
    forall f | f in files && Overlaps(f, lo, hi) ::
      && (lo.Some? ==> lo.value <= f.smallest.user)
      && (hi.Some? ==> f.largest.user <= hi.value)
  }

  /** (rlo, rhi) is the least range that contains (lo, hi) and is closed under overlap. */
  ghost predicate LeastClosedRange(files: Level, lo: Option<UserKey>, hi: Option<UserKey>, rlo: Option<UserKey>, rhi: Option<UserKey>) {
    && RangeContains(rlo, rhi, lo, hi)
    && ClosedRange(files, rlo, rhi)
    && forall clo, chi | RangeContains(clo, chi, lo, hi) && ClosedRange(files, clo, chi) :: RangeContains(clo, chi, rlo, rhi)
  }

  ghost function StartsBelow(files: Level, lo: Option<UserKey>): set<UserKey> {
    set f | f in files && lo.Some? && f.smallest.user < lo.value :: f.smallest.user
  }

  ghost function LimitsAbove(files: Level, hi: Option<UserKey>): set<UserKey> {
    set f | f in files && hi.Some? && f.largest.user > hi.value :: f.largest.user
  }

  lemma {:induction false} StartsShrink(files: Level, f: File, lo: Option<UserKey>)
    requires f in files && lo.Some? && f.smallest.user < lo.value
    ensures StartsBelow(files, Some(f.smallest.user)) < StartsBelow(files, lo)
  {
    assert f.smallest.user in StartsBelow(files, lo) && f.smallest.user !in StartsBelow(files, Some(f.smallest.user));
  }

  lemma {:induction false} LimitsShrink(files: Level, f: File, hi: Option<UserKey>)
    requires f in files && hi.Some? && f.largest.user > hi.value
    ensures LimitsAbove(files, Some(f.largest.user)) < LimitsAbove(files, hi)
  {
    assert f.largest.user in LimitsAbove(files, hi) && f.largest.user !in LimitsAbove(files, Some(f.largest.user));
  }

  lemma {:induction false} OverlapPrefixStep(files: Level, n: nat, lo: Option<UserKey>, hi: Option<UserKey>)
    requires 0 < n <= |files|
    ensures OverlapFilter(files[..n], lo, hi) ==
      OverlapFilter(files[..n - 1], lo, hi) + (if Overlaps(files[n - 1], lo, hi) then [files[n - 1]] else [])
  {
    assert files[..n][..n - 1] == files[..n - 1];
  }

  /** No closed range that contains the request is smaller than (lo, hi). */
  ghost predicate Needed(files: Level, begin: Option<UserKey>, end: Option<UserKey>, lo: Option<UserKey>, hi: Option<UserKey>) {
    forall clo, chi | RangeContains(clo, chi, begin, end) && ClosedRange(files, clo, chi) :: RangeContains(clo, chi, lo, hi)
  }

  lemma {:induction false} StillNeeded(files: Level, begin: Option<UserKey>, end: Option<UserKey>,
                                       lo: Option<UserKey>, hi: Option<UserKey>, f: File)
    requires Needed(files, begin, end, lo, hi) && f in files && Overlaps(f, lo, hi)
    ensures lo.Some? && f.smallest.user < lo.value ==> Needed(files, begin, end, Some(f.smallest.user), hi)
    ensures hi.Some? && f.largest.user > hi.value ==> Needed(files, begin, end, lo, Some(f.largest.user))
  {
  }

  method GetOverlappingInputs(files: Level, levelZero: bool, begin: Option<UserKey>, end: Option<UserKey>)
    returns (inputs: Level, ghost rlo: Option<UserKey>, ghost rhi: Option<UserKey>)
    ensures inputs == OverlapFilter(files, rlo, rhi)
    ensures !levelZero ==> rlo == begin && rhi == end
    ensures levelZero ==> LeastClosedRange(files, begin, end, rlo, rhi)
  {
    hide OverlapFilter, ClosedRange, Needed, StartsBelow, LimitsAbove;
    inputs := [];
    var userBegin, userEnd := begin, end;
    OverlapNone(files, begin, end);
    NeedsItself(files, begin, end);
    var i := 0;
    while i < |files|
      invariant 0 <= i <= |files|
      invariant inputs == OverlapFilter(files[..i], userBegin, userEnd)
      invariant !levelZero ==> userBegin == begin && userEnd == end
      invariant RangeContains(userBegin, userEnd, begin, end)
      invariant begin.Some? == userBegin.Some? && end.Some? == userEnd.Some?
      invariant levelZero ==> ClosedRange(files[..i], userBegin, userEnd)
      invariant Needed(files, begin, end, userBegin, userEnd)
      decreases StartsBelow(files, userBegin), LimitsAbove(files, userEnd), |files| - i
    {
      var f := files[i];
      i := i + 1;
      OverlapPrefixStep(files, i, userBegin, userEnd);
      if levelZero {
        ClosedOneMore(files, i, userBegin, userEnd);
      }
      if AfterFile(userBegin, f) || BeforeFile(userEnd, f) {
        // Completely outside the range
      } else {
        inputs := inputs + [f];
        if levelZero {
          StillNeeded(files, begin, end, userBegin, userEnd, f);
          if userBegin.Some? && f.smallest.user < userBegin.value {
            StartsShrink(files, f, userBegin);
            userBegin, inputs, i := Some(f.smallest.user), [], 0;
            OverlapNone(files, userBegin, userEnd);
          } else if userEnd.Some? && f.largest.user > userEnd.value {
            LimitsShrink(files, f, userEnd);
            userEnd, inputs, i := Some(f.largest.user), [], 0;
            OverlapNone(files, userBegin, userEnd);
          }
        }
      }
    }
    assert files[..i] == files;
    rlo, rhi := userBegin, userEnd;
    LeastIfNeeded(files, begin, end, rlo, rhi);
  }

  lemma {:induction false} NeedsItself(files: Level, begin: Option<UserKey>, end: Option<UserKey>)
    ensures Needed(files, begin, end, begin, end)
  {
  }

  lemma {:induction false} LeastIfNeeded(files: Level, begin: Option<UserKey>, end: Option<UserKey>, lo: Option<UserKey>, hi: Option<UserKey>)
    requires RangeContains(lo, hi, begin, end) && Needed(files, begin, end, lo, hi)
    ensures ClosedRange(files, lo, hi) ==> LeastClosedRange(files, begin, end, lo, hi)
  {
  }

  lemma {:induction false} ClosedOneMore(files: Level, n: nat, lo: Option<UserKey>, hi: Option<UserKey>)
    requires 0 < n <= |files| && ClosedRange(files[..n - 1], lo, hi)
    ensures (lo.Some? ==> lo.value <= files[n - 1].smallest.user) && (hi.Some? ==> files[n - 1].largest.user <= hi.value) ==>
      ClosedRange(files[..n], lo, hi)
    ensures !Overlaps(files[n - 1], lo, hi) ==> ClosedRange(files[..n], lo, hi)
  {
    assert files[..n] == files[..n - 1] + [files[n - 1]];
  }

  lemma {:induction false} OverlapNone(files: Level, lo: Option<UserKey>, hi: Option<UserKey>)
    ensures OverlapFilter(files[..0], lo, hi) == [] && ClosedRange(files[..0], lo, hi)
  {
  }

  // ----- Reading a version

  ghost predicate NewestFirst(files: Level) {
    forall i, j | 0 <= i < j < |files| :: files[i].number > files[j].number
  }

  function InsertByNumber(files: Level, f: File): (r: Level)
    requires NewestFirst(files) && forall g | g in files :: g.number != f.number
    ensures forall g :: g in r <==> g in files || g == f
    ensures NewestFirst(r)
  {
    if files == [] || f.number > files[0].number then [f] + files
    else
      var rest := InsertByNumber(files[1..], f);
      assert forall g :: g in rest ==> g.number < files[0].number;
      assert forall i | 0 <= i < |rest| :: rest[i] in rest;
      [files[0]] + rest
  }

  function SortNewestFirst(files: Level): (r: Level)
    requires DistinctNumbers(files)
    ensures forall g :: g in r <==> g in files
    ensures NewestFirst(r)
  {
    if files == [] then [] else InsertByNumber(SortNewestFirst(files[1..]), files[0])
  }

  /** Ask the files in turn until one of them knows the key. */
  function FirstHit(files: Level, k: UserKey, s: nat): Answer {
    if files == [] then Missing
    else
      var a := RunGet(files[0].entries, k, s);
      if a.Missing? then FirstHit(files[1..], k, s) else a
  }

  /** The files of one level that a lookup opens, in the order it opens them. */
  function FilesToSearch(files: Level, levelZero: bool, k: UserKey, s: nat): Level
    requires levelZero ==> DistinctNumbers(files)
  {
    if levelZero then
      OverlapFilterKeepsDistinct(files, Some(k), Some(k));
      SortNewestFirst(OverlapFilter(files, Some(k), Some(k)))
    else
      var i := FindFileIndex(files, LookupKey(k, s));
      if i >= |files| || k < files[i].smallest.user then [] else [files[i]]
  }

  function LevelGet(files: Level, levelZero: bool, k: UserKey, s: nat): Answer
    requires levelZero ==> DistinctNumbers(files)
  {
    FirstHit(FilesToSearch(files, levelZero, k, s), k, s)
  }

  function VersionGet(v: Version, level: nat, k: UserKey, s: nat): Answer
    requires level <= |v|
    requires |v| > 0 ==> DistinctNumbers(v[0])
    decreases |v| - level
  {
    if level == |v| then Missing
    else
      var a := LevelGet(v[level], level == 0, k, s);
      if a.Missing? then VersionGet(v, level + 1, k, s) else a
  }

  method SearchFiles(files: Level, k: UserKey, s: nat) returns (a: Answer)
    ensures a == FirstHit(files, k, s)
  {
    var i := 0;
    while i < |files|
      invariant 0 <= i <= |files|
      invariant FirstHit(files, k, s) == FirstHit(files[i..], k, s)
    {
      a := RunGet(files[i].entries, k, s);
      if !a.Missing? {
        return;
      }
      i := i + 1;
    }
    a := Missing;
  }

  /** At level 0 every file around the key, newest first; elsewhere the one file that can hold it. */
  method PickFiles(files: Level, levelZero: bool, k: UserKey, s: nat) returns (r: Level)
    requires WellFormedFiles(files)
    requires if levelZero then DistinctNumbers(files) else SortedLevel(files)
    ensures r == FilesToSearch(files, levelZero, k, s)
  {
    r := [];
    if levelZero {
      OverlapFilterKeepsDistinct(files, Some(k), Some(k));
      r := SortNewestFirst(OverlapFilter(files, Some(k), Some(k)));
    } else {
      SortedLevelAscends(files);
      var index := FindFile(files, LookupKey(k, s));
      if index < |files| && !(k < files[index].smallest.user) {
        r := [files[index]];
      }
    }
  }

  method Get(v: Version, k: UserKey, s: nat) returns (a: Answer)
    requires ValidVersion(v)
    ensures a == VersionGet(v, 0, k, s)
  {
    hide FirstHit, FilesToSearch, Sorted, LevelsLayered, AgeOrdered;
    var level := 0;
    while level < NUM_LEVELS
      invariant 0 <= level <= NUM_LEVELS
      invariant VersionGet(v, 0, k, s) == VersionGet(v, level, k, s)
    {
      var files := PickFiles(v[level], level == 0, k, s);
      a := SearchFiles(files, k, s);
      if !a.Missing? {
        return;
      }
      level := level + 1;
    }
    a := Missing;
  }

  // ----- A level lookup finds the newest visible version in the level

  lemma {:induction false} FileAnswers(f: File, k: UserKey, s: nat)
    requires WellFormedFile(f)
    ensures Answers(Elements(f.entries), k, s, RunGet(f.entries, k, s))
  {
    RunGetFindsNewest(f.entries, k, s);
  }

  lemma {:induction false} LevelEntriesSplit(files: Level)
    requires |files| > 0
    ensures LevelEntries(files) == Elements(files[0].entries) + LevelEntries(files[1..])
  {
    assert files == [files[0]] + files[1..];
  }

  ghost predicate PairwiseNewer(files: Level) {
    forall i, j | 0 <= i < j < |files| :: Newer(Elements(files[i].entries), Elements(files[j].entries))
  }

  lemma {:induction false} PairwiseNewerSplit(files: Level)
    requires |files| > 0 && PairwiseNewer(files)
    ensures Newer(Elements(files[0].entries), LevelEntries(files[1..]))
    ensures PairwiseNewer(files[1..])
  {
    var head, rest := files[0], files[1..];
    forall i, j | 0 <= i < j < |rest| ensures Newer(Elements(rest[i].entries), Elements(rest[j].entries)) {
      assert rest[i] == files[i + 1] && rest[j] == files[j + 1];
    }
    forall a, b | a in Elements(head.entries) && b in LevelEntries(rest) && a.key.user == b.key.user
      ensures a.key.sequence > b.key.sequence
    {
      var f :| f in rest && b in f.entries;
      var j :| 0 <= j < |rest| && f == rest[j];
      assert f == files[j + 1] && b in Elements(f.entries);
      assert Newer(Elements(files[0].entries), Elements(files[j + 1].entries));
    }
  }

  lemma {:induction false} FirstHitAnswers(files: Level, k: UserKey, s: nat)
    requires WellFormedFiles(files) && PairwiseNewer(files)
    ensures Answers(LevelEntries(files), k, s, FirstHit(files, k, s))
  {
    if files != [] {
      var head, rest := files[0], files[1..];
      PairwiseNewerSplit(files);
      assert head in files && forall f | f in rest :: f in files;
      FileAnswers(head, k, s);
      FirstHitAnswers(rest, k, s);
      LevelEntriesSplit(files);
      FirstAnswerWins(Elements(head.entries), LevelEntries(rest), k, s,
                      RunGet(head.entries, k, s), FirstHit(rest, k, s));
    }
  }

  /** Entries that cannot answer the question may be ignored. */
  lemma {:induction false} AnswersIgnoresOthers(A: set<Entry>, B: set<Entry>, k: UserKey, s: nat, a: Answer)
    requires forall e :: VisibleAt(e, k, s) ==> (e in A <==> e in B)
    requires Answers(A, k, s, a)
    ensures Answers(B, k, s, a)
  {
    if !a.Missing? {
      var e :| Newest(A, k, s, e) && (a.Deleted? ==> e.key.kind.Deletion?) && (a.Found? ==> e.key.kind.Put? && e.value == a.value);
      assert Newest(B, k, s, e);
    }
  }

  lemma {:induction false} SearchOrderIsAgeOrder(files: Level, search: Level)
    requires AgeOrdered(files) && NewestFirst(search) && forall f | f in search :: f in files
    ensures PairwiseNewer(search)
  {
    forall i, j | 0 <= i < j < |search| ensures Newer(Elements(search[i].entries), Elements(search[j].entries)) {
      assert search[i] in search && search[j] in search;
    }
  }

  lemma {:induction false} OverlapFilterKeepsVisible(files: Level, k: UserKey, s: nat, e: Entry)
    requires WellFormedFiles(files) && VisibleAt(e, k, s)
    ensures e in LevelEntries(OverlapFilter(files, Some(k), Some(k))) <==> e in LevelEntries(files)
  {
    if e in LevelEntries(files) {
      var f :| f in files && e in f.entries;
      FileKeysWithinBounds(f, e);
      assert f in OverlapFilter(files, Some(k), Some(k));
    }
  }

  lemma {:induction false} LevelZeroGetFindsNewest(files: Level, k: UserKey, s: nat)
    requires WellFormedFiles(files) && DistinctNumbers(files) && AgeOrdered(files)
    ensures Answers(LevelEntries(files), k, s, LevelGet(files, true, k, s))
  {
    var overlapping := OverlapFilter(files, Some(k), Some(k));
    OverlapFilterKeepsDistinct(files, Some(k), Some(k));
    var search := SortNewestFirst(overlapping);
    assert LevelEntries(search) == LevelEntries(overlapping);
    assert Answers(LevelEntries(search), k, s, FirstHit(search, k, s)) by {
      SearchOrderIsAgeOrder(files, search);
      FirstHitAnswers(search, k, s);
    }
    forall e | VisibleAt(e, k, s) ensures e in LevelEntries(search) <==> e in LevelEntries(files) {
      OverlapFilterKeepsVisible(files, k, s, e);
    }
    AnswersIgnoresOthers(LevelEntries(search), LevelEntries(files), k, s, FirstHit(search, k, s));
  }

  /** When the file found by the search knows nothing of the key, no other file does. */
  lemma {:induction false} SortedLevelMiss(files: Level, i: nat, k: UserKey, s: nat)
    requires WellFormedFiles(files) && SortedLevel(files)
    requires i == FindFileIndex(files, LookupKey(k, s)) && i < |files|
    requires forall e | e in files[i].entries :: !VisibleAt(e, k, s)
    ensures forall e | e in LevelEntries(files) :: !VisibleAt(e, k, s)
  {
    var t := LookupKey(k, s);
    forall e | e in LevelEntries(files) ensures !VisibleAt(e, k, s) {
      var j :| 0 <= j < |files| && e in files[j].entries;
      assert files[j] in files && files[i] in files;
      FileKeysWithinBounds(files[j], e);
      if j < i {
        assert Less(files[j].largest, t);
      } else if j > i {
        assert Less(files[i].largest, files[j].smallest);
        var last := files[i].entries[|files[i].entries| - 1];
        assert last in files[i].entries;
      }
    }
  }

  /** A version found in the file that the search opens is the newest of its level. */
  lemma {:induction false} SortedLevelHit(files: Level, i: nat, k: UserKey, s: nat, n: Entry)
    requires WellFormedFiles(files) && SortedLevel(files)
    requires i == FindFileIndex(files, LookupKey(k, s)) && i < |files|
    requires Newest(Elements(files[i].entries), k, s, n)
    ensures Newest(LevelEntries(files), k, s, n)
  {
    assert files[i] in files;
    FileKeysWithinBounds(files[i], n);
    forall x | x in LevelEntries(files) && VisibleAt(x, k, s) ensures x.key.sequence <= n.key.sequence {
      var f :| f in files && x in f.entries;
      var j :| 0 <= j < |files| && f == files[j];
      FileKeysWithinBounds(f, x);
      if j > i {
        assert Less(files[i].largest, files[j].smallest);
        assert !Less(x.key, n.key);
      } else if j == i {
        assert x in Elements(files[i].entries);
      }
    }
  }

  /** In a sorted level the binary search opens the one file that can hold the newest version. */
  lemma {:induction false} SortedLevelGetFindsNewest(files: Level, k: UserKey, s: nat)
    requires WellFormedFiles(files) && SortedLevel(files)
    ensures Answers(LevelEntries(files), k, s, LevelGet(files, false, k, s))
  {
    var i := FindFileIndex(files, LookupKey(k, s));
    if i < |files| {
      var f := files[i];
      assert f in files;
      var a := RunGet(f.entries, k, s);
      FileAnswers(f, k, s);
      assert FirstHit([f], k, s) == a;
      if a.Missing? {
        SortedLevelMiss(files, i, k, s);
      } else {
        var n :| Newest(Elements(f.entries), k, s, n) && (a.Deleted? ==> n.key.kind.Deletion?) && (a.Found? ==> n.key.kind.Put? && n.value == a.value);
        FileKeysWithinBounds(f, n);
        SortedLevelHit(files, i, k, s, n);
      }
    } else {
      AllFilesBefore(files, k, s);
    }
  }

  lemma {:induction false} AllFilesBefore(files: Level, k: UserKey, s: nat)
    requires WellFormedFiles(files) && FindFileIndex(files, LookupKey(k, s)) == |files|
    ensures forall e | e in LevelEntries(files) :: !VisibleAt(e, k, s)
  {
    forall e | e in LevelEntries(files) ensures !VisibleAt(e, k, s) {
      var f :| f in files && e in f.entries;
      var j :| 0 <= j < |files| && f == files[j];
      FileKeysWithinBounds(f, e);
      assert Less(files[j].largest, LookupKey(k, s));
    }
  }

  lemma {:induction false} NewerThanDeeper(v: Version, level: nat)
    requires LevelsLayered(v) && level < |v|
    ensures Newer(LevelEntries(v[level]), EntriesFrom(v, level + 1))
  {
  }

  /** The read of a version finds the newest visible version among all its files. */
  lemma {:induction false} VersionGetFindsNewest(v: Version, level: nat, k: UserKey, s: nat)
    requires ValidVersion(v) && level <= |v|
    ensures Answers(EntriesFrom(v, level), k, s, VersionGet(v, level, k, s))
    decreases |v| - level
  {
    if level < |v| {
      hide LevelGet, Answers, Sorted;
      if level == 0 {
        LevelZeroGetFindsNewest(v[0], k, s);
      } else {
        SortedLevelGetFindsNewest(v[level], k, s);
      }
      NewerThanDeeper(v, level);
      VersionGetFindsNewest(v, level + 1, k, s);
      EntriesFromSplit(v, level);
      FirstAnswerWins(LevelEntries(v[level]), EntriesFrom(v, level + 1), k, s,
                      LevelGet(v[level], level == 0, k, s), VersionGet(v, level + 1, k, s));
    }
  }

  ghost function EntriesFrom(v: Version, level: nat): set<Entry> {
    set i, e | level <= i < |v| && e in LevelEntries(v[i]) :: e
  }

  lemma {:induction false} EntriesFromSplit(v: Version, level: nat)
    requires level < |v|
    ensures EntriesFrom(v, level) == LevelEntries(v[level]) + EntriesFrom(v, level + 1)
  {
  }
}
