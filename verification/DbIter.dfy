/** The database iterator: a run of versions read at a sequence number as a sorted list of live keys. */
module DbIter {
  import opened InternalKeys
  import opened Iterators
  import opened Options

  datatype Pair = Pair(user: UserKey, value: string)

  // ----- What the iterator shows

  predicate Visible(run: seq<Entry>, s: nat, p: int) {
    0 <= p < |run| && run[p].key.sequence <= s
  }

  /** The entry at p is its key's newest visible version, and a value. */
  ghost predicate Shown(run: seq<Entry>, s: nat, p: int) {
    && Visible(run, s, p) && run[p].key.kind.Put?
    && forall q | 0 <= q < p && run[q].key.user == run[p].key.user :: !Visible(run, s, q)
  }

  /** The live keys among the first n entries, with their values. */
  ghost function View(run: seq<Entry>, s: nat, n: nat): seq<Pair>
    requires n <= |run|
  {
    if n == 0 then []
    else View(run, s, n - 1) + (if Shown(run, s, n - 1) then [Pair(run[n - 1].key.user, run[n - 1].value)] else [])
  }

  /** How many live keys come before position p. */
  ghost function Rank(run: seq<Entry>, s: nat, p: nat): nat
    requires p <= |run|
  {
    |View(run, s, p)|
  }

  lemma {:induction false} RankGrows(run: seq<Entry>, s: nat, p: nat, n: nat)
    requires p <= n <= |run|
    ensures Rank(run, s, p) <= Rank(run, s, n)
    ensures p < n && Shown(run, s, p) ==>
      && Rank(run, s, p) < Rank(run, s, n)
      && View(run, s, n)[Rank(run, s, p)] == Pair(run[p].key.user, run[p].value)
  {
    if p < n {
      RankGrows(run, s, p, n - 1);
    }
  }

  lemma {:induction false} ShownAt(run: seq<Entry>, s: nat, n: nat, i: nat) returns (p: nat)
    requires n <= |run| && i < Rank(run, s, n)
    ensures p < n && Shown(run, s, p) && Rank(run, s, p) == i
  {
    if i < Rank(run, s, n - 1) {
      p := ShownAt(run, s, n - 1, i);
    } else {
      p := n - 1;
    }
  }

  /** Shown positions are ordered like their ranks. */
  lemma {:induction false} RankOrder(run: seq<Entry>, s: nat, p: nat, q: nat)
    requires p < |run| && q < |run| && Shown(run, s, p) && Shown(run, s, q)
    ensures p < q <==> Rank(run, s, p) < Rank(run, s, q)
    ensures Rank(run, s, p) < Rank(run, s, |run|)
  {
    RankGrows(run, s, p, |run|);
    if p < q {
      RankGrows(run, s, p, q);
    } else {
      RankGrows(run, s, q, p);
    }
  }

  lemma {:induction false} UsersAscend(run: seq<Entry>, p: nat, q: nat)
    requires Sorted(run) && p <= q < |run|
    ensures run[p].key.user <= run[q].key.user
    ensures run[p].key.user == run[q].key.user ==> run[q].key.sequence <= run[p].key.sequence
  {
    if p < q {
      assert Less(run[p].key, run[q].key);
    }
  }

  /** The list is ascending, and holds exactly what a point lookup at the same sequence finds. */
  lemma {:induction false} ViewIsSnapshot(run: seq<Entry>, s: nat)
    requires Sorted(run)
    ensures var view := View(run, s, |run|);
      && (forall i, j | 0 <= i < j < |view| :: view[i].user < view[j].user)
      && (forall k, v :: Pair(k, v) in view <==> Answers(Elements(run), k, s, Found(v)))
  {
    var view := View(run, s, |run|);
    forall i, j | 0 <= i < j < |view| ensures view[i].user < view[j].user {
      var p := ShownAt(run, s, |run|, i);
      var q := ShownAt(run, s, |run|, j);
      RankGrows(run, s, p, |run|);
      RankGrows(run, s, q, |run|);
      RankOrder(run, s, p, q);
      UsersAscend(run, p, q);
    }
    forall k, v ensures Pair(k, v) in view <==> Answers(Elements(run), k, s, Found(v)) {
      if Pair(k, v) in view {
        var i :| 0 <= i < |view| && view[i] == Pair(k, v);
        var p := ShownAt(run, s, |run|, i);
        RankGrows(run, s, p, |run|);
        ShownIsNewest(run, s, p);
      }
      if Answers(Elements(run), k, s, Found(v)) {
        var e :| Newest(Elements(run), k, s, e) && e.key.kind.Put? && e.value == v;
        var p := NewestIsShown(run, s, k, e);
        RankGrows(run, s, p, |run|);
        assert view[Rank(run, s, p)] == Pair(k, v);
      }
    }
  }

  lemma {:induction false} ShownIsNewest(run: seq<Entry>, s: nat, p: nat)
    requires Sorted(run) && p < |run| && Shown(run, s, p)
    ensures Answers(Elements(run), run[p].key.user, s, Found(run[p].value))
  {
    var e := run[p];
    forall x | x in Elements(run) && VisibleAt(x, e.key.user, s) ensures x.key.sequence <= e.key.sequence {
      var q :| 0 <= q < |run| && run[q] == x;
      assert Visible(run, s, q);
      UsersAscend(run, p, q);
    }
    assert Newest(Elements(run), e.key.user, s, e);
  }

  lemma {:induction false} NewestIsShown(run: seq<Entry>, s: nat, k: UserKey, e: Entry) returns (p: nat)
    requires Sorted(run) && Newest(Elements(run), k, s, e) && e.key.kind.Put?
    ensures p < |run| && Shown(run, s, p) && run[p].key.user == k && run[p].value == e.value
  {
    p :| 0 <= p < |run| && run[p] == e;
    forall q | 0 <= q < p && run[q].key.user == run[p].key.user ensures !Visible(run, s, q) {
      var x := run[q];
      assert x in Elements(run) && Less(x.key, e.key);
    }
  }

  lemma {:induction false} FirstPast(run: seq<Entry>, s: nat, p: nat, goal: nat)
    requires p < |run| && goal <= Rank(run, s, p)
    requires forall j: nat | j < p && Shown(run, s, j) :: Rank(run, s, j) < goal
    ensures Rank(run, s, p) == goal
  {
    if goal < Rank(run, s, p) {
      var j := ShownAt(run, s, p, goal);
    }
  }

  lemma {:induction false} AllBefore(run: seq<Entry>, s: nat, goal: nat)
    requires goal <= Rank(run, s, |run|)
    requires forall j: nat | j < |run| && Shown(run, s, j) :: Rank(run, s, j) < goal
    ensures Rank(run, s, |run|) == goal
  {
    if goal < Rank(run, s, |run|) {
      var j := ShownAt(run, s, |run|, goal);
    }
  }

  /** A backward scan from `end` has come down to `now`; `first` is the last visible entry it passed. */
  ghost predicate Scanned(run: seq<Entry>, s: nat, now: int, first: int, end: int, kind: Kind) {
    && -1 <= now <= end < |run| && now < first <= end + 1
    && (forall q | now < q < first :: !Visible(run, s, q))
    && (forall q | first < q <= end :: !Shown(run, s, q))
    && (if first <= end then Visible(run, s, first) && kind == run[first].key.kind else kind == Deletion)
  }

  /** The entries before the goal are those up to `end`. */
  ghost predicate UpTo(run: seq<Entry>, s: nat, end: int, goal: nat) {
    forall j: nat | j < |run| && Shown(run, s, j) :: Rank(run, s, j) < goal <==> j <= end
  }

  lemma {:induction false} PassInvisible(run: seq<Entry>, s: nat, now: int, first: int, end: int, kind: Kind)
    requires 0 <= now < |run| && Scanned(run, s, now, first, end, kind) && run[now].key.sequence > s
    ensures Scanned(run, s, now - 1, first, end, kind)
  {
  }

  lemma {:induction false} ScannedBounds(run: seq<Entry>, s: nat, now: int, first: int, end: int, kind: Kind)
    requires Scanned(run, s, now, first, end, kind)
    ensures -1 <= now < first && (kind == Put ==> first < |run|)
    ensures forall q | now < q < first :: !Visible(run, s, q)
  {
  }

  lemma {:induction false} ScanStarts(run: seq<Entry>, s: nat, end: int)
    requires -1 <= end < |run|
    ensures Scanned(run, s, end, end + 1, end, Deletion)
  {
  }

  lemma {:induction false} PassVisible(run: seq<Entry>, s: nat, now: int, first: int, end: int, kind: Kind)
    requires Sorted(run) && 0 <= now < |run| && Scanned(run, s, now, first, end, kind) && run[now].key.sequence <= s
    requires kind == Put ==> 0 <= first < |run| && run[first].key.user <= run[now].key.user
    ensures now < |run| && Scanned(run, s, now - 1, now, end, run[now].key.kind)
  {
    if kind == Put {
      UsersAscend(run, now, first);
    }
  }

  lemma {:induction false} LastLive(run: seq<Entry>, s: nat, now: int, first: int, end: int, kind: Kind, goal: nat)
    requires Sorted(run) && Scanned(run, s, now, first, end, kind) && goal <= Rank(run, s, |run|)
    requires UpTo(run, s, end, goal)
    requires now == -1 || (kind == Put && 0 <= now < |run| && 0 <= first < |run| && run[now].key.user < run[first].key.user)
    ensures kind == Deletion ==> goal == 0
    ensures kind == Put ==> Shown(run, s, first) && goal == Rank(run, s, first) + 1
  {
    if kind == Put {
      forall q | 0 <= q < first && run[q].key.user == run[first].key.user ensures !Visible(run, s, q) {
        if 0 <= q <= now {
          UsersAscend(run, q, now);
        }
      }
      LastBefore(run, s, first, end, goal);
    } else {
      NoneBefore(run, s, end, goal);
    }
  }

  lemma {:induction false} NoneBefore(run: seq<Entry>, s: nat, end: int, goal: nat)
    requires -1 <= end < |run| && goal <= Rank(run, s, |run|)
    requires forall j: nat | j < |run| && Shown(run, s, j) :: Rank(run, s, j) < goal <==> j <= end
    requires forall j | 0 <= j <= end :: !Shown(run, s, j)
    ensures goal == 0
  {
    if goal > 0 {
      var j := ShownAt(run, s, |run|, 0);
    }
  }

  lemma {:induction false} LastBefore(run: seq<Entry>, s: nat, first: nat, end: int, goal: nat)
    requires first <= end < |run| && goal <= Rank(run, s, |run|) && Shown(run, s, first)
    requires forall j: nat | j < |run| && Shown(run, s, j) :: Rank(run, s, j) < goal <==> j <= end
    requires forall j | first < j <= end :: !Shown(run, s, j)
    ensures goal == Rank(run, s, first) + 1
  {
    var r := Rank(run, s, first);
    if r + 1 < goal {
      var j := ShownAt(run, s, |run|, r + 1);
      RankOrder(run, s, first, j);
    }
  }

  /** Ranks below a position's are the ranks of the live entries before it. */
  lemma {:induction false} SplitsAt(run: seq<Entry>, s: nat, c: nat)
    requires c <= |run|
    ensures Rank(run, s, c) <= Rank(run, s, |run|)
    ensures forall j: nat | j < |run| && Shown(run, s, j) :: Rank(run, s, j) < Rank(run, s, c) <==> j < c
  {
    RankGrows(run, s, c, |run|);
    forall j: nat | j < |run| && Shown(run, s, j) ensures Rank(run, s, j) < Rank(run, s, c) <==> j < c {
      if j < c {
        RankGrows(run, s, j, c);
      } else {
        RankGrows(run, s, c, j);
      }
    }
  }

  /** A live entry's predecessors in the view lie before all entries of its key. */
  lemma {:induction false} KeysBefore(run: seq<Entry>, s: nat, c: nat, q: int)
    requires -1 <= q < c < |run| && Shown(run, s, c)
    requires forall j | q < j <= c :: run[j].key.user == run[c].key.user
    ensures Rank(run, s, c) <= Rank(run, s, |run|)
    ensures forall j: nat | j < |run| && Shown(run, s, j) :: Rank(run, s, j) < Rank(run, s, c) <==> j <= q
    ensures q == -1 ==> Rank(run, s, c) == 0
  {
    SplitsAt(run, s, c);
    if q == -1 && Rank(run, s, c) > 0 {
      var j := ShownAt(run, s, c, 0);
    }
  }

  // ----- Scanning forward

  /** The entry at q is passed over because of the skip key. */
  ghost predicate Skipped(run: seq<Entry>, q: int, skip: Option<UserKey>)
    requires 0 <= q < |run|
  {
    skip.Some? && run[q].key.user <= skip.value
  }

  /**
   * A forward scan from `start` has come to position c: the entries before the goal are those before
   * c and those that the skip key hides, visible entries before c have keys behind start's or hidden
   * ones, and those from c on are not before the skip key.
   */
  ghost predicate Scanning(run: seq<Entry>, s: nat, c: nat, skip: Option<UserKey>, start: nat, goal: nat) {
    && start < |run| && goal <= Rank(run, s, |run|)
    && (forall j: nat | j < |run| && Shown(run, s, j) :: Rank(run, s, j) < goal <==> j < c || Skipped(run, j, skip))
    && (forall q | 0 <= q < c && Visible(run, s, q) ::
          Skipped(run, q, skip) || (q < start && run[q].key.user < run[start].key.user))
    && (skip.Some? ==> forall q | c <= q < |run| && Visible(run, s, q) :: skip.value <= run[q].key.user)
  }

  /** One entry further: the key of a tombstone becomes the skip key, everything else leaves it as it is. */
  lemma {:induction false} ScanStep(run: seq<Entry>, s: nat, c: nat, skip: Option<UserKey>, start: nat, goal: nat)
    requires Sorted(run) && start <= c < |run| && Scanning(run, s, c, skip, start, goal)
    requires Visible(run, s, c) && run[c].key.kind.Put? ==> Skipped(run, c, skip)
    ensures Scanning(run, s, c + 1, if Visible(run, s, c) && run[c].key.kind.Deletion? then Some(run[c].key.user) else skip, start, goal)
  {
    hide Sorted, View;
    var skip' := if Visible(run, s, c) && run[c].key.kind.Deletion? then Some(run[c].key.user) else skip;
    forall q | c <= q < |run| ensures run[c].key.user <= run[q].key.user {
      UsersAscend(run, c, q);
    }
    forall j: nat | j < |run| && Shown(run, s, j) ensures Rank(run, s, j) < goal <==> j < c + 1 || Skipped(run, j, skip') {
      assert j == c ==> Skipped(run, c, skip);
      assert j > c && skip' != skip ==> (Skipped(run, j, skip') ==> !Shown(run, s, j));
      assert j < c ==> Rank(run, s, j) < goal;
    }
  }

  /** An entry that is not skipped is the first live one past the goal's entries. */
  lemma {:induction false} StopsAtGoal(run: seq<Entry>, s: nat, c: nat, skip: Option<UserKey>, start: nat, goal: nat)
    requires Sorted(run) && start <= c < |run| && Scanning(run, s, c, skip, start, goal)
    requires Visible(run, s, c) && run[c].key.kind.Put? && !Skipped(run, c, skip)
    ensures Shown(run, s, c) && Rank(run, s, c) == goal
  {
    hide Sorted, View;
    UsersAscend(run, start, c);
    assert Shown(run, s, c);
    FirstPast(run, s, c, goal);
  }

  lemma {:induction false} ScanEnds(run: seq<Entry>, s: nat, c: nat, skip: Option<UserKey>, start: nat, goal: nat)
    requires c >= |run| && Scanning(run, s, c, skip, start, goal)
    ensures Rank(run, s, |run|) == goal
  {
    hide View, Shown;
    AllBefore(run, s, goal);
  }

  // ----- The iterator

  /** A cursor over View(run, sequence): `at` is its position, the length of the view when invalid. */
  class DBIter {
    const inner: RunIterator
    const sequence: nat
    var direction: Direction
    var valid: bool
    var savedKey: Option<UserKey>   // moving backwards: the current key; also the key to skip past
    var savedValue: string          // moving backwards: the current value
    ghost var at: nat
    ghost var current: nat          // the entry that the cursor shows

    ghost function All(): seq<Pair> {
      View(inner.run, sequence, |inner.run|)
    }

    /** Moving backwards the inner iterator has passed all entries of the current key, and only
        entries that nobody sees lie between it and the one shown. */
    ghost predicate BehindCurrent()
      reads this, inner
      requires current < |inner.run|
    {
      && (inner.Valid() ==> inner.pos < current && inner.run[inner.pos].key.user < inner.run[current].key.user)
      && forall q | (if inner.Valid() then inner.pos + 1 else 0) <= q < current :: !Visible(inner.run, sequence, q)
    }

    ghost predicate Ok()
      reads this, inner
    {
      && inner.Ok()
      && (!valid ==> at == |All()|)
      && (valid ==>
            && current < |inner.run| && Shown(inner.run, sequence, current) && at == Rank(inner.run, sequence, current)
            && (direction == Forward ==> inner.pos == current)
            && (direction == Reverse ==>
                  && savedKey == Some(inner.run[current].key.user) && savedValue == inner.run[current].value
                  && BehindCurrent()))
    }

    constructor (inner: RunIterator, sequence: nat)
      requires inner.Ok()
      ensures Ok() && !Valid() && this.inner == inner && this.sequence == sequence
    {
      this.inner, this.sequence := inner, sequence;
      direction, valid, savedKey, savedValue := Forward, false, None, "";
      at, current := |View(inner.run, sequence, |inner.run|)|, 0;
    }

    predicate Valid()
      reads this
    {
      valid
    }

    function Key(): (k: UserKey)
      requires Ok() && Valid()
      reads this, inner
      ensures at < |All()| && k == All()[at].user
    {
      RankGrows(inner.run, sequence, current, |inner.run|);
      if direction == Forward then inner.Key().user else savedKey.value
    }

    function Value(): (v: string)
      requires Ok() && Valid()
      reads this, inner
      ensures at < |All()| && v == All()[at].value
    {
      RankGrows(inner.run, sequence, current, |inner.run|);
      if direction == Forward then inner.Value() else savedValue
    }

    /** The entries before the goal are those before position c and those the skip key hides. */
    ghost predicate Splits(c: nat, skipping: bool, goal: nat)
      reads this, inner
      requires skipping ==> savedKey.Some?
    {
      && goal <= |All()|
      && forall j: nat | j < |inner.run| && Shown(inner.run, sequence, j) ::
           Rank(inner.run, sequence, j) < goal <==> j < c || (skipping && inner.run[j].key.user <= savedKey.value)
    }

    /** Visible entries before position c have keys behind `start`'s or hidden by the skip key. */
    ghost predicate Passed(c: nat, skipping: bool, start: nat)
      reads this, inner
      requires skipping ==> savedKey.Some?
      requires start < |inner.run|
    {
      forall q | 0 <= q < c && Visible(inner.run, sequence, q) ::
        (skipping && inner.run[q].key.user <= savedKey.value) || (q < start && inner.run[q].key.user < inner.run[start].key.user)
    }

    /** Visible entries from position c on are not before the skip key. */
    ghost predicate NotYetSkipped(c: nat, skipping: bool)
      reads this, inner
      requires skipping ==> savedKey.Some?
    {
      skipping ==> forall q | c <= q < |inner.run| && Visible(inner.run, sequence, q) :: savedKey.value <= inner.run[q].key.user
    }

    /** Scans forward to the first live key past the skip key. */
    method FindNextUserEntry(skip: bool, ghost goal: nat)
      requires inner.Ok() && inner.Valid() && direction == Forward
      requires skip ==> savedKey.Some?
      requires Splits(inner.pos, skip, goal) && Passed(inner.pos, skip, inner.pos) && NotYetSkipped(inner.pos, skip)
      modifies this, inner
      ensures Ok() && at == goal
    {
      hide Sorted, Scanning, Shown, Splits, Passed, NotYetSkipped, View;
      var skipping := skip;
      ghost var start := inner.pos;
      StartsScan(skip, goal);
      while inner.Valid()
        invariant inner.Ok() && start <= inner.pos && direction == Forward && start < |inner.run|
        invariant skipping ==> savedKey.Some?
        invariant Scanning(inner.run, sequence, inner.pos, if skipping then savedKey else None, start, goal)
        decreases |inner.run| - inner.pos
      {
        var key := inner.Key();
        ghost var skipKey := if skipping then savedKey else None;
        if key.sequence <= sequence {
          if key.kind.Deletion? {
            savedKey := Some(key.user);
            skipping := true;
          } else if skipping && key.user <= savedKey.value {
            // Entry hidden
          } else {
            StopsAtGoal(inner.run, sequence, inner.pos, skipKey, start, goal);
            valid, current, at := true, inner.pos, goal;
            savedKey := None;
            return;
          }
        }
        ScanStep(inner.run, sequence, inner.pos, skipKey, start, goal);
        inner.Next();
      }
      ScanEnds(inner.run, sequence, inner.pos, if skipping then savedKey else None, start, goal);
      savedKey := None;
      valid, at := false, |All()|;
    }

    lemma StartsScan(skip: bool, goal: nat)
      requires inner.Ok() && inner.Valid() && (skip ==> savedKey.Some?)
      requires Splits(inner.pos, skip, goal) && Passed(inner.pos, skip, inner.pos) && NotYetSkipped(inner.pos, skip)
      ensures Scanning(inner.run, sequence, inner.pos, if skip then savedKey else None, inner.pos, goal)
    {
      hide Sorted, Shown, View;
    }

    /** Scans back to the last live key up to the inner position. */
    method FindPrevUserEntry(ghost goal: nat)
      requires inner.Ok() && direction == Reverse && goal <= |All()|
      requires Splits(if inner.Valid() then inner.pos + 1 else 0, false, goal)
      modifies this, inner
      ensures Ok() && at == if goal == 0 then |All()| else goal - 1
    {
      hide Sorted, Shown, Scanned, View, Visible, UpTo;
      var kind := Deletion;
      ghost var end: int := if inner.Valid() then inner.pos else -1;
      ghost var first, now := end + 1, end;
      ScanStarts(inner.run, sequence, end);
      SplitsUpTo(end, goal);
      if inner.Valid() {
        while true
          invariant inner.Ok() && inner.Valid() && direction == Reverse && now == inner.pos
          invariant Scanned(inner.run, sequence, now, first, end, kind)
          invariant kind == Put ==> 0 <= first < |inner.run| && savedKey == Some(inner.run[first].key.user) && savedValue == inner.run[first].value
          decreases now
        {
          var key := inner.Key();
          if key.sequence <= sequence {
            if kind != Deletion && key.user < savedKey.value {
              break;
            }
            PassVisible(inner.run, sequence, now, first, end, kind);
            kind := key.kind;
            if kind == Deletion {
              savedKey, savedValue := None, "";
            } else {
              savedKey, savedValue := Some(key.user), inner.Value();
            }
            first := now;
          } else {
            PassInvisible(inner.run, sequence, now, first, end, kind);
          }
          inner.Prev();
          now := now - 1;
          if !inner.Valid() {
            break;
          }
        }
      }
      EndPrevScan(kind, now, first, end, goal);
    }

    lemma SplitsUpTo(end: int, goal: nat)
      requires -1 <= end && Splits(end + 1, false, goal)
      ensures UpTo(inner.run, sequence, end, goal)
    {
    }

    /** The scan has come to the key before, or past the first entry. */
    method EndPrevScan(kind: Kind, ghost now: int, ghost first: int, ghost end: int, ghost goal: nat)
      requires inner.Ok() && direction == Reverse && goal <= |All()| && now == (if inner.Valid() then inner.pos else -1)
      requires Scanned(inner.run, sequence, now, first, end, kind) && UpTo(inner.run, sequence, end, goal)
      requires kind == Put ==> 0 <= first < |inner.run| && savedKey == Some(inner.run[first].key.user) && savedValue == inner.run[first].value
      requires now == -1 || (kind == Put && inner.run[now].key.user < inner.run[first].key.user)
      modifies this
      ensures Ok() && at == if goal == 0 then |All()| else goal - 1
    {
      hide Sorted, Shown, Scanned, View, Visible;
      LastLive(inner.run, sequence, now, first, end, kind, goal);
      ScannedBounds(inner.run, sequence, now, first, end, kind);
      if kind == Deletion {
        valid, savedKey, savedValue, direction, at := false, None, "", Forward, |All()|;
      } else {
        valid, current, at := true, first, Rank(inner.run, sequence, first);
      }
    }

    method Next()
      requires Ok() && Valid()
      modifies this, inner
      ensures Ok() && at == old(at) + 1
    {
      SplitsAfterCurrent();
      if direction == Reverse {
        direction := Forward;
        if !inner.Valid() {
          inner.SeekToFirst();
        } else {
          inner.Next();
        }
      } else {
        savedKey := Some(inner.Key().user);
      }
      if !inner.Valid() {
        valid, savedKey, at := false, None, |All()|;
      } else {
        FindNextUserEntry(true, at + 1);
      }
    }

    /** The view's entries up to the current one are those whose keys are not past it. */
    lemma SplitsAfterCurrent()
      requires Ok() && Valid()
      ensures at < |All()|
      ensures forall j: nat | j < |inner.run| && Shown(inner.run, sequence, j) ::
        Rank(inner.run, sequence, j) <= at <==> inner.run[j].key.user <= inner.run[current].key.user
    {
      var run := inner.run;
      RankGrows(run, sequence, current, |run|);
      forall j: nat | j < |run| && Shown(run, sequence, j)
        ensures Rank(run, sequence, j) <= at <==> run[j].key.user <= run[current].key.user
      {
        RankOrder(run, sequence, current, j);
        if j <= current {
          UsersAscend(run, j, current);
        } else {
          UsersAscend(run, current, j);
        }
      }
    }

    method Prev()
      requires Ok() && Valid()
      modifies this, inner
      ensures Ok() && at == if old(at) == 0 then |All()| else old(at) - 1
    {
      ghost var goal, c := at, current;
      if direction == Forward {
        savedKey := Some(inner.Key().user);
        while true
          invariant inner.Ok() && inner.Valid() && direction == Forward && inner.pos <= c < |inner.run|
          invariant savedKey == Some(inner.run[c].key.user)
          invariant forall q | inner.pos <= q <= c :: inner.run[q].key.user == inner.run[c].key.user
          decreases inner.pos
        {
          ghost var now: int := inner.pos - 1;
          inner.Prev();
          if !inner.Valid() {
            KeysBefore(inner.run, sequence, c, now);
            valid, savedKey, savedValue, at := false, None, "", |All()|;
            return;
          }
          if inner.Key().user < savedKey.value {
            break;
          }
          UsersAscend(inner.run, inner.pos, c);
        }
        KeysBefore(inner.run, sequence, c, inner.pos);
        direction := Reverse;
      } else {
        KeysBehind();
      }
      FindPrevUserEntry(goal);
    }

    lemma KeysBehind()
      requires Ok() && Valid() && direction == Reverse
      ensures at <= |All()| && Splits(if inner.Valid() then inner.pos + 1 else 0, false, at)
    {
      var run := inner.run;
      RankGrows(run, sequence, current, |run|);
      forall j: nat | j < |run| && Shown(run, sequence, j)
        ensures Rank(run, sequence, j) < at <==> j < if inner.Valid() then inner.pos + 1 else 0
      {
        RankOrder(run, sequence, j, current);
      }
    }

    method SeekTo(target: UserKey)
      requires Ok()
      modifies this, inner
      ensures Ok() && at <= |All()|
      ensures forall i | 0 <= i < |All()| :: i < at <==> All()[i].user < target
    {
      direction, savedValue, savedKey := Forward, "", None;
      inner.SeekTo(LookupKey(target, sequence));
      ghost var goal := Rank(inner.run, sequence, inner.pos);
      GoalOfSeek(target);
      if inner.Valid() {
        FindNextUserEntry(false, goal);
      } else {
        valid, at := false, |All()|;
      }
    }

    lemma GoalOfSeek(target: UserKey)
      requires inner.Ok() && inner.pos == Seek(inner.run, LookupKey(target, sequence))
      ensures inner.Valid() ==> Passed(inner.pos, false, inner.pos)
      ensures Splits(inner.pos, false, Rank(inner.run, sequence, inner.pos))
      ensures forall i | 0 <= i < |All()| :: i < Rank(inner.run, sequence, inner.pos) <==> All()[i].user < target
    {
      var run := inner.run;
      SplitsAt(run, sequence, inner.pos);
      forall i | 0 <= i < |All()| ensures i < Rank(run, sequence, inner.pos) <==> All()[i].user < target {
        var p := ShownAt(run, sequence, |run|, i);
        RankGrows(run, sequence, p, |run|);
        if inner.pos < p {
          UsersAscend(run, inner.pos, p);
        }
      }
    }

    method SeekToFirst()
      requires Ok()
      modifies this, inner
      ensures Ok() && at == 0
    {
      direction, savedValue := Forward, "";
      inner.SeekToFirst();
      if inner.Valid() {
        FindNextUserEntry(false, 0);
      } else {
        valid, at := false, |All()|;
      }
    }

    method SeekToLast()
      requires Ok()
      modifies this, inner
      ensures Ok() && at == if All() == [] then 0 else |All()| - 1
    {
      direction, savedValue := Reverse, "";
      inner.SeekToLast();
      SplitsAt(inner.run, sequence, |inner.run|);
      FindPrevUserEntry(|All()|);
    }
  }
}
