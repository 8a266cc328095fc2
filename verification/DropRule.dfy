/** Which entries a compaction drops, and when dropping them is invisible to readers. */
module DropRule {
  import opened InternalKeys
  import opened Options
  import opened Versions

  // ----- The rule, as a property of the merged input

  /** No file of the levels below the output covers the user key. */
  ghost predicate IsBaseLevel(v: Version, level: nat, user: UserKey) {
    forall lvl, f | level + 2 <= lvl < |v| && f in v[lvl] :: !(f.smallest.user <= user <= f.largest.user)
  }

  /** Rule (A): the previous version of the same user key is already visible to every snapshot. */
  predicate Hidden(run: seq<Entry>, i: nat, snap: nat)
    requires i < |run|
  {
    i > 0 && run[i - 1].key.user == run[i].key.user && run[i - 1].key.sequence <= snap
  }

  predicate FirstOfItsKey(run: seq<Entry>, i: nat)
    requires i < |run|
  {
    i == 0 || run[i - 1].key.user != run[i].key.user
  }

  /** Rule (B): a tombstone visible to every snapshot with nothing below the output. */
  ghost predicate Obsolete(run: seq<Entry>, i: nat, snap: nat, v: Version, level: nat)
    requires i < |run|
  {
    run[i].key.kind.Deletion? && run[i].key.sequence <= snap && IsBaseLevel(v, level, run[i].key.user)
  }

  ghost predicate Dropped(run: seq<Entry>, i: nat, snap: nat, v: Version, level: nat)
    requires i < |run|
  {
    Hidden(run, i, snap) || Obsolete(run, i, snap, v, level)
  }

  /** What the rule keeps of the first n entries. */
  ghost function Survivors(run: seq<Entry>, n: nat, snap: nat, v: Version, level: nat): seq<Entry>
    requires n <= |run|
  {
    if n == 0 then []
    else Survivors(run, n - 1, snap, v, level) + (if Dropped(run, n - 1, snap, v, level) then [] else [run[n - 1]])
  }

  lemma {:induction false} SurvivorsAre(run: seq<Entry>, n: nat, snap: nat, v: Version, level: nat)
    requires n <= |run|
    ensures forall e :: e in Survivors(run, n, snap, v, level) <==> exists i :: 0 <= i < n && run[i] == e && !Dropped(run, i, snap, v, level)
  {
    if n > 0 {
      SurvivorsAre(run, n - 1, snap, v, level);
    }
  }

  ghost function DroppedEntries(run: seq<Entry>, snap: nat, v: Version, level: nat): set<Entry> {
    set i | 0 <= i < |run| && Dropped(run, i, snap, v, level) :: run[i]
  }

  // ----- What a client reads

  /** The value a client sees: tombstones and absence look alike. */
  ghost function ClientRead(E: set<Entry>, k: UserKey, s: nat): (r: Option<string>)
    ensures r.Some? ==> exists e :: Newest(E, k, s, e) && e.key.kind.Put? && r == Some(e.value)
  {
    if exists e :: Newest(E, k, s, e) && e.key.kind.Put?
    then var e :| Newest(E, k, s, e) && e.key.kind.Put?; Some(e.value)
    else None
  }

  lemma ReadOfAnswer(E: set<Entry>, k: UserKey, s: nat, a: Answer)
    requires UniqueSequences(E) && Answers(E, k, s, a)
    ensures ClientRead(E, k, s) == if a.Found? then Some(a.value) else None
  {
  }

  /** A read depends only on the visible entries. */
  lemma ReadOfVisible(A: set<Entry>, B: set<Entry>, k: UserKey, s: nat, t: nat)
    requires UniqueSequences(A) && UniqueSequences(B)
    requires forall e :: (e in A && VisibleAt(e, k, s)) <==> (e in B && VisibleAt(e, k, t))
    ensures ClientRead(A, k, s) == ClientRead(B, k, t)
  {
    assert forall e :: Newest(A, k, s, e) <==> Newest(B, k, t, e);
  }

  lemma NewestExists(E: set<Entry>, k: UserKey, s: nat, x: Entry) returns (n: Entry)
    requires x in E && VisibleAt(x, k, s)
    ensures Newest(E, k, s, n)
    decreases E
  {
    if Newest(E, k, s, x) {
      n := x;
    } else {
      var y :| y in E && VisibleAt(y, k, s) && y.key.sequence > x.key.sequence;
      n := NewestExists(E - {x}, k, s, y);
    }
  }

  // ----- Versions of one user key in a run

  ghost predicate ReadableRun(E: set<Entry>, run: seq<Entry>) {
    Sorted(run) && UniqueSequences(E) && forall e | e in run :: e in E
  }

  lemma OlderVersionsAreHidden(E: set<Entry>, run: seq<Entry>, i: nat, j: nat, snap: nat)
    requires ReadableRun(E, run) && i < j < |run|
    requires run[i].key.user == run[j].key.user && run[i].key.sequence <= snap
    ensures Hidden(run, j, snap)
  {
    assert !Less(run[j - 1].key, run[i].key);
    assert Less(run[j - 1].key, run[j].key);
  }

  lemma HiddenIsNotNewest(E: set<Entry>, run: seq<Entry>, j: nat, k: UserKey, s: nat, snap: nat)
    requires ReadableRun(E, run) && j < |run| && snap <= s
    requires Hidden(run, j, snap)
    ensures !Newest(E, k, s, run[j])
  {
    assert Less(run[j - 1].key, run[j].key);
    assert run[j - 1] in E && run[j] in E;
  }

  lemma RunPosition(E: set<Entry>, run: seq<Entry>, i: nat, j: nat)
    requires ReadableRun(E, run) && i < |run| && j < |run|
    requires run[i].key.user == run[j].key.user && run[i].key.sequence > run[j].key.sequence
    ensures i < j
  {
    var newer, older := run[i].key, run[j].key;
    assert j < i ==> Less(older, newer);
  }

  /** What is left to see of a key once its newest visible version, a tombstone, is dropped. */
  lemma AfterTombstone(E: set<Entry>, run: seq<Entry>, i: nat, s: nat, snap: nat, v: Version, level: nat, e: Entry)
    requires ReadableRun(E, run) && i < |run| && snap <= s
    requires Obsolete(run, i, snap, v, level) && Newest(E, run[i].key.user, s, run[i])
    ensures (e in E - DroppedEntries(run, snap, v, level) && VisibleAt(e, run[i].key.user, s)) <==>
            (e in E - Elements(run) && VisibleAt(e, run[i].key.user, run[i].key.sequence))
  {
    var D := DroppedEntries(run, snap, v, level);
    assert run[i] in D;
    if e in E - D && VisibleAt(e, run[i].key.user, s) && e in run {
      var j :| 0 <= j < |run| && run[j] == e;
      assert e != run[i];
      RunPosition(E, run, i, j);
      assert Hidden(run, j, snap) ==> e in D;
      OlderVersionsAreHidden(E, run, i, j, snap);
    }
  }

  // ----- When dropping is invisible

  /** The tombstone at i is the last word on its key for the oldest snapshot, and the entries that
      stay behind would answer with a value. */
  ghost predicate Resurrects(E: set<Entry>, run: seq<Entry>, i: nat, snap: nat, v: Version, level: nat)
    requires i < |run|
  {
    && Obsolete(run, i, snap, v, level)
    && Newest(E, run[i].key.user, snap, run[i])
    && ClientRead(E - Elements(run), run[i].key.user, run[i].key.sequence).Some?
  }

  ghost predicate ReadsKept(E: set<Entry>, F: set<Entry>, snap: nat) {
    forall k, s | s >= snap :: ClientRead(F, k, s) == ClientRead(E, k, s)
  }

  lemma UniqueSubset(E: set<Entry>, F: set<Entry>)
    requires UniqueSequences(E) && F <= E
    ensures UniqueSequences(F)
  {
  }

  lemma TombstoneRead(E: set<Entry>, run: seq<Entry>, i: nat, s: nat, snap: nat, v: Version, level: nat)
    requires ReadableRun(E, run) && i < |run| && snap <= s
    requires Obsolete(run, i, snap, v, level) && Newest(E, run[i].key.user, s, run[i])
    ensures ClientRead(E, run[i].key.user, s) == None
    ensures ClientRead(E - DroppedEntries(run, snap, v, level), run[i].key.user, s) ==
            ClientRead(E - Elements(run), run[i].key.user, run[i].key.sequence)
  {
    var D := DroppedEntries(run, snap, v, level);
    forall e ensures (e in E - D && VisibleAt(e, run[i].key.user, s)) <==>
                     (e in E - Elements(run) && VisibleAt(e, run[i].key.user, run[i].key.sequence)) {
      AfterTombstone(E, run, i, s, snap, v, level, e);
    }
    UniqueSubset(E, E - D);
    UniqueSubset(E, E - Elements(run));
    ReadOfVisible(E - D, E - Elements(run), run[i].key.user, s, run[i].key.sequence);
  }

  lemma DroppedNewest(E: set<Entry>, run: seq<Entry>, n: Entry, k: UserKey, s: nat, snap: nat, v: Version, level: nat)
    requires ReadableRun(E, run) && snap <= s
    requires forall i | 0 <= i < |run| :: !Resurrects(E, run, i, snap, v, level)
    requires Newest(E, k, s, n) && n in DroppedEntries(run, snap, v, level)
    ensures ClientRead(E - DroppedEntries(run, snap, v, level), k, s) == ClientRead(E, k, s)
  {
    var i :| 0 <= i < |run| && Dropped(run, i, snap, v, level) && run[i] == n;
    if Hidden(run, i, snap) {
      HiddenIsNotNewest(E, run, i, k, s, snap);
    } else {
      TombstoneRead(E, run, i, s, snap, v, level);
      assert Newest(E, k, snap, n);
      assert !Resurrects(E, run, i, snap, v, level);
    }
  }

  lemma SameNewestSameRead(E: set<Entry>, F: set<Entry>, k: UserKey, s: nat, n: Entry)
    requires UniqueSequences(E) && F <= E && Newest(E, k, s, n) && n in F
    ensures ClientRead(F, k, s) == ClientRead(E, k, s)
  {
    UniqueSubset(E, F);
    assert Newest(F, k, s, n);
    assert forall e :: Newest(E, k, s, e) ==> e == n;
    assert forall e :: Newest(F, k, s, e) ==> e == n;
  }

  lemma DroppingKeepsRead(E: set<Entry>, run: seq<Entry>, k: UserKey, s: nat, snap: nat, v: Version, level: nat)
    requires ReadableRun(E, run) && snap <= s
    requires forall i | 0 <= i < |run| :: !Resurrects(E, run, i, snap, v, level)
    ensures ClientRead(E - DroppedEntries(run, snap, v, level), k, s) == ClientRead(E, k, s)
  {
    var D := DroppedEntries(run, snap, v, level);
    if exists x :: x in E && VisibleAt(x, k, s) {
      var x :| x in E && VisibleAt(x, k, s);
      var n := NewestExists(E, k, s, x);
      if n in D {
        DroppedNewest(E, run, n, k, s, snap, v, level);
      } else {
        SameNewestSameRead(E, E - D, k, s, n);
      }
    }
  }

  /** The drop rule is invisible to every reader exactly when no dropped tombstone resurrects a value. */
  lemma DropRuleIsInvisibleIff(E: set<Entry>, run: seq<Entry>, snap: nat, v: Version, level: nat)
    requires ReadableRun(E, run)
    ensures ReadsKept(E, E - DroppedEntries(run, snap, v, level), snap) <==>
            forall i | 0 <= i < |run| :: !Resurrects(E, run, i, snap, v, level)
  {
    var D := DroppedEntries(run, snap, v, level);
    if forall i | 0 <= i < |run| :: !Resurrects(E, run, i, snap, v, level) {
      forall k, s: nat | s >= snap ensures ClientRead(E - D, k, s) == ClientRead(E, k, s) {
        DroppingKeepsRead(E, run, k, s, snap, v, level);
      }
    } else {
      var i :| 0 <= i < |run| && Resurrects(E, run, i, snap, v, level);
      TombstoneRead(E, run, i, snap, snap, v, level);
    }
  }
}
