/** Internal keys (user key, sequence, kind) and the runs of entries ordered by them. */
module InternalKeys {
  const MAX_SEQUENCE: nat := 0xFF_FFFF_FFFF_FFFF

  // The engine touches user keys through its comparator only; any finite set of keys of a total
  // order embeds into the integers.
  type UserKey = int

  datatype Kind = Deletion | Put

  datatype InternalKey = InternalKey(user: UserKey, sequence: nat, kind: Kind)
  {
    // The 64-bit trailer: sequence in the high 56 bits, kind in the low 8.
    function Tag(): nat {
      sequence * 256 + (if kind.Put? then 1 else 0)
    }
  }

  datatype Entry = Entry(key: InternalKey, value: string)

  /** Internal key order: user key ascending, then trailer descending. */
  predicate Less(a: InternalKey, b: InternalKey) {
    a.user < b.user || (a.user == b.user && a.Tag() > b.Tag())
  }

  /** The smallest internal key at which a version visible at `s` can sit. */
  function LookupKey(k: UserKey, s: nat): InternalKey {
    InternalKey(k, s, Put)
  }

  lemma LessIsStrictTotalOrder(a: InternalKey, b: InternalKey, c: InternalKey)
    ensures !Less(a, a)
    ensures Less(a, b) && Less(b, c) ==> Less(a, c)
    ensures a != b <==> Less(a, b) || Less(b, a)
    ensures !(Less(a, b) && Less(b, a))
  {
  }

  lemma LookupKeySplitsVersions(k: UserKey, s: nat, e: InternalKey)
    requires e.user == k
    ensures Less(e, LookupKey(k, s)) <==> e.sequence > s
  {
  }

  ghost predicate Sorted(run: seq<Entry>) {
    forall i, j | 0 <= i < j < |run| :: Less(run[i].key, run[j].key)
  }

  ghost function Elements(run: seq<Entry>): set<Entry> {
    set e | e in run
  }

  /** Index of the first entry of the run whose key is not before `t`. */
  function Seek(run: seq<Entry>, t: InternalKey): (r: nat)
    ensures r <= |run|
    ensures forall i | 0 <= i < r :: Less(run[i].key, t)
    ensures r < |run| ==> !Less(run[r].key, t)
  {
    if run == [] || !Less(run[0].key, t) then 0 else 1 + Seek(run[1..], t)
  }

  /** What one source says about a key: nothing, a tombstone, or a value. */
  datatype Answer = Missing | Deleted | Found(value: string)

  /** Point lookup in one run: seek to (k, s) and check the user key. */
  function RunGet(run: seq<Entry>, k: UserKey, s: nat): Answer {
    var i := Seek(run, LookupKey(k, s));
    if i < |run| && run[i].key.user == k
    then (if run[i].key.kind.Put? then Found(run[i].value) else Deleted)
    else Missing
  }

  // ----- The meaning of a lookup, independent of any layout

  ghost predicate VisibleAt(e: Entry, k: UserKey, s: nat) {
    e.key.user == k && e.key.sequence <= s
  }

  ghost predicate Newest(E: set<Entry>, k: UserKey, s: nat, e: Entry) {
    && e in E && VisibleAt(e, k, s)
    && forall x | x in E && VisibleAt(x, k, s) :: x.key.sequence <= e.key.sequence
  }

  ghost predicate Answers(E: set<Entry>, k: UserKey, s: nat, a: Answer) {
    match a
    case Missing => forall x | x in E :: !VisibleAt(x, k, s)
    case Deleted => exists e :: Newest(E, k, s, e) && e.key.kind.Deletion?
    case Found(v) => exists e :: Newest(E, k, s, e) && e.key.kind.Put? && e.value == v
  }

  ghost predicate UniqueSequences(E: set<Entry>) {
    forall a, b | a in E && b in E && a.key.sequence == b.key.sequence :: a == b
  }

  /** Every entry of A is a later version than every entry of B with the same user key. */
  ghost predicate Newer(A: set<Entry>, B: set<Entry>) {
    forall a, b | a in A && b in B && a.key.user == b.key.user :: a.key.sequence > b.key.sequence
  }

  lemma AnswerIsUnique(E: set<Entry>, k: UserKey, s: nat, a: Answer, b: Answer)
    requires UniqueSequences(E) && Answers(E, k, s, a) && Answers(E, k, s, b)
    ensures a == b
  {
  }

  lemma RunGetFindsNewest(run: seq<Entry>, k: UserKey, s: nat)
    requires Sorted(run)
    ensures Answers(Elements(run), k, s, RunGet(run, k, s))
  {
    var i := Seek(run, LookupKey(k, s));
    if i < |run| && run[i].key.user == k {
      var e := run[i];
      forall x | x in Elements(run) && VisibleAt(x, k, s) ensures x.key.sequence <= e.key.sequence {
        var j :| 0 <= j < |run| && run[j] == x;
        assert j >= i;
      }
      assert Newest(Elements(run), k, s, e);
    }
  }

  /** Searching newer data first and older data only when that says nothing. */
  lemma FirstAnswerWins(A: set<Entry>, B: set<Entry>, k: UserKey, s: nat, a: Answer, b: Answer)
    requires Newer(A, B) && Answers(A, k, s, a) && Answers(B, k, s, b)
    ensures Answers(A + B, k, s, if a.Missing? then b else a)
  {
    if a.Missing? {
      if b.Missing? {
      } else {
        var e :| Newest(B, k, s, e) && (b.Deleted? ==> e.key.kind.Deletion?) && (b.Found? ==> e.key.kind.Put? && e.value == b.value);
        assert Newest(A + B, k, s, e);
      }
    } else {
      var e :| Newest(A, k, s, e) && (a.Deleted? ==> e.key.kind.Deletion?) && (a.Found? ==> e.key.kind.Put? && e.value == a.value);
      assert Newest(A + B, k, s, e);
    }
  }
}
