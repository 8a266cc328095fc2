/** Memtables plus a version, and the history of writes they stand for. */
module Store {
  import opened InternalKeys
  import opened Options
  import opened Versions
  import opened DropRule

  // ----- The history: write number i carries sequence i + 1

  // The engine's view of a write; EngineWrites relates it to the writes on bytes of WriteBatches.
  datatype Op = Op(user: UserKey, kind: Kind, value: string)

  function EntryOf(ops: seq<Op>, i: nat): Entry
    requires i < |ops|
  {
    Entry(InternalKey(ops[i].user, i + 1, ops[i].kind), ops[i].value)
  }

  /** The entries of the writes numbered lo .. hi. */
  ghost function OpsRange(ops: seq<Op>, lo: nat, hi: nat): set<Entry>
    requires lo <= hi <= |ops|
  {
    set i | lo <= i < hi :: EntryOf(ops, i)
  }

  /** What a client must read: the newest write to k among the first s writes. */
  function HistoryRead(ops: seq<Op>, k: UserKey, s: nat): Option<string>
    requires s <= |ops|
  {
    if s == 0 then None
    else if ops[s - 1].user == k then (if ops[s - 1].kind.Put? then Some(ops[s - 1].value) else None)
    else HistoryRead(ops, k, s - 1)
  }

  lemma {:induction false} HistoryIsUnique(ops: seq<Op>, E: set<Entry>)
    requires E <= OpsRange(ops, 0, |ops|)
    ensures UniqueSequences(E)
  {
    forall a, b | a in E && b in E && a.key.sequence == b.key.sequence ensures a == b {
      var i :| 0 <= i < |ops| && a == EntryOf(ops, i);
      var j :| 0 <= j < |ops| && b == EntryOf(ops, j);
    }
  }

  lemma {:induction false} HistoryNewest(ops: seq<Op>, k: UserKey, s: nat)
    requires 0 < s <= |ops| && ops[s - 1].user == k
    ensures Newest(OpsRange(ops, 0, |ops|), k, s, EntryOf(ops, s - 1))
  {
    assert EntryOf(ops, s - 1) in OpsRange(ops, 0, |ops|);
  }

  /** Reading the history by recursion is reading its set of entries. */
  lemma {:induction false} HistoryReadIsClientRead(ops: seq<Op>, k: UserKey, s: nat)
    requires s <= |ops|
    ensures ClientRead(OpsRange(ops, 0, |ops|), k, s) == HistoryRead(ops, k, s)
  {
    hide ClientRead, OpsRange;
    if s == 0 {
      NothingWritten(ops, k);
    } else if ops[s - 1].user == k {
      LastWrite(ops, k, s);
    } else {
      HistoryReadIsClientRead(ops, k, s - 1);
      OtherKeysWrite(ops, k, s);
    }
  }

  lemma {:induction false} NothingWritten(ops: seq<Op>, k: UserKey)
    ensures ClientRead(OpsRange(ops, 0, |ops|), k, 0) == None
  {
    assert forall e | e in OpsRange(ops, 0, |ops|) :: !VisibleAt(e, k, 0);
  }

  lemma {:induction false} LastWrite(ops: seq<Op>, k: UserKey, s: nat)
    requires 0 < s <= |ops| && ops[s - 1].user == k
    ensures ClientRead(OpsRange(ops, 0, |ops|), k, s) == if ops[s - 1].kind.Put? then Some(ops[s - 1].value) else None
  {
    hide OpsRange, ClientRead, UniqueSequences;
    var H := OpsRange(ops, 0, |ops|);
    HistoryIsUnique(ops, H);
    HistoryNewest(ops, k, s);
    var e := EntryOf(ops, s - 1);
    ReadOfAnswer(H, k, s, if e.key.kind.Put? then Found(e.value) else Deleted);
  }

  lemma {:induction false} OtherKeysWrite(ops: seq<Op>, k: UserKey, s: nat)
    requires 0 < s <= |ops| && ops[s - 1].user != k
    ensures ClientRead(OpsRange(ops, 0, |ops|), k, s) == ClientRead(OpsRange(ops, 0, |ops|), k, s - 1)
  {
    hide ClientRead, UniqueSequences;
    var H := OpsRange(ops, 0, |ops|);
    HistoryIsUnique(ops, H);
    forall e ensures (e in H && VisibleAt(e, k, s)) <==> (e in H && VisibleAt(e, k, s - 1)) {
      if e in H && VisibleAt(e, k, s) {
        var i :| 0 <= i < |ops| && e == EntryOf(ops, i);
      }
    }
    ReadOfVisible(H, H, k, s, s - 1);
  }

  // ----- Memtable, immutable memtable, version

  datatype Tables = Tables(mem: seq<Entry>, imm: Option<seq<Entry>>, version: Version)

  function ImmRun(t: Tables): seq<Entry> {
    if t.imm.Some? then t.imm.value else []
  }

  ghost function Contents(t: Tables): set<Entry> {
    Elements(t.mem) + Elements(ImmRun(t)) + VersionEntries(t.version)
  }

  ghost predicate ValidTables(t: Tables) {
    && Sorted(t.mem) && Sorted(ImmRun(t))
    && ValidVersion(t.version)
    && Newer(Elements(t.mem), Elements(ImmRun(t)) + VersionEntries(t.version))
    && Newer(Elements(ImmRun(t)), VersionEntries(t.version))
  }

  /** First the memtable, then the immutable one, then the files. */
  function TablesGet(t: Tables, k: UserKey, s: nat): Option<string>
    requires |t.version| > 0 ==> DistinctNumbers(t.version[0])
  {
    var a := RunGet(t.mem, k, s);
    var b := if a.Missing? && t.imm.Some? then RunGet(t.imm.value, k, s) else a;
    var c := if b.Missing? then VersionGet(t.version, 0, k, s) else b;
    if c.Found? then Some(c.value) else None
  }

  method Get(t: Tables, k: UserKey, s: nat) returns (r: Option<string>)
    requires ValidTables(t)
    ensures r == TablesGet(t, k, s)
  {
    var a := RunGet(t.mem, k, s);
    if !a.Missing? {
      // Done
    } else if t.imm.Some? {
      a := RunGet(t.imm.value, k, s);
    }
    if a.Missing? {
      a := Versions.Get(t.version, k, s);
    }
    r := if a.Found? then Some(a.value) else None;
  }

  /** A layered read is a read of everything stored. */
  lemma {:induction false} TablesGetReadsContents(t: Tables, k: UserKey, s: nat)
    requires ValidTables(t) && UniqueSequences(Contents(t))
    ensures TablesGet(t, k, s) == ClientRead(Contents(t), k, s)
  {
    var M, I, V := Elements(t.mem), Elements(ImmRun(t)), VersionEntries(t.version);
    var a, b, c := RunGet(t.mem, k, s), RunGet(ImmRun(t), k, s), VersionGet(t.version, 0, k, s);
    RunGetFindsNewest(t.mem, k, s);
    RunGetFindsNewest(ImmRun(t), k, s);
    VersionGetFindsNewest(t.version, 0, k, s);
    assert V == EntriesFrom(t.version, 0);
    FirstAnswerWins(I, V, k, s, b, c);
    FirstAnswerWins(M, I + V, k, s, a, if b.Missing? then c else b);
    assert M + (I + V) == Contents(t);
    ReadOfAnswer(Contents(t), k, s, if a.Missing? then (if b.Missing? then c else b) else a);
  }

  /** A reader that captured its tables keeps its answers while newer writes enter its memtable. */
  lemma {:induction false} LaterWritesAreInvisible(t: Tables, mem: seq<Entry>, k: UserKey, s: nat)
    requires ValidTables(t) && ValidTables(t.(mem := mem)) && UniqueSequences(Contents(t.(mem := mem)))
    requires forall e | e in t.mem :: e in mem
    requires forall e | e in mem && e !in t.mem :: e.key.sequence > s
    ensures TablesGet(t.(mem := mem), k, s) == TablesGet(t, k, s)
  {
    var A, B := Contents(t), Contents(t.(mem := mem));
    UniqueSubset(B, A);
    TablesGetReadsContents(t, k, s);
    TablesGetReadsContents(t.(mem := mem), k, s);
    ReadOfVisible(B, A, k, s, s);
  }

  // ----- Inserting into a memtable

  function InsertEntry(run: seq<Entry>, e: Entry): (r: seq<Entry>) {
    var i := Seek(run, e.key);
    run[..i] + [e] + run[i..]
  }

  lemma {:induction false} InsertPosition(run: seq<Entry>, e: Entry, j: nat)
    requires Sorted(run) && (forall x | x in run :: x.key != e.key) && j < |run|
    ensures j < Seek(run, e.key) ==> Less(run[j].key, e.key)
    ensures j >= Seek(run, e.key) ==> Less(e.key, run[j].key)
  {
    var i := Seek(run, e.key);
    assert run[j] in run;
    if i < j {
      assert Less(run[i].key, run[j].key) && run[i] in run;
    }
  }

  lemma {:induction false} InsertKeepsSorted(run: seq<Entry>, e: Entry)
    requires Sorted(run) && forall x | x in run :: x.key != e.key
    ensures Sorted(InsertEntry(run, e))
  {
    hide Seek, Less;
    var i := Seek(run, e.key);
    var r := InsertEntry(run, e);
    forall a, b | 0 <= a < b < |r| ensures Less(r[a].key, r[b].key) {
      if a == i {
        InsertPosition(run, e, b - 1);
      } else if b == i {
        InsertPosition(run, e, a);
      } else {
        var a', b' := if a < i then a else a - 1, if b < i then b else b - 1;
        assert r[a] == run[a'] && r[b] == run[b'];
      }
    }
  }

  lemma {:induction false} InsertAdds(run: seq<Entry>, e: Entry)
    ensures Elements(InsertEntry(run, e)) == Elements(run) + {e}
  {
    var i := Seek(run, e.key);
    assert run == run[..i] + run[i..];
  }

  /** The memtable after inserting the writes numbered lo .. hi, one after the other. */
  function InsertOps(run: seq<Entry>, ops: seq<Op>, lo: nat, hi: nat): seq<Entry>
    requires lo <= hi <= |ops|
    decreases hi
  {
    if lo == hi then run else InsertEntry(InsertOps(run, ops, lo, hi - 1), EntryOf(ops, hi - 1))
  }

  lemma {:induction false} OpsRangeStep(ops: seq<Op>, lo: nat, hi: nat)
    requires lo < hi <= |ops|
    ensures OpsRange(ops, lo, hi) == OpsRange(ops, lo, hi - 1) + {EntryOf(ops, hi - 1)}
    ensures forall e | e in OpsRange(ops, lo, hi - 1) :: e.key.sequence < hi
  {
  }

  lemma {:induction false} InsertOpsInserts(run: seq<Entry>, ops: seq<Op>, lo: nat, hi: nat)
    requires lo <= hi <= |ops| && Sorted(run)
    requires forall e | e in run :: e.key.sequence <= lo
    ensures Sorted(InsertOps(run, ops, lo, hi))
    ensures Elements(InsertOps(run, ops, lo, hi)) == Elements(run) + OpsRange(ops, lo, hi)
    decreases hi
  {
    if lo < hi {
      InsertOpsInserts(run, ops, lo, hi - 1);
      OpsRangeStep(ops, lo, hi);
      var mid, e := InsertOps(run, ops, lo, hi - 1), EntryOf(ops, hi - 1);
      forall x | x in mid ensures x.key != e.key {
        assert x in Elements(mid);
      }
      InsertKeepsSorted(mid, e);
      InsertAdds(mid, e);
    }
  }
}
