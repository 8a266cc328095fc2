/** Opening a database after a crash: replaying the logs into tables. */
module Reopen {
  import opened InternalKeys
  import opened Versions
  import opened Compactions
  import opened CompactionInstalls
  import opened Store
  import opened Machine
  import opened Recovery
  import opened Outputs

  lemma {:induction false} ConcatAppend(a: seq<seq<Entry>>, b: seq<seq<Entry>>)
    ensures Concat(a + b) == Concat(a) + Concat(b)
  {
    if b == [] {
      assert a + b == a;
      assert Concat(a) + [] == Concat(a);
    } else {
      var last := |b| - 1;
      assert (a + b)[..|a + b| - 1] == a + b[..last] && (a + b)[|a + b| - 1] == b[last];
      ConcatAppend(a, b[..last]);
      assert (Concat(a) + Concat(b[..last])) + b[last] == Concat(a) + (Concat(b[..last]) + b[last]);
    }
  }

  lemma {:induction false} ConcatOne(pieces: seq<seq<Entry>>, piece: seq<Entry>)
    ensures Concat(pieces + [piece]) == Concat(pieces) + piece
  {
    assert (pieces + [piece])[..|pieces|] == pieces;
  }

  /** Tables written from pieces, numbered upwards from `first`. */
  ghost predicate PiecesWritten(pieces: seq<seq<Entry>>, outs: Level, first: nat) {
    && |outs| == |pieces| && NumberedFrom(outs, first)
    && forall i | 0 <= i < |outs| :: WrittenFrom(pieces[i], outs[i])
  }

  /** A memtable holds the entries of `pending`, which come from a log. */
  ghost predicate Holds(mem: seq<Entry>, pending: seq<Entry>) {
    Sorted(mem) && Elements(mem) == Elements(pending)
  }

  lemma {:induction false} HoldsOneMore(mem: seq<Entry>, pending: seq<Entry>, e: Entry)
    requires Holds(mem, pending) && forall x | x in pending :: x.key.sequence < e.key.sequence
    ensures Holds(InsertEntry(mem, e), pending + [e])
  {
    forall x | x in mem ensures x.key != e.key {
      assert x in Elements(mem);
    }
    InsertKeepsSorted(mem, e);
    InsertAdds(mem, e);
    assert Elements(pending + [e]) == Elements(pending) + {e};
  }

  /** Writes a non-empty memtable as the next level-0 table. */
  method WriteTable(ghost pieces: seq<seq<Entry>>, outs: Level, first: nat, mem: seq<Entry>, ghost pending: seq<Entry>) returns (r: Level)
    requires PiecesWritten(pieces, outs, first) && Holds(mem, pending) && pending != [] && Below(Elements(pending), MAX_SEQUENCE)
    ensures PiecesWritten(pieces + [pending], r, first) && |r| == |outs| + 1
  {
    assert pending[0] in Elements(mem);
    var f := BuildTable(first + |outs|, mem);
    r := outs + [f];
  }

  /**
   * Replays one log. Whenever the memtable is full it is written out; the last memtable of the last
   * log may stay in use if none was.
   */
  method RecoverLogFile(entries: seq<Entry>, mayKeep: bool, first: nat)
    returns (ghost pieces: seq<seq<Entry>>, outs: Level, mem: seq<Entry>, ghost kept: seq<Entry>, reused: bool)
    requires AscendingSequences(entries) && Below(Elements(entries), MAX_SEQUENCE)
    ensures PiecesWritten(pieces, outs, first) && AllNonEmpty(pieces)
    ensures reused ==> mayKeep && outs == []
    ensures kept == if reused then entries else []
    ensures Replayed(entries, pieces, kept, mem)
  {
    hide Concat, InsertEntry, Sorted, AscendingSequences, PiecesWritten, Holds;
    pieces, outs, mem, kept, reused := [], [], [], [], false;
    ghost var pending: seq<Entry> := [];
    NothingYet(first);
    for i := 0 to |entries|
      invariant PiecesWritten(pieces, outs, first) && AllNonEmpty(pieces) && |outs| == |pieces|
      invariant Holds(mem, pending) && Concat(pieces) + pending == entries[..i]
    {
      PendingIsLast(pieces, pending, entries, i);
      HoldsOneMore(mem, pending, entries[i]);
      mem, pending := InsertEntry(mem, entries[i]), pending + [entries[i]];
      assert entries[..i + 1] == entries[..i] + [entries[i]];
      if * {
        outs := WriteTable(pieces, outs, first, mem, pending);
        ConcatOne(pieces, pending);
        NothingYet(first);
        pieces, mem, pending := pieces + [pending], [], [];
        assert Concat(pieces) + pending == entries[..i + 1];
      }
    }
    assert entries[..|entries|] == entries;
    HoldsNothing(mem, pending);
    NothingYet(first);
    reused := *;
    reused := reused && mayKeep && outs == [];
    if reused {
      kept := entries;
    } else if mem != [] {
      outs := WriteTable(pieces, outs, first, mem, pending);
      ConcatOne(pieces, pending);
      pieces, mem := pieces + [pending], [];
    }
    assert Concat(pieces) + kept == entries;
  }

  lemma {:induction false} NothingYet(first: nat)
    ensures PiecesWritten([], [], first) && Holds([], []) && Concat([]) == []
  {
  }

  lemma {:induction false} HoldsNothing(mem: seq<Entry>, pending: seq<Entry>)
    requires Holds(mem, pending)
    ensures mem == [] <==> pending == []
  {
    if pending != [] {
      assert pending[0] in Elements(mem);
    }
    if mem != [] {
      assert mem[0] in Elements(pending);
    }
  }

  lemma {:induction false} PendingIsLast(pieces: seq<seq<Entry>>, pending: seq<Entry>, entries: seq<Entry>, i: nat)
    requires AscendingSequences(entries) && i < |entries| && Concat(pieces) + pending == entries[..i]
    requires Below(Elements(entries), MAX_SEQUENCE)
    ensures forall x | x in pending :: x.key.sequence < entries[i].key.sequence
    ensures Below(Elements(pending + [entries[i]]), MAX_SEQUENCE)
  {
    var done := Concat(pieces);
    forall x | x in pending ensures x.key.sequence < entries[i].key.sequence && x in entries {
      var j :| 0 <= j < |pending| && pending[j] == x;
      assert entries[..i][|done| + j] == x;
    }
    forall x | x in Elements(pending + [entries[i]]) ensures x.key.sequence < MAX_SEQUENCE {
      assert x in Elements(entries);
    }
  }

  lemma {:induction false} ReplayPart(logs: seq<LogFile>, min: nat, i: nat)
    requires i < |logs| && logs[i].number >= min
    requires AscendingSequences(Replay(logs, min)) && Below(Elements(Replay(logs, min)), MAX_SEQUENCE)
    ensures AscendingSequences(logs[i].entries) && Below(Elements(logs[i].entries), MAX_SEQUENCE)
  {
    var last := |logs| - 1;
    var front, all := Replay(logs[..last], min), Replay(logs, min);
    var back := if logs[last].number >= min then logs[last].entries else [];
    assert all == front + back;
    if i == last {
      forall x, y | 0 <= x < y < |back| ensures back[x].key.sequence < back[y].key.sequence {
        assert all[|front| + x] == back[x] && all[|front| + y] == back[y];
      }
      forall e | e in Elements(back) ensures e.key.sequence < MAX_SEQUENCE {
        assert e in Elements(all);
      }
    } else {
      forall x, y | 0 <= x < y < |front| ensures front[x].key.sequence < front[y].key.sequence {
        assert all[x] == front[x] && all[y] == front[y];
      }
      forall e | e in Elements(front) ensures e.key.sequence < MAX_SEQUENCE {
        assert e in Elements(all);
      }
      ReplayPart(logs[..last], min, i);
    }
  }

  lemma {:induction false} MoreFiles(chunks: seq<seq<Entry>>, outs: Level, lo: nat, next: nat,
                                     pieces: seq<seq<Entry>>, files: Level, hi: nat)
    requires RecoveredFiles(chunks, outs, lo, next) && lo < next && PiecesWritten(pieces, files, next) && next + |files| <= hi
    requires AllNonEmpty(chunks) && AllNonEmpty(pieces)
    ensures RecoveredFiles(chunks + pieces, outs + files, lo, hi) && AllNonEmpty(chunks + pieces)
  {
    var all := outs + files;
    forall i | 0 <= i < |all| ensures WrittenFrom((chunks + pieces)[i], all[i]) && lo < all[i].number < hi {
      if i >= |outs| {
        assert files[i - |outs|].number == next + (i - |outs|);
      }
    }
    forall i, j | 0 <= i < j < |all| ensures all[i].number < all[j].number {
      if j >= |outs| {
        assert files[j - |outs|].number == next + (j - |outs|);
        if i >= |outs| {
          assert files[i - |outs|].number == next + (i - |outs|);
        }
      }
    }
  }

  /** All logs that still matter have been given up their numbers. */
  ghost predicate NumbersUsed(logs: seq<LogFile>, min: nat, next: nat) {
    forall i | 0 <= i < |logs| && logs[i].number >= min :: logs[i].number < next
  }

  lemma {:induction false} ReplayStep(logs: seq<LogFile>, min: nat, i: nat)
    requires i < |logs|
    ensures Replay(logs[..i + 1], min) == Replay(logs[..i], min) + (if logs[i].number >= min then logs[i].entries else [])
  {
    assert logs[..i + 1][..i] == logs[..i] && logs[..i + 1][i] == logs[i];
  }

  /** The chunks and the kept memtable make up what has been replayed. */
  ghost predicate Replayed(all: seq<Entry>, chunks: seq<seq<Entry>>, kept: seq<Entry>, mem: seq<Entry>) {
    Holds(mem, kept) && Concat(chunks) + kept == all
  }

  lemma {:induction false} ReplayedMore(all: seq<Entry>, chunks: seq<seq<Entry>>, entries: seq<Entry>,
                                        pieces: seq<seq<Entry>>, kept: seq<Entry>, mem: seq<Entry>)
    requires Concat(chunks) == all && Replayed(entries, pieces, kept, mem)
    ensures Replayed(all + entries, chunks + pieces, kept, mem)
  {
    ConcatAppend(chunks, pieces);
    assert (all + Concat(pieces)) + kept == all + (Concat(pieces) + kept);
  }

  lemma {:induction false} NoneKept(all: seq<Entry>, chunks: seq<seq<Entry>>, mem: seq<Entry>)
    requires Replayed(all, chunks, [], mem)
    ensures Concat(chunks) == all
  {
    assert Concat(chunks) + [] == Concat(chunks);
  }

  lemma {:induction false} NumbersUsedMore(logs: seq<LogFile>, min: nat, i: nat, next: nat, hi: nat)
    requires i < |logs| && NumbersUsed(logs[..i], min, next) && next <= hi
    requires logs[i].number >= min ==> logs[i].number < hi
    ensures NumbersUsed(logs[..i + 1], min, hi)
  {
  }

  /** Replays the logs numbered `min` or higher in order, marking their numbers as used. */
  method RecoverLogs(logs: seq<LogFile>, min: nat, reuseLogs: bool, lo: nat)
    returns (ghost chunks: seq<seq<Entry>>, outs: Level, mem: seq<Entry>, ghost kept: seq<Entry>, reused: bool, next: nat)
    requires logs != [] && logs[|logs| - 1].number >= min
    requires AscendingSequences(Replay(logs, min)) && Below(Elements(Replay(logs, min)), MAX_SEQUENCE)
    ensures lo < next && RecoveredFiles(chunks, outs, lo, next) && AllNonEmpty(chunks)
    ensures NumbersUsed(logs, min, next)
    ensures kept == if reused then logs[|logs| - 1].entries else []
    ensures Replayed(Replay(logs, min), chunks, kept, mem)
  {
    hide Replayed, RecoveredFiles, AscendingSequences, NumbersUsed, Replay, PiecesWritten;
    chunks, outs, mem, kept, reused, next := [], [], [], [], false, lo + 1;
    NothingReplayed(logs, min, lo);
    for i := 0 to |logs|
      invariant lo < next && RecoveredFiles(chunks, outs, lo, next) && AllNonEmpty(chunks)
      invariant NumbersUsed(logs[..i], min, next)
      invariant reused ==> i == |logs|
      invariant kept == if reused then logs[|logs| - 1].entries else []
      invariant Replayed(Replay(logs[..i], min), chunks, kept, mem)
    {
      ReplayStep(logs, min, i);
      if logs[i].number >= min {
        ghost var pieces;
        var files;
        ReplayPart(logs, min, i);
        NoneKept(Replay(logs[..i], min), chunks, mem);
        pieces, files, mem, kept, reused := RecoverLogFile(logs[i].entries, reuseLogs && i + 1 == |logs|, next);
        var hi := Max(next + |files|, logs[i].number + 1);
        MoreFiles(chunks, outs, lo, next, pieces, files, hi);
        ReplayedMore(Replay(logs[..i], min), chunks, logs[i].entries, pieces, kept, mem);
        NumbersUsedMore(logs, min, i, next, hi);
        chunks, outs, next := chunks + pieces, outs + files, hi;
      } else {
        assert Replay(logs[..i + 1], min) == Replay(logs[..i], min);
        NumbersUsedMore(logs, min, i, next, next);
      }
    }
    assert logs[..|logs|] == logs;
  }

  lemma {:induction false} NothingReplayed(logs: seq<LogFile>, min: nat, lo: nat)
    ensures RecoveredFiles([], [], lo, lo + 1) && NumbersUsed(logs[..0], min, lo + 1)
    ensures Replayed(Replay(logs[..0], min), [], [], [])
  {
  }
}
