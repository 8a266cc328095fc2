/** The write path of the database object: queue, group, log, memtable. */
module GroupCommit {
  import opened Coding
  import opened Options
  import opened Varints
  import opened WriteBatches
  import opened WriteQueue
  import opened WriteQueueSteps

  class Writer {
    const batch: WriteBatch?
    const sync: bool
    var done: bool
    var status: Outcome

    constructor (batch: WriteBatch?, sync: bool)
      ensures this.batch == batch && this.sync == sync && !done
    {
      this.batch, this.sync, done, status := batch, sync, false, NoRoom;
    }
  }

  ghost function RequestOf(w: Writer): Request
    reads w.batch
  {
    Request(if w.batch == null then None else Some(w.batch.ops), w.sync)
  }

  /** The queue holds the requests, and their batches have not been touched since. */
  ghost predicate Queued(writers: seq<Writer>, requests: seq<Request>, tmp: WriteBatch)
    reads set w | w in writers && w.batch != null :: w.batch
  {
    && |writers| == |requests|
    && (forall i, j | 0 <= i < j < |writers| :: writers[i] != writers[j])
    && forall i | 0 <= i < |writers| :: writers[i].batch != tmp && InQueue(writers[i], requests[i])
  }

  ghost predicate InQueue(w: Writer, r: Request)
    reads w.batch
  {
    RequestOf(w) == r && (w.batch != null ==> w.batch.Valid())
  }

  lemma {:induction false} QueuedIs(w: Writer, r: Request)
    requires InQueue(w, r)
    ensures r.sync == w.sync && (w.batch == null <==> r.batch.None?)
    ensures w.batch != null ==> w.batch.Valid() && r.batch.value == w.batch.ops
  {
  }

  lemma {:induction false} QueuedMore(writers: seq<Writer>, requests: seq<Request>, tmp: WriteBatch, w: Writer)
    requires Queued(writers, requests, tmp) && w !in writers && w.batch != tmp && (w.batch != null ==> w.batch.Valid())
    ensures Queued(writers + [w], requests + [RequestOf(w)], tmp)
  {
    hide WriteBatch.Valid;
  }

  /** Each writer as its request says, field by field. */
  ghost predicate Matches(w: Writer, r: Request)
    reads w.batch
  {
    && r.sync == w.sync && (w.batch == null <==> r.batch.None?)
    && (w.batch != null ==> w.batch.Valid() && r.batch.value == w.batch.ops)
  }

  lemma {:induction false} QueuedIfMatches(writers: seq<Writer>, requests: seq<Request>, tmp: WriteBatch)
    requires |writers| == |requests| && (forall i, j | 0 <= i < j < |writers| :: writers[i] != writers[j])
    requires forall i | 0 <= i < |writers| :: writers[i].batch != tmp && Matches(writers[i], requests[i])
    ensures Queued(writers, requests, tmp)
  {
    hide WriteBatch.Valid;
    assert forall i | 0 <= i < |writers| :: Matches(writers[i], requests[i]) ==> InQueue(writers[i], requests[i]);
  }

  lemma {:induction false} SameLength(writers: seq<Writer>, requests: seq<Request>, tmp: WriteBatch)
    requires Queued(writers, requests, tmp)
    ensures |writers| == |requests|
  {
  }

  lemma {:induction false} AllMatch(writers: seq<Writer>, requests: seq<Request>, tmp: WriteBatch)
    requires Queued(writers, requests, tmp)
    ensures |writers| == |requests| && (forall i, j | 0 <= i < j < |writers| :: writers[i] != writers[j])
    ensures forall i | 0 <= i < |writers| :: writers[i].batch != tmp && Matches(writers[i], requests[i])
  {
    hide WriteBatch.Valid;
    forall i | 0 <= i < |writers| ensures Matches(writers[i], requests[i]) {
      QueuedIs(writers[i], requests[i]);
    }
  }

  // ----- The group in terms of its size so far

  lemma {:induction false} BulkSnoc(rs: seq<Request>, r: Request)
    ensures Bulk(rs + [r]) == Bulk(rs) + (if r.batch.Some? then ByteSize(r.batch.value) else 0)
  {
    hide ByteSize;
    if rs == [] {
      assert rs + [r] == [r] && [r][1..] == [];
    } else {
      assert (rs + [r])[1..] == rs[1..] + [r] && (rs + [r])[0] == rs[0];
      BulkSnoc(rs[1..], r);
    }
  }

  /** The first i requests are in the group; whether more follow depends on the rest alone. */
  ghost predicate GroupSoFar(queue: seq<Request>, i: nat, size: nat, max: nat)
    requires CanLead(queue)
  {
    && 1 <= i <= |queue| && size == Bulk(queue[..i]) && max == MaxSize(ByteSize(queue[0].batch.value))
    && GroupSize(queue) == i + Joining(queue[i..], queue[0].sync, size, max)
  }

  lemma {:induction false} LeaderAlone(queue: seq<Request>)
    requires CanLead(queue)
    ensures var size := ByteSize(queue[0].batch.value); GroupSoFar(queue, 1, size, MaxSize(size))
    ensures OpsOf(queue[..1]) == queue[0].batch.value
  {
    hide ByteSize, Joining;
    BulkSnoc([], queue[0]);
    assert queue[..1] == [] + [queue[0]];
    OpsOfSingle(queue[0]);
    assert [] + [queue[0]] == [queue[0]];
  }

  lemma {:induction false} OneMoreJoins(queue: seq<Request>, i: nat, size: nat, max: nat)
    requires CanLead(queue) && GroupSoFar(queue, i, size, max)
    ensures i == |queue| ==> GroupSize(queue) == i
    ensures i < |queue| ==>
      var r := queue[i];
      var size' := size + (if r.batch.Some? then ByteSize(r.batch.value) else 0);
      && OpsOf(queue[..i + 1]) == OpsOf(queue[..i]) + OpsOfOne(r)
      && if (r.sync && !queue[0].sync) || (r.batch.Some? && size' > max) then GroupSize(queue) == i
         else GroupSoFar(queue, i + 1, size', max)
  {
    hide ByteSize, OpsOf, GroupSize, Bulk;
    if i < |queue| {
      assert queue[i..][0] == queue[i] && queue[i..][1..] == queue[i + 1..];
      assert queue[..i + 1] == queue[..i] + [queue[i]];
      OpsOfSnoc(queue[..i], queue[i]);
      BulkSnoc(queue[..i], queue[i]);
    } else {
      assert queue[i..] == [];
    }
  }

  /** A group within the size limit has fewer writes than a count can hold. */
  lemma {:induction false} FewEnough(queue: seq<Request>, i: nat, size: nat, max: nat)
    requires CanLead(queue) && GroupSoFar(queue, i, size, max) && size <= max && forall r | r in queue :: ValidRequest(r)
    ensures |OpsOf(queue[..i])| < MAX_COUNT
  {
    hide ByteSize, OpsOf, GroupSize, Bulk, Joining, ValidRequest;
    assert forall r | r in queue[..i] :: r in queue;
    CountWithinBulk(queue[..i]);
  }

  lemma {:induction false} BatchBytes(b: WriteBatch)
    requires b.Valid()
    ensures |b.rep| == ByteSize(b.ops)
  {
    hide Records;
  }

  class CommitQueue {
    var writers: seq<Writer>
    var tmpBatch: WriteBatch
    var lastSequence: nat
    var mem: seq<Stamped>
    var log: seq<Bytes>
    var fileStart: nat
    var durable: set<nat>
    var broken: bool
    var phase: Phase
    var updates: WriteBatch?       // the batch that the leader works on

    ghost var arrivals: seq<Request>
    ghost var told: seq<Outcome>
    ghost var unsure: seq<Stamped>

    ghost function View(): State
      reads this
    {
      State(arrivals, told, lastSequence, mem, log, fileStart, durable, unsure, broken, phase)
    }

    ghost function Batches(): set<object>
      reads this`writers
    {
      set w | w in writers && w.batch != null :: w.batch
    }

    ghost predicate Ok()
      reads this, tmpBatch, Batches()
    {
      && Inv(View()) && Queued(writers, Queue(View()), tmpBatch) && tmpBatch.Valid()
      && (phase.Idle? || updates != tmpBatch ==> tmpBatch.ops == [])
      && (!phase.Idle? ==> Prepared())
    }

    /** The batch at work is the group's, stamped with the next sequence. */
    ghost predicate Prepared()
      reads this, tmpBatch, Batches()
    {
      && updates != null && writers != [] && (updates == tmpBatch || updates == writers[0].batch)
      && updates.Valid() && updates.ops == OpsOf(Group(View())) && updates.sequence == lastSequence + 1
    }

    constructor ()
      ensures Ok() && Initial(View()) && fresh(tmpBatch)
    {
      writers, lastSequence, mem, log, fileStart, durable, broken, phase, updates := [], 0, [], [], 0, {}, false, Idle, null;
      arrivals, told, unsure := [], [], [];
      tmpBatch := new WriteBatch();
      new;
      InitialInv(View());
    }

    /** A writer joins the queue, whatever the leader is doing. */
    method Join(w: Writer)
      requires Ok() && w !in writers && w.batch != tmpBatch
      requires w.batch != null ==> w.batch.Valid()
      modifies this`writers, this`arrivals
      ensures Ok() && Step(old(View()), Event.Join(RequestOf(w)), View()) && writers == old(writers) + [w]
    {
      hide Inv, OpsOf, Rep, Storable, Records, PhaseOk, Queued;
      ghost var was := View();
      ValidQueue(was);
      writers := writers + [w];
      arrivals := arrivals + [RequestOf(w)];
      JoinedQueue(was, RequestOf(w));
      QueuedMore(old(writers), Queue(was), tmpBatch, w);
      assert w.batch != null ==> Storable(w.batch.ops) && |w.batch.ops| < MAX_COUNT;
      JoinKeepsInv(was, RequestOf(w));
    }

    /** The second batch moves the group to the temporary batch, so that the caller's is left alone. */
    method AppendToGroup(result: WriteBatch, first: WriteBatch, next: WriteBatch)
      requires result.Valid() && first.Valid() && next.Valid() && tmpBatch.Valid() && tmpBatch != first && tmpBatch != next
      requires result == tmpBatch || (result == first && tmpBatch.ops == [])
      requires |result.ops| + |next.ops| < MAX_COUNT
      modifies tmpBatch
      ensures tmpBatch.Valid() && tmpBatch.ops == old(result.ops) + next.ops
    {
      hide Rep, Storable;
      StorableTogether(result.ops, next.ops);
      if result == first {
        tmpBatch.Append(first);
        assert [] + first.ops == first.ops;
      }
      tmpBatch.Append(next);
    }

    lemma StorableTogether(a: seq<Op>, b: seq<Op>)
      requires Storable(a) && Storable(b)
      ensures Storable(a + b)
    {
    }

    /** Puts the front writer's batch together with those that may and can join it. */
    method BuildBatchGroup() returns (result: WriteBatch, count: nat)
      requires Ok() && phase.Idle? && writers != [] && writers[0].batch != null
      modifies tmpBatch
      ensures CanLead(Queue(View())) && count == GroupSize(Queue(View())) && IsGroup(Queue(View()), count)
      ensures result.Valid() && tmpBatch.Valid() && (result == tmpBatch || (result == writers[0].batch && tmpBatch.ops == []))
      ensures result.ops == OpsOf(Queue(View())[..count])
    {
      hide Inv, IsGroup, OpsOf, Rep, Storable, GroupSoFar, ByteSize, GroupSize, InQueue, Prepared, WriteBatch.Valid, ValidRequest;
      ValidQueue(View());
      ghost var queue := Queue(View());
      var first := writers[0];
      QueuedIs(first, queue[0]);
      GroupSizeIsGroup(queue);
      result := first.batch;
      BatchBytes(result);
      var size: nat := |result.rep|;
      var max := if size <= SMALL_WRITE then size + SMALL_WRITE else MAX_GROUP;
      LeaderAlone(queue);
      count := 1;
      var i := 1;
      while i < |writers|
        invariant 1 <= i <= |writers| == |queue| && count == i && GroupSoFar(queue, i, size, max)
        invariant result.Valid() && tmpBatch.Valid() && result.ops == OpsOf(queue[..i])
        invariant result == tmpBatch || (result == first.batch && tmpBatch.ops == [])
        invariant Queued(writers, queue, tmpBatch)
      {
        var w := writers[i];
        QueuedIs(w, queue[i]);
        OneMoreJoins(queue, i, size, max);
        if w.sync && !first.sync {
          return;
        }
        if w.batch != null {
          BatchBytes(w.batch);
          size := size + |w.batch.rep|;
          if size > max {
            return;
          }
          FewEnough(queue, i + 1, size, max);
          AppendToGroup(result, first.batch, w.batch);
          result := tmpBatch;
        } else {
          assert OpsOf(queue[..i]) + [] == OpsOf(queue[..i]);
        }
        count := i + 1;
        i := i + 1;
      }
      OneMoreJoins(queue, i, size, max);
    }

    /** The front writer builds its group and stamps it with the next sequence. */
    method Lead()
      requires Ok() && phase.Idle? && writers != [] && writers[0].batch != null && !broken
      requires CanLead(Queue(View())) ==> Enabled(View(), Event.Lead)
      modifies this`phase, this`updates, tmpBatch, writers[0].batch
      ensures Ok() && Step(old(View()), Event.Lead, View())
    {
      hide Inv, OpsOf, Rep, Storable, Records, PhaseOk, Queued, GroupSize, InQueue;
      ghost var was := View();
      ValidQueue(was);
      AllMatch(writers, Queue(was), tmpBatch);
      var result, count := BuildBatchGroup();
      ghost var requests := Queue(was);
      LeadFits(was);
      result.SetSequence(lastSequence + 1);
      QueuedIfMatches(writers, requests, tmpBatch);
      updates := result;
      phase := Logging(count);
      LeadKeepsInv(was);
    }

    /** The group goes to the log as one record. */
    method LogGroup(ok: bool)
      requires Ok() && phase.Logging?
      modifies this`log, this`phase
      ensures Ok() && Step(old(View()), LogRecord(ok), View())
    {
      hide Inv, OpsOf, Records, Queued, Storable, Rep;
      ghost var was := View();
      ValidQueue(was);
      LeaderSync(was, writers, tmpBatch);
      if ok {
        var record := |log|;
        log := log + [updates.rep];
        phase := if writers[0].sync then Syncing(phase.count, record) else Inserting(phase.count, record, 0);
      } else {
        phase := Finishing(phase.count, Failed, false);
      }
      LogKeepsInv(was, ok);
    }

    method SyncGroup(ok: bool)
      requires Ok() && phase.Syncing?
      modifies this`durable, this`phase
      ensures Ok() && Step(old(View()), SyncLog(ok), View())
    {
      hide Inv, OpsOf, Records, Queued, Storable, Rep, GroupStamps, FileRecords, PhaseOk, ValidGroup, RecordOk, Consumed, Applied;
      ghost var was := View();
      ValidQueue(was);
      if ok {
        durable := durable + FileRecords(fileStart, |log|);
        phase := Inserting(phase.count, phase.record, 0);
      } else {
        phase := Finishing(phase.count, Failed, true);
      }
      SyncKeepsInv(was, ok);
    }

    /** The whole group goes into the memtable; readers may look on between any two of its writes. */
    method InsertGroup()
      requires Ok() && phase.Inserting? && phase.inserted == 0
      modifies this`mem, this`phase
      ensures Ok() && View() == AllInserted(old(View()))
    {
      hide Inv, OpsOf, Records, Queued, Storable, Rep, Stamp;
      ghost var was := View();
      InsertedAll(was);
      var status, more := updates.InsertInto(mem);
      mem := more;
      phase := Finishing(phase.count, Written(phase.record), false);
    }

    /** Publishes the sequence and lets the group go, each writer with the group's outcome. */
    method FinishGroup()
      requires Ok() && phase.Finishing?
      modifies this, tmpBatch, writers
      ensures Ok() && Step(old(View()), Finish, View()) && tmpBatch == old(tmpBatch)
      ensures old(phase.count <= |writers|) && writers == old(writers[phase.count..])
      ensures forall i | 1 <= i < old(phase.count) :: old(writers)[i].done && old(writers)[i].status == old(phase.outcome)
    {
      hide Inv, OpsOf, Stamp, Queued, InQueue, WriteBatch.Valid, Tell, GroupStamps, Enabled, After, WriteQueue.Group, Consumed;
      ghost var was := View();
      ValidQueue(was);
      GroupFits(was);
      ghost var requests := Queue(was);
      SameLength(writers, requests, tmpBatch);
      var written := LetGroupGo(phase.count, phase.outcome, requests);
      assert requests[was.phase.count..] == was.arrivals[|was.told| + was.phase.count..];
      FinishIs(was);
      Publish(was, written);
      FinishKeepsInv(was);
    }

    /** The sequences are used up, whatever the outcome. */
    method Publish(ghost was: State, written: nat)
      requires was == View() && phase.Finishing? && written == |OpsOf(WriteQueue.Group(was))|
      modifies this`unsure, this`told, this`lastSequence, this`broken, this`phase
      ensures View() == AfterFinish(was)
    {
      hide OpsOf, Tell, GroupStamps, WriteQueue.Group;
      unsure := if phase.syncError then GroupStamps(was) else unsure;
      told := Tell(told, phase.count, phase.outcome);
      lastSequence := lastSequence + written;
      broken := broken || phase.syncError;
      phase := Idle;
    }

    /** The group's batch is done with, and its writers leave the queue. */
    method LetGroupGo(count: nat, outcome: Outcome, ghost requests: seq<Request>) returns (written: nat)
      requires Queued(writers, requests, tmpBatch) && 1 <= count <= |writers|
      requires tmpBatch.Valid() && updates != null && updates.Valid() && (updates != tmpBatch ==> tmpBatch.ops == [])
      modifies this`writers, tmpBatch, writers
      ensures written == old(|updates.ops|) && writers == old(writers)[count..]
      ensures |writers| + count == |requests| && Queued(writers, requests[count..], tmpBatch)
      ensures tmpBatch.Valid() && tmpBatch.ops == []
      ensures forall i | 1 <= i < count :: old(writers)[i].done && old(writers)[i].status == outcome
    {
      hide Queued, InQueue, Matches, WriteBatch.Valid;
      AllMatch(writers, requests, tmpBatch);
      updates.ValidIsPacked();
      written := updates.Count();
      if updates == tmpBatch {
        tmpBatch.Clear();
      }
      PopGroup(count, outcome);
      QueuedIfMatches(writers, requests[count..], tmpBatch);
    }

    /** Pops writers up to the last of the group; all but the leader are told and woken up. */
    method PopGroup(count: nat, outcome: Outcome)
      requires 1 <= count <= |writers| && forall i, j | 0 <= i < j < |writers| :: writers[i] != writers[j]
      modifies this`writers, writers
      ensures writers == old(writers)[count..]
      ensures forall i | 1 <= i < count :: old(writers)[i].done && old(writers)[i].status == outcome
    {
      var leader, last := writers[0], writers[count - 1];
      ghost var all, k := writers, 0;
      while true
        invariant k < count && writers == all[k..]
        invariant forall i | 1 <= i < k :: all[i].done && all[i].status == outcome
        decreases |writers|
      {
        var ready := writers[0];
        writers := writers[1..];
        if ready != leader {
          ready.status := outcome;
          ready.done := true;
        }
        k := k + 1;
        if ready == last {
          break;
        }
      }
    }

    /** The front writer leaves alone: there was no room, or it had no batch. */
    method LeaveAlone(room: bool)
      requires Ok() && phase.Idle? && writers != [] && (room ==> writers[0].batch == null && !broken)
      modifies this`writers, this`told
      ensures Ok() && Step(old(View()), if room then Pass else Refuse, View()) && writers == old(writers)[1..]
    {
      hide Inv, OpsOf, Stamp, Queued, InQueue, Matches, WriteBatch.Valid;
      ghost var was := View();
      ValidQueue(was);
      ghost var requests := Queue(was);
      AllMatch(writers, requests, tmpBatch);
      assert requests[0].batch.None? <==> writers[0].batch == null by {
        FirstMatches(writers[0], requests[0]);
      }
      writers := writers[1..];
      told := told + [if room then Passed else NoRoom];
      assert Queue(View()) == requests[1..];
      QueuedIfMatches(writers, requests[1..], tmpBatch);
      TellOneKeepsInv(was, View(), if room then Passed else NoRoom);
    }
  }

  lemma {:induction false} FinishIs(s: State)
    requires |s.told| <= |s.arrivals| && s.phase.Finishing?
    ensures Enabled(s, Finish) && After(s, Finish) == AfterFinish(s)
  {
    hide OpsOf;
  }

  lemma {:induction false} FirstMatches(w: Writer, r: Request)
    requires Matches(w, r)
    ensures r.batch.None? <==> w.batch == null
  {
  }

  lemma {:induction false} JoinedQueue(s: State, r: Request)
    requires |s.told| <= |s.arrivals|
    ensures var s' := s.(arrivals := s.arrivals + [r]);
      Queue(s') == Queue(s) + [r] && (PhaseOk(s) ==> WriteQueue.Group(s') == WriteQueue.Group(s))
  {
    if PhaseOk(s) {
      GroupFits(s);
    }
  }

  /** The state once k more writes of the group are in the memtable. */
  function InsertedMore(s: State, k: nat): State
    requires s.phase.Inserting? && s.phase.inserted + k <= |GroupStamps(s)|
  {
    s.(mem := s.mem + GroupStamps(s)[s.phase.inserted..s.phase.inserted + k], phase := s.phase.(inserted := s.phase.inserted + k))
  }

  function AllInserted(s: State): State
    requires s.phase.Inserting?
  {
    s.(mem := s.mem + GroupStamps(s), phase := Finishing(s.phase.count, Written(s.phase.record), false))
  }

  /** Inserting one write after the other leads to the state with all of them inserted. */
  lemma {:induction false} SameGroup(s: State, k: nat)
    requires s.phase.Inserting? && s.phase.inserted + k <= |GroupStamps(s)|
    ensures GroupStamps(InsertedMore(s, k)) == GroupStamps(s) && |GroupStamps(s)| == |OpsOf(WriteQueue.Group(s))|
    ensures WriteQueue.Group(InsertedMore(s, k)) == WriteQueue.Group(s)
  {
    hide OpsOf;
  }

  lemma {:induction false} InsertOneMore(s: State, k: nat)
    requires Inv(s) && s.phase.Inserting? && s.phase.inserted == 0 && k <= |GroupStamps(s)|
    ensures InsertedMore(s, 0) == s && Inv(InsertedMore(s, k))
    ensures k > 0 ==> Step(InsertedMore(s, k - 1), InsertNext, InsertedMore(s, k))
  {
    hide Inv, OpsOf, GroupStamps, WriteQueue.Group;
    ValidQueue(s);
    var stamps := GroupStamps(s);
    assert stamps[0..0] == [] && s.mem + [] == s.mem;
    if k > 0 {
      InsertOneMore(s, k - 1);
      SameGroup(s, k - 1);
      MoveAcross(s.mem, stamps, k - 1, []);
      assert stamps[0..k] == stamps[..k] && stamps[0..k - 1] == stamps[..k - 1];
      InsertKeepsInv(InsertedMore(s, k - 1));
    }
  }

  lemma {:induction false} InsertedAll(s: State)
    requires Inv(s) && s.phase.Inserting? && s.phase.inserted == 0
    ensures Step(InsertedMore(s, |GroupStamps(s)|), InsertDone, AllInserted(s)) && Inv(AllInserted(s))
  {
    hide Inv, OpsOf, GroupStamps, WriteQueue.Group;
    ValidQueue(s);
    var stamps := GroupStamps(s);
    InsertOneMore(s, |stamps|);
    SameGroup(s, |stamps|);
    assert stamps[0..|stamps|] == stamps;
    InsertedKeepsInv(InsertedMore(s, |stamps|));
  }

  lemma {:induction false} LeadFits(s: State)
    requires |s.told| <= |s.arrivals| && Enabled(s, Event.Lead)
    ensures var n := GroupSize(Queue(s));
      && s.lastSequence + 1 < TWO_64 && n <= |Queue(s)|
      && WriteQueue.Group(s.(phase := Logging(n))) == Queue(s)[..n]
  {
    hide OpsOf, GroupSize;
  }

  lemma {:induction false} LeaderSync(s: State, writers: seq<Writer>, tmp: WriteBatch)
    requires Inv(s) && !s.phase.Idle? && |s.told| <= |s.arrivals| && Queued(writers, Queue(s), tmp)
    ensures WriteQueue.Group(s) != [] && writers != [] && WriteQueue.Group(s)[0].sync == writers[0].sync
  {
    hide MemOk, LogOk, AllTold, OpsOf;
    QueuedIs(writers[0], Queue(s)[0]);
  }

  lemma {:induction false} ValidQueue(s: State)
    requires Inv(s)
    ensures |s.told| <= |s.arrivals| && PhaseOk(s) && forall r | r in Queue(s) :: ValidRequest(r)
  {
    hide PhaseOk, MemOk, LogOk, AllTold;
    assert forall r | r in Queue(s) :: r in s.arrivals;
  }
}
