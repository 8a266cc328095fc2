/** Group commit: writers queue up, the front one logs and applies a whole group, readers look on. */
module WriteQueue {
  import opened Coding
  import opened Options
  import opened Varints
  import opened WriteBatches

  const SMALL_WRITE: nat := 0x2_0000
  const MAX_GROUP: nat := 0x10_0000

  /** What a writer queues up with; a null batch only forces a memtable switch. */
  datatype Request = Request(batch: Option<seq<Op>>, sync: bool)

  predicate ValidRequest(r: Request) {
    r.batch.Some? ==> Storable(r.batch.value) && |r.batch.value| < MAX_COUNT
  }

  function OpsOfOne(r: Request): seq<Op> {
    if r.batch.Some? then r.batch.value else []
  }

  function OpsOf(rs: seq<Request>): seq<Op> {
    if rs == [] then [] else OpsOf(rs[..|rs| - 1]) + OpsOfOne(rs[|rs| - 1])
  }

  function ByteSize(ops: seq<Op>): nat {
    HEADER + |Records(ops)|
  }

  // ----- The group

  function MaxSize(size: nat): nat {
    if size <= SMALL_WRITE then size + SMALL_WRITE else MAX_GROUP
  }

  /** How many of the requests join a leader whose group has the size so far. */
  function Joining(rest: seq<Request>, sync: bool, size: nat, max: nat): (n: nat)
    ensures n <= |rest|
  {
    if rest == [] || (rest[0].sync && !sync) then 0
    else if rest[0].batch.None? then 1 + Joining(rest[1..], sync, size, max)
    else if size + ByteSize(rest[0].batch.value) > max then 0
    else 1 + Joining(rest[1..], sync, size + ByteSize(rest[0].batch.value), max)
  }

  predicate CanLead(queue: seq<Request>) {
    queue != [] && queue[0].batch.Some?
  }

  function GroupSize(queue: seq<Request>): (n: nat)
    requires CanLead(queue)
    ensures 1 <= n <= |queue|
  {
    var size := ByteSize(queue[0].batch.value);
    1 + Joining(queue[1..], queue[0].sync, size, MaxSize(size))
  }

  /** A group with a leader of its own kind of durability. */
  predicate ValidGroup(group: seq<Request>) {
    && CanLead(group) && |OpsOf(group)| < MAX_COUNT && Storable(OpsOf(group))
    && forall i | 0 <= i < |group| :: group[i].sync ==> group[0].sync
  }

  /** The bytes of the batches, without the header of the packed group. */
  function Bulk(rs: seq<Request>): nat {
    if rs == [] then 0
    else (if rs[0].batch.Some? then ByteSize(rs[0].batch.value) else 0) + Bulk(rs[1..])
  }

  /** The two reasons why a request does not join a group of that size. */
  predicate StopsAt(r: Request, sync: bool, size: nat, max: nat) {
    (r.sync && !sync) || (r.batch.Some? && size + ByteSize(r.batch.value) > max)
  }

  lemma {:induction false} JoiningLimits(rest: seq<Request>, sync: bool, size: nat, max: nat)
    ensures var n := Joining(rest, sync, size, max);
      && (forall i | 0 <= i < n :: rest[i].sync ==> sync)
      && (size <= max ==> size + Bulk(rest[..n]) <= max) && (Bulk(rest[..n]) == 0 || size + Bulk(rest[..n]) <= max)
      && (n < |rest| ==> StopsAt(rest[n], sync, size + Bulk(rest[..n]), max))
    decreases |rest|
  {
    hide ByteSize;
    var n := Joining(rest, sync, size, max);
    if n > 0 {
      var size' := size + if rest[0].batch.Some? then ByteSize(rest[0].batch.value) else 0;
      JoiningLimits(rest[1..], sync, size', max);
      assert rest[..n][1..] == rest[1..][..n - 1] && rest[..n][0] == rest[0];
      assert forall i | 1 <= i < n :: rest[i] == rest[1..][i - 1];
      if n < |rest| {
        assert rest[n] == rest[1..][n - 1];
      }
    }
  }

  lemma {:induction false} OpsOfCons(rs: seq<Request>)
    requires rs != []
    ensures OpsOf(rs) == OpsOfOne(rs[0]) + OpsOf(rs[1..])
  {
    if |rs| == 1 {
      assert rs[..0] == [] && rs[1..] == [];
    } else {
      var last := |rs| - 1;
      OpsOfCons(rs[..last]);
      assert rs[..last][1..] == rs[1..][..last - 1] && rs[1..][last - 1] == rs[last];
      assert (OpsOfOne(rs[0]) + OpsOf(rs[1..][..last - 1])) + OpsOfOne(rs[last])
          == OpsOfOne(rs[0]) + (OpsOf(rs[1..][..last - 1]) + OpsOfOne(rs[last]));
    }
  }

  /** No more writes than bytes. */
  lemma {:induction false} CountWithinBytes(ops: seq<Op>)
    ensures |ops| <= |Records(ops)|
  {
    hide Record;
    if ops != [] {
      CountWithinBytes(ops[1..]);
    }
  }

  lemma {:induction false} CountWithinBulk(rs: seq<Request>)
    requires forall r | r in rs :: ValidRequest(r)
    ensures |OpsOf(rs)| <= Bulk(rs) && Storable(OpsOf(rs))
  {
    hide Records, ReadRecord;
    if rs != [] {
      OpsOfCons(rs);
      assert forall r | r in rs[1..] :: r in rs;
      CountWithinBulk(rs[1..]);
      assert ValidRequest(rs[0]);
      CountWithinBytes(OpsOfOne(rs[0]));
    }
  }

  /**
   * The group that the source promises for a queue, byte by byte: no sync write under a leader that
   * does not sync; at most 128 KiB more than a leader of up to 128 KiB, at most 1 MiB after a larger
   * one; and the first request left out had to be, for one of these reasons.
   */
  ghost predicate IsGroup(queue: seq<Request>, n: nat)
    requires CanLead(queue)
  {
    var leader := ByteSize(queue[0].batch.value);
    && 1 <= n <= |queue|
    && (forall i | 0 <= i < n :: queue[i].sync ==> queue[0].sync)
    && (Bulk(queue[1..n]) > 0 ==> if leader <= 131072 then Bulk(queue[..n]) <= leader + 131072 else Bulk(queue[..n]) <= 1048576)
    && (n < |queue| && (queue[n].sync ==> queue[0].sync) ==>
          && queue[n].batch.Some?
          && var more := Bulk(queue[..n]) + ByteSize(queue[n].batch.value);
             if leader <= 131072 then more > leader + 131072 else more > 1048576)
  }

  lemma {:induction false} GroupSizeIsGroup(queue: seq<Request>)
    requires CanLead(queue)
    ensures IsGroup(queue, GroupSize(queue))
  {
    hide ByteSize, Joining;
    var n, rest := GroupSize(queue), queue[1..];
    var size := ByteSize(queue[0].batch.value);
    JoiningLimits(rest, queue[0].sync, size, MaxSize(size));
    var group := queue[..n];
    assert group[1..] == rest[..n - 1] == queue[1..n] && group[0] == queue[0];
    assert forall i | 1 <= i < n :: queue[i] == rest[i - 1];
    if n < |queue| {
      assert queue[n] == rest[n - 1];
    }
  }

  lemma {:induction false} BulkGrows(rs: seq<Request>, n: nat)
    requires n < |rs|
    ensures Bulk(rs) >= Bulk(rs[..n]) + (if rs[n].batch.Some? then ByteSize(rs[n].batch.value) else 0)
    ensures rs[n].batch.Some? ==> Bulk(rs) > 0
  {
    if n > 0 {
      BulkGrows(rs[1..], n - 1);
      assert rs[..n][1..] == rs[1..][..n - 1] && rs[..n][0] == rs[0];
    }
  }

  /** There is exactly one such group. */
  lemma {:induction false} GroupIsUnique(queue: seq<Request>, n: nat)
    requires CanLead(queue)
    ensures IsGroup(queue, n) <==> n == GroupSize(queue)
  {
    hide ByteSize, Bulk, GroupSize;
    GroupSizeIsGroup(queue);
    if IsGroup(queue, n) {
      NoSmallerGroup(queue, n, GroupSize(queue));
      NoSmallerGroup(queue, GroupSize(queue), n);
    }
  }

  lemma {:induction false} NoSmallerGroup(queue: seq<Request>, n: nat, m: nat)
    requires CanLead(queue) && IsGroup(queue, n) && IsGroup(queue, m)
    ensures n >= m
  {
    hide ByteSize, Bulk;
    if n < m {
      assert queue[..m][..n] == queue[..n] && queue[1..m][n - 1] == queue[n];
      BulkGrows(queue[..m], n);
      BulkGrows(queue[1..m], n - 1);
    }
  }

  /** Two small batches at the front that may go together do go together. */
  lemma {:induction false} SmallBatchesShareAGroup(queue: seq<Request>)
    requires CanLead(queue) && |queue| > 1 && queue[1].batch.Some? && (queue[1].sync ==> queue[0].sync)
    requires ByteSize(queue[0].batch.value) <= 131072 && ByteSize(queue[1].batch.value) <= 131072
    ensures GroupSize(queue) >= 2
  {
    hide ByteSize, GroupSize;
    GroupSizeIsGroup(queue);
    assert queue[..1][1..] == [];
  }

  /** What follows a batch of 1 MiB or more, unless it is a null batch, is not in its group. */
  lemma {:induction false} LargeLeaderStaysAlone(queue: seq<Request>)
    requires CanLead(queue) && |queue| > 1 && queue[1].batch.Some? && ByteSize(queue[0].batch.value) >= 1048576
    ensures GroupSize(queue) == 1
  {
    hide GroupSize;
    GroupSizeIsGroup(queue);
    assert queue[..GroupSize(queue)][1..] == queue[1..GroupSize(queue)];
  }

  /** The group of a queue is the one promised, and may go into one batch. */
  lemma {:induction false} GroupIsValid(queue: seq<Request>)
    requires CanLead(queue) && forall r | r in queue :: ValidRequest(r)
    ensures var n := GroupSize(queue); ValidGroup(queue[..n]) && IsGroup(queue, n)
  {
    hide ByteSize, GroupSize, OpsOf;
    GroupSizeIsGroup(queue);
    var n := GroupSize(queue);
    var group := queue[..n];
    assert group[1..] == queue[1..n] && group[0] == queue[0];
    assert forall r | r in group :: r in queue;
    CountWithinBulk(group);
    GroupCount(group);
  }

  lemma {:induction false} GroupCount(group: seq<Request>)
    requires CanLead(group) && (forall r | r in group :: ValidRequest(r))
    requires Bulk(group[1..]) > 0 ==> Bulk(group) <= 1048576
    ensures |OpsOf(group)| < MAX_COUNT
  {
    hide Records;
    OpsOfCons(group);
    assert forall r | r in group[1..] :: r in group;
    CountWithinBulk(group[1..]);
    if Bulk(group[1..]) > 0 {
      CountWithinBulk(group);
    } else {
      assert ValidRequest(group[0]);
    }
  }

  // ----- The machine

  /** What a finished writer was told; a written batch is in the log record of that index. */
  datatype Outcome = Written(record: nat) | Passed | NoRoom | Failed

  /** Where the leader is: the mutex is free in all of these but Idle, so others may step in between. */
  datatype Phase =
    | Idle
    | Logging(count: nat)
    | Syncing(count: nat, record: nat)
    | Inserting(count: nat, record: nat, inserted: nat)
    | Finishing(count: nat, outcome: Outcome, syncError: bool)

  /**
   * Every request that ever arrived, in queue order; the first |told| of them are finished. `mem` is
   * everything ever put into a memtable. `unsure` is the record whose sync failed: logged, not applied.
   */
  datatype State = State(
    arrivals: seq<Request>, told: seq<Outcome>, lastSequence: nat, mem: seq<Stamped>,
    log: seq<Bytes>, fileStart: nat, durable: set<nat>, unsure: seq<Stamped>, broken: bool, phase: Phase)

  function Queue(s: State): seq<Request>
    requires |s.told| <= |s.arrivals|
  {
    s.arrivals[|s.told|..]
  }

  function Group(s: State): seq<Request> {
    if s.phase.Idle? || |s.told| + s.phase.count > |s.arrivals| then [] else s.arrivals[|s.told|..|s.told| + s.phase.count]
  }

  function GroupStamps(s: State): seq<Stamped> {
    Stamp(s.lastSequence + 1, OpsOf(Group(s)))
  }

  datatype Event =
    | Join(request: Request)      // a writer pushes itself on the queue
    | Refuse                      // no room for the front writer: it is told so, alone
    | Pass                        // the front writer has a null batch
    | SwitchLog                   // making room moves on to a new log file
    | Lead                        // the front writer builds its group
    | LogRecord(ok: bool)
    | SyncLog(ok: bool)
    | InsertNext
    | InsertDone
    | Finish                      // the sequence is published, the group leaves the queue
    | Break                       // some background work failed

  predicate Enabled(s: State, e: Event) {
    && |s.told| <= |s.arrivals|
    && match e
       case Join(request) => ValidRequest(request)
       case Refuse => s.phase.Idle? && Queue(s) != []
       case Pass => s.phase.Idle? && Queue(s) != [] && Queue(s)[0].batch.None? && !s.broken
       case SwitchLog => s.phase.Idle? && Queue(s) != [] && !s.broken
       case Lead => s.phase.Idle? && CanLead(Queue(s)) && !s.broken
           && s.lastSequence + 1 + |OpsOf(Queue(s)[..GroupSize(Queue(s))])| < TWO_64
       case LogRecord(_) => s.phase.Logging?
       case SyncLog(_) => s.phase.Syncing?
       case InsertNext => s.phase.Inserting? && s.phase.inserted < |OpsOf(Group(s))|
       case InsertDone => s.phase.Inserting? && s.phase.inserted == |OpsOf(Group(s))|
       case Finish => s.phase.Finishing?
       case Break => true
  }

  function Tell(told: seq<Outcome>, count: nat, o: Outcome): (r: seq<Outcome>)
    ensures |r| == |told| + count && told <= r
  {
    told + seq(count, _ => o)
  }

  function AfterLogging(s: State, ok: bool): State
    requires s.phase.Logging?
  {
    if ok then
      var record := |s.log|;
      s.(log := s.log + [Rep(s.lastSequence + 1, OpsOf(Group(s)))],
         phase := if Group(s) != [] && Group(s)[0].sync then Syncing(s.phase.count, record) else Inserting(s.phase.count, record, 0))
    else s.(phase := Finishing(s.phase.count, Failed, false))
  }

  /** The records of a log file. */
  function FileRecords(lo: nat, hi: nat): (r: set<nat>)
    ensures forall i: nat :: i in r <==> lo <= i < hi
    decreases hi
  {
    if hi <= lo then {} else FileRecords(lo, hi - 1) + {hi - 1}
  }

  function AfterSync(s: State, ok: bool): State
    requires s.phase.Syncing?
  {
    if ok then s.(durable := s.durable + FileRecords(s.fileStart, |s.log|), phase := Inserting(s.phase.count, s.phase.record, 0))
    else s.(phase := Finishing(s.phase.count, Failed, true))
  }

  function AfterFinish(s: State): State
    requires s.phase.Finishing?
  {
    State(s.arrivals, Tell(s.told, s.phase.count, s.phase.outcome), s.lastSequence + |OpsOf(Group(s))|, s.mem,
          s.log, s.fileStart, s.durable, if s.phase.syncError then GroupStamps(s) else s.unsure,
          s.broken || s.phase.syncError, Idle)
  }

  function After(s: State, e: Event): State
    requires Enabled(s, e)
  {
    match e
    case Join(request) => s.(arrivals := s.arrivals + [request])
    case Refuse => s.(told := s.told + [NoRoom])
    case Pass => s.(told := s.told + [Passed])
    case SwitchLog => s.(fileStart := |s.log|)
    case Lead => s.(phase := Logging(GroupSize(Queue(s))))
    case LogRecord(ok) => AfterLogging(s, ok)
    case SyncLog(ok) => AfterSync(s, ok)
    case InsertNext => s.(mem := s.mem + [GroupStamps(s)[s.phase.inserted]], phase := s.phase.(inserted := s.phase.inserted + 1))
    case InsertDone => s.(phase := Finishing(s.phase.count, Written(s.phase.record), false))
    case Finish => AfterFinish(s)
    case Break => s.(broken := true)
  }

  ghost predicate Step(s: State, e: Event, s': State) {
    Enabled(s, e) && s' == After(s, e)
  }

  predicate Initial(s: State) {
    s == State([], [], 0, [], [], 0, {}, [], false, Idle)
  }

  // ----- What has been acknowledged

  /** The sequence numbers used up by the first finished writers. */
  function Consumed(arrivals: seq<Request>, told: seq<Outcome>): nat
    requires |told| <= |arrivals|
  {
    if told == [] then 0
    else
      var n := |told| - 1;
      Consumed(arrivals, told[..n]) + (if told[n].NoRoom? then 0 else |OpsOfOne(arrivals[n])|)
  }

  /** The sequence of the first write of a finished writer. */
  function First(s: State, i: nat): nat
    requires i < |s.told| <= |s.arrivals|
  {
    Consumed(s.arrivals, s.told[..i]) + 1
  }

  /** The batches of the writers that were told so, one after the other. */
  function Applied(arrivals: seq<Request>, told: seq<Outcome>): seq<Stamped>
    requires |told| <= |arrivals|
  {
    if told == [] then []
    else
      var n := |told| - 1;
      Applied(arrivals, told[..n])
        + (if told[n].Written? then Stamp(Consumed(arrivals, told[..n]) + 1, OpsOfOne(arrivals[n])) else [])
  }

  function EntriesOf(record: Bytes): seq<Stamped> {
    if |record| < HEADER then [] else Stamp(SequenceOf(record), Parse(record[HEADER..]).ops)
  }

  /** What replaying the log puts into a memtable. */
  function LogEntries(log: seq<Bytes>): seq<Stamped> {
    if log == [] then [] else LogEntries(log[..|log| - 1]) + EntriesOf(log[|log| - 1])
  }

  // ----- The invariant

  ghost predicate Basics(s: State) {
    && |s.told| <= |s.arrivals| && (forall r | r in s.arrivals :: ValidRequest(r))
    && s.lastSequence == Consumed(s.arrivals, s.told) && s.fileStart <= |s.log|
    && (s.unsure != [] ==> s.broken && s.phase.Idle?)
  }

  ghost predicate RecordOk(s: State, record: nat) {
    && record < |s.log| && s.log[record] == Rep(s.lastSequence + 1, OpsOf(Group(s)))
    && s.fileStart <= record
  }

  ghost predicate PhaseOk(s: State) {
    s.phase.Idle? ||
      (&& ValidGroup(Group(s)) && |Group(s)| == s.phase.count && s.lastSequence + 1 + |OpsOf(Group(s))| < TWO_64
       && match s.phase
          case Syncing(_, record) => RecordOk(s, record)
          case Inserting(_, record, inserted) =>
            RecordOk(s, record) && inserted <= |OpsOf(Group(s))| && (Group(s)[0].sync ==> record in s.durable)
          case Finishing(_, Written(record), _) => RecordOk(s, record) && (Group(s)[0].sync ==> record in s.durable) && !s.phase.syncError
          case Finishing(_, outcome, _) => outcome == Failed
          case _ => true)
  }

  /** The part of the group that is in the memtable already. */
  function Done(s: State): seq<Stamped> {
    match s.phase
    case Inserting(_, _, inserted) => if inserted <= |GroupStamps(s)| then GroupStamps(s)[..inserted] else []
    case Finishing(_, Written(_), _) => GroupStamps(s)
    case _ => []
  }

  /** The part of the group that is in the log and not in the memtable. */
  function Logged(s: State): seq<Stamped> {
    match s.phase
    case Syncing(_, _) => GroupStamps(s)
    case Inserting(_, _, inserted) => if inserted <= |GroupStamps(s)| then GroupStamps(s)[inserted..] else []
    case Finishing(_, Failed, true) => GroupStamps(s)
    case _ => []
  }

  ghost predicate MemOk(s: State)
    requires |s.told| <= |s.arrivals|
  {
    s.mem == Applied(s.arrivals, s.told) + Done(s)
  }

  ghost predicate LogOk(s: State) {
    LogEntries(s.log) == s.mem + Logged(s) + s.unsure
  }

  /** The record that a written batch is in; if its writer asked for it, that record is on disk. */
  ghost predicate ToldOk(s: State, i: nat)
    requires i < |s.told| <= |s.arrivals|
  {
    s.told[i].Written? ==>
      && s.told[i].record < |s.log|
      && (s.arrivals[i].sync ==> s.told[i].record in s.durable)
      && forall j | 0 <= j < |OpsOfOne(s.arrivals[i])| ::
           Stamped(First(s, i) + j, OpsOfOne(s.arrivals[i])[j]) in EntriesOf(s.log[s.told[i].record])
  }

  ghost predicate AllTold(s: State)
    requires |s.told| <= |s.arrivals|
  {
    forall i | 0 <= i < |s.told| :: ToldOk(s, i)
  }

  ghost predicate Inv(s: State) {
    Basics(s) && PhaseOk(s) && MemOk(s) && LogOk(s) && AllTold(s)
  }
}
