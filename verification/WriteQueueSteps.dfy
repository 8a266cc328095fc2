/** Every step of the write queue keeps its invariant, and what follows for writers and readers. */
module WriteQueueSteps {
  import opened Coding
  import opened Varints
  import opened WriteBatches
  import opened WriteQueue

  // ----- What the invariant is made of

  lemma {:induction false} StampAppend(first: nat, a: seq<Op>, b: seq<Op>)
    ensures Stamp(first, a + b) == Stamp(first, a) + Stamp(first + |a|, b)
  {
  }

  lemma {:induction false} MoreArrivals(arrivals: seq<Request>, more: seq<Request>, told: seq<Outcome>)
    requires |told| <= |arrivals|
    ensures Consumed(arrivals + more, told) == Consumed(arrivals, told)
    ensures Applied(arrivals + more, told) == Applied(arrivals, told)
  {
    hide Stamp, OpsOfOne;
    if told != [] {
      MoreArrivals(arrivals, more, told[..|told| - 1]);
    }
  }

  lemma {:induction false} OpsOfSnoc(rs: seq<Request>, r: Request)
    ensures OpsOf(rs + [r]) == OpsOf(rs) + OpsOfOne(r)
  {
    assert (rs + [r])[..|rs|] == rs;
  }

  lemma {:induction false} OpsOfSingle(r: Request)
    ensures OpsOf([r]) == OpsOfOne(r)
  {
    OpsOfSnoc([], r);
    assert [] + [r] == [r];
  }

  /** Telling one more writer. */
  lemma {:induction false} ToldOneMore(arrivals: seq<Request>, told: seq<Outcome>, o: Outcome)
    requires |told| < |arrivals|
    ensures Consumed(arrivals, told + [o]) == Consumed(arrivals, told) + (if o.NoRoom? then 0 else |OpsOfOne(arrivals[|told|])|)
    ensures Applied(arrivals, told + [o])
      == Applied(arrivals, told) + (if o.Written? then Stamp(Consumed(arrivals, told) + 1, OpsOfOne(arrivals[|told|])) else [])
  {
    hide Stamp, OpsOfOne;
    assert (told + [o])[..|told|] == told;
  }

  lemma {:induction false} TellMore(told: seq<Outcome>, count: nat, o: Outcome, j: nat)
    requires j <= count
    ensures Tell(told, 0, o) == told && Tell(told, count + 1, o) == Tell(told, count, o) + [o]
    ensures Tell(told, count, o)[..|told| + j] == Tell(told, j, o) && (j < count ==> Tell(told, count, o)[|told| + j] == o)
  {
  }

  lemma {:induction false} NoOps(arrivals: seq<Request>, at: nat)
    requires at <= |arrivals|
    ensures OpsOf(arrivals[at..at]) == []
  {
    assert arrivals[at..at] == [];
  }

  lemma {:induction false} GroupOneMore(arrivals: seq<Request>, at: nat, count: nat)
    requires at + count < |arrivals|
    ensures OpsOf(arrivals[at..at + count + 1]) == OpsOf(arrivals[at..at + count]) + OpsOfOne(arrivals[at + count])
  {
    hide OpsOf, OpsOfOne;
    assert arrivals[at..at + count + 1] == arrivals[at..at + count] + [arrivals[at + count]];
    OpsOfSnoc(arrivals[at..at + count], arrivals[at + count]);
  }

  lemma {:induction false} ConsumedTogether(arrivals: seq<Request>, told: seq<Outcome>, count: nat, o: Outcome)
    requires |told| + count <= |arrivals|
    ensures Consumed(arrivals, Tell(told, count, o))
      == Consumed(arrivals, told) + (if o.NoRoom? then 0 else |OpsOf(arrivals[|told|..|told| + count])|)
  {
    hide OpsOf, OpsOfOne, Consumed, Tell;
    if count == 0 {
      TellMore(told, 0, o, 0);
      NoOps(arrivals, |told|);
    } else {
      ConsumedTogether(arrivals, told, count - 1, o);
      TellMore(told, count - 1, o, 0);
      ToldOneMore(arrivals, Tell(told, count - 1, o), o);
      GroupOneMore(arrivals, |told|, count - 1);
    }
  }

  lemma {:induction false} StampGroup(arrivals: seq<Request>, at: nat, count: nat, first: nat)
    requires at + count < |arrivals|
    ensures Stamp(first, OpsOf(arrivals[at..at + count + 1]))
      == Stamp(first, OpsOf(arrivals[at..at + count])) + Stamp(first + |OpsOf(arrivals[at..at + count])|, OpsOfOne(arrivals[at + count]))
  {
    hide OpsOf, OpsOfOne, Stamp;
    GroupOneMore(arrivals, at, count);
    StampAppend(first, OpsOf(arrivals[at..at + count]), OpsOfOne(arrivals[at + count]));
  }

  lemma {:induction false} AppliedTogether(arrivals: seq<Request>, told: seq<Outcome>, count: nat, o: Outcome)
    requires |told| + count <= |arrivals|
    ensures Applied(arrivals, Tell(told, count, o)) == Applied(arrivals, told)
      + (if o.Written? then Stamp(Consumed(arrivals, told) + 1, OpsOf(arrivals[|told|..|told| + count])) else [])
  {
    hide OpsOf, Stamp, OpsOfOne, Consumed, Applied, Tell;
    var first := Consumed(arrivals, told) + 1;
    if count == 0 {
      TellMore(told, 0, o, 0);
      NoOps(arrivals, |told|);
      NothingStamped(first);
    } else {
      var before := Tell(told, count - 1, o);
      AppliedTogether(arrivals, told, count - 1, o);
      TellMore(told, count - 1, o, 0);
      ToldOneMore(arrivals, before, o);
      if o.Written? {
        var group, last := OpsOf(arrivals[|told|..|told| + count - 1]), OpsOfOne(arrivals[|told| + count - 1]);
        ConsumedTogether(arrivals, told, count - 1, o);
        StampGroup(arrivals, |told|, count - 1, first);
        Associate(Applied(arrivals, told), Stamp(first, group), Stamp(first + |group|, last));
      }
    }
  }

  /** Telling a whole group the same moves on by all of its writes. */
  lemma {:induction false} ToldTogether(arrivals: seq<Request>, told: seq<Outcome>, count: nat, o: Outcome)
    requires |told| + count <= |arrivals|
    ensures var group := arrivals[|told|..|told| + count];
      && Consumed(arrivals, Tell(told, count, o)) == Consumed(arrivals, told) + (if o.NoRoom? then 0 else |OpsOf(group)|)
      && Applied(arrivals, Tell(told, count, o))
           == Applied(arrivals, told) + (if o.Written? then Stamp(Consumed(arrivals, told) + 1, OpsOf(group)) else [])
  {
    hide Stamp, OpsOf, Consumed, Applied, Tell;
    ConsumedTogether(arrivals, told, count, o);
    AppliedTogether(arrivals, told, count, o);
  }

  lemma {:induction false} Associate<T>(a: seq<T>, b: seq<T>, c: seq<T>)
    ensures a + b + c == a + (b + c) && a + [] == a
  {
  }

  lemma {:induction false} LogOneMore(log: seq<Bytes>, record: Bytes)
    ensures LogEntries(log + [record]) == LogEntries(log) + EntriesOf(record)
  {
    assert (log + [record])[..|log|] == log;
  }

  /** A logged group reads back as its stamped writes. */
  lemma {:induction false} RecordReadsBack(first: nat, ops: seq<Op>)
    requires first < TWO_64 && Storable(ops) && |ops| < MAX_COUNT
    ensures EntriesOf(Rep(first, ops)) == Stamp(first, ops)
  {
    hide Rep, Records, Parse, SequenceOf, StatusOf, Stamp;
    RepReadsBack(first, ops);
  }

  /** What earlier writers were told does not depend on later outcomes, requests or records. */
  lemma {:induction false} EarlierToldOk(s: State, s': State, i: nat)
    requires i < |s.told| <= |s.arrivals| && s.told <= s'.told && s.arrivals <= s'.arrivals && |s'.told| <= |s'.arrivals|
    requires s.log <= s'.log && s.durable <= s'.durable && ToldOk(s, i)
    ensures First(s', i) == First(s, i) && ToldOk(s', i)
  {
    hide EntriesOf, OpsOfOne, Consumed;
    assert s'.told[..i] == s.told[..i];
    var more := s'.arrivals[|s.arrivals|..];
    assert s'.arrivals == s.arrivals + more;
    MoreArrivals(s.arrivals, more, s.told[..i]);
  }

  lemma {:induction false} EarlierAllTold(s: State, s': State)
    requires |s.told| <= |s.arrivals| && s.told <= s'.told && s.arrivals <= s'.arrivals && |s'.told| <= |s'.arrivals|
    requires s.log <= s'.log && s.durable <= s'.durable && AllTold(s)
    ensures forall i | 0 <= i < |s.told| :: ToldOk(s', i)
  {
    forall i | 0 <= i < |s.told| ensures ToldOk(s', i) {
      assert ToldOk(s, i);
      EarlierToldOk(s, s', i);
    }
  }

  // ----- The steps

  lemma {:induction false} SameMem(s: State, s': State)
    requires |s.told| <= |s.arrivals| && |s'.told| <= |s'.arrivals| && MemOk(s) && s'.mem == s.mem
    requires Applied(s'.arrivals, s'.told) + Done(s') == Applied(s.arrivals, s.told) + Done(s)
    ensures MemOk(s')
  {
  }

  lemma {:induction false} SameLog(s: State, s': State)
    requires LogOk(s) && s'.mem == s.mem && s'.log == s.log && Logged(s') + s'.unsure == Logged(s) + s.unsure
    ensures LogOk(s')
  {
    hide LogEntries, Logged;
    assert s.mem + Logged(s) + s.unsure == s.mem + (Logged(s) + s.unsure);
    assert s'.mem + Logged(s') + s'.unsure == s'.mem + (Logged(s') + s'.unsure);
  }

  lemma {:induction false} SamePhase(s: State, s': State)
    requires PhaseOk(s) && s'.phase == s.phase && Group(s') == Group(s) && s'.lastSequence == s.lastSequence
    requires s'.log == s.log && s'.fileStart == s.fileStart && s'.durable == s.durable
    ensures PhaseOk(s') && Done(s') == Done(s) && Logged(s') == Logged(s)
  {
    hide Rep, OpsOf, Stamp, ValidGroup, Group;
  }

  lemma {:induction false} GroupFits(s: State)
    requires PhaseOk(s)
    ensures s.phase.Idle? || (1 <= s.phase.count && |s.told| + s.phase.count <= |s.arrivals|)
  {
    hide OpsOf;
  }

  lemma {:induction false} JoinKeepsInv(s: State, r: Request)
    requires Inv(s) && Enabled(s, Join(r))
    ensures Inv(After(s, Join(r)))
  {
    hide PhaseOk, Done, Logged, MemOk, LogOk, Consumed, Applied, ToldOk, ValidGroup, OpsOf, Stamp, LogEntries, ValidRequest, Rep;
    var s' := After(s, Join(r));
    MoreArrivals(s.arrivals, [r], s.told);
    GroupFits(s);
    assert Group(s') == Group(s);
    SamePhase(s, s');
    SameMem(s, s');
    SameLog(s, s');
    EarlierAllTold(s, s');
  }

  /** The front writer alone is told that nothing was written. */
  lemma {:induction false} TellOneKeepsInv(s: State, s': State, o: Outcome)
    requires Inv(s) && s.phase.Idle? && Queue(s) != [] && (o == NoRoom || (o == Passed && Queue(s)[0].batch.None?))
    requires s' == s.(told := s.told + [o])
    ensures Inv(s')
  {
    hide MemOk, LogOk, Consumed, Applied, ToldOk, OpsOf, Stamp, LogEntries, ValidRequest;
    ToldTogether(s.arrivals, s.told, 1, o);
    assert Tell(s.told, 1, o) == s'.told;
    assert s.arrivals[|s.told|..|s.told| + 1] == [Queue(s)[0]];
    OpsOfSingle(Queue(s)[0]);
    NothingStamped(s.lastSequence + 1);
    assert Applied(s.arrivals, s.told) + [] == Applied(s.arrivals, s.told);
    SameMem(s, s');
    SameLog(s, s');
    EarlierAllTold(s, s');
    NotWritten(s', |s.told|);
  }

  lemma {:induction false} SwitchKeepsInv(s: State)
    requires Inv(s) && Enabled(s, SwitchLog)
    ensures Inv(After(s, SwitchLog))
  {
    hide MemOk, LogOk, Consumed, Applied, ToldOk, Stamp, LogEntries, ValidRequest;
    var s' := After(s, SwitchLog);
    SameMem(s, s');
    SameLog(s, s');
    EarlierAllTold(s, s');
  }

  lemma {:induction false} LeadKeepsInv(s: State)
    requires Inv(s) && Enabled(s, Lead)
    ensures Inv(After(s, Lead))
  {
    hide MemOk, LogOk, Consumed, Applied, ToldOk, Stamp, LogEntries, ValidRequest, OpsOf, ValidGroup, GroupSize;
    var s' := After(s, Lead);
    assert forall r | r in Queue(s) :: r in s.arrivals;
    GroupIsValid(Queue(s));
    assert Group(s') == Queue(s)[..GroupSize(Queue(s))];
    SameMem(s, s');
    SameLog(s, s');
    EarlierAllTold(s, s');
  }

  lemma {:induction false} LogKeepsInv(s: State, ok: bool)
    requires Inv(s) && Enabled(s, LogRecord(ok))
    ensures Inv(After(s, LogRecord(ok)))
  {
    hide Consumed, Applied, ToldOk, Stamp, LogEntries, ValidRequest, OpsOf, Rep, EntriesOf;
    var s' := After(s, LogRecord(ok));
    assert Group(s') == Group(s);
    if ok {
      var record := Rep(s.lastSequence + 1, OpsOf(Group(s)));
      RecordReadsBack(s.lastSequence + 1, OpsOf(Group(s)));
      LogOneMore(s.log, record);
      assert s'.log[|s.log|] == record;
      assert s.mem + [] + [] == s.mem;
      assert GroupStamps(s)[0..] == GroupStamps(s) && GroupStamps(s)[..0] == [];
      assert s.mem + GroupStamps(s) + [] == s.mem + GroupStamps(s);
    }
    EarlierAllTold(s, s');
  }

  lemma {:induction false} SyncKeepsInv(s: State, ok: bool)
    requires Inv(s) && Enabled(s, SyncLog(ok))
    ensures Inv(After(s, SyncLog(ok)))
  {
    hide MemOk, LogOk, Consumed, Applied, ToldOk, Stamp, LogEntries, ValidRequest, OpsOf, Rep, EntriesOf;
    var s' := After(s, SyncLog(ok));
    assert Group(s') == Group(s);
    assert GroupStamps(s)[0..] == GroupStamps(s) && GroupStamps(s)[..0] == [];
    SameMem(s, s');
    SameLog(s, s');
    EarlierAllTold(s, s');
  }

  lemma {:induction false} MoveAcross<T>(front: seq<T>, middle: seq<T>, i: nat, back: seq<T>)
    requires i < |middle|
    ensures front + middle[..i] + [middle[i]] == front + middle[..i + 1]
    ensures front + middle[..i] + middle[i..] + back == front + middle[..i + 1] + middle[i + 1..] + back
  {
    assert middle[..i + 1] == middle[..i] + [middle[i]] && middle[i..] == [middle[i]] + middle[i + 1..];
    assert front + (middle[..i] + [middle[i]]) == front + middle[..i] + [middle[i]];
    assert front + middle[..i] + ([middle[i]] + middle[i + 1..]) == front + middle[..i] + [middle[i]] + middle[i + 1..];
  }

  lemma {:induction false} InsertMovesOne(s: State, s': State, stamps: seq<Stamped>, i: nat)
    requires |s.told| <= |s.arrivals| && MemOk(s) && LogOk(s) && i < |stamps|
    requires Done(s) == stamps[..i] && Logged(s) == stamps[i..] && Done(s') == stamps[..i + 1] && Logged(s') == stamps[i + 1..]
    requires s'.arrivals == s.arrivals && s'.told == s.told && s'.mem == s.mem + [stamps[i]] && s'.log == s.log && s'.unsure == s.unsure
    ensures MemOk(s') && LogOk(s')
  {
    hide Done, Logged, Applied, LogEntries;
    MoveAcross(Applied(s.arrivals, s.told), stamps, i, s.unsure);
  }

  lemma {:induction false} InsertKeepsInv(s: State)
    requires Inv(s) && Enabled(s, InsertNext)
    ensures Inv(After(s, InsertNext))
  {
    hide Consumed, Applied, ToldOk, Stamp, LogEntries, ValidRequest, OpsOf, Rep, EntriesOf, MemOk, LogOk;
    var s' := After(s, InsertNext);
    assert Group(s') == Group(s);
    InsertMovesOne(s, s', GroupStamps(s), s.phase.inserted);
    EarlierAllTold(s, s');
  }

  lemma {:induction false} InsertedKeepsInv(s: State)
    requires Inv(s) && Enabled(s, InsertDone)
    ensures Inv(After(s, InsertDone))
  {
    hide MemOk, LogOk, Consumed, Applied, ToldOk, Stamp, LogEntries, ValidRequest, OpsOf, Rep, EntriesOf;
    var s' := After(s, InsertDone);
    assert Group(s') == Group(s);
    var stamps := GroupStamps(s);
    assert stamps[..|stamps|] == stamps && stamps[|stamps|..] == [];
    SameMem(s, s');
    SameLog(s, s');
    EarlierAllTold(s, s');
  }

  lemma {:induction false} GroupMember(group: seq<Request>, j: nat)
    requires ValidGroup(group) && j < |group|
    ensures |OpsOf(group)| < MAX_COUNT && Storable(OpsOf(group)) && (group[j].sync ==> group[0].sync)
  {
  }

  lemma {:induction false} PartOfSlice<T>(all: seq<T>, at: nat, slice: seq<T>, j: nat)
    requires at + |slice| <= |all| && slice == all[at..at + |slice|] && j < |slice|
    ensures all[at..at + j] == slice[..j] && all[at + j] == slice[j]
  {
  }

  lemma {:induction false} MemberFirst(s: State, s': State, group: seq<Request>, j: nat, o: Outcome)
    requires j < |group| && |s.told| + |group| <= |s.arrivals| && !o.NoRoom?
    requires s.lastSequence == Consumed(s.arrivals, s.told) && group == s.arrivals[|s.told|..|s.told| + |group|]
    requires s'.arrivals == s.arrivals && s'.told == Tell(s.told, |group|, o)
    ensures s'.told[|s.told| + j] == o && s'.arrivals[|s.told| + j] == group[j]
    ensures First(s', |s.told| + j) == s.lastSequence + 1 + |OpsOf(group[..j])|
  {
    hide Consumed, Applied, Stamp, OpsOf, OpsOfOne, Tell;
    ToldTogether(s.arrivals, s.told, j, o);
    TellMore(s.told, |group|, o, j);
    PartOfSlice(s.arrivals, |s.told|, group, j);
  }

  /** A writer of a written group finds its batch in the record of the group. */
  lemma {:induction false} MemberTold(s: State, s': State, group: seq<Request>, j: nat, o: Outcome)
    requires ValidGroup(group) && j < |group| && |s.told| + |group| <= |s.arrivals|
    requires s.lastSequence == Consumed(s.arrivals, s.told) && group == s.arrivals[|s.told|..|s.told| + |group|]
    requires s.lastSequence + 1 + |OpsOf(group)| < TWO_64
    requires s'.arrivals == s.arrivals && s'.told == Tell(s.told, |group|, o)
    requires o.Written? && o.record < |s'.log| && s'.log[o.record] == Rep(s.lastSequence + 1, OpsOf(group))
    requires group[0].sync ==> o.record in s'.durable
    ensures ToldOk(s', |s.told| + j)
  {
    hide Consumed, Rep, EntriesOf, Stamp, OpsOf, OpsOfOne, Tell, ValidGroup, First;
    GroupMember(group, j);
    MemberFirst(s, s', group, j, o);
    RecordReadsBack(s.lastSequence + 1, OpsOf(group));
    MemberStamps(s.lastSequence + 1, group, j);
  }

  lemma {:induction false} MemberStamps(first: nat, group: seq<Request>, j: nat)
    requires j < |group|
    ensures forall k | 0 <= k < |OpsOfOne(group[j])| ::
      Stamped(first + |OpsOf(group[..j])| + k, OpsOfOne(group[j])[k]) in Stamp(first, OpsOf(group))
  {
    hide OpsOf, OpsOfOne;
    MemberOps(group, j);
    var stamps, at := Stamp(first, OpsOf(group)), |OpsOf(group[..j])|;
    forall k | 0 <= k < |OpsOfOne(group[j])| ensures Stamped(first + at + k, OpsOfOne(group[j])[k]) in stamps {
      assert stamps[at + k] == Stamped(first + at + k, OpsOfOne(group[j])[k]);
    }
  }

  /** The writes of a member sit in the group after those of the members before it. */
  lemma {:induction false} MemberOps(group: seq<Request>, j: nat)
    requires j < |group|
    ensures |OpsOf(group[..j])| + |OpsOfOne(group[j])| <= |OpsOf(group)|
    ensures forall k | 0 <= k < |OpsOfOne(group[j])| :: OpsOf(group)[|OpsOf(group[..j])| + k] == OpsOfOne(group[j])[k]
    decreases |group|
  {
    hide OpsOfOne;
    var last := |group| - 1;
    if j < last {
      MemberOps(group[..last], j);
      assert group[..last][..j] == group[..j];
    }
  }

  lemma {:induction false} FinishTells(s: State, s': State)
    requires Inv(s) && Enabled(s, Finish) && s' == After(s, Finish) && |s'.told| <= |s'.arrivals|
    ensures AllTold(s')
  {
    hide Consumed, Applied, ToldOk, Stamp, LogEntries, ValidRequest, OpsOf, Rep, EntriesOf, MemOk, LogOk, Tell;
    EarlierAllTold(s, s');
    forall i | |s.told| <= i < |s'.told| ensures ToldOk(s', i) {
      if s.phase.outcome.Written? {
        MemberTold(s, s', Group(s), i - |s.told|, s.phase.outcome);
      } else {
        TellMore(s.told, s.phase.count, s.phase.outcome, i - |s.told|);
        NotWritten(s', i);
      }
    }
  }

  lemma {:induction false} FinishMovesGroup(s: State, s': State)
    requires Basics(s) && PhaseOk(s) && Enabled(s, Finish) && s' == After(s, Finish)
    ensures |s'.told| <= |s'.arrivals| && s'.lastSequence == Consumed(s'.arrivals, s'.told)
    ensures Applied(s'.arrivals, s'.told) + Done(s') == Applied(s.arrivals, s.told) + Done(s)
    ensures Logged(s') + s'.unsure == Logged(s) + s.unsure && (s'.unsure != [] ==> s'.broken)
  {
    hide Consumed, Applied, Stamp, OpsOf, Rep, Tell, ValidGroup, ValidRequest;
    GroupFits(s);
    ToldTogether(s.arrivals, s.told, s.phase.count, s.phase.outcome);
    var applied := Applied(s.arrivals, s.told);
    assert applied + [] == applied && applied + GroupStamps(s) + [] == applied + GroupStamps(s);
    assert [] + GroupStamps(s) == GroupStamps(s) + [];
  }

  lemma {:induction false} FinishKeepsInv(s: State)
    requires Inv(s) && Enabled(s, Finish)
    ensures Inv(After(s, Finish))
  {
    hide MemOk, LogOk, Consumed, Applied, Stamp, ValidRequest, OpsOf, AllTold, Tell, Logged, Done, GroupStamps;
    var s' := After(s, Finish);
    FinishMovesGroup(s, s');
    FinishTells(s, s');
    SameMem(s, s');
    SameLog(s, s');
  }

  lemma {:induction false} NotWritten(s: State, i: nat)
    requires i < |s.told| <= |s.arrivals| && !s.told[i].Written?
    ensures ToldOk(s, i)
  {
  }

  lemma {:induction false} BreakKeepsInv(s: State)
    requires Inv(s)
    ensures Inv(s.(broken := true))
  {
    hide PhaseOk, Done, Logged, MemOk, LogOk, Consumed, Applied, ToldOk, Stamp, LogEntries, ValidRequest, OpsOf, Rep, EntriesOf;
    var s' := s.(broken := true);
    assert Group(s') == Group(s);
    SamePhase(s, s');
    SameMem(s, s');
    SameLog(s, s');
    EarlierAllTold(s, s');
  }

  lemma {:induction false} StepKeepsInv(s: State, e: Event, s': State)
    requires Inv(s) && Step(s, e, s')
    ensures Inv(s')
  {
    hide Inv;
    match e
    case Join(r) => JoinKeepsInv(s, r);
    case Refuse => TellOneKeepsInv(s, s', NoRoom);
    case Pass => TellOneKeepsInv(s, s', Passed);
    case SwitchLog => SwitchKeepsInv(s);
    case Lead => LeadKeepsInv(s);
    case LogRecord(ok) => LogKeepsInv(s, ok);
    case SyncLog(ok) => SyncKeepsInv(s, ok);
    case InsertNext => InsertKeepsInv(s);
    case InsertDone => InsertedKeepsInv(s);
    case Finish => FinishKeepsInv(s);
    case Break => BreakKeepsInv(s);
  }

  // ----- What readers and writers get

  /** What a reader sees whose snapshot is the sequence. */
  function Visible(mem: seq<Stamped>, sequence: nat): seq<Stamped> {
    if mem == [] then []
    else
      var n := |mem| - 1;
      Visible(mem[..n], sequence) + (if mem[n].sequence <= sequence then [mem[n]] else [])
  }

  ghost predicate Within(stamps: seq<Stamped>, lo: nat, hi: nat) {
    forall i | 0 <= i < |stamps| :: lo < stamps[i].sequence <= hi
  }

  ghost predicate Ascending(stamps: seq<Stamped>) {
    forall i, j | 0 <= i < j < |stamps| :: stamps[i].sequence < stamps[j].sequence
  }

  lemma {:induction false} VisibleAppend(a: seq<Stamped>, b: seq<Stamped>, sequence: nat)
    ensures Visible(a + b, sequence) == Visible(a, sequence) + Visible(b, sequence)
  {
    if b == [] {
      assert a + b == a;
    } else {
      var n := |b| - 1;
      VisibleAppend(a, b[..n], sequence);
      assert (a + b)[..|a| + n] == a + b[..n] && (a + b)[|a| + n] == b[n];
    }
  }

  lemma {:induction false} AllVisible(a: seq<Stamped>, sequence: nat)
    requires Within(a, 0, sequence)
    ensures Visible(a, sequence) == a
  {
    if a != [] {
      AllVisible(a[..|a| - 1], sequence);
      assert a == a[..|a| - 1] + [a[|a| - 1]];
    }
  }

  lemma {:induction false} NoneVisible(a: seq<Stamped>, sequence: nat, hi: nat)
    requires Within(a, sequence, hi)
    ensures Visible(a, sequence) == []
  {
    if a != [] {
      NoneVisible(a[..|a| - 1], sequence, hi);
    }
  }

  /** Finished writers have used up the sequences so far, one after the other. */
  lemma {:induction false} AppliedIsAscending(arrivals: seq<Request>, told: seq<Outcome>)
    requires |told| <= |arrivals|
    ensures Within(Applied(arrivals, told), 0, Consumed(arrivals, told)) && Ascending(Applied(arrivals, told))
  {
    hide OpsOfOne;
    if told != [] {
      var n := |told| - 1;
      AppliedIsAscending(arrivals, told[..n]);
      assert Within(Applied(arrivals, told[..n]), 0, Consumed(arrivals, told[..n]));
    }
  }

  lemma {:induction false} DoneIsNew(s: State)
    ensures Within(Done(s), s.lastSequence, s.lastSequence + |OpsOf(Group(s))|) && Ascending(Done(s))
    ensures forall i | 0 <= i < |Done(s)| :: Done(s)[i].sequence == s.lastSequence + 1 + i
  {
    hide OpsOf, Group;
  }

  /** All or nothing: at the published sequence a reader sees the acknowledged batches, whole and in
      queue order, and no part of the batches being written. */
  lemma {:induction false} ReadersSeeWholeBatches(s: State)
    requires Inv(s)
    ensures Visible(s.mem, s.lastSequence) == Applied(s.arrivals, s.told)
  {
    hide Applied, Consumed, Done, OpsOf, PhaseOk, LogOk, AllTold, Within;
    AppliedIsAscending(s.arrivals, s.told);
    DoneIsNew(s);
    VisibleAppend(Applied(s.arrivals, s.told), Done(s), s.lastSequence);
    AllVisible(Applied(s.arrivals, s.told), s.lastSequence);
    NoneVisible(Done(s), s.lastSequence, s.lastSequence + |OpsOf(Group(s))|);
  }

  /** What a reader has taken as its snapshot does not change under it. */
  lemma {:induction false} StepKeepsSnapshot(s: State, e: Event, s': State, sequence: nat)
    requires Inv(s) && Step(s, e, s') && sequence <= s.lastSequence
    ensures Visible(s'.mem, sequence) == Visible(s.mem, sequence) && s.lastSequence <= s'.lastSequence
  {
    hide Inv, OpsOf, Group, Consumed, Applied;
    if e.InsertNext? {
      var next := [GroupStamps(s)[s.phase.inserted]];
      VisibleAppend(s.mem, next, sequence);
      NoneVisible(next, sequence, next[0].sequence);
    }
  }

  /** Every sequence is used at most once in the memtable, in ascending order. */
  lemma {:induction false} MemIsAscending(s: State)
    requires Inv(s)
    ensures Ascending(s.mem)
  {
    hide Applied, Consumed, Done, OpsOf, PhaseOk, LogOk, AllTold;
    AppliedIsAscending(s.arrivals, s.told);
    DoneIsNew(s);
  }

  lemma {:induction false} ConsumedMonotone(arrivals: seq<Request>, told: seq<Outcome>, i: nat)
    requires i < |told| <= |arrivals|
    ensures !told[i].NoRoom? ==> Consumed(arrivals, told[..i]) + |OpsOfOne(arrivals[i])| <= Consumed(arrivals, told)
    ensures Applied(arrivals, told[..i]) <= Applied(arrivals, told) && Consumed(arrivals, told[..i]) <= Consumed(arrivals, told)
    ensures told[i].Written? ==> Applied(arrivals, told[..i]) + Stamp(Consumed(arrivals, told[..i]) + 1, OpsOfOne(arrivals[i])) <= Applied(arrivals, told)
    decreases |told|
  {
    hide OpsOfOne, Stamp;
    var n := |told| - 1;
    if i < n {
      ConsumedMonotone(arrivals, told[..n], i);
      assert told[..n][..i] == told[..i];
      assert Applied(arrivals, told[..n]) <= Applied(arrivals, told);
    }
  }

  /** Exactly once: a batch whose writer was told so stands in the memtable as one stretch, at
      consecutive sequences of its own; every sequence occurs once. */
  lemma {:induction false} WrittenOnce(s: State, i: nat)
    requires Inv(s) && i < |s.told| && s.told[i].Written?
    ensures Ascending(s.mem)
    ensures var at, ops := |Applied(s.arrivals, s.told[..i])|, OpsOfOne(s.arrivals[i]);
      at + |ops| <= |s.mem| && s.mem[at..at + |ops|] == Stamp(First(s, i), ops)
  {
    hide Applied, Consumed, Done, OpsOf, PhaseOk, LogOk, AllTold, OpsOfOne, Stamp;
    MemIsAscending(s);
    ConsumedMonotone(s.arrivals, s.told, i);
    var front, mine := Applied(s.arrivals, s.told[..i]), Stamp(First(s, i), OpsOfOne(s.arrivals[i]));
    assert front + mine <= s.mem;
    assert forall k | 0 <= k < |mine| :: s.mem[|front| + k] == (front + mine)[|front| + k] == mine[k];
  }

  /** Later in the queue is later in sequence, without overlap. */
  lemma {:induction false} SequencesFollowTheQueue(s: State, i: nat, j: nat)
    requires Inv(s) && i < j < |s.told| && !s.told[i].NoRoom?
    ensures First(s, i) + |OpsOfOne(s.arrivals[i])| <= First(s, j)
    ensures First(s, j) + (if s.told[j].NoRoom? then 0 else |OpsOfOne(s.arrivals[j])|) <= s.lastSequence + 1
  {
    hide Applied, OpsOfOne;
    ConsumedMonotone(s.arrivals, s.told[..j], i);
    assert s.told[..j][..i] == s.told[..i];
    ConsumedMonotone(s.arrivals, s.told, j);
  }

  /** Where an applied write comes from. */
  lemma {:induction false} AppliedHasWriter(arrivals: seq<Request>, told: seq<Outcome>, e: Stamped) returns (i: nat)
    requires |told| <= |arrivals| && e in Applied(arrivals, told)
    ensures i < |told| && told[i].Written? && e in Stamp(Consumed(arrivals, told[..i]) + 1, OpsOfOne(arrivals[i]))
  {
    hide Stamp, OpsOfOne;
    var n := |told| - 1;
    if e in Applied(arrivals, told[..n]) {
      i := AppliedHasWriter(arrivals, told[..n], e);
      assert told[..n][..i] == told[..i];
    } else {
      i := n;
    }
  }

  lemma {:induction false} StampRange(first: nat, ops: seq<Op>, e: Stamped)
    requires e in Stamp(first, ops)
    ensures first <= e.sequence < first + |ops|
  {
  }

  /** A writer that was told of a failure left nothing behind: its sequences stay unused. */
  lemma {:induction false} FailedLeavesNothing(s: State, i: nat, e: Stamped)
    requires Inv(s) && i < |s.told| && s.told[i].Failed? && e in s.mem
    ensures !(First(s, i) <= e.sequence < First(s, i) + |OpsOfOne(s.arrivals[i])|)
  {
    hide Applied, Consumed, Done, OpsOf, PhaseOk, LogOk, AllTold, OpsOfOne, Stamp;
    ConsumedMonotone(s.arrivals, s.told, i);
    if e in Applied(s.arrivals, s.told) {
      var j := AppliedHasWriter(s.arrivals, s.told, e);
      StampRange(First(s, j), OpsOfOne(s.arrivals[j]), e);
      if i < j {
        SequencesFollowTheQueue(s, i, j);
      } else if j < i {
        SequencesFollowTheQueue(s, j, i);
      }
    } else {
      DoneIsNew(s);
      assert e in Done(s);
    }
  }

  // ----- Runs

  ghost predicate IsRun(states: seq<State>, events: seq<Event>) {
    && |states| == |events| + 1 && Initial(states[0])
    && forall i | 0 <= i < |events| :: Step(states[i], events[i], states[i + 1])
  }

  lemma {:induction false} InitialInv(s: State)
    requires Initial(s)
    ensures Inv(s)
  {
  }

  lemma {:induction false} RunKeepsInv(states: seq<State>, events: seq<Event>, n: nat)
    requires IsRun(states, events) && n < |states|
    ensures Inv(states[n])
  {
    hide Inv, Step;
    if n == 0 {
      InitialInv(states[0]);
    } else {
      RunKeepsInv(states, events, n - 1);
      StepKeepsInv(states[n - 1], events[n - 1], states[n]);
    }
  }

  /** In every interleaving: the acknowledged batches, once each, in queue order, are what a reader sees. */
  lemma {:induction false} EveryRunAppliesInQueueOrder(states: seq<State>, events: seq<Event>, n: nat, i: nat)
    requires IsRun(states, events) && n < |states| && i < |states[n].told|
    ensures var s := states[n];
      && |s.told| <= |s.arrivals| && Visible(s.mem, s.lastSequence) == Applied(s.arrivals, s.told) && Ascending(s.mem)
      && (s.told[i].Written? ==>
            var at, ops := |Applied(s.arrivals, s.told[..i])|, OpsOfOne(s.arrivals[i]);
            at + |ops| <= |s.mem| && s.mem[at..at + |ops|] == Stamp(First(s, i), ops))
  {
    hide Step, Applied, Visible, Consumed, Stamp, PhaseOk, MemOk, LogOk, AllTold, OpsOfOne;
    RunKeepsInv(states, events, n);
    ReadersSeeWholeBatches(states[n]);
    MemIsAscending(states[n]);
    if states[n].told[i].Written? {
      WrittenOnce(states[n], i);
    }
  }

  /** A snapshot taken at any moment of a run reads the same whole batches for ever. */
  lemma {:induction false} EveryRunKeepsSnapshots(states: seq<State>, events: seq<Event>, n: nat, m: nat)
    requires IsRun(states, events) && n <= m < |states|
    ensures |states[n].told| <= |states[n].arrivals|
    ensures Visible(states[m].mem, states[n].lastSequence) == Applied(states[n].arrivals, states[n].told)
    ensures states[n].lastSequence <= states[m].lastSequence
    decreases m
  {
    hide Step, Applied, Visible, PhaseOk, MemOk, LogOk, AllTold;
    RunKeepsInv(states, events, n);
    if n == m {
      ReadersSeeWholeBatches(states[n]);
    } else {
      EveryRunKeepsSnapshots(states, events, n, m - 1);
      RunKeepsInv(states, events, m - 1);
      StepKeepsSnapshot(states[m - 1], events[m - 1], states[m], states[n].lastSequence);
    }
  }

  /** A sync write that was acknowledged is in a log record that has been synced, and stays there. */
  lemma {:induction false} EveryRunSyncsWhatItPromised(states: seq<State>, events: seq<Event>, n: nat, i: nat)
    requires IsRun(states, events) && n < |states| && i < |states[n].told| && states[n].told[i].Written?
    ensures var s := states[n];
      && |s.told| <= |s.arrivals|
      && (s.arrivals[i].sync ==>
            var record := s.told[i].record;
            record in s.durable && record < |s.log|
            && forall j | 0 <= j < |OpsOfOne(s.arrivals[i])| ::
                 Stamped(First(s, i) + j, OpsOfOne(s.arrivals[i])[j]) in EntriesOf(s.log[record]))
  {
    hide Step, PhaseOk, MemOk, LogOk, EntriesOf, Consumed;
    RunKeepsInv(states, events, n);
    assert ToldOk(states[n], i);
  }

  /** Whenever no write is in flight and no sync has failed, replaying the log rebuilds the memtable. */
  lemma {:induction false} EveryRunLogsAhead(states: seq<State>, events: seq<Event>, n: nat)
    requires IsRun(states, events) && n < |states|
    ensures LogEntries(states[n].log) == states[n].mem + Logged(states[n]) + states[n].unsure
    ensures states[n].phase.Idle? && !states[n].broken ==> LogEntries(states[n].log) == states[n].mem
  {
    hide Step, LogEntries, PhaseOk, MemOk, AllTold, Consumed;
    RunKeepsInv(states, events, n);
    if states[n].phase.Idle? && !states[n].broken {
      assert states[n].mem + [] + [] == states[n].mem;
    }
  }
}
