/** Group commit below the engine's single write step: a finished group is one batch of the engine. */
module EngineWrites {
  import opened Coding
  import opened Options
  import opened InternalKeys
  import B = WriteBatches
  import Q = WriteQueue
  import QS = WriteQueueSteps
  import V = Versions
  import S = Store
  import M = Machine
  import R = Recovery

  // ----- The engine's view of writes on bytes

  // The engine knows keys by their order only; a code gives every byte string a key of its own.
  datatype Code = Code(user: Bytes -> UserKey, text: Bytes -> string)

  ghost predicate Distinguishes(code: Code) {
    forall a, b :: code.user(a) == code.user(b) ==> a == b
  }

  function Translate(op: B.Op, code: Code): S.Op {
    match op
    case Put(key, value) => S.Op(code.user(key), Put, code.text(value))
    case Delete(key) => S.Op(code.user(key), Deletion, "")
  }

  function TranslateAll(ops: seq<B.Op>, code: Code): seq<S.Op> {
    seq(|ops|, i requires 0 <= i < |ops| => Translate(ops[i], code))
  }

  /** The history that stamped writes stand for. */
  function History(stamps: seq<B.Stamped>, code: Code): seq<S.Op> {
    seq(|stamps|, i requires 0 <= i < |stamps| => Translate(stamps[i].op, code))
  }

  /** Every batch that used up sequences was written. */
  ghost predicate AllApplied(arrivals: seq<Q.Request>, told: seq<Q.Outcome>)
    requires |told| <= |arrivals|
  {
    forall i | 0 <= i < |told| :: told[i].Written? || told[i].NoRoom? || Q.OpsOfOne(arrivals[i]) == []
  }

  ghost predicate Dense(stamps: seq<B.Stamped>, last: nat) {
    |stamps| == last && forall i | 0 <= i < |stamps| :: stamps[i].sequence == i + 1
  }

  /** Then the writes carry the sequences 1, 2, 3 and so on. */
  lemma {:induction false} AppliedIsDense(arrivals: seq<Q.Request>, told: seq<Q.Outcome>)
    requires |told| <= |arrivals| && AllApplied(arrivals, told)
    ensures Dense(Q.Applied(arrivals, told), Q.Consumed(arrivals, told))
  {
    hide Q.OpsOfOne;
    if told != [] {
      AppliedIsDense(arrivals, told[..|told| - 1]);
    }
  }

  // ----- Steps of the queue are steps of the engine

  /** The engine has exactly the acknowledged writes. */
  ghost predicate Matches(q: Q.State, m: M.State, code: Code)
    requires |q.told| <= |q.arrivals|
  {
    m.ops == History(Q.Applied(q.arrivals, q.told), code)
  }

  /** The step that publishes the sequences of a written group. */
  ghost predicate Publishes(q: Q.State, e: Q.Event) {
    e.Finish? && q.phase.Finishing? && q.phase.outcome.Written?
  }

  lemma {:induction false} HistoryAppend(a: seq<B.Stamped>, first: nat, ops: seq<B.Op>, code: Code)
    ensures History(a + B.Stamp(first, ops), code) == History(a, code) + TranslateAll(ops, code)
  {
  }

  /** Publishing a written group is one write step of the engine, with the writes of the whole group. */
  lemma {:induction false} FinishIsWriteStep(q: Q.State, q': Q.State, m: M.State, code: Code) returns (m': M.State)
    requires Q.Inv(q) && Q.Step(q, Q.Finish, q') && Publishes(q, Q.Finish)
    requires M.Inv(m) && Matches(q, m, code) && |m.ops| + |Q.OpsOf(Q.Group(q))| < MAX_SEQUENCE
    ensures M.WriteStep(m, m', TranslateAll(Q.OpsOf(Q.Group(q)), code))
    ensures |q'.told| <= |q'.arrivals| && Matches(q', m', code)
  {
    hide Q.Applied, Q.Consumed, Q.OpsOf, B.Stamp, Q.LogOk, Q.MemOk, Q.AllTold, Q.ValidGroup, Q.RecordOk, M.ValidTablesOf, M.ValidNumbers, M.ReadsAgree;
    QS.ToldTogether(q.arrivals, q.told, q.phase.count, q.phase.outcome);
    QS.GroupFits(q);
    HistoryAppend(Q.Applied(q.arrivals, q.told), Q.Consumed(q.arrivals, q.told) + 1, Q.OpsOf(Q.Group(q)), code);
    m' := M.Written(m, TranslateAll(Q.OpsOf(Q.Group(q)), code));
  }

  /** Nothing else that happens in the queue is seen by the engine. */
  lemma {:induction false} OtherStepsAreSilent(q: Q.State, e: Q.Event, q': Q.State)
    requires Q.Inv(q) && Q.Step(q, e, q') && !Publishes(q, e)
    ensures |q'.told| <= |q'.arrivals| && Q.Applied(q'.arrivals, q'.told) == Q.Applied(q.arrivals, q.told)
  {
    hide Q.Applied, Q.Consumed, Q.OpsOf, B.Stamp, Q.LogOk, Q.MemOk, Q.AllTold, Q.ValidGroup, Q.RecordOk;
    match e
    case Join(r) => QS.MoreArrivals(q.arrivals, [r], q.told);
    case Refuse => QS.ToldOneMore(q.arrivals, q.told, Q.NoRoom);
    case Pass => QS.ToldOneMore(q.arrivals, q.told, Q.Passed);
    case Finish =>
      QS.GroupFits(q);
      QS.ToldTogether(q.arrivals, q.told, q.phase.count, q.phase.outcome);
    case _ =>
  }

  lemma {:induction false} AppliedGrows(q: Q.State, e: Q.Event, q': Q.State)
    requires Q.Inv(q) && Q.Step(q, e, q') && Publishes(q, e)
    ensures |q'.told| <= |q'.arrivals|
    ensures |Q.Applied(q'.arrivals, q'.told)| == |Q.Applied(q.arrivals, q.told)| + |Q.OpsOf(Q.Group(q))|
  {
    hide Q.Applied, Q.Consumed, Q.OpsOf, Q.LogOk, Q.MemOk, Q.AllTold, Q.ValidGroup, Q.RecordOk;
    QS.GroupFits(q);
    QS.ToldTogether(q.arrivals, q.told, q.phase.count, q.phase.outcome);
  }

  lemma {:induction false} RunGoesOn(states: seq<M.State>, events: seq<M.Event>, e: M.Event, m': M.State)
    requires R.IsRun(states, events) && M.Step(states[|events|], e, m')
    ensures R.IsRun(states + [m'], events + [e])
  {
    hide M.Step, R.Initial;
    forall i | 0 <= i < |events| + 1 ensures M.Step((states + [m'])[i], (events + [e])[i], (states + [m'])[i + 1]) {
      if i < |events| {
        assert M.Step(states[i], events[i], states[i + 1]);
      }
    }
  }

  lemma {:induction false} StartsMatching(q: Q.State, code: Code) returns (m: M.State)
    requires Q.Initial(q)
    ensures R.Initial(m) && Matches(q, m, code)
  {
    m := M.State([], 0, 0, S.Tables([], None, seq(V.NUM_LEVELS, _ => [])), 0, [], 4, [M.LogFile(3, [])], 3, 0, 4);
  }

  lemma {:induction false} OneState(m: M.State) returns (states: seq<M.State>, events: seq<M.Event>)
    requires R.Initial(m)
    ensures R.IsRun(states, events) && states[|events|] == m && events == []
  {
    states, events := [m], [];
  }

  lemma {:induction false} InvCounts(q: Q.State)
    requires Q.Inv(q)
    ensures |q.told| <= |q.arrivals|
  {
  }

  lemma {:induction false} RunLength(states: seq<M.State>, events: seq<M.Event>)
    requires R.IsRun(states, events)
    ensures |states| == |events| + 1
  {
  }

  lemma {:induction false} MatchingLength(q: Q.State, m: M.State, code: Code)
    requires |q.told| <= |q.arrivals| && Matches(q, m, code)
    ensures |m.ops| == |Q.Applied(q.arrivals, q.told)|
  {
  }

  lemma {:induction false} StillMatches(q: Q.State, q': Q.State, m: M.State, code: Code)
    requires |q.told| <= |q.arrivals| && |q'.told| <= |q'.arrivals| && Matches(q, m, code)
    requires Q.Applied(q'.arrivals, q'.told) == Q.Applied(q.arrivals, q.told)
    ensures Matches(q', m, code)
  {
  }

  lemma {:induction false} FollowFinish(q: Q.State, q': Q.State, states: seq<M.State>, events: seq<M.Event>, code: Code)
    returns (states': seq<M.State>, events': seq<M.Event>)
    requires Q.Inv(q) && Q.Step(q, Q.Finish, q') && Publishes(q, Q.Finish)
    requires R.IsRun(states, events) && |states| == |events| + 1 && M.Inv(states[|events|]) && Matches(q, states[|events|], code)
    requires |states[|events|].ops| + |Q.OpsOf(Q.Group(q))| < MAX_SEQUENCE && forall e | e in events :: e.WriteBatch?
    ensures R.IsRun(states', events') && |states'| == |events'| + 1 && |q'.told| <= |q'.arrivals| && Matches(q', states'[|events'|], code)
    ensures forall e | e in events' :: e.WriteBatch?
  {
    hide Q.Inv, Q.Step, Q.OpsOf, R.IsRun, Matches, M.WriteStep, M.Inv;
    var m' := FinishIsWriteStep(q, q', states[|events|], code);
    var e := M.WriteBatch(TranslateAll(Q.OpsOf(Q.Group(q)), code));
    RunGoesOn(states, events, e, m');
    states', events' := states + [m'], events + [e];
  }

  /** Every interleaving of writers is followed by a run of the engine that takes its groups as batches. */
  lemma {:induction false} EngineFollowsTheQueue(queues: seq<Q.State>, moves: seq<Q.Event>, n: nat, code: Code)
    returns (states: seq<M.State>, events: seq<M.Event>)
    requires QS.IsRun(queues, moves) && n < |queues|
    requires |queues[n].told| <= |queues[n].arrivals| && |Q.Applied(queues[n].arrivals, queues[n].told)| < MAX_SEQUENCE
    ensures R.IsRun(states, events) && |states| == |events| + 1 && Matches(queues[n], states[|events|], code)
    ensures forall e | e in events :: e.WriteBatch?
  {
    hide Q.Inv, Q.Step, Q.Applied, Q.OpsOf, R.IsRun, Matches, M.WriteStep, M.Inv, Q.Initial;
    if n == 0 {
      var m := StartsMatching(queues[0], code);
      states, events := OneState(m);
    } else {
      var q, e, q' := queues[n - 1], moves[n - 1], queues[n];
      QS.RunKeepsInv(queues, moves, n - 1);
      InvCounts(q);
      if Publishes(q, e) {
        AppliedGrows(q, e, q');
        states, events := EngineFollowsTheQueue(queues, moves, n - 1, code);
        R.RunKeepsInv(states, events, |events|);
        MatchingLength(q, states[|events|], code);
        states, events := FollowFinish(q, q', states, events, code);
      } else {
        OtherStepsAreSilent(q, e, q');
        states, events := EngineFollowsTheQueue(queues, moves, n - 1, code);
        StillMatches(q, q', states[|events|], code);
      }
    }
  }

  // ----- What a reader of the engine gets

  /** The newest of the stamped writes to a key. */
  function NewestWrite(stamps: seq<B.Stamped>, key: Bytes): Option<B.Op> {
    if stamps == [] then None
    else
      var n := |stamps| - 1;
      if stamps[n].op.key == key then Some(stamps[n].op) else NewestWrite(stamps[..n], key)
  }

  function ValueOf(op: Option<B.Op>, code: Code): Option<string> {
    if op.Some? && op.value.Put? then Some(code.text(op.value.value)) else None
  }

  lemma {:induction false} HistoryReadsNewest(stamps: seq<B.Stamped>, key: Bytes, n: nat, code: Code)
    requires n <= |stamps| && Distinguishes(code)
    ensures S.HistoryRead(History(stamps, code), code.user(key), n) == ValueOf(NewestWrite(stamps[..n], key), code)
  {
    if n > 0 {
      HistoryReadsNewest(stamps, key, n - 1, code);
      assert stamps[..n][..n - 1] == stamps[..n - 1] && stamps[..n][n - 1] == stamps[n - 1];
      assert code.user(stamps[n - 1].op.key) == code.user(key) <==> stamps[n - 1].op.key == key;
    }
  }

  /** At a snapshot a reader sees the acknowledged writes up to it. */
  lemma {:induction false} VisibleIsPrefix(q: Q.State, sn: nat)
    requires Q.Inv(q) && AllApplied(q.arrivals, q.told) && sn <= q.lastSequence
    ensures var all := Q.Applied(q.arrivals, q.told);
      sn <= |all| && QS.Visible(q.mem, sn) == all[..sn]
  {
    hide Q.Applied, Q.Consumed, Q.OpsOf, Q.OpsOfOne, QS.Visible, B.Stamp, Q.LogOk, Q.AllTold, Q.PhaseOk, Q.Done;
    var all := Q.Applied(q.arrivals, q.told);
    AppliedIsDense(q.arrivals, q.told);
    QS.DoneIsNew(q);
    assert q.mem == all[..sn] + (all[sn..] + Q.Done(q));
    QS.VisibleAppend(all[..sn], all[sn..] + Q.Done(q), sn);
    QS.AllVisible(all[..sn], sn);
    QS.NoneVisible(all[sn..] + Q.Done(q), sn, q.lastSequence + |Q.OpsOf(Q.Group(q))|);
  }

  /**
   * From the writers' batches to the tables: whatever the queue and the engine have been through, if
   * the engine has the acknowledged writes, a read at a live snapshot or at the present finds the
   * newest of the whole batches that were acknowledged by then.
   */
  lemma {:induction false} ReadsFindTheNewestBatch(queues: seq<Q.State>, moves: seq<Q.Event>, i: nat,
                                                   states: seq<M.State>, events: seq<M.Event>, n: nat, code: Code, key: Bytes, sn: nat)
    requires QS.IsRun(queues, moves) && i < |queues| && R.IsRun(states, events) && n < |states| && Distinguishes(code)
    requires |queues[i].told| <= |queues[i].arrivals| && AllApplied(queues[i].arrivals, queues[i].told)
    requires Matches(queues[i], states[n], code)
    requires sn in states[n].snapshots || sn == states[n].lastSequence
    ensures states[n].lastSequence == queues[i].lastSequence && M.Inv(states[n])
    ensures S.TablesGet(states[n].tables, code.user(key), sn) == ValueOf(NewestWrite(QS.Visible(queues[i].mem, sn), key), code)
  {
    hide Q.PhaseOk, Q.MemOk, Q.LogOk, Q.AllTold, Q.Applied, Q.Consumed, QS.IsRun, R.IsRun, S.TablesGet, M.ValidTablesOf, M.ValidLogs, M.ReadsAgree, NewestWrite, QS.Visible, S.HistoryRead, AllApplied, Distinguishes;
    var q, m := queues[i], states[n];
    QS.RunKeepsInv(queues, moves, i);
    R.EveryRunReadsItsHistory(states, events, n, code.user(key), sn);
    AppliedIsDense(q.arrivals, q.told);
    VisibleIsPrefix(q, sn);
    HistoryReadsNewest(Q.Applied(q.arrivals, q.told), key, sn, code);
  }
}
