/** What a background call does to the table files from its start to its end. */
module FileLifetimes {
  import opened Options
  import opened ObsoleteFiles

  // ----- What is pending

  /** The table that a flush builds and the outputs of a compaction. */
  function PendingOf(c: Call): set<nat> {
    (if c.flush.Some? && c.flush.value.Building? then {c.flush.value.number} else {})
      + (if c.work.Some? then c.work.value.outputs else {})
  }

  ghost predicate PendingExact(s: State) {
    s.pending == if |s.calls| == 1 then PendingOf(s.calls[0]) else {}
  }

  predicate OfFlush(e: Event) {
    e.StartFlush? || e.BuildTable? || e.LogFlush? || e.InstallFlush? || e.CollectAfterFlush?
  }

  lemma {:induction false} FlushKeepsPending(s: State, e: Event)
    requires OneCall(s) && PendingExact(s) && Enabled(s, e) && OfFlush(e)
    requires |s.calls| == 1 ==> NumbersApart(s.calls[0])
    ensures PendingExact(After(s, e))
  {
    hide Listed, Live;
  }

  lemma {:induction false} OthersKeepPending(s: State, e: Event)
    requires OneCall(s) && PendingExact(s) && Enabled(s, e) && !OfFlush(e)
    ensures PendingExact(After(s, e))
  {
    hide Listed, Live;
  }

  lemma {:induction false} StepKeepsPending(s: State, e: Event, s': State)
    requires Inv(s) && PendingExact(s) && Step(s, e, s')
    ensures PendingExact(s')
  {
    hide PendingExact, Enabled, After, NumbersApart;
    if |s.calls| == 1 {
      FlushNumberIsOwn(s);
    }
    if OfFlush(e) {
      FlushKeepsPending(s, e);
    } else {
      OthersKeepPending(s, e);
    }
  }

  /** The table that is being built is not an output of the compaction. */
  ghost predicate NumbersApart(c: Call) {
    c.flush.Some? && c.flush.value.Building? && c.work.Some? ==> c.flush.value.number !in c.work.value.outputs
  }

  lemma {:induction false} FlushNumberIsOwn(s: State)
    requires Inv(s) && |s.calls| == 1
    ensures NumbersApart(s.calls[0])
  {
    hide CountsHolders, TablesOnDisk;
    assert CallSafe(s, s.calls[0]);
  }

  /** In every run the pending outputs are exactly those that the background call still writes; without a call there are none. */
  lemma {:induction false} EveryPendingOutputIsBeingWritten(states: seq<State>, events: seq<Event>, n: nat)
    requires IsRun(states, events) && n < |states|
    ensures PendingExact(states[n])
  {
    hide Step, Inv, PendingExact;
    if n == 0 {
      assert PendingExact(states[0]) by {
        NothingPending(states[0]);
      }
    } else {
      EveryPendingOutputIsBeingWritten(states, events, n - 1);
      RunKeepsInv(states, events, n - 1);
      StepKeepsPending(states[n - 1], events[n - 1], states[n]);
    }
  }

  lemma {:induction false} NothingPending(s: State)
    requires Initial(s)
    ensures PendingExact(s)
  {
  }

  // ----- After an error

  predicate Fails(e: Event) {
    match e
    case BuildTable(_, _, ok) => !ok
    case InstallFlush(_, ok) => !ok
    case OpenOutput(_, ok) => !ok
    case InstallWork(_, ok) => !ok
    case AbandonWork(_) => true
    case _ => false
  }

  /** An error is remembered, installs nothing, and from then on no table is deleted. */
  lemma {:induction false} ErrorsStopDeletion(s: State, e: Event, s': State)
    requires Step(s, e, s')
    ensures s'.broken <==> s.broken || Fails(e)
    ensures s.broken ==> s.disk <= s'.disk
    ensures Fails(e) ==> s'.versions == s.versions && s'.current == s.current && s'.disk >= s.disk
  {
    hide Enabled, Live;
  }

  /** After a failed step of a run everything that was on disk then stays there. */
  lemma {:induction false} NothingIsDeletedAfterAnError(states: seq<State>, events: seq<Event>, k: nat, n: nat)
    requires IsRun(states, events) && k < n < |states| && Fails(events[k])
    ensures states[n].broken && states[k].disk <= states[n].disk
    decreases n
  {
    hide Step, Initial, Fails;
    ErrorsStopDeletion(states[n - 1], events[n - 1], states[n]);
    if k < n - 1 {
      NothingIsDeletedAfterAnError(states, events, k, n - 1);
    }
  }

  // ----- A whole flush and a whole compaction

  ghost predicate Steps(states: seq<State>, events: seq<Event>) {
    |states| == |events| + 1 && forall i | 0 <= i < |events| :: Step(states[i], events[i], states[i + 1])
  }

  lemma {:induction false} OneMoreStep(states: seq<State>, events: seq<Event>, e: Event)
    requires Steps(states, events) && Enabled(states[|events|], e)
    ensures Steps(states + [After(states[|events|], e)], events + [e])
  {
    hide Enabled, After;
    var s := states[|events|];
    var more := states + [After(s, e)];
    forall i | 0 <= i < |events| + 1 ensures Step(more[i], (events + [e])[i], more[i + 1]) {
    }
  }

  lemma {:induction false} Takes(s: State, e: Event)
    requires Inv(s) && Enabled(s, e)
    ensures Step(s, e, After(s, e)) && Inv(After(s, e))
  {
    hide Inv, Enabled, After;
    StepKeepsInv(s, e, After(s, e));
  }

  lemma {:induction false} ReadyToStep(s: State)
    requires Inv(s)
    ensures Listed(s) && s.current < |s.versions| && s.versions[s.current] <= s.disk
  {
    CurrentListed(s);
  }

  // A flush

  lemma {:induction false} BuildingIsListed(s: State)
    requires Inv(s) && |s.calls| == 1 && s.calls[0].flush.Some? && s.calls[0].flush.value.Building?
    ensures s.calls[0].flush.value.base in s.refs
  {
    assert Holders(s, s.calls[0].flush.value.base) > 0;
  }

  lemma {:induction false} FlushBuilds(s: State) returns (s1: State, s2: State)
    requires Inv(s) && s.calls == [Call(None, None)] && s.pending == {}
    ensures Step(s, StartFlush(0), s1) && Step(s1, BuildTable(0, true, true), s2) && Inv(s2)
    ensures s2 == s.(calls := [Call(Some(Built(s.nextFile, true)), None)], disk := s.disk + {s.nextFile}, nextFile := s.nextFile + 1, refs := s2.refs)
  {
    hide Inv, Step;
    ReadyToStep(s);
    s1 := After(s, StartFlush(0));
    Takes(s, StartFlush(0));
    ReadyToStep(s1);
    BuildingIsListed(s1);
    s2 := After(s1, BuildTable(0, true, true));
    Takes(s1, BuildTable(0, true, true));
  }

  lemma {:induction false} FlushInstalls(s: State, number: nat) returns (s1: State, s2: State)
    requires Inv(s) && s.calls == [Call(Some(Built(number, true)), None)]
    ensures s.current < |s.versions|
    ensures Step(s, LogFlush(0), s1) && Step(s1, InstallFlush(0, true), s2) && Inv(s2)
    ensures s2.calls == [Call(Some(FlushInstalled), None)] && s2.pending == s.pending && s2.broken == s.broken
    ensures s2.current < |s2.versions| && s2.versions[s2.current] == s.versions[s.current] + {number}
  {
    hide Inv, Step;
    ReadyToStep(s);
    s1 := After(s, LogFlush(0));
    Takes(s, LogFlush(0));
    ReadyToStep(s1);
    s2 := After(s1, InstallFlush(0, true));
    Takes(s1, InstallFlush(0, true));
  }

  lemma {:induction false} FlushCollects(s: State) returns (s1: State)
    requires Inv(s) && s.calls == [Call(Some(FlushInstalled), None)]
    ensures Step(s, CollectAfterFlush(0), s1) && Inv(s1)
    ensures s1 == s.(calls := [Call(None, None)], disk := s1.disk)
  {
    hide Inv, Step;
    ReadyToStep(s);
    s1 := After(s, CollectAfterFlush(0));
    Takes(s, CollectAfterFlush(0));
  }

  /** A flush that meets no error adds one table to the current version, and the table is on disk. */
  lemma {:induction false} FlushAddsItsTable(s: State) returns (states: seq<State>)
    requires Inv(s) && s.calls == [Call(None, None)] && s.pending == {}
    ensures |states| == 6 && states[0] == s && s.current < |s.versions|
    ensures Steps(states, [StartFlush(0), BuildTable(0, true, true), LogFlush(0), InstallFlush(0, true), CollectAfterFlush(0)])
    ensures var t := states[5];
      && t.calls == s.calls && t.pending == {} && t.broken == s.broken && t.current < |t.versions|
      && t.versions[t.current] == s.versions[s.current] + {s.nextFile} && t.versions[t.current] <= t.disk
  {
    hide Inv, Step;
    var s1, s2 := FlushBuilds(s);
    var s3, s4 := FlushInstalls(s2, s.nextFile);
    var s5 := FlushCollects(s4);
    ReadyToStep(s5);
    states := [s, s1, s2, s3, s4, s5];
  }

  // A compaction

  /** The numbers from `first` on. */
  function Numbers(first: nat, n: nat): (r: set<nat>)
    ensures forall x :: x in r <==> first <= x < first + n
  {
    if n == 0 then {} else Numbers(first, n - 1) + {first + n - 1}
  }

  function Opens(n: nat): seq<Event> {
    if n == 0 then [] else Opens(n - 1) + [OpenOutput(0, true)]
  }

  lemma {:induction false} OpenOne(s: State, w: Work)
    requires Inv(s) && s.calls == [Call(None, Some(w))] && w.Merging?
    ensures Enabled(s, OpenOutput(0, true))
    ensures After(s, OpenOutput(0, true)) ==
      s.(calls := [Call(None, Some(Merging(w.input, w.inputs, w.outputs + {s.nextFile})))],
         pending := s.pending + {s.nextFile}, disk := s.disk + {s.nextFile}, nextFile := s.nextFile + 1)
  {
    hide Inv;
    ReadyToStep(s);
  }

  /** The state with n more outputs open. */
  function WithOutputs(s: State, w: Work, n: nat): State
    requires w.Merging?
  {
    var outs := Numbers(s.nextFile, n);
    s.(calls := [Call(None, Some(Merging(w.input, w.inputs, w.outputs + outs)))],
       pending := s.pending + outs, disk := s.disk + outs, nextFile := s.nextFile + n)
  }

  lemma {:induction false} OneMoreOutput(s: State, w: Work, n: nat)
    requires w.Merging?
    ensures var t := WithOutputs(s, w, n);
      WithOutputs(s, w, n + 1) ==
        t.(calls := [Call(None, Some(Merging(w.input, w.inputs, w.outputs + Numbers(s.nextFile, n) + {t.nextFile})))],
           pending := t.pending + {t.nextFile}, disk := t.disk + {t.nextFile}, nextFile := t.nextFile + 1)
  {
    var before, one := Numbers(s.nextFile, n), {s.nextFile + n};
    assert Numbers(s.nextFile, n + 1) == before + one;
    assert (w.outputs + before) + one == w.outputs + (before + one);
    assert (s.pending + before) + one == s.pending + (before + one) && (s.disk + before) + one == s.disk + (before + one);
  }

  /** A merge that opens n outputs. */
  lemma {:induction false} OpenMany(s: State, w: Work, n: nat) returns (states: seq<State>)
    requires Inv(s) && s.calls == [Call(None, Some(w))] && w.Merging?
    ensures Steps(states, Opens(n)) && states[0] == s && Inv(states[|Opens(n)|])
    ensures states[|Opens(n)|] == WithOutputs(s, w, n)
  {
    hide Inv, Step, Enabled, After;
    if n == 0 {
      states := [s];
      assert w.outputs + {} == w.outputs && s.pending + {} == s.pending && s.disk + {} == s.disk;
    } else {
      states := OpenMany(s, w, n - 1);
      var last := states[|Opens(n - 1)|];
      OpenOne(last, last.calls[0].work.value);
      Takes(last, OpenOutput(0, true));
      OneMoreStep(states, Opens(n - 1), OpenOutput(0, true));
      OneMoreOutput(s, w, n - 1);
      states := states + [After(last, OpenOutput(0, true))];
    }
  }

  lemma {:induction false} InputIsListed(s: State)
    requires Inv(s) && |s.calls| == 1 && s.calls[0].work.Some?
    ensures s.calls[0].work.value.input in s.refs
  {
    assert Holders(s, s.calls[0].work.value.input) > 0;
  }

  lemma {:induction false} CompactionStarts(s: State, inputs: set<nat>) returns (s1: State)
    requires Inv(s) && s.calls == [Call(None, None)] && s.current < |s.versions| && inputs <= s.versions[s.current]
    ensures Step(s, StartWork(0, inputs), s1) && Inv(s1)
    ensures s1 == s.(calls := [Call(None, Some(Merging(s.current, inputs, {})))], refs := s1.refs)
  {
    hide Inv, Step;
    ReadyToStep(s);
    s1 := After(s, StartWork(0, inputs));
    Takes(s, StartWork(0, inputs));
  }

  lemma {:induction false} CompactionInstalls(s: State, w: Work) returns (s1: State, s2: State)
    requires Inv(s) && s.calls == [Call(None, Some(w))] && w.Merging?
    ensures s.current < |s.versions|
    ensures Step(s, LogWork(0), s1) && Step(s1, InstallWork(0, true), s2) && Inv(s2)
    ensures s2.calls == [Call(None, Some(WorkOver(w.input, w.outputs)))] && s2.pending == s.pending && s2.broken == s.broken
    ensures s2.current < |s2.versions| && s2.versions[s2.current] == s.versions[s.current] - w.inputs + w.outputs
  {
    hide Inv, Step;
    ReadyToStep(s);
    s1 := After(s, LogWork(0));
    Takes(s, LogWork(0));
    ReadyToStep(s1);
    s2 := After(s1, InstallWork(0, true));
    Takes(s1, InstallWork(0, true));
  }

  /** Every table on disk belongs to a listed version. */
  ghost predicate OnlyListedOnDisk(s: State) {
    forall f | f in s.disk :: exists v :: v in s.refs && v < |s.versions| && f in s.versions[v]
  }

  lemma {:induction false} CompactionCollects(s: State, w: Work) returns (s1: State)
    requires Inv(s) && s.calls == [Call(None, Some(w))] && w.WorkOver? && s.pending == w.outputs && !s.broken
    ensures Step(s, FinishWork(0, true), s1) && Inv(s1)
    ensures s1 == s.(calls := [Call(None, None)], pending := {}, refs := s1.refs, disk := s1.disk) && OnlyListedOnDisk(s1)
  {
    hide Inv, Step;
    ReadyToStep(s);
    InputIsListed(s);
    s1 := After(s, FinishWork(0, true));
    Takes(s, FinishWork(0, true));
    assert s.pending - w.outputs == {};
    assert s1.calls == [Call(None, None)];
    assert OnlyListedOnDisk(s1);
  }

  function CompactionEvents(inputs: set<nat>, n: nat): seq<Event> {
    [StartWork(0, inputs)] + Opens(n) + [LogWork(0), InstallWork(0, true), FinishWork(0, true)]
  }

  lemma {:induction false} StepsInARow(first: State, e: Event, states: seq<State>, events: seq<Event>, s1: State, s2: State, s3: State)
    requires Steps(states, events) && Step(first, e, states[0])
    requires Step(states[|events|], LogWork(0), s1) && Step(s1, InstallWork(0, true), s2) && Step(s2, FinishWork(0, true), s3)
    ensures Steps([first] + states + [s1, s2, s3], [e] + events + [LogWork(0), InstallWork(0, true), FinishWork(0, true)])
  {
    hide Step;
    var all, row := [first] + states + [s1, s2, s3], [e] + events + [LogWork(0), InstallWork(0, true), FinishWork(0, true)];
    var n := |events|;
    forall i | 0 <= i < |row| ensures Step(all[i], row[i], all[i + 1]) {
      if 1 <= i <= n {
        assert all[i] == states[i - 1] && all[i + 1] == states[i] && row[i] == events[i - 1];
      } else if i == 0 {
        assert all[1] == states[0];
      } else {
        assert all[n + 1] == states[n] && all[n + 2] == s1 && all[n + 3] == s2 && all[n + 4] == s3;
        assert row[n + 1] == LogWork(0) && row[n + 2] == InstallWork(0, true) && row[n + 3] == FinishWork(0, true);
      }
    }
  }

  /**
   * A compaction that meets no error puts its outputs in the place of its inputs. What is left on disk
   * afterwards belongs to a listed version: an input stays only while someone holds a version that has it.
   */
  lemma {:induction false} CompactionReplacesItsInputs(s: State, inputs: set<nat>, n: nat) returns (states: seq<State>)
    requires Inv(s) && s.calls == [Call(None, None)] && s.pending == {} && !s.broken
    requires s.current < |s.versions| && inputs <= s.versions[s.current]
    ensures Steps(states, CompactionEvents(inputs, n)) && states[0] == s
    ensures var t, outputs := states[|states| - 1], Numbers(s.nextFile, n);
      && t.calls == s.calls && t.pending == {} && !t.broken && t.current < |t.versions|
      && t.versions[t.current] == s.versions[s.current] - inputs + outputs && t.versions[t.current] <= t.disk
      && OnlyListedOnDisk(t)
  {
    hide Inv, Step, OnlyListedOnDisk;
    var s1 := CompactionStarts(s, inputs);
    var grown := OpenMany(s1, s1.calls[0].work.value, n);
    var last, outputs := grown[|Opens(n)|], Numbers(s.nextFile, n);
    assert {} + outputs == outputs && s.pending + outputs == outputs;
    var s2, s3 := CompactionInstalls(last, Merging(s.current, inputs, outputs));
    var s4 := CompactionCollects(s3, WorkOver(s.current, outputs));
    ReadyToStep(s4);
    StepsInARow(s, StartWork(0, inputs), grown, Opens(n), s2, s3, s4);
    states := [s] + grown + [s2, s3, s4];
  }
}
