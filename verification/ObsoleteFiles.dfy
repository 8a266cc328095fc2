/** Which table files may be deleted, while readers and one background call hold on to versions. */
module ObsoleteFiles {
  import opened Options

  /** How far a memtable flush is: `table` says whether it made a table file. */
  datatype Flush =
    | Building(number: nat, base: nat)
    | Built(number: nat, table: bool)
    | WritingFlush(number: nat, table: bool, files: set<nat>, from: nat)
    | FlushInstalled

  /** How far a compaction is. Its inputs belong to the version it holds on to. */
  datatype Work =
    | Merging(input: nat, inputs: set<nat>, outputs: set<nat>)
    | WritingWork(input: nat, inputs: set<nat>, outputs: set<nat>, files: set<nat>, from: nat)
    | WorkOver(input: nat, outputs: set<nat>)

  /** A background call; a flush may run in the middle of a compaction. */
  datatype Call = Call(flush: Option<Flush>, work: Option<Work>)

  /**
   * `versions` are the table numbers of every version ever installed; `refs` counts the holders of
   * those still in the version list. `readers` are the versions that readers and iterators hold.
   */
  datatype State = State(
    versions: seq<set<nat>>, current: nat, refs: map<nat, nat>, readers: multiset<nat>,
    calls: seq<Call>, scheduled: bool, pending: set<nat>, disk: set<nat>, nextFile: nat, broken: bool)

  // ----- The version list

  function Ref(refs: map<nat, nat>, v: nat): map<nat, nat>
    requires v in refs
  {
    refs[v := refs[v] + 1]
  }

  /** The last reference takes the version off the list. */
  function Unref(refs: map<nat, nat>, v: nat): map<nat, nat>
    requires v in refs && refs[v] > 0
  {
    if refs[v] == 1 then refs - {v} else refs[v := refs[v] - 1]
  }

  /** A new current version; the old one loses a reference. */
  function Append(s: State, files: set<nat>): State
    requires s.current in s.refs && s.refs[s.current] > 0 && |s.versions| !in s.refs
  {
    s.(versions := s.versions + [files], current := |s.versions|, refs := Unref(s.refs, s.current)[|s.versions| := 1])
  }

  /** The tables of every listed version, and the outputs being written. */
  ghost function Live(s: State): set<nat>
    requires forall v | v in s.refs :: v < |s.versions|
  {
    (set v, f | v in s.refs && f in s.versions[v] :: f) + s.pending
  }

  /** Deletes every table that is not live, unless the state of the version list is in doubt. */
  ghost function Collected(s: State): State
    requires forall v | v in s.refs :: v < |s.versions|
  {
    if s.broken then s else s.(disk := s.disk * Live(s))
  }

  // ----- The steps

  datatype Event =
    | ReaderBegins                       // a reader or iterator takes the current version
    | ReaderEnds(version: nat)
    | Schedule                           // a background call, unless one is already scheduled
    | Return(k: nat)                     // the call is over
    | StartFlush(k: nat)
    | BuildTable(k: nat, table: bool, ok: bool)
    | LogFlush(k: nat)                   // the manifest is written with the mutex released
    | InstallFlush(k: nat, ok: bool)
    | CollectAfterFlush(k: nat)
    | StartWork(k: nat, inputs: set<nat>)
    | OpenOutput(k: nat, ok: bool)
    | LogWork(k: nat)
    | InstallWork(k: nat, ok: bool)
    | AbandonWork(k: nat)
    | FinishWork(k: nat, collect: bool)  // a trivial move does not collect

  predicate Listed(s: State) {
    && s.current in s.refs && |s.versions| !in s.refs
    && forall v | v in s.refs :: v < |s.versions| && s.refs[v] > 0
  }

  predicate FlushAt(s: State, k: nat) {
    k < |s.calls| && s.calls[k].flush.Some?
  }

  predicate WorkAt(s: State, k: nat) {
    k < |s.calls| && s.calls[k].work.Some? && s.calls[k].flush.None?
  }

  predicate Enabled(s: State, e: Event) {
    && Listed(s)
    && match e
       case ReaderBegins => true
       case ReaderEnds(v) => v in s.readers && v in s.refs
       case Schedule => !s.scheduled && !s.broken
       case Return(k) => k < |s.calls| && s.calls[k] == Call(None, None)
       case StartFlush(k) =>
         k < |s.calls| && s.calls[k].flush.None? && (s.calls[k].work.None? || s.calls[k].work.value.Merging?)
       case BuildTable(k, _, _) => FlushAt(s, k) && s.calls[k].flush.value.Building? && s.calls[k].flush.value.base in s.refs
       case LogFlush(k) => FlushAt(s, k) && s.calls[k].flush.value.Built?
       case InstallFlush(k, _) => FlushAt(s, k) && s.calls[k].flush.value.WritingFlush?
       case CollectAfterFlush(k) => FlushAt(s, k) && s.calls[k].flush.value.FlushInstalled?
       case StartWork(k, inputs) => k < |s.calls| && s.calls[k] == Call(None, None) && inputs <= s.versions[s.current]
       case OpenOutput(k, _) => WorkAt(s, k) && s.calls[k].work.value.Merging?
       case LogWork(k) => WorkAt(s, k) && s.calls[k].work.value.Merging?
       case InstallWork(k, _) => WorkAt(s, k) && s.calls[k].work.value.WritingWork?
       case AbandonWork(k) => WorkAt(s, k) && s.calls[k].work.value.Merging?
       case FinishWork(k, _) => WorkAt(s, k) && s.calls[k].work.value.WorkOver? && s.calls[k].work.value.input in s.refs
  }

  function WithFlush(s: State, k: nat, f: Option<Flush>): State
    requires k < |s.calls|
  {
    s.(calls := s.calls[k := s.calls[k].(flush := f)])
  }

  function WithWork(s: State, k: nat, w: Option<Work>): State
    requires k < |s.calls|
  {
    s.(calls := s.calls[k := s.calls[k].(work := w)])
  }

  /** The table is on disk, or its file is gone again; it is no longer pending, and not yet listed. */
  function AfterBuild(s: State, k: nat, table: bool, ok: bool): State
    requires Enabled(s, BuildTable(k, table, ok))
  {
    var f := s.calls[k].flush.value;
    var s1 := s.(pending := s.pending - {f.number}, refs := Unref(s.refs, f.base),
                 disk := if table && ok then s.disk + {f.number} else s.disk);
    if ok then WithFlush(s1, k, Some(Built(f.number, table)))
    else WithFlush(s1, k, None).(broken := true)
  }

  function AfterFlushWritten(s: State, k: nat, ok: bool): State
    requires Enabled(s, InstallFlush(k, ok))
  {
    if ok then Append(WithFlush(s, k, Some(FlushInstalled)), s.calls[k].flush.value.files)
    else WithFlush(s, k, None).(broken := true)
  }

  function AfterOpen(s: State, k: nat, ok: bool): State
    requires Enabled(s, OpenOutput(k, ok))
  {
    var w := s.calls[k].work.value;
    var s1 := s.(pending := s.pending + {s.nextFile}, nextFile := s.nextFile + 1);
    if ok then WithWork(s1.(disk := s.disk + {s.nextFile}), k, Some(Merging(w.input, w.inputs, w.outputs + {s.nextFile})))
    else WithWork(s1, k, Some(WorkOver(w.input, w.outputs + {s.nextFile}))).(broken := true)
  }

  function AfterWorkWritten(s: State, k: nat, ok: bool): State
    requires Enabled(s, InstallWork(k, ok))
  {
    var w := s.calls[k].work.value;
    var s1 := WithWork(s, k, Some(WorkOver(w.input, w.outputs)));
    if ok then Append(s1, w.files) else s1.(broken := true)
  }

  /** The outputs are no longer pending and the inputs' version is let go. */
  function Released(s: State, k: nat): State
    requires WorkAt(s, k) && s.calls[k].work.value.WorkOver?
    requires s.calls[k].work.value.input in s.refs && s.refs[s.calls[k].work.value.input] > 0
  {
    var w := s.calls[k].work.value;
    WithWork(s, k, None).(pending := s.pending - w.outputs, refs := Unref(s.refs, w.input))
  }

  ghost function After(s: State, e: Event): State
    requires Enabled(s, e)
  {
    match e
    case ReaderBegins => s.(readers := s.readers + multiset{s.current}, refs := Ref(s.refs, s.current))
    case ReaderEnds(v) => s.(readers := s.readers - multiset{v}, refs := Unref(s.refs, v))
    case Schedule => s.(calls := s.calls + [Call(None, None)], scheduled := true)
    case Return(k) => s.(calls := s.calls[..k] + s.calls[k + 1..], scheduled := false)
    case StartFlush(k) =>
      WithFlush(s.(pending := s.pending + {s.nextFile}, nextFile := s.nextFile + 1, refs := Ref(s.refs, s.current)),
                k, Some(Building(s.nextFile, s.current)))
    case BuildTable(k, table, ok) => AfterBuild(s, k, table, ok)
    case LogFlush(k) =>
      var f := s.calls[k].flush.value;
      WithFlush(s, k, Some(WritingFlush(f.number, f.table, s.versions[s.current] + (if f.table then {f.number} else {}), s.current)))
    case InstallFlush(k, ok) => AfterFlushWritten(s, k, ok)
    case CollectAfterFlush(k) => WithFlush(Collected(s), k, None)
    case StartWork(k, inputs) => WithWork(s.(refs := Ref(s.refs, s.current)), k, Some(Merging(s.current, inputs, {})))
    case OpenOutput(k, ok) => AfterOpen(s, k, ok)
    case LogWork(k) =>
      var w := s.calls[k].work.value;
      WithWork(s, k, Some(WritingWork(w.input, w.inputs, w.outputs, s.versions[s.current] - w.inputs + w.outputs, s.current)))
    case InstallWork(k, ok) => AfterWorkWritten(s, k, ok)
    case AbandonWork(k) =>
      var w := s.calls[k].work.value;
      WithWork(s, k, Some(WorkOver(w.input, w.outputs))).(broken := true)
    case FinishWork(k, collect) => if collect then Collected(Released(s, k)) else Released(s, k)
  }

  ghost predicate Step(s: State, e: Event, s': State) {
    Enabled(s, e) && s' == After(s, e)
  }

  /** A freshly opened database: one version, its tables on disk, no one else around. */
  ghost predicate Initial(s: State) {
    && s.versions != [] && s.current == |s.versions| - 1 && s.refs == map[s.current := 1]
    && s.readers == multiset{} && s.calls == [] && !s.scheduled && !s.broken
    && s.versions[s.current] <= s.disk && s.pending == {}
    && (forall f | f in s.disk :: f < s.nextFile)
  }

  // ----- The invariant

  function HeldByCall(c: Call, v: nat): nat {
    (if c.flush.Some? && c.flush.value.Building? && c.flush.value.base == v then 1 else 0)
      + (if c.work.Some? && c.work.value.input == v then 1 else 0)
  }

  /** How many hold on to a version: the set itself, readers, and the background call. */
  function Holders(s: State, v: nat): nat {
    (if s.current == v then 1 else 0) + s.readers[v]
      + (if |s.calls| == 1 then HeldByCall(s.calls[0], v) else 0)
  }

  ghost predicate OneCall(s: State) {
    |s.calls| <= 1 && (s.scheduled <==> |s.calls| == 1)
  }

  /** The list holds exactly the versions that are held, and counts their holders. */
  ghost predicate CountsHolders(s: State) {
    && Listed(s)
    && (forall v: nat :: v in s.refs <==> Holders(s, v) > 0)
    && (forall v | v in s.refs :: s.refs[v] == Holders(s, v))
  }

  ghost predicate TablesOnDisk(s: State) {
    forall v | v in s.refs :: v < |s.versions| && s.versions[v] <= s.disk
  }

  /** A built table that is not yet listed is on disk; nothing else protects it. */
  ghost predicate FlushSafe(s: State, f: Flush) {
    match f
    case Building(number, _) => number in s.pending
    case Built(number, table) => table ==> number in s.disk
    case WritingFlush(number, table, files, from) =>
      && (table ==> number in s.disk) && from == s.current < |s.versions|
      && files == s.versions[s.current] + (if table then {number} else {})
    case FlushInstalled => true
  }

  ghost predicate WorkSafe(s: State, w: Work) {
    && w.outputs <= s.pending
    && match w
       case Merging(_, inputs, outputs) => outputs <= s.disk
       case WritingWork(_, inputs, outputs, files, from) =>
         outputs <= s.disk && from == s.current < |s.versions| && files == s.versions[s.current] - inputs + outputs
       case WorkOver(_, _) => true
  }

  ghost predicate CallSafe(s: State, c: Call) {
    && (c.flush.Some? ==> FlushSafe(s, c.flush.value))
    && (c.work.Some? ==> WorkSafe(s, c.work.value))
    && (c.flush.Some? && c.work.Some? ==> c.work.value.Merging?)
    && (c.flush.Some? && c.flush.value.Building? && c.work.Some? ==> c.flush.value.number !in c.work.value.outputs)
  }

  ghost predicate CallsSafe(s: State) {
    forall k | 0 <= k < |s.calls| :: CallSafe(s, s.calls[k])
  }

  /** No number in use is given out again. */
  ghost predicate NumbersFresh(s: State) {
    && (forall f | f in s.disk :: f < s.nextFile) && (forall f | f in s.pending :: f < s.nextFile)
    && (forall v | v in s.refs :: v < |s.versions| && forall f | f in s.versions[v] :: f < s.nextFile)
  }

  ghost predicate Inv(s: State) {
    OneCall(s) && CountsHolders(s) && TablesOnDisk(s) && CallsSafe(s) && NumbersFresh(s)
  }

  // ----- Counting holders

  /** The holders after something takes one version and lets go of another. */
  ghost predicate Moved(s: State, s': State, gain: Option<nat>, loss: Option<nat>) {
    forall v: nat ::
      Holders(s', v) + (if loss == Some(v) then 1 else 0) == Holders(s, v) + (if gain == Some(v) then 1 else 0)
  }

  lemma {:induction false} RefCounts(s: State, s': State, v: nat)
    requires CountsHolders(s) && v in s.refs && s'.refs == Ref(s.refs, v) && Moved(s, s', Some(v), None)
    requires s'.current == s.current && s'.versions == s.versions
    ensures CountsHolders(s')
  {
    hide Holders;
    forall x: nat ensures x in s'.refs <==> Holders(s', x) > 0 {
      assert Holders(s', x) == Holders(s, x) + (if x == v then 1 else 0);
    }
    assert forall x: nat :: Holders(s', x) == Holders(s, x) + (if x == v then 1 else 0);
  }

  lemma {:induction false} UnrefCounts(s: State, s': State, v: nat)
    requires CountsHolders(s) && v in s.refs && s'.refs == Unref(s.refs, v) && Moved(s, s', None, Some(v))
    requires s'.current == s.current && s'.versions == s.versions
    ensures CountsHolders(s')
  {
    assert forall x: nat :: Holders(s', x) + (if x == v then 1 else 0) == Holders(s, x);
    assert Holders(s', s'.current) > 0;
    forall x: nat ensures x in s'.refs <==> Holders(s', x) > 0 {
      hide Holders;
      assert Holders(s', x) + (if x == v then 1 else 0) == Holders(s, x);
    }
  }

  /** Installing a version: it is held as the current one, which the old one no longer is. */
  lemma {:induction false} AppendCounts(s: State, files: set<nat>)
    requires CountsHolders(s) && OneCall(s)
    ensures CountsHolders(Append(s, files))
  {
    var s' := Append(s, files);
    assert Holders(s, |s.versions|) == 0;
    forall x: nat ensures Holders(s', x) + (if x == s.current then 1 else 0) == Holders(s, x) + (if x == |s.versions| then 1 else 0) {
    }
    forall x: nat ensures x in s'.refs <==> Holders(s', x) > 0 {
      hide Holders;
      assert Holders(s', x) + (if x == s.current then 1 else 0) == Holders(s, x) + (if x == |s.versions| then 1 else 0);
    }
  }

  lemma {:induction false} SameCounts(s: State, s': State)
    requires CountsHolders(s) && s'.refs == s.refs && s'.current == s.current && s'.versions == s.versions && Moved(s, s', None, None)
    ensures CountsHolders(s')
  {
    hide Holders;
    assert forall x: nat :: Holders(s', x) + (if None == Some(x) then 1 else 0) == Holders(s, x) + (if None == Some(x) then 1 else 0);
  }

  // ----- What a call relies on

  lemma {:induction false} SameSafety(s: State, s': State, c: Call)
    requires CallSafe(s, c) && s.pending <= s'.pending && s.disk <= s'.disk && s'.current == s.current && s'.versions == s.versions
    ensures CallSafe(s', c)
  {
  }

  lemma {:induction false} OnlyCall(s: State, k: nat)
    requires OneCall(s) && k < |s.calls|
    ensures k == 0 && s.calls == [s.calls[0]] && s.scheduled
  {
  }

  // ----- Steps keep the invariant

  /** The tables of the versions that stay listed stay on disk, and numbers stay fresh. */
  lemma {:induction false} FewerVersions(s: State, s': State)
    requires TablesOnDisk(s) && NumbersFresh(s) && s'.refs.Keys <= s.refs.Keys && s'.versions == s.versions
    requires s.disk <= s'.disk && s.nextFile <= s'.nextFile
    requires (forall f | f in s'.disk :: f < s'.nextFile) && (forall f | f in s'.pending :: f < s'.nextFile)
    ensures TablesOnDisk(s') && NumbersFresh(s')
  {
  }

  lemma {:induction false} ReadersKeepInv(s: State, e: Event)
    requires Inv(s) && Enabled(s, e) && (e.ReaderBegins? || e.ReaderEnds?)
    ensures Inv(After(s, e))
  {
    hide CallSafe, TablesOnDisk, CountsHolders;
    var s' := After(s, e);
    FewerVersions(s, s');
    forall k | 0 <= k < |s.calls| ensures CallSafe(s', s.calls[k]) {
      SameSafety(s, s', s.calls[k]);
    }
    if e.ReaderBegins? {
      RefCounts(s, s', s.current);
    } else {
      UnrefCounts(s, s', e.version);
    }
  }

  lemma {:induction false} CallsKeepInv(s: State, e: Event)
    requires Inv(s) && Enabled(s, e) && (e.Schedule? || e.Return?)
    ensures Inv(After(s, e))
  {
    hide CallSafe;
    var s' := After(s, e);
    FewerVersions(s, s');
    SameCounts(s, s');
    forall k | 0 <= k < |s'.calls| ensures CallSafe(s', s'.calls[k]) {
      IdleIsSafe(s');
    }
  }

  lemma {:induction false} IdleIsSafe(s: State)
    ensures CallSafe(s, Call(None, None))
  {
  }

  /** The one call there is moves on: what it becomes must be safe. */
  lemma {:induction false} CallMovesOn(s: State, s': State, c: Call)
    requires OneCall(s) && |s.calls| == 1 && s'.calls == [c] && s'.scheduled == s.scheduled && CallSafe(s', c)
    requires CountsHolders(s') && TablesOnDisk(s') && NumbersFresh(s')
    ensures Inv(s')
  {
    hide CallSafe;
  }

  lemma {:induction false} StartFlushKeepsInv(s: State, k: nat)
    requires Inv(s) && Enabled(s, StartFlush(k))
    ensures Inv(After(s, StartFlush(k)))
  {
    hide TablesOnDisk, CountsHolders;
    OnlyCall(s, k);
    var s' := After(s, StartFlush(k));
    FewerVersions(s, s');
    RefCounts(s, s', s.current);
    assert CallSafe(s, s.calls[0]);
    CallMovesOn(s, s', s'.calls[0]);
  }

  lemma {:induction false} BuildKeepsInv(s: State, k: nat, table: bool, ok: bool)
    requires Inv(s) && Enabled(s, BuildTable(k, table, ok))
    ensures Inv(After(s, BuildTable(k, table, ok)))
  {
    hide TablesOnDisk, CountsHolders;
    OnlyCall(s, k);
    var s' := After(s, BuildTable(k, table, ok));
    assert CallSafe(s, s.calls[0]);
    var f := s.calls[0].flush.value;
    FewerVersions(s, s');
    UnrefCounts(s, s', f.base);
    CallMovesOn(s, s', s'.calls[0]);
  }

  lemma {:induction false} LogFlushKeepsInv(s: State, k: nat)
    requires Inv(s) && Enabled(s, LogFlush(k))
    ensures Inv(After(s, LogFlush(k)))
  {
    hide TablesOnDisk, CountsHolders;
    OnlyCall(s, k);
    var s' := After(s, LogFlush(k));
    assert CallSafe(s, s.calls[0]);
    FewerVersions(s, s');
    SameCounts(s, s');
    CallMovesOn(s, s', s'.calls[0]);
  }

  /** A version whose tables are all on disk may become current. */
  lemma {:induction false} AppendKeepsTables(s: State, files: set<nat>)
    requires CountsHolders(s) && TablesOnDisk(s) && NumbersFresh(s) && files <= s.disk
    ensures TablesOnDisk(Append(s, files)) && NumbersFresh(Append(s, files))
  {
  }

  lemma {:induction false} InstallFlushKeepsInv(s: State, k: nat, ok: bool)
    requires Inv(s) && Enabled(s, InstallFlush(k, ok))
    ensures Inv(After(s, InstallFlush(k, ok)))
  {
    hide TablesOnDisk, CountsHolders;
    OnlyCall(s, k);
    var s' := After(s, InstallFlush(k, ok));
    assert CallSafe(s, s.calls[0]);
    var f := s.calls[0].flush.value;
    var s1 := WithFlush(s, k, if ok then Some(FlushInstalled) else None);
    SameCounts(s, s1);
    FewerVersions(s, s1);
    if ok {
      AppendCounts(s1, f.files);
      AppendKeepsTables(s1, f.files);
    } else {
      SameCounts(s, s');
      FewerVersions(s, s');
    }
    CallMovesOn(s, s', s'.calls[0]);
  }

  /** Deleting what is not live deletes nothing of a listed version and nothing pending. */
  lemma {:induction false} CollectKeepsTables(s: State)
    requires CountsHolders(s) && TablesOnDisk(s) && NumbersFresh(s)
    ensures CountsHolders(Collected(s)) && TablesOnDisk(Collected(s)) && NumbersFresh(Collected(s))
    ensures forall f | f in s.disk && f in s.pending :: f in Collected(s).disk
  {
    hide Listed;
    var s' := Collected(s);
    forall v | v in s.refs ensures s.versions[v] <= s'.disk {
      assert forall f | f in s.versions[v] :: f in Live(s);
    }
    SameCounts(s, s');
  }

  lemma {:induction false} CollectKeepsInv(s: State, k: nat)
    requires Inv(s) && Enabled(s, CollectAfterFlush(k))
    ensures Inv(After(s, CollectAfterFlush(k)))
  {
    hide TablesOnDisk, CountsHolders;
    OnlyCall(s, k);
    var s' := After(s, CollectAfterFlush(k));
    assert CallSafe(s, s.calls[0]);
    CollectKeepsTables(s);
    SameCounts(Collected(s), s');
    FewerVersions(Collected(s), s');
    CallMovesOn(s, s', s'.calls[0]);
  }

  lemma {:induction false} StartWorkKeepsInv(s: State, k: nat, inputs: set<nat>)
    requires Inv(s) && Enabled(s, StartWork(k, inputs))
    ensures Inv(After(s, StartWork(k, inputs)))
  {
    hide TablesOnDisk, CountsHolders;
    OnlyCall(s, k);
    var s' := After(s, StartWork(k, inputs));
    FewerVersions(s, s');
    RefCounts(s, s', s.current);
    CallMovesOn(s, s', s'.calls[0]);
  }

  lemma {:induction false} OpenKeepsInv(s: State, k: nat, ok: bool)
    requires Inv(s) && Enabled(s, OpenOutput(k, ok))
    ensures Inv(After(s, OpenOutput(k, ok)))
  {
    hide TablesOnDisk, CountsHolders;
    OnlyCall(s, k);
    var s' := After(s, OpenOutput(k, ok));
    assert CallSafe(s, s.calls[0]);
    FewerVersions(s, s');
    SameCounts(s, s');
    CallMovesOn(s, s', s'.calls[0]);
  }

  lemma {:induction false} LogWorkKeepsInv(s: State, k: nat)
    requires Inv(s) && Enabled(s, LogWork(k))
    ensures Inv(After(s, LogWork(k)))
  {
    hide TablesOnDisk, CountsHolders;
    OnlyCall(s, k);
    var s' := After(s, LogWork(k));
    assert CallSafe(s, s.calls[0]);
    FewerVersions(s, s');
    SameCounts(s, s');
    CallMovesOn(s, s', s'.calls[0]);
  }

  lemma {:induction false} InstallWorkKeepsInv(s: State, k: nat, ok: bool)
    requires Inv(s) && Enabled(s, InstallWork(k, ok))
    ensures Inv(After(s, InstallWork(k, ok)))
  {
    hide TablesOnDisk, CountsHolders;
    OnlyCall(s, k);
    var s' := After(s, InstallWork(k, ok));
    assert CallSafe(s, s.calls[0]);
    var w := s.calls[0].work.value;
    var s1 := WithWork(s, k, Some(WorkOver(w.input, w.outputs)));
    SameCounts(s, s1);
    FewerVersions(s, s1);
    if ok {
      AppendCounts(s1, w.files);
      AppendKeepsTables(s1, w.files);
    } else {
      SameCounts(s, s');
      FewerVersions(s, s');
    }
    CallMovesOn(s, s', s'.calls[0]);
  }

  lemma {:induction false} AbandonKeepsInv(s: State, k: nat)
    requires Inv(s) && Enabled(s, AbandonWork(k))
    ensures Inv(After(s, AbandonWork(k)))
  {
    hide TablesOnDisk, CountsHolders;
    OnlyCall(s, k);
    var s' := After(s, AbandonWork(k));
    assert CallSafe(s, s.calls[0]);
    FewerVersions(s, s');
    SameCounts(s, s');
    CallMovesOn(s, s', s'.calls[0]);
  }

  lemma {:induction false} FinishKeepsInv(s: State, k: nat, collect: bool)
    requires Inv(s) && Enabled(s, FinishWork(k, collect))
    ensures Inv(After(s, FinishWork(k, collect)))
  {
    hide TablesOnDisk, CountsHolders;
    OnlyCall(s, k);
    var s' := After(s, FinishWork(k, collect));
    var w := s.calls[0].work.value;
    var s1 := Released(s, k);
    UnrefCounts(s, s1, w.input);
    FewerVersions(s, s1);
    if collect {
      CollectKeepsTables(s1);
    }
    IdleIsSafe(s');
    CallMovesOn(s, s', s'.calls[0]);
  }

  lemma {:induction false} StepKeepsInv(s: State, e: Event, s': State)
    requires Inv(s) && Step(s, e, s')
    ensures Inv(s')
  {
    hide Inv, After;
    match e
    case ReaderBegins => ReadersKeepInv(s, e);
    case ReaderEnds(_) => ReadersKeepInv(s, e);
    case Schedule => CallsKeepInv(s, e);
    case Return(_) => CallsKeepInv(s, e);
    case StartFlush(k) => StartFlushKeepsInv(s, k);
    case BuildTable(k, table, ok) => BuildKeepsInv(s, k, table, ok);
    case LogFlush(k) => LogFlushKeepsInv(s, k);
    case InstallFlush(k, ok) => InstallFlushKeepsInv(s, k, ok);
    case CollectAfterFlush(k) => CollectKeepsInv(s, k);
    case StartWork(k, inputs) => StartWorkKeepsInv(s, k, inputs);
    case OpenOutput(k, ok) => OpenKeepsInv(s, k, ok);
    case LogWork(k) => LogWorkKeepsInv(s, k);
    case InstallWork(k, ok) => InstallWorkKeepsInv(s, k, ok);
    case AbandonWork(k) => AbandonKeepsInv(s, k);
    case FinishWork(k, collect) => FinishKeepsInv(s, k, collect);
  }

  // ----- Runs

  ghost predicate IsRun(states: seq<State>, events: seq<Event>) {
    && |states| == |events| + 1 && Initial(states[0])
    && forall i | 0 <= i < |events| :: Step(states[i], events[i], states[i + 1])
  }

  lemma {:induction false} InitialInv(s: State)
    requires Initial(s)
    ensures Inv(s)
  {
    forall v: nat ensures v in s.refs <==> Holders(s, v) > 0 {
    }
  }

  lemma {:induction false} RunKeepsInv(states: seq<State>, events: seq<Event>, n: nat)
    requires IsRun(states, events) && n < |states|
    ensures Inv(states[n])
  {
    hide Inv, Step;
    if n == 0 {
      InitialInv(states[0]);
    } else {
      RunKeepsInv(states, events, n - 1);
      StepKeepsInv(states[n - 1], events[n - 1], states[n]);
    }
  }

  /** In every state of every run, the tables of each version that anyone holds are on disk. */
  lemma {:induction false} EveryHeldTableIsOnDisk(states: seq<State>, events: seq<Event>, n: nat, v: nat)
    requires IsRun(states, events) && n < |states|
    requires var s := states[n];
      v == s.current || v in s.readers
      || exists k :: 0 <= k < |s.calls| && HeldByCall(s.calls[k], v) > 0
    ensures var s := states[n];
      v < |s.versions| && s.versions[v] <= s.disk && v in s.refs && s.refs[v] == Holders(s, v)
  {
    hide Step, CallsSafe, NumbersFresh;
    RunKeepsInv(states, events, n);
    assert Holders(states[n], v) > 0;
  }

  /** The table of a flush that is built and not yet installed is on disk, though neither a listed
      version nor the pending outputs mention it: only the one background call deletes tables. */
  lemma {:induction false} EveryBuiltTableIsOnDisk(states: seq<State>, events: seq<Event>, n: nat, k: nat)
    requires IsRun(states, events) && n < |states| && k < |states[n].calls| && states[n].calls[k].flush.Some?
    ensures |states[n].calls| == 1
    ensures match states[n].calls[k].flush.value
      case Built(number, true) => number in states[n].disk
      case WritingFlush(number, true, files, _) => number in states[n].disk && files <= states[n].disk
      case _ => true
  {
    hide Step, CountsHolders, NumbersFresh;
    RunKeepsInv(states, events, n);
    assert CallSafe(states[n], states[n].calls[k]);
    assert states[n].current in states[n].refs by {
      CurrentListed(states[n]);
    }
  }

  lemma {:induction false} CurrentListed(s: State)
    requires CountsHolders(s)
    ensures s.current in s.refs
  {
  }

  /** No installation is lost: the version it was computed from is still the current one. */
  lemma {:induction false} EveryInstallBuildsOnCurrent(states: seq<State>, events: seq<Event>, n: nat, k: nat)
    requires IsRun(states, events) && n < |states| && k < |states[n].calls|
    ensures var s := states[n]; var c := s.calls[k];
      && s.current < |s.versions|
      && (c.flush.Some? && c.flush.value.WritingFlush? ==>
            c.flush.value.files == s.versions[s.current] + (if c.flush.value.table then {c.flush.value.number} else {}))
      && (c.work.Some? && c.work.value.WritingWork? ==>
            c.work.value.files == s.versions[s.current] - c.work.value.inputs + c.work.value.outputs)
  {
    hide Step, NumbersFresh;
    RunKeepsInv(states, events, n);
    assert CallSafe(states[n], states[n].calls[k]);
  }

  /** Right after a collection the disk holds the live tables and nothing else. */
  lemma {:induction false} CollectionIsExact(s: State)
    requires Inv(s) && !s.broken
    ensures Collected(s).disk <= Live(s) && forall f | f in Live(s) && f !in s.pending :: f in Collected(s).disk
  {
  }

  /** Why one call at a time matters: with a second one, a collection can delete a built table that is
      about to be listed. Every other part of the invariant holds in such a state. */
  lemma {:induction false} SecondCallWouldDeleteATable() returns (s: State)
    ensures |s.calls| == 2 && CountsHolders(s) && TablesOnDisk(s) && CallsSafe(s) && NumbersFresh(s)
    ensures Enabled(s, CollectAfterFlush(1)) && !CallsSafe(After(s, CollectAfterFlush(1)))
  {
    var building := Call(Some(Built(5, true)), None);
    var collecting := Call(Some(FlushInstalled), None);
    s := State([{}], 0, map[0 := 1], multiset{}, [building, collecting], true, {}, {5}, 6, false);
    assert forall v: nat :: Holders(s, v) == if v == 0 then 1 else 0;
    var s' := After(s, CollectAfterFlush(1));
    assert 5 !in Live(s);
    assert s'.calls[0] == building && !CallSafe(s', building);
  }
}
