/** The manifest: version edits as the records of a log, written one by one and replayed when opening. */
module Manifest {
  import opened Coding
  import opened Options
  import opened Varints
  import opened VersionEdits
  import LogFormat
  import LogWriter
  import LogReader

  /** The records that hold the edits. */
  function RecordsOf(edits: seq<Edit>): (r: seq<Bytes>)
    ensures |r| == |edits|
  {
    seq(|edits|, i requires 0 <= i < |edits| => EncodeEdit(edits[i]))
  }

  ghost predicate ValidEdits(edits: seq<Edit>) {
    forall i | 0 <= i < |edits| :: ValidEdit(edits[i])
  }

  /** The numbers that the edits recorded last. */
  datatype Counters = Counters(logNumber: Option<nat>, prevLogNumber: Option<nat>, nextFile: Option<nat>, lastSequence: Option<nat>)

  function Newer<T>(a: Option<T>, b: Option<T>): Option<T> {
    if b.Some? then b else a
  }

  function Noted(c: Counters, e: Edit): Counters {
    Counters(Newer(c.logNumber, e.logNumber), Newer(c.prevLogNumber, e.prevLogNumber),
             Newer(c.nextFile, e.nextFile), Newer(c.lastSequence, e.lastSequence))
  }

  function CountersOf(edits: seq<Edit>): Counters {
    if edits == [] then Counters(None, None, None, None) else Noted(CountersOf(edits[..|edits| - 1]), edits[|edits| - 1])
  }

  datatype Outcome = Replayed(edits: seq<Edit>, counters: Counters) | Corrupt | WrongComparator

  predicate Comparable(e: Edit, comparator: Bytes) {
    e.comparator.Some? ==> e.comparator.value == comparator
  }

  /** The value that the field had in the last edit that has it. */
  ghost predicate LastRecorded(edits: seq<Edit>, field: Edit -> Option<nat>, x: Option<nat>) {
    && (x.None? ==> forall e | e in edits :: field(e).None?)
    && (x.Some? ==> exists i :: 0 <= i < |edits| && field(edits[i]) == x && forall j | i < j < |edits| :: field(edits[j]).None?)
  }

  ghost predicate AllLastRecorded(edits: seq<Edit>, c: Counters) {
    && LastRecorded(edits, (e: Edit) => e.logNumber, c.logNumber)
    && LastRecorded(edits, (e: Edit) => e.prevLogNumber, c.prevLogNumber)
    && LastRecorded(edits, (e: Edit) => e.nextFile, c.nextFile)
    && LastRecorded(edits, (e: Edit) => e.lastSequence, c.lastSequence)
  }

  /** A counter is known to be n if and only if some edit sets it to n and no later edit sets it. */
  lemma {:induction false} LastRecordedIff(edits: seq<Edit>, field: Edit -> Option<nat>, x: Option<nat>, n: nat)
    requires LastRecorded(edits, field, x)
    ensures x == Some(n) <==> exists i :: 0 <= i < |edits| && field(edits[i]) == Some(n) && forall j | i < j < |edits| :: field(edits[j]).None?
  {
    if i :| 0 <= i < |edits| && field(edits[i]) == Some(n) && forall j | i < j < |edits| :: field(edits[j]).None? {
      assert edits[i] in edits;
      var k :| 0 <= k < |edits| && field(edits[k]) == x && forall j | k < j < |edits| :: field(edits[j]).None?;
      assert i < k || k <= i;
    }
  }

  lemma {:induction false} OneMoreRecorded(edits: seq<Edit>, e: Edit, field: Edit -> Option<nat>, x: Option<nat>, y: Option<nat>)
    requires LastRecorded(edits, field, x) && y == if field(e).Some? then field(e) else x
    ensures LastRecorded(edits + [e], field, y)
  {
    var more := edits + [e];
    if field(e).Some? {
      assert field(more[|edits|]) == y;
    } else if x.Some? {
      var i :| 0 <= i < |edits| && field(edits[i]) == x && forall j | i < j < |edits| :: field(edits[j]).None?;
      assert field(more[i]) == y;
      forall j | i < j < |more| ensures field(more[j]).None? {
        assert j < |edits| ==> more[j] == edits[j];
      }
    }
  }

  /** Each counter is the one recorded last. */
  lemma {:induction false} CountersAreTheLast(edits: seq<Edit>)
    ensures AllLastRecorded(edits, CountersOf(edits))
  {
    if edits != [] {
      hide LastRecorded;
      var last := |edits| - 1;
      var before, e := edits[..last], edits[last];
      CountersAreTheLast(before);
      var c, d := CountersOf(before), CountersOf(edits);
      OneMoreRecorded(before, e, (e: Edit) => e.logNumber, c.logNumber, d.logNumber);
      OneMoreRecorded(before, e, (e: Edit) => e.prevLogNumber, c.prevLogNumber, d.prevLogNumber);
      OneMoreRecorded(before, e, (e: Edit) => e.nextFile, c.nextFile, d.nextFile);
      OneMoreRecorded(before, e, (e: Edit) => e.lastSequence, c.lastSequence, d.lastSequence);
      assert before + [e] == edits;
    }
  }

  ghost predicate SomeForeign(edits: seq<Edit>, comparator: Bytes) {
    exists i :: 0 <= i < |edits| && edits[i].comparator.Some? && edits[i].comparator.value != comparator
  }

  /** One of the three numbers that opening cannot do without was never recorded. */
  ghost predicate NeverRecorded(edits: seq<Edit>) {
    || (forall e | e in edits :: e.nextFile.None?)
    || (forall e | e in edits :: e.logNumber.None?)
    || (forall e | e in edits :: e.lastSequence.None?)
  }

  /** What opening may make of the edits of a manifest. */
  ghost predicate IsOutcome(r: Outcome, edits: seq<Edit>, comparator: Bytes) {
    && (r.WrongComparator? <==> SomeForeign(edits, comparator))
    && (r.Corrupt? <==> !SomeForeign(edits, comparator) && NeverRecorded(edits))
    && (r.Replayed? ==> r.edits == edits && AllLastRecorded(edits, r.counters))
  }

  /** What opening makes of a list of edits. */
  function Decide(edits: seq<Edit>, comparator: Bytes): Outcome {
    if exists i :: 0 <= i < |edits| && !Comparable(edits[i], comparator) then WrongComparator
    else if CountersOf(edits).nextFile.None? || CountersOf(edits).logNumber.None? || CountersOf(edits).lastSequence.None? then Corrupt
    else Replayed(edits, CountersOf(edits))
  }

  lemma {:induction false} DecideIsOutcome(edits: seq<Edit>, comparator: Bytes)
    ensures IsOutcome(Decide(edits, comparator), edits, comparator)
  {
    hide CountersOf;
    CountersAreTheLast(edits);
    var c := CountersOf(edits);
    Forgotten(edits, (e: Edit) => e.nextFile, c.nextFile);
    Forgotten(edits, (e: Edit) => e.logNumber, c.logNumber);
    Forgotten(edits, (e: Edit) => e.lastSequence, c.lastSequence);
  }

  lemma {:induction false} Forgotten(edits: seq<Edit>, field: Edit -> Option<nat>, x: Option<nat>)
    requires LastRecorded(edits, field, x)
    ensures x.None? <==> forall e | e in edits :: field(e).None?
  {
    if x.Some? {
      var i :| 0 <= i < |edits| && field(edits[i]) == x;
      assert edits[i] in edits;
    }
  }

  /** The edits whose records the file holds whole. */
  ghost predicate WholeEdits(file: Bytes, edits: seq<Edit>, n: nat) {
    && n <= |edits| && |LogFormat.Log(RecordsOf(edits[..n]))| <= |file|
    && (n < |edits| ==> |LogFormat.Log(RecordsOf(edits[..n + 1]))| > |file|)
  }

  lemma {:induction false} RecordsPrefix(edits: seq<Edit>, n: nat)
    requires n <= |edits|
    ensures RecordsOf(edits[..n]) == RecordsOf(edits)[..n]
  {
    hide EncodeEdit;
  }

  /** What each record says when it is decoded into a fresh edit. */
  function DecodedRecords(records: seq<Bytes>): (r: seq<Edit>)
    ensures |r| == |records|
  {
    seq(|records|, i requires 0 <= i < |records| => DecodeInto(EMPTY, records[i]))
  }

  ghost predicate AllParse(records: seq<Bytes>) {
    forall i | 0 <= i < |records| :: ParseFields(records[i]).ok
  }

  lemma {:induction false} DecodedIsEdits(edits: seq<Edit>)
    requires ValidEdits(edits)
    ensures AllParse(RecordsOf(edits)) && DecodedRecords(RecordsOf(edits)) == edits
  {
    hide EncodeEdit, ParseFields, DecodeInto, ValidEdit;
    forall i | 0 <= i < |edits| ensures ParseFields(RecordsOf(edits)[i]).ok && DecodeInto(EMPTY, RecordsOf(edits)[i]) == edits[i] {
      VersionEdits.DecodeInvertsEncode(EMPTY, edits[i]);
    }
  }

  /** Decodes the records one by one, each into a fresh edit, up to the first that makes no sense. */
  method DecodeRecords(records: seq<Bytes>, comparator: Bytes) returns (r: Outcome)
    ensures AllParse(records) ==> r == Decide(DecodedRecords(records), comparator) && IsOutcome(r, DecodedRecords(records), comparator)
    ensures !AllParse(records) ==> !r.Replayed?
  {
    hide IsOutcome, EncodeEdit, ParseFields, DecodeInto, ValidEdit, CountersOf;
    DecideIsOutcome(DecodedRecords(records), comparator);
    var decoded: seq<Edit>, counters := [], Counters(None, None, None, None);
    NoCounters();
    for i := 0 to |records|
      invariant decoded == DecodedRecords(records)[..i] && counters == CountersOf(decoded)
      invariant forall j | 0 <= j < i :: Comparable(decoded[j], comparator) && ParseFields(records[j]).ok
    {
      var edit := new VersionEdit();
      var ok := edit.DecodeFrom(records[i]);
      if !ok {
        return Corrupt;
      }
      assert DecodedRecords(records)[i] == edit.edit;
      if !Comparable(edit.edit, comparator) {
        return WrongComparator;
      }
      OneMoreCounted(decoded, edit.edit);
      decoded := decoded + [edit.edit];
      counters := Noted(counters, edit.edit);
    }
    assert decoded == DecodedRecords(records);
    if counters.nextFile.None? || counters.logNumber.None? || counters.lastSequence.None? {
      return Corrupt;
    }
    return Replayed(decoded, counters);
  }

  lemma {:induction false} NoCounters()
    ensures CountersOf([]) == Counters(None, None, None, None)
  {
  }

  lemma {:induction false} OneMoreCounted(edits: seq<Edit>, e: Edit)
    ensures CountersOf(edits + [e]) == Noted(CountersOf(edits), e)
  {
    assert (edits + [e])[..|edits|] == edits;
  }

  /** Replays a manifest file, which may end in the middle of a record: exactly the edits that are there as a whole count. */
  method Replay(file: Bytes, comparator: Bytes, ghost edits: seq<Edit>, ghost intact: bool) returns (r: Outcome, ghost n: nat)
    requires intact ==> ValidEdits(edits) && file <= LogFormat.Log(RecordsOf(edits))
    ensures intact ==> WholeEdits(file, edits, n) && r == Decide(edits[..n], comparator)
    ensures intact ==> IsOutcome(r, edits[..n], comparator)
  {
    hide IsOutcome, EncodeEdit, LogFormat.Log, LogFormat.AllFragments, Decide, ValidEdit;
    var reader := new LogReader.Reader(file, intact, RecordsOf(edits));
    var records := reader.ReadAll();
    n := if intact then |records| else 0;
    if intact {
      RecordsPrefix(edits, n);
      if n < |edits| {
        RecordsPrefix(edits, n + 1);
      }
    }
    if intact {
      assert ValidEdits(edits[..n]);
      DecodedIsEdits(edits[..n]);
    }
    r := DecodeRecords(records, comparator);
  }

  /** Appends an edit to the manifest. */
  method AddEdit(writer: LogWriter.Writer, edit: VersionEdit, ghost edits: seq<Edit>)
    requires writer.Ok() && ValidEdit(edit.edit) && writer.records == RecordsOf(edits)
    modifies writer
    ensures writer.Ok() && writer.records == RecordsOf(edits + [edit.edit])
    ensures writer.dest == LogFormat.Log(RecordsOf(edits + [edit.edit]))
  {
    hide EncodeEdit, LogFormat.Log, LogFormat.EndOf, ValidEdit;
    var record := edit.EncodeTo();
    writer.AddRecord(record);
    assert RecordsOf(edits + [edit.edit]) == RecordsOf(edits) + [EncodeEdit(edit.edit)];
  }
}
