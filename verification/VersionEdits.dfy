/** Version edits as bytes: the records of the manifest. */
module VersionEdits {
  import opened Coding
  import opened Options
  import opened Varints

  const LEVELS: nat := 7

  const COMPARATOR: nat := 1
  const LOG_NUMBER: nat := 2
  const NEXT_FILE_NUMBER: nat := 3
  const LAST_SEQUENCE: nat := 4
  const COMPACT_POINTER: nat := 5
  const DELETED_FILE: nat := 6
  const NEW_FILE: nat := 7
  const PREV_LOG_NUMBER: nat := 9

  datatype FileRecord = FileRecord(number: nat, size: nat, smallest: Bytes, largest: Bytes)

  // An edit as its fields; VersionRecovery relates it to what it does to files in Builder.
  /** The deleted files stand in the order of the set that holds them. */
  datatype Edit = Edit(comparator: Option<Bytes>, logNumber: Option<nat>, prevLogNumber: Option<nat>, nextFile: Option<nat>,
    lastSequence: Option<nat>, compactPointers: seq<(nat, Bytes)>, deletedFiles: seq<(nat, nat)>, newFiles: seq<(nat, FileRecord)>)

  const EMPTY: Edit := Edit(None, None, None, None, None, [], [], [])

  predicate PairBefore(a: (nat, nat), b: (nat, nat)) {
    a.0 < b.0 || (a.0 == b.0 && a.1 < b.1)
  }

  ghost predicate AscendingPairs(s: seq<(nat, nat)>) {
    forall i, j | 0 <= i < j < |s| :: PairBefore(s[i], s[j])
  }

  /** What an edit is made of, one tagged field at a time. */
  datatype Field =
    | Comparator(name: Bytes)
    | Number(tag: nat, value: nat)
    | CompactPointer(level: nat, key: Bytes)
    | DeletedFile(level: nat, number: nat)
    | NewFile(level: nat, file: FileRecord)

  predicate NumberTag(tag: nat) {
    tag == LOG_NUMBER || tag == PREV_LOG_NUMBER || tag == NEXT_FILE_NUMBER || tag == LAST_SEQUENCE
  }

  predicate ValidField(f: Field) {
    match f
    case Comparator(name) => |name| < TWO_32
    case Number(tag, value) => NumberTag(tag) && value < TWO_64
    case CompactPointer(level, key) => level < LEVELS && |key| < TWO_32
    case DeletedFile(level, number) => level < LEVELS && number < TWO_64
    case NewFile(level, file) =>
      level < LEVELS && file.number < TWO_64 && file.size < TWO_64 && |file.smallest| < TWO_32 && |file.largest| < TWO_32
  }

  ghost predicate ValidFields(fields: seq<Field>) {
    forall f | f in fields :: ValidField(f)
  }

  function TagOf(f: Field): nat {
    match f
    case Comparator(_) => COMPARATOR
    case Number(tag, _) => tag
    case CompactPointer(_, _) => COMPACT_POINTER
    case DeletedFile(_, _) => DELETED_FILE
    case NewFile(_, _) => NEW_FILE
  }

  function BodyOf(f: Field): Bytes {
    match f
    case Comparator(name) => Prefixed(name)
    case Number(_, value) => Varint(value)
    case CompactPointer(level, key) => Varint(level) + Prefixed(key)
    case DeletedFile(level, number) => Varint(level) + Varint(number)
    case NewFile(level, file) =>
      Varint(level) + (Varint(file.number) + (Varint(file.size) + (Prefixed(file.smallest) + Prefixed(file.largest))))
  }

  function EncodeField(f: Field): (r: Bytes)
    ensures r != []
  {
    Varint(TagOf(f)) + BodyOf(f)
  }

  function EncodeFields(fields: seq<Field>): Bytes {
    if fields == [] then [] else EncodeFields(fields[..|fields| - 1]) + EncodeField(fields[|fields| - 1])
  }

  // ----- Reading fields

  datatype Got<T> = Got(value: T, rest: Bytes) | Bad

  function GetNumber(input: Bytes, max: nat, width: nat): (r: Got<nat>)
    requires width > 0
    ensures r.Got? ==> |r.rest| < |input|
  {
    match ReadVarint(input, max)
    case None => Bad
    case Some(x) => Got(Cut(x.value, width), input[x.used..])
  }

  function GetString(input: Bytes): (r: Got<Bytes>)
    ensures r.Got? ==> |r.rest| < |input|
  {
    match ReadPrefixed(input)
    case None => Bad
    case Some(x) => Got(x.slice, x.rest)
  }

  function GetLevel(input: Bytes): (r: Got<nat>)
    ensures r.Got? ==> |r.rest| < |input|
  {
    var g := GetNumber(input, 5, TWO_32);
    if g.Got? && g.value < LEVELS then g else Bad
  }

  function GetFile(input: Bytes): (r: Got<FileRecord>)
    ensures r.Got? ==> |r.rest| < |input|
  {
    var number := GetNumber(input, 10, TWO_64);
    if number.Bad? then Bad
    else
      var size := GetNumber(number.rest, 10, TWO_64);
      if size.Bad? then Bad
      else
        var smallest := GetString(size.rest);
        if smallest.Bad? then Bad
        else
          var largest := GetString(smallest.rest);
          if largest.Bad? then Bad
          else Got(FileRecord(number.value, size.value, smallest.value, largest.value), largest.rest)
  }

  /** The rest of a field after its tag. */
  function GetBody(tag: nat, input: Bytes): (r: Got<Field>)
    ensures r.Got? ==> |r.rest| < |input|
  {
    if tag == COMPARATOR then
      var name := GetString(input);
      if name.Bad? then Bad else Got(Comparator(name.value), name.rest)
    else if NumberTag(tag) then
      var n := GetNumber(input, 10, TWO_64);
      if n.Bad? then Bad else Got(Number(tag, n.value), n.rest)
    else if tag == COMPACT_POINTER then
      var level := GetLevel(input);
      if level.Bad? then Bad
      else
        var key := GetString(level.rest);
        if key.Bad? then Bad else Got(CompactPointer(level.value, key.value), key.rest)
    else if tag == DELETED_FILE then
      var level := GetLevel(input);
      if level.Bad? then Bad
      else
        var n := GetNumber(level.rest, 10, TWO_64);
        if n.Bad? then Bad else Got(DeletedFile(level.value, n.value), n.rest)
    else if tag == NEW_FILE then
      var level := GetLevel(input);
      if level.Bad? then Bad
      else
        var file := GetFile(level.rest);
        if file.Bad? then Bad else Got(NewFile(level.value, file.value), file.rest)
    else Bad
  }

  lemma {:induction false} GetInvertsVarint(v: nat, max: nat, width: nat, rest: Bytes)
    requires (max == 5 && width == TWO_32) || (max == 10 && width == TWO_64)
    requires v < width
    ensures GetNumber(Varint(v) + rest, max, width) == Got(v, rest)
  {
    hide Varint, ReadVarint;
    VarintWidths(v);
    ReadInvertsVarint(v, rest, max);
    assert (Varint(v) + rest)[|Varint(v)|..] == rest;
  }

  lemma {:induction false} GetInvertsPrefixed(s: Bytes, rest: Bytes)
    requires |s| < TWO_32
    ensures GetString(Prefixed(s) + rest) == Got(s, rest)
  {
    hide Prefixed, ReadPrefixed;
    ReadInvertsPrefixed(s, rest);
  }

  lemma {:induction false} GetInvertsFile(f: FileRecord, rest: Bytes)
    requires f.number < TWO_64 && f.size < TWO_64 && |f.smallest| < TWO_32 && |f.largest| < TWO_32
    ensures GetFile(Varint(f.number) + (Varint(f.size) + (Prefixed(f.smallest) + Prefixed(f.largest))) + rest) == Got(f, rest)
  {
    hide Varint, Prefixed, GetNumber, GetString;
    var a, b, c, d := Varint(f.number), Varint(f.size), Prefixed(f.smallest), Prefixed(f.largest);
    assert a + (b + (c + d)) + rest == a + (b + (c + (d + rest)));
    GetInvertsVarint(f.number, 10, TWO_64, b + (c + (d + rest)));
    GetInvertsVarint(f.size, 10, TWO_64, c + (d + rest));
    GetInvertsPrefixed(f.smallest, d + rest);
    GetInvertsPrefixed(f.largest, rest);
  }

  lemma {:induction false} GetInvertsLevel(level: nat, rest: Bytes)
    requires level < LEVELS
    ensures GetLevel(Varint(level) + rest) == Got(level, rest)
  {
    hide Varint, GetNumber;
    GetInvertsVarint(level, 5, TWO_32, rest);
  }

  lemma {:induction false} GetInvertsBody(f: Field, rest: Bytes)
    requires ValidField(f)
    ensures GetBody(TagOf(f), BodyOf(f) + rest) == Got(f, rest)
  {
    hide Varint, Prefixed, GetNumber, GetString, GetLevel, GetFile;
    match f
    case Comparator(name) => GetInvertsPrefixed(name, rest);
    case Number(tag, value) => GetInvertsVarint(value, 10, TWO_64, rest);
    case CompactPointer(level, key) =>
      assert Varint(level) + Prefixed(key) + rest == Varint(level) + (Prefixed(key) + rest);
      GetInvertsLevel(level, Prefixed(key) + rest);
      GetInvertsPrefixed(key, rest);
    case DeletedFile(level, number) =>
      assert Varint(level) + Varint(number) + rest == Varint(level) + (Varint(number) + rest);
      GetInvertsLevel(level, Varint(number) + rest);
      GetInvertsVarint(number, 10, TWO_64, rest);
    case NewFile(level, file) =>
      var tail := Varint(file.number) + (Varint(file.size) + (Prefixed(file.smallest) + Prefixed(file.largest)));
      assert Varint(level) + tail + rest == Varint(level) + (tail + rest);
      GetInvertsLevel(level, tail + rest);
      GetInvertsFile(file, rest);
  }

  /** All fields up to the end of the input or to the first that does not make sense. */
  datatype Parsed = Parsed(fields: seq<Field>, ok: bool)

  function ParseFields(input: Bytes): Parsed
    decreases |input|
  {
    var tag := GetNumber(input, 5, TWO_32);
    if tag.Bad? then Parsed([], input == [])
    else
      var body := GetBody(tag.value, tag.rest);
      if body.Bad? then Parsed([], false)
      else Parsed([body.value] + ParseFields(body.rest).fields, ParseFields(body.rest).ok)
  }

  lemma {:induction false} BodyIsValid(tag: nat, input: Bytes)
    requires GetBody(tag, input).Got?
    ensures ValidField(GetBody(tag, input).value)
  {
  }

  /** Whatever bytes are decoded: every field that is accepted is one that an edit may have. */
  lemma {:induction false} AcceptedFieldsAreValid(input: Bytes)
    ensures ValidFields(ParseFields(input).fields)
    decreases |input|
  {
    hide GetBody, GetNumber, ValidField;
    var tag := GetNumber(input, 5, TWO_32);
    if tag.Got? {
      var body := GetBody(tag.value, tag.rest);
      if body.Got? {
        BodyIsValid(tag.value, tag.rest);
        AcceptedFieldsAreValid(body.rest);
      }
    }
  }

  lemma {:induction false} ParseOne(f: Field, rest: Bytes)
    requires ValidField(f)
    ensures ParseFields(EncodeField(f) + rest) == Parsed([f] + ParseFields(rest).fields, ParseFields(rest).ok)
  {
    hide Varint, GetNumber, GetBody, BodyOf;
    var tag, body := Varint(TagOf(f)), BodyOf(f);
    assert EncodeField(f) + rest == tag + (body + rest);
    GetInvertsVarint(TagOf(f), 5, TWO_32, body + rest);
    GetInvertsBody(f, rest);
  }

  lemma {:induction false} ParseAfter(fields: seq<Field>, rest: Bytes)
    requires ValidFields(fields)
    ensures ParseFields(EncodeFields(fields) + rest) == Parsed(fields + ParseFields(rest).fields, ParseFields(rest).ok)
  {
    hide EncodeField, ParseFields, ValidField;
    if fields == [] {
      assert [] + rest == rest;
      assert [] + ParseFields(rest).fields == ParseFields(rest).fields;
    } else {
      var n := |fields| - 1;
      var last := fields[n];
      assert EncodeFields(fields) + rest == EncodeFields(fields[..n]) + (EncodeField(last) + rest);
      assert forall f | f in fields[..n] :: f in fields;
      ParseAfter(fields[..n], EncodeField(last) + rest);
      ParseOne(last, rest);
      assert fields[..n] + ([last] + ParseFields(rest).fields) == fields + ParseFields(rest).fields;
    }
  }

  lemma {:induction false} NothingToParse()
    ensures ParseFields([]) == Parsed([], true)
  {
  }

  lemma {:induction false} ParseInvertsEncode(fields: seq<Field>)
    requires ValidFields(fields)
    ensures ParseFields(EncodeFields(fields)) == Parsed(fields, true)
  {
    hide EncodeField, ParseFields, EncodeFields;
    ParseAfter(fields, []);
    NothingToParse();
    assert EncodeFields(fields) + [] == EncodeFields(fields) && fields + [] == fields;
  }

  // ----- Edits and their fields

  function InsertPair(s: seq<(nat, nat)>, p: (nat, nat)): seq<(nat, nat)> {
    if s == [] then [p]
    else if p == s[0] then s
    else if PairBefore(p, s[0]) then [p] + s
    else [s[0]] + InsertPair(s[1..], p)
  }

  /** Inserting keeps the pairs in order and adds no other, whatever order they come in. */
  lemma {:induction false} InsertPairInserts(s: seq<(nat, nat)>, p: (nat, nat))
    requires AscendingPairs(s)
    ensures AscendingPairs(InsertPair(s, p)) && forall q :: q in InsertPair(s, p) <==> q == p || q in s
  {
    if s != [] && p != s[0] && !PairBefore(p, s[0]) {
      InsertPairInserts(s[1..], p);
      var r := InsertPair(s[1..], p);
      assert forall q | q in s[1..] :: PairBefore(s[0], q);
      assert forall i | 0 <= i < |r| :: r[i] in r;
    }
  }

  function ApplyField(e: Edit, f: Field): Edit {
    match f
    case Comparator(name) => e.(comparator := Some(name))
    case Number(tag, value) =>
      if tag == LOG_NUMBER then e.(logNumber := Some(value))
      else if tag == PREV_LOG_NUMBER then e.(prevLogNumber := Some(value))
      else if tag == NEXT_FILE_NUMBER then e.(nextFile := Some(value))
      else e.(lastSequence := Some(value))
    case CompactPointer(level, key) => e.(compactPointers := e.compactPointers + [(level, key)])
    case DeletedFile(level, number) => e.(deletedFiles := InsertPair(e.deletedFiles, (level, number)))
    case NewFile(level, file) => e.(newFiles := e.newFiles + [(level, file)])
  }

  function ApplyFields(e: Edit, fields: seq<Field>): Edit {
    if fields == [] then e else ApplyField(ApplyFields(e, fields[..|fields| - 1]), fields[|fields| - 1])
  }

  function OneNumber(tag: nat, n: Option<nat>): seq<Field> {
    if n.Some? then [Number(tag, n.value)] else []
  }

  function HeadFields(e: Edit): seq<Field> {
    (if e.comparator.Some? then [Comparator(e.comparator.value)] else [])
      + OneNumber(LOG_NUMBER, e.logNumber) + OneNumber(PREV_LOG_NUMBER, e.prevLogNumber)
      + OneNumber(NEXT_FILE_NUMBER, e.nextFile) + OneNumber(LAST_SEQUENCE, e.lastSequence)
  }

  function PointerFields(pointers: seq<(nat, Bytes)>): (r: seq<Field>)
    ensures |r| == |pointers|
  {
    seq(|pointers|, i requires 0 <= i < |pointers| => CompactPointer(pointers[i].0, pointers[i].1))
  }

  function DeletedFields(deleted: seq<(nat, nat)>): (r: seq<Field>)
    ensures |r| == |deleted|
  {
    seq(|deleted|, i requires 0 <= i < |deleted| => DeletedFile(deleted[i].0, deleted[i].1))
  }

  function NewFields(files: seq<(nat, FileRecord)>): (r: seq<Field>)
    ensures |r| == |files|
  {
    seq(|files|, i requires 0 <= i < |files| => NewFile(files[i].0, files[i].1))
  }

  /** The fields of an edit in the order in which they are written. */
  function FieldsOf(e: Edit): seq<Field> {
    HeadFields(e) + (PointerFields(e.compactPointers) + (DeletedFields(e.deletedFiles) + NewFields(e.newFiles)))
  }

  function EncodeEdit(e: Edit): Bytes {
    EncodeFields(FieldsOf(e))
  }

  ghost predicate ValidEdit(e: Edit) {
    ValidFields(FieldsOf(e)) && AscendingPairs(e.deletedFiles)
  }

  /** Clearing an edit leaves its compaction pointers. */
  function Cleared(e: Edit): Edit {
    EMPTY.(compactPointers := e.compactPointers)
  }

  lemma {:induction false} ApplyAppend(e: Edit, a: seq<Field>, b: seq<Field>)
    ensures ApplyFields(e, a + b) == ApplyFields(ApplyFields(e, a), b)
  {
    hide ApplyField;
    if b == [] {
      assert a + b == a;
    } else {
      var n := |b| - 1;
      assert (a + b)[..|a| + n] == a + b[..n] && (a + b)[|a| + n] == b[n];
      ApplyAppend(e, a, b[..n]);
    }
  }

  lemma {:induction false} ApplyOne(e: Edit, f: Field)
    ensures ApplyFields(e, [f]) == ApplyField(e, f) && ApplyFields(e, []) == e
  {
    hide ApplyField;
    assert [f][..0] == [];
  }

  lemma {:induction false} ApplyNumber(e: Edit, tag: nat, n: Option<nat>)
    requires NumberTag(tag)
    requires n.None? ==> e == (if tag == LOG_NUMBER then e.(logNumber := None) else if tag == PREV_LOG_NUMBER then e.(prevLogNumber := None)
      else if tag == NEXT_FILE_NUMBER then e.(nextFile := None) else e.(lastSequence := None))
    ensures ApplyFields(e, OneNumber(tag, n)) == if tag == LOG_NUMBER then e.(logNumber := n) else if tag == PREV_LOG_NUMBER then e.(prevLogNumber := n)
      else if tag == NEXT_FILE_NUMBER then e.(nextFile := n) else e.(lastSequence := n)
  {
    if n.Some? {
      ApplyOne(e, Number(tag, n.value));
    } else {
      ApplyOne(e, Comparator([]));
    }
  }

  lemma {:induction false} ApplyHead(e: Edit, pointers: seq<(nat, Bytes)>)
    ensures ApplyFields(EMPTY.(compactPointers := pointers), HeadFields(e))
      == Edit(e.comparator, e.logNumber, e.prevLogNumber, e.nextFile, e.lastSequence, pointers, [], [])
  {
    hide ApplyFields, OneNumber;
    var name := if e.comparator.Some? then [Comparator(e.comparator.value)] else [];
    var a, b, c, d := OneNumber(LOG_NUMBER, e.logNumber), OneNumber(PREV_LOG_NUMBER, e.prevLogNumber),
      OneNumber(NEXT_FILE_NUMBER, e.nextFile), OneNumber(LAST_SEQUENCE, e.lastSequence);
    var e0 := EMPTY.(compactPointers := pointers);
    ApplyOne(e0, Comparator(if e.comparator.Some? then e.comparator.value else []));
    var e1 := e0.(comparator := e.comparator);
    ApplyAppend(e0, name, a);
    ApplyNumber(e1, LOG_NUMBER, e.logNumber);
    var e2 := e1.(logNumber := e.logNumber);
    ApplyAppend(e0, name + a, b);
    ApplyNumber(e2, PREV_LOG_NUMBER, e.prevLogNumber);
    var e3 := e2.(prevLogNumber := e.prevLogNumber);
    ApplyAppend(e0, name + a + b, c);
    ApplyNumber(e3, NEXT_FILE_NUMBER, e.nextFile);
    var e4 := e3.(nextFile := e.nextFile);
    ApplyAppend(e0, name + a + b + c, d);
    ApplyNumber(e4, LAST_SEQUENCE, e.lastSequence);
  }

  lemma {:induction false} ApplyPointers(e: Edit, pointers: seq<(nat, Bytes)>)
    ensures ApplyFields(e, PointerFields(pointers)) == e.(compactPointers := e.compactPointers + pointers)
  {
    if pointers == [] {
      assert e.compactPointers + [] == e.compactPointers;
    } else {
      var n := |pointers| - 1;
      assert PointerFields(pointers)[..n] == PointerFields(pointers[..n]);
      ApplyPointers(e, pointers[..n]);
      assert e.compactPointers + pointers[..n] + [pointers[n]] == e.compactPointers + pointers;
    }
  }

  lemma {:induction false} InsertLast(s: seq<(nat, nat)>, p: (nat, nat))
    requires forall i | 0 <= i < |s| :: PairBefore(s[i], p)
    ensures InsertPair(s, p) == s + [p]
  {
    if s != [] {
      InsertLast(s[1..], p);
      assert s + [p] == [s[0]] + (s[1..] + [p]);
    }
  }

  lemma {:induction false} ApplyDeleted(e: Edit, deleted: seq<(nat, nat)>)
    requires AscendingPairs(deleted) && e.deletedFiles == []
    ensures ApplyFields(e, DeletedFields(deleted)) == e.(deletedFiles := deleted)
  {
    if deleted != [] {
      var n := |deleted| - 1;
      assert DeletedFields(deleted)[..n] == DeletedFields(deleted[..n]);
      ApplyDeleted(e, deleted[..n]);
      InsertLast(deleted[..n], deleted[n]);
      assert deleted[..n] + [deleted[n]] == deleted;
    }
  }

  lemma {:induction false} ApplyNew(e: Edit, files: seq<(nat, FileRecord)>)
    ensures ApplyFields(e, NewFields(files)) == e.(newFiles := e.newFiles + files)
  {
    if files == [] {
      assert e.newFiles + [] == e.newFiles;
    } else {
      var n := |files| - 1;
      assert NewFields(files)[..n] == NewFields(files[..n]);
      ApplyNew(e, files[..n]);
      assert e.newFiles + files[..n] + [files[n]] == e.newFiles + files;
    }
  }

  /** Applying the fields of an edit to a cleared one makes the edit, except that pointers from before stay in front. */
  lemma {:induction false} ApplyInvertsFields(start: Edit, e: Edit)
    requires AscendingPairs(e.deletedFiles)
    ensures ApplyFields(Cleared(start), FieldsOf(e)) == e.(compactPointers := start.compactPointers + e.compactPointers)
  {
    hide HeadFields, PointerFields, DeletedFields, NewFields, ApplyFields;
    var head, pointers, deleted, files := HeadFields(e), PointerFields(e.compactPointers), DeletedFields(e.deletedFiles), NewFields(e.newFiles);
    ApplyAppend(Cleared(start), head, pointers + (deleted + files));
    ApplyHead(e, start.compactPointers);
    var e1 := ApplyFields(Cleared(start), head);
    ApplyAppend(e1, pointers, deleted + files);
    ApplyPointers(e1, e.compactPointers);
    var e2 := ApplyFields(e1, pointers);
    ApplyAppend(e2, deleted, files);
    ApplyDeleted(e2, e.deletedFiles);
    ApplyNew(ApplyFields(e2, deleted), e.newFiles);
    assert [] + e.newFiles == e.newFiles;
  }

  /** What decoding makes of bytes, into an edit with pointers of its own. */
  function DecodeInto(start: Edit, input: Bytes): Edit {
    ApplyFields(Cleared(start), ParseFields(input).fields)
  }

  /** Decoding an encoded edit into a fresh one gives the edit back; into a used one, its old pointers stay. */
  lemma {:induction false} DecodeInvertsEncode(start: Edit, e: Edit)
    requires ValidEdit(e)
    ensures ParseFields(EncodeEdit(e)).ok
    ensures DecodeInto(start, EncodeEdit(e)) == e.(compactPointers := start.compactPointers + e.compactPointers)
    ensures start.compactPointers == [] ==> DecodeInto(start, EncodeEdit(e)) == e
  {
    hide ApplyFields, EncodeFields, ParseFields, FieldsOf;
    ParseInvertsEncode(FieldsOf(e));
    ApplyInvertsFields(start, e);
    assert [] + e.compactPointers == e.compactPointers;
  }

  /** So a used edit decodes right if and only if it had no pointers. */
  lemma {:induction false} UsedEditDecodesWrong(start: Edit, e: Edit)
    requires ValidEdit(e)
    ensures DecodeInto(start, EncodeEdit(e)) == e <==> start.compactPointers == []
  {
    hide DecodeInto, EncodeEdit, ValidEdit;
    DecodeInvertsEncode(start, e);
    assert |start.compactPointers + e.compactPointers| == |start.compactPointers| + |e.compactPointers|;
  }

  // ----- The object

  class VersionEdit {
    var edit: Edit

    constructor ()
      ensures edit == EMPTY
    {
      edit := EMPTY;
    }

    method Clear()
      modifies this
      ensures edit == Cleared(old(edit))
    {
      edit := Edit(None, None, None, None, None, edit.compactPointers, [], []);
    }

    method PutNumber(dst: Bytes, tag: nat, n: Option<nat>) returns (r: Bytes)
      requires NumberTag(tag) && (n.Some? ==> n.value < TWO_64)
      ensures r == dst + EncodeFields(OneNumber(tag, n))
    {
      hide Varint;
      r := dst;
      if n.Some? {
        var a := EncodeVarint32(tag);
        r := r + a;
        var b := EncodeVarint64(n.value);
        r := r + b;
        OneField(Number(tag, n.value));
        assert dst + a + b == dst + (a + b);
      }
    }

    method PutPrefixed(dst: Bytes, s: Bytes) returns (r: Bytes)
      requires |s| < TWO_32
      ensures r == dst + Prefixed(s)
    {
      hide Varint;
      var a := EncodeVarint32(|s|);
      r := dst + a;
      r := r + s;
      assert dst + a + s == dst + (a + s);
    }

    method EncodeTo() returns (dst: Bytes)
      requires ValidEdit(edit)
      ensures dst == EncodeEdit(edit)
    {
      hide EncodeFields, HeadFields, PointerFields, DeletedFields, NewFields, AscendingPairs, ValidFields;
      Sections(edit);
      dst := PutHead();
      dst := PutPointers(dst);
      dst := PutDeleted(dst);
      dst := PutNew(dst);
    }

    method PutComparator() returns (dst: Bytes)
      requires edit.comparator.Some? ==> |edit.comparator.value| < TWO_32
      ensures dst == if edit.comparator.Some? then EncodeFields([Comparator(edit.comparator.value)]) else []
    {
      hide EncodeFields, Prefixed, Varint;
      dst := [];
      if edit.comparator.Some? {
        var a := EncodeVarint32(COMPARATOR);
        dst := dst + a;
        dst := PutPrefixed(dst, edit.comparator.value);
        OneField(Comparator(edit.comparator.value));
      }
    }

    lemma HeadIsValid(e: Edit)
      requires ValidEdit(e)
      ensures ValidFields(HeadFields(e))
    {
      assert forall f | f in HeadFields(e) :: f in FieldsOf(e);
    }

    method PutHead() returns (dst: Bytes)
      requires ValidEdit(edit)
      ensures dst == EncodeFields(HeadFields(edit))
    {
      hide EncodeFields, OneNumber, Prefixed, Varint, ValidEdit, ValidFields, HeadFields;
      HeadIsValid(edit);
      HeadSections(edit);
      dst := PutComparator();
      dst := PutNumber(dst, LOG_NUMBER, edit.logNumber);
      dst := PutNumber(dst, PREV_LOG_NUMBER, edit.prevLogNumber);
      dst := PutNumber(dst, NEXT_FILE_NUMBER, edit.nextFile);
      dst := PutNumber(dst, LAST_SEQUENCE, edit.lastSequence);
    }

    method PutPointers(dst: Bytes) returns (r: Bytes)
      requires ValidFields(PointerFields(edit.compactPointers))
      ensures r == dst + EncodeFields(PointerFields(edit.compactPointers))
    {
      hide EncodeFields, Prefixed, Varint;
      var pointers := edit.compactPointers;
      NoFields();
      r := dst;
      assert PointerFields(pointers)[..0] == [] && dst + [] == dst;
      for i := 0 to |pointers|
        invariant r == dst + EncodeFields(PointerFields(pointers)[..i])
      {
        var f := PointerFields(pointers)[i];
        assert ValidField(f);
        OneMoreField(PointerFields(pointers), i);
        ghost var before := r;
        var a := EncodeVarint32(COMPACT_POINTER);
        r := r + a;
        var b := EncodeVarint32(pointers[i].0);
        r := r + b;
        r := PutPrefixed(r, pointers[i].1);
        assert r == before + (a + (b + Prefixed(pointers[i].1)));
      }
      assert PointerFields(pointers)[..|pointers|] == PointerFields(pointers);
    }

    method PutDeleted(dst: Bytes) returns (r: Bytes)
      requires ValidFields(DeletedFields(edit.deletedFiles))
      ensures r == dst + EncodeFields(DeletedFields(edit.deletedFiles))
    {
      hide EncodeFields, Varint;
      var deleted := edit.deletedFiles;
      NoFields();
      r := dst;
      assert DeletedFields(deleted)[..0] == [] && dst + [] == dst;
      for i := 0 to |deleted|
        invariant r == dst + EncodeFields(DeletedFields(deleted)[..i])
      {
        var f := DeletedFields(deleted)[i];
        assert ValidField(f);
        OneMoreField(DeletedFields(deleted), i);
        ghost var before := r;
        var a := EncodeVarint32(DELETED_FILE);
        r := r + a;
        var b := EncodeVarint32(deleted[i].0);
        r := r + b;
        var c := EncodeVarint64(deleted[i].1);
        r := r + c;
        assert r == before + (a + (b + c));
      }
      assert DeletedFields(deleted)[..|deleted|] == DeletedFields(deleted);
    }

    method PutNew(dst: Bytes) returns (r: Bytes)
      requires ValidFields(NewFields(edit.newFiles))
      ensures r == dst + EncodeFields(NewFields(edit.newFiles))
    {
      hide EncodeFields, Varint;
      var files := edit.newFiles;
      NoFields();
      r := dst;
      assert NewFields(files)[..0] == [] && dst + [] == dst;
      for i := 0 to |files|
        invariant r == dst + EncodeFields(NewFields(files)[..i])
      {
        var field := NewFields(files)[i];
        assert ValidField(field);
        OneMoreField(NewFields(files), i);
        r := PutFile(r, files[i].0, files[i].1);
      }
      assert NewFields(files)[..|files|] == NewFields(files);
    }

    method PutFile(dst: Bytes, level: nat, f: FileRecord) returns (r: Bytes)
      requires ValidField(NewFile(level, f))
      ensures r == dst + EncodeField(NewFile(level, f))
    {
      hide Varint, Prefixed;
      var a := EncodeVarint32(NEW_FILE);
      r := dst + a;
      var b := EncodeVarint32(level);
      r := r + b;
      var c := EncodeVarint64(f.number);
      r := r + c;
      var d := EncodeVarint64(f.size);
      r := r + d;
      r := PutPrefixed(r, f.smallest);
      r := PutPrefixed(r, f.largest);
      ghost var x, y := Prefixed(f.smallest), Prefixed(f.largest);
      assert dst + a + b + c + d + x + y == dst + (a + (b + (c + (d + (x + y)))));
    }

    /** Parses field by field; the edit is right only if all of the input makes sense. */
    method DecodeFrom(src: Bytes) returns (ok: bool)
      modifies this
      ensures ok == ParseFields(src).ok && edit == DecodeInto(old(edit), src)
    {
      hide GetNumber, GetBody, ApplyField, ApplyFields;
      Clear();
      ghost var start, done := edit, [];
      var input := src;
      ApplyOne(start, Comparator([]));
      var tag := GetNumber(input, 5, TWO_32);
      assert [] + ParseFields(input).fields == ParseFields(input).fields;
      while tag.Got?
        invariant tag == GetNumber(input, 5, TWO_32) && edit == ApplyFields(start, done)
        invariant ParseFields(src) == Parsed(done + ParseFields(input).fields, ParseFields(input).ok)
        decreases |input|
      {
        var body := GetBody(tag.value, tag.rest);
        if body.Bad? {
          assert done + [] == done;
          return false;
        }
        edit := ApplyField(edit, body.value);
        assert done + ([body.value] + ParseFields(body.rest).fields) == done + [body.value] + ParseFields(body.rest).fields;
        ApplyAppend(start, done, [body.value]);
        ApplyOne(ApplyFields(start, done), body.value);
        done := done + [body.value];
        input := body.rest;
        tag := GetNumber(input, 5, TWO_32);
      }
      assert done + [] == done;
      ok := input == [];
    }
  }

  lemma {:induction false} EncodeAppend(a: seq<Field>, b: seq<Field>)
    ensures EncodeFields(a + b) == EncodeFields(a) + EncodeFields(b)
  {
    hide EncodeField;
    if b == [] {
      assert a + b == a;
    } else {
      var n := |b| - 1;
      assert (a + b)[..|a| + n] == a + b[..n] && (a + b)[|a| + n] == b[n];
      EncodeAppend(a, b[..n]);
    }
  }

  lemma {:induction false} OneMoreField(fields: seq<Field>, i: nat)
    requires i < |fields|
    ensures EncodeFields(fields[..i + 1]) == EncodeFields(fields[..i]) + EncodeField(fields[i])
  {
    hide EncodeField, EncodeFields;
    assert fields[..i + 1] == fields[..i] + [fields[i]];
    EncodeAppend(fields[..i], [fields[i]]);
    OneField(fields[i]);
  }

  /** The four parts of an encoded edit, each of valid fields. */
  lemma {:induction false} Sections(e: Edit)
    requires ValidFields(FieldsOf(e))
    ensures EncodeEdit(e) == EncodeFields(HeadFields(e)) + EncodeFields(PointerFields(e.compactPointers))
      + EncodeFields(DeletedFields(e.deletedFiles)) + EncodeFields(NewFields(e.newFiles))
    ensures ValidFields(HeadFields(e)) && ValidFields(PointerFields(e.compactPointers))
    ensures ValidFields(DeletedFields(e.deletedFiles)) && ValidFields(NewFields(e.newFiles))
  {
    hide EncodeFields, HeadFields, PointerFields, DeletedFields, NewFields, ValidField;
    var a, b, c, d := HeadFields(e), PointerFields(e.compactPointers), DeletedFields(e.deletedFiles), NewFields(e.newFiles);
    EncodeAppend(a, b + (c + d));
    EncodeAppend(b, c + d);
    EncodeAppend(c, d);
    assert EncodeFields(a) + (EncodeFields(b) + (EncodeFields(c) + EncodeFields(d)))
      == EncodeFields(a) + EncodeFields(b) + EncodeFields(c) + EncodeFields(d);
  }

  lemma {:induction false} HeadSections(e: Edit)
    requires ValidFields(HeadFields(e))
    ensures EncodeFields(HeadFields(e)) == (if e.comparator.Some? then EncodeFields([Comparator(e.comparator.value)]) else [])
      + EncodeFields(OneNumber(LOG_NUMBER, e.logNumber)) + EncodeFields(OneNumber(PREV_LOG_NUMBER, e.prevLogNumber))
      + EncodeFields(OneNumber(NEXT_FILE_NUMBER, e.nextFile)) + EncodeFields(OneNumber(LAST_SEQUENCE, e.lastSequence))
    ensures e.comparator.Some? ==> |e.comparator.value| < TWO_32
    ensures (e.logNumber.Some? ==> e.logNumber.value < TWO_64) && (e.prevLogNumber.Some? ==> e.prevLogNumber.value < TWO_64)
    ensures (e.nextFile.Some? ==> e.nextFile.value < TWO_64) && (e.lastSequence.Some? ==> e.lastSequence.value < TWO_64)
  {
    hide EncodeFields, EncodeField;
    var name := if e.comparator.Some? then [Comparator(e.comparator.value)] else [];
    var a, b, c, d := OneNumber(LOG_NUMBER, e.logNumber), OneNumber(PREV_LOG_NUMBER, e.prevLogNumber),
      OneNumber(NEXT_FILE_NUMBER, e.nextFile), OneNumber(LAST_SEQUENCE, e.lastSequence);
    NoFields();
    EncodeAppend(name, a);
    EncodeAppend(name + a, b);
    EncodeAppend(name + a + b, c);
    EncodeAppend(name + a + b + c, d);
    assert forall f | f in a + b + c + d :: f in HeadFields(e);
    assert forall f | f in a + b + c + d :: ValidField(f);
    assert e.comparator.Some? ==> Comparator(e.comparator.value) in HeadFields(e);
    NumberFits(LOG_NUMBER, e.logNumber, HeadFields(e));
    NumberFits(PREV_LOG_NUMBER, e.prevLogNumber, HeadFields(e));
    NumberFits(NEXT_FILE_NUMBER, e.nextFile, HeadFields(e));
    NumberFits(LAST_SEQUENCE, e.lastSequence, HeadFields(e));
  }

  lemma {:induction false} NumberFits(tag: nat, n: Option<nat>, fields: seq<Field>)
    requires ValidFields(fields) && forall f | f in OneNumber(tag, n) :: f in fields
    ensures n.Some? ==> n.value < TWO_64
  {
    if n.Some? {
      assert Number(tag, n.value) in OneNumber(tag, n);
    }
  }

  lemma {:induction false} OneField(f: Field)
    ensures EncodeFields([f]) == EncodeField(f)
  {
    hide EncodeField;
    assert [f][..0] == [] && [] + EncodeField(f) == EncodeField(f);
  }

  lemma {:induction false} NoFields()
    ensures EncodeFields([]) == []
  {
  }
}
