/** A batch of writes, packed into bytes: an 8-byte sequence, a 4-byte count, and the records. */
module WriteBatches {
  import opened Coding
  import opened Octets
  import opened Options
  import opened Varints

  const HEADER: nat := 12
  const TYPE_DELETION: nat := 0
  const TYPE_VALUE: nat := 1
  const MAX_COUNT: nat := 0x8000_0000

  // A write on bytes; EngineWrites relates it to the engine's view of it in Store.
  datatype Op = Put(key: Bytes, value: Bytes) | Delete(key: Bytes)

  /** A write with the sequence number it got. */
  datatype Stamped = Stamped(sequence: nat, op: Op)

  datatype Status = Ok | TooSmall | BadPut | BadDelete | UnknownTag | WrongCount

  // ----- The packed form

  predicate StorableOp(op: Op) {
    |op.key| < TWO_32 && (op.Put? ==> |op.value| < TWO_32)
  }

  predicate Storable(ops: seq<Op>) {
    forall op | op in ops :: StorableOp(op)
  }

  function Record(op: Op): (r: Bytes)
    ensures r != []
  {
    match op
    case Put(key, value) => [Byte(TYPE_VALUE)] + (Prefixed(key) + Prefixed(value))
    case Delete(key) => [Byte(TYPE_DELETION)] + Prefixed(key)
  }

  function Records(ops: seq<Op>): Bytes {
    if ops == [] then [] else Record(ops[0]) + Records(ops[1..])
  }

  function Rep(sequence: nat, ops: seq<Op>): (r: Bytes)
    ensures |r| == HEADER + |Records(ops)|
  {
    Fixed(sequence, 8) + Fixed(|ops| % TWO_32, 4) + Records(ops)
  }

  /** The writes in order, numbered from `first` on. */
  function Stamp(first: nat, ops: seq<Op>): (r: seq<Stamped>)
    ensures |r| == |ops|
  {
    seq(|ops|, i requires 0 <= i < |ops| => Stamped(first + i, ops[i]))
  }

  // ----- Reading it

  datatype OneRecord = OneRecord(op: Op, rest: Bytes) | BadRecord(status: Status)

  function ReadRecord(input: Bytes): (r: OneRecord)
    requires input != []
    ensures r.OneRecord? ==> |r.rest| < |input|
    ensures r.BadRecord? ==> r.status != Ok
  {
    var tag, body := Value(input[0]), input[1..];
    if tag == TYPE_VALUE then
      match ReadPrefixed(body)
      case None => BadRecord(BadPut)
      case Some(key) =>
        (match ReadPrefixed(key.rest)
         case None => BadRecord(BadPut)
         case Some(value) => OneRecord(Put(key.slice, value.slice), value.rest))
    else if tag == TYPE_DELETION then
      match ReadPrefixed(body)
      case None => BadRecord(BadDelete)
      case Some(key) => OneRecord(Delete(key.slice), key.rest)
    else BadRecord(UnknownTag)
  }

  /** What a handler is given before the end or before the first bad record. */
  datatype Parsed = Parsed(ops: seq<Op>, status: Status)

  function Parse(input: Bytes): Parsed
    decreases |input|
  {
    if input == [] then Parsed([], Ok)
    else
      match ReadRecord(input)
      case BadRecord(status) => Parsed([], status)
      case OneRecord(op, rest) => Parsed([op] + Parse(rest).ops, Parse(rest).status)
  }

  function CountOf(rep: Bytes): nat
    requires |rep| >= HEADER
  {
    FixedValue(rep[8..], 4)
  }

  function SequenceOf(rep: Bytes): nat
    requires |rep| >= HEADER
  {
    FixedValue(rep, 8)
  }

  function StatusOf(rep: Bytes): Status {
    if |rep| < HEADER then TooSmall
    else if Parse(rep[HEADER..]).status != Ok then Parse(rep[HEADER..]).status
    else if |Parse(rep[HEADER..]).ops| != CountOf(rep) then WrongCount
    else Ok
  }

  // ----- Round trips

  lemma {:induction false} ReadInvertsRecord(op: Op, rest: Bytes)
    requires StorableOp(op)
    ensures ReadRecord(Record(op) + rest) == OneRecord(op, rest)
  {
    hide Prefixed, ReadPrefixed, Byte, Value;
    var all := Record(op) + rest;
    match op
    case Put(key, value) =>
      assert all[0] == Byte(TYPE_VALUE);
      assert all[1..] == Prefixed(key) + (Prefixed(value) + rest);
      ReadInvertsPrefixed(key, Prefixed(value) + rest);
      ReadInvertsPrefixed(value, rest);
    case Delete(key) =>
      assert all[0] == Byte(TYPE_DELETION);
      assert all[1..] == Prefixed(key) + rest;
      ReadInvertsPrefixed(key, rest);
  }

  lemma {:induction false} LongStringReadsWrong(s: Bytes, rest: Bytes)
    requires |s| >= TWO_32
    ensures ReadPrefixed(Prefixed(s) + rest).Some? && |ReadPrefixed(Prefixed(s) + rest).value.slice| < |s|
  {
    hide Varint, ReadVarint;
    var length := |s| % TWO_32;
    VarintWidths(length);
    ReadInvertsVarint(length, s + rest, 5);
    assert Prefixed(s) + rest == Varint(length) + (s + rest);
  }

  /** A record reads back if and only if its strings are shorter than 2^32 bytes: lengths go into 32 bits. */
  lemma {:induction false} RecordReadsBackIff(op: Op, rest: Bytes)
    ensures ReadRecord(Record(op) + rest) == OneRecord(op, rest) <==> StorableOp(op)
  {
    hide Prefixed, ReadPrefixed, Byte, Value;
    var all := Record(op) + rest;
    if StorableOp(op) {
      ReadInvertsRecord(op, rest);
    } else {
      match op
      case Put(key, value) =>
        assert all[0] == Byte(TYPE_VALUE);
        assert all[1..] == Prefixed(key) + (Prefixed(value) + rest);
        if |key| >= TWO_32 {
          LongStringReadsWrong(key, Prefixed(value) + rest);
        } else {
          ReadInvertsPrefixed(key, Prefixed(value) + rest);
          LongStringReadsWrong(value, rest);
        }
      case Delete(key) =>
        assert all[0] == Byte(TYPE_DELETION);
        assert all[1..] == Prefixed(key) + rest;
        LongStringReadsWrong(key, rest);
    }
  }

  lemma {:induction false} ParseInvertsRecords(ops: seq<Op>)
    requires Storable(ops)
    ensures Parse(Records(ops)) == Parsed(ops, Ok)
  {
    hide Record, ReadRecord;
    if ops != [] {
      ReadInvertsRecord(ops[0], Records(ops[1..]));
      assert forall op | op in ops[1..] :: op in ops;
      ParseInvertsRecords(ops[1..]);
      assert ops == [ops[0]] + ops[1..];
    }
  }

  lemma {:induction false} RecordsAppend(a: seq<Op>, b: seq<Op>)
    ensures Records(a + b) == Records(a) + Records(b)
  {
    hide Record;
    if a == [] {
      assert a + b == b;
    } else {
      assert (a + b)[0] == a[0] && (a + b)[1..] == a[1..] + b;
      RecordsAppend(a[1..], b);
    }
  }

  lemma {:induction false} HeaderFields(sequence: nat, ops: seq<Op>)
    requires sequence < TWO_64
    ensures SequenceOf(Rep(sequence, ops)) == sequence && CountOf(Rep(sequence, ops)) == |ops| % TWO_32
    ensures Rep(sequence, ops)[HEADER..] == Records(ops)
  {
    hide Fixed, FixedValue, Records, Pow256;
    FixedWidths();
    var s, n, r := Fixed(sequence, 8), Fixed(|ops| % TWO_32, 4), Records(ops);
    var rep := Rep(sequence, ops);
    assert rep == s + (n + r);
    FixedValueInvertsFixed(sequence, 8, n + r);
    assert rep[8..] == n + r;
    FixedValueInvertsFixed(|ops| % TWO_32, 4, r);
  }

  /** A packed batch reads back as its writes, and passes for intact. */
  lemma {:induction false} RepReadsBack(sequence: nat, ops: seq<Op>)
    requires sequence < TWO_64 && Storable(ops) && |ops| < TWO_32
    ensures SequenceOf(Rep(sequence, ops)) == sequence
    ensures StatusOf(Rep(sequence, ops)) == Ok && Parse(Rep(sequence, ops)[HEADER..]).ops == ops
  {
    hide Rep, Records, Parse, SequenceOf, CountOf;
    HeaderFields(sequence, ops);
    ParseInvertsRecords(ops);
  }

  /** Bytes that end inside a record do not pass for a shorter batch. */
  lemma {:induction false} CutBatchIsCorrupt(sequence: nat, ops: seq<Op>, kept: seq<Op>)
    requires sequence < TWO_64 && Storable(ops) && kept < ops && |ops| < TWO_32
    ensures StatusOf(Fixed(sequence, 8) + Fixed(|ops|, 4) + Records(kept)) == WrongCount
  {
    hide Fixed, FixedValue, Records, Parse, Pow256;
    assert forall op | op in kept :: op in ops;
    var n, r := Fixed(|ops|, 4), Records(kept);
    var rep := Fixed(sequence, 8) + n + r;
    FixedWidths();
    assert rep[8..] == n + r && rep[HEADER..] == r;
    FixedValueInvertsFixed(|ops|, 4, r);
    ParseInvertsRecords(kept);
  }

  // ----- The objects

  class MemTableInserter {
    var sequence: nat
    var mem: seq<Stamped>

    constructor (sequence: nat, mem: seq<Stamped>)
      ensures this.sequence == sequence && this.mem == mem
    {
      this.sequence, this.mem := sequence, mem;
    }

    method Put(key: Bytes, value: Bytes)
      modifies this
      ensures mem == old(mem) + [Stamped(old(sequence), Op.Put(key, value))] && sequence == old(sequence) + 1
    {
      mem := mem + [Stamped(sequence, Op.Put(key, value))];
      sequence := sequence + 1;
    }

    method Delete(key: Bytes)
      modifies this
      ensures mem == old(mem) + [Stamped(old(sequence), Op.Delete(key))] && sequence == old(sequence) + 1
    {
      mem := mem + [Stamped(sequence, Op.Delete(key))];
      sequence := sequence + 1;
    }
  }

  lemma {:induction false} StampOneMore(first: nat, ops: seq<Op>, op: Op)
    ensures Stamp(first, ops + [op]) == Stamp(first, ops) + [Stamped(first + |ops|, op)]
  {
  }

  class WriteBatch {
    var rep: Bytes
    ghost var sequence: nat
    ghost var ops: seq<Op>

    /** The bytes are the writes packed one after the other; the count is a signed 32-bit number. */
    ghost predicate Packed()
      reads this
    {
      rep == Rep(sequence, ops) && |ops| < MAX_COUNT && sequence < TWO_64
    }

    /** Packed, and short enough strings to read back. */
    ghost predicate Valid()
      reads this
    {
      Packed() && Storable(ops)
    }

    lemma ValidIsPacked()
      requires Valid()
      ensures Packed()
    {
    }

    constructor ()
      ensures Valid() && ops == [] && sequence == 0
    {
      rep := seq(HEADER, _ => Byte(0));
      sequence, ops := 0, [];
      new;
      EmptyRep();
    }

    method Clear()
      modifies this
      ensures Valid() && ops == [] && sequence == 0
    {
      rep := seq(HEADER, _ => Byte(0));
      sequence, ops := 0, [];
      EmptyRep();
    }

    method Count() returns (n: nat)
      requires Packed()
      ensures n == |ops|
    {
      hide Rep, Records, CountOf;
      HeaderFields(sequence, ops);
      n := CountOf(rep);
    }

    method SetCount(n: nat)
      requires |rep| >= HEADER
      modifies this`rep
      ensures rep == old(rep)[..8] + Fixed(n % TWO_32, 4) + old(rep)[HEADER..]
    {
      rep := rep[..8] + Fixed(n % TWO_32, 4) + rep[HEADER..];
    }

    method SetSequence(first: nat)
      requires Packed() && first < TWO_64
      modifies this
      ensures Packed() && ops == old(ops) && sequence == first
    {
      hide Fixed, Records;
      rep := Fixed(first, 8) + rep[8..];
      sequence := first;
    }

    method Put(key: Bytes, value: Bytes)
      requires Packed() && |ops| + 1 < MAX_COUNT
      modifies this
      ensures Packed() && ops == old(ops) + [Op.Put(key, value)] && sequence == old(sequence)
    {
      hide Prefixed, Rep, Byte, Fixed, Records;
      var count := Count();
      ghost var op := Op.Put(key, value);
      OneMore(rep, sequence, ops, op);
      SetCount(count + 1);
      rep := rep + [Byte(TYPE_VALUE)];
      rep := rep + Prefixed(key);
      rep := rep + Prefixed(value);
      ops := ops + [op];
      assert rep == old(rep)[..8] + Fixed(count + 1, 4) + old(rep)[HEADER..] + Record(op);
    }

    method Delete(key: Bytes)
      requires Packed() && |ops| + 1 < MAX_COUNT
      modifies this
      ensures Packed() && ops == old(ops) + [Op.Delete(key)] && sequence == old(sequence)
    {
      hide Prefixed, Rep, Byte, Fixed, Records;
      var count := Count();
      ghost var op := Op.Delete(key);
      OneMore(rep, sequence, ops, op);
      SetCount(count + 1);
      rep := rep + [Byte(TYPE_DELETION)];
      rep := rep + Prefixed(key);
      ops := ops + [op];
      assert rep == old(rep)[..8] + Fixed(count + 1, 4) + old(rep)[HEADER..] + Record(op);
    }

    /** Appending a batch is appending its writes; the sequence stays. */
    method Append(src: WriteBatch)
      requires Packed() && src.Packed() && |ops| + |src.ops| < MAX_COUNT && src != this
      modifies this
      ensures Packed() && ops == old(ops) + src.ops && sequence == old(sequence)
    {
      hide Rep, Fixed, Records;
      var mine := Count();
      var theirs := src.Count();
      Spliced(rep, sequence, ops, src.ops);
      HeaderFields(src.sequence, src.ops);
      SetCount(mine + theirs);
      rep := rep + src.rep[HEADER..];
      ops := ops + src.ops;
    }

    /** Gives the records to the handler one by one, up to the first bad one. */
    method Iterate(handler: MemTableInserter) returns (status: Status)
      requires |rep| >= HEADER
      modifies handler
      ensures status == StatusOf(rep)
      ensures handler.mem == old(handler.mem) + Stamp(old(handler.sequence), Parse(rep[HEADER..]).ops)
    {
      hide ReadPrefixed, Stamp, CountOf;
      var input := rep[HEADER..];
      ghost var first, all := handler.sequence, input;
      ghost var done: seq<Op> := [];
      assert Stamp(first, []) == [] by {
        NothingStamped(first);
      }
      var found := 0;
      while input != []
        invariant found == |done| && handler.sequence == first + |done|
        invariant handler.mem == old(handler.mem) + Stamp(first, done)
        invariant Parse(all) == Parsed(done + Parse(input).ops, Parse(input).status)
        decreases |input|
      {
        assert done + [] == done;
        found := found + 1;
        ghost var was := input;
        var tag := Value(input[0]);
        input := input[1..];
        if tag == TYPE_VALUE {
          var key := GetLengthPrefixedSlice(input);
          if key.None? {
            return BadPut;
          }
          var value := GetLengthPrefixedSlice(key.value.rest);
          if value.None? {
            return BadPut;
          }
          Next(all, done, was);
          StampOneMore(first, done, Op.Put(key.value.slice, value.value.slice));
          handler.Put(key.value.slice, value.value.slice);
          done := done + [Op.Put(key.value.slice, value.value.slice)];
          input := value.value.rest;
        } else if tag == TYPE_DELETION {
          var key := GetLengthPrefixedSlice(input);
          if key.None? {
            return BadDelete;
          }
          Next(all, done, was);
          StampOneMore(first, done, Op.Delete(key.value.slice));
          handler.Delete(key.value.slice);
          done := done + [Op.Delete(key.value.slice)];
          input := key.value.rest;
        } else {
          return UnknownTag;
        }
      }
      assert done + [] == done;
      if found != CountOf(rep) {
        return WrongCount;
      }
      return Ok;
    }

    /** An intact batch goes into the memtable whole, in order, at consecutive sequences. */
    method InsertInto(mem: seq<Stamped>) returns (status: Status, mem': seq<Stamped>)
      requires Valid()
      ensures status == Ok && mem' == mem + Stamp(sequence, ops)
    {
      hide Rep, Records, Parse, SequenceOf, StatusOf, Stamp;
      RepReadsBack(sequence, ops);
      var inserter := new MemTableInserter(SequenceOf(rep), mem);
      status := Iterate(inserter);
      mem' := inserter.mem;
    }
  }

  lemma {:induction false} NothingStamped(first: nat)
    ensures Stamp(first, []) == []
  {
  }

  lemma {:induction false} Next(all: Bytes, done: seq<Op>, input: Bytes)
    requires input != [] && ReadRecord(input).OneRecord?
    requires Parse(all) == Parsed(done + Parse(input).ops, Parse(input).status)
    ensures var r := ReadRecord(input);
      Parse(all) == Parsed(done + [r.op] + Parse(r.rest).ops, Parse(r.rest).status)
  {
    hide ReadRecord;
    var r := ReadRecord(input);
    assert done + ([r.op] + Parse(r.rest).ops) == done + [r.op] + Parse(r.rest).ops;
  }

  lemma {:induction false} ZeroBytes(width: nat)
    ensures Fixed(0, width) == seq(width, _ => Byte(0))
  {
    hide Byte;
    if width > 0 {
      ZeroBytes(width - 1);
    }
  }

  lemma {:induction false} EmptyRep()
    ensures seq(HEADER, _ => Byte(0)) == Rep(0, [])
  {
    hide Fixed, Byte;
    ZeroBytes(8);
    ZeroBytes(4);
    assert Records([]) == [];
  }

  lemma {:induction false} Spliced(rep: Bytes, sequence: nat, ops: seq<Op>, more: seq<Op>)
    requires rep == Rep(sequence, ops) && |ops| + |more| < TWO_32
    ensures rep[..8] + Fixed(|ops| + |more|, 4) + rep[HEADER..] + Records(more) == Rep(sequence, ops + more)
  {
    hide Fixed, Records;
    RecordsAppend(ops, more);
    assert rep[..8] == Fixed(sequence, 8) && rep[HEADER..] == Records(ops);
  }

  lemma {:induction false} OneMore(rep: Bytes, sequence: nat, ops: seq<Op>, op: Op)
    requires rep == Rep(sequence, ops) && |ops| + 1 < TWO_32
    ensures rep[..8] + Fixed(|ops| + 1, 4) + rep[HEADER..] + Record(op) == Rep(sequence, ops + [op])
  {
    hide Fixed, Record, Rep;
    Spliced(rep, sequence, ops, [op]);
    assert Records([op]) == Record(op) by {
      assert [op][1..] == [];
      assert Record(op) + [] == Record(op);
    }
  }
}
