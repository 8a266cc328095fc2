/** The memtable: packed entries in the order of their internal keys. */
module MemTables {
  import opened Coding
  import opened Options
  import opened Varints
  import opened Comparators

  const MAX_SEQUENCE: nat := 0xFF_FFFF_FFFF_FFFF
  const TYPE_DELETION: nat := 0
  const TYPE_VALUE: nat := 1

  /** One write: a value, or a deletion. */
  datatype Write = Write(user: Bytes, sequence: nat, put: bool, value: Bytes)

  predicate ValidWrite(w: Write) {
    |w.user| + 8 < TWO_32 && |w.value| < TWO_32 && w.sequence <= MAX_SEQUENCE
  }

  function PackSequenceAndType(sequence: nat, put: bool): (tag: nat)
    ensures sequence <= MAX_SEQUENCE ==> tag < TWO_64
    ensures tag / 256 == sequence && tag % 256 == if put then TYPE_VALUE else TYPE_DELETION
  {
    sequence * 256 + (if put then TYPE_VALUE else TYPE_DELETION)
  }

  function KeyBytes(w: Write): (r: Bytes)
    ensures |r| == |w.user| + 8
  {
    Encoded(w.user, PackSequenceAndType(w.sequence, w.put))
  }

  /** Internal key and value, each with its length in front. */
  function EntryBytes(w: Write): Bytes {
    Prefixed(KeyBytes(w)) + Prefixed(w.value)
  }

  /** The lookup key of the newest version that a sequence admits. */
  function LookupKey(user: Bytes, sequence: nat): Bytes {
    Encoded(user, PackSequenceAndType(sequence, true))
  }

  function KeySlice(entry: Bytes): Bytes {
    match ReadPrefixed(entry)
    case None => []
    case Some(x) => x.slice
  }

  function ValueSlice(entry: Bytes): Bytes {
    match ReadPrefixed(entry)
    case None => []
    case Some(x) =>
      match ReadPrefixed(x.rest)
      case None => []
      case Some(y) => y.slice
  }

  lemma {:induction false} EntryReadsBack(w: Write)
    requires ValidWrite(w)
    ensures KeySlice(EntryBytes(w)) == KeyBytes(w) && ValueSlice(EntryBytes(w)) == w.value
    ensures UserOf(KeyBytes(w)) == w.user && TagOf(KeyBytes(w)) == PackSequenceAndType(w.sequence, w.put)
  {
    hide Prefixed, ReadPrefixed, Encoded, UserOf, TagOf;
    ReadInvertsPrefixed(KeyBytes(w), Prefixed(w.value));
    ReadInvertsPrefixed(w.value, []);
    assert Prefixed(w.value) + [] == Prefixed(w.value);
    PartsOf(w.user, PackSequenceAndType(w.sequence, w.put));
  }

  // ----- What is in the memtable

  ghost predicate Holds(table: seq<Bytes>, writes: seq<Write>) {
    && |table| == |writes|
    && forall i | 0 <= i < |table| :: ValidWrite(writes[i]) && table[i] == EntryBytes(writes[i])
  }

  ghost predicate InKeyOrder(writes: seq<Write>) {
    forall i, j | 0 <= i < j < |writes| :: KeyBefore(KeyBytes(writes[i]), KeyBytes(writes[j]))
  }

  /** The order of writes: user key ascending, then sequence and kind descending. */
  lemma {:induction false} OrderOfWrites(a: Write, b: Write)
    requires ValidWrite(a) && ValidWrite(b)
    ensures KeyBefore(KeyBytes(a), KeyBytes(b)) <==>
      Before(a.user, b.user) || (a.user == b.user && (a.sequence > b.sequence || (a.sequence == b.sequence && a.put && !b.put)))
  {
    hide Before, UserOf, TagOf, Encoded;
    PartsOf(a.user, PackSequenceAndType(a.sequence, a.put));
    PartsOf(b.user, PackSequenceAndType(b.sequence, b.put));
  }

  ghost predicate NewestWrite(writes: seq<Write>, user: Bytes, sequence: nat, w: Write) {
    && w in writes && w.user == user && w.sequence <= sequence
    && forall x | x in writes && x.user == user && x.sequence <= sequence :: x.sequence <= w.sequence
  }

  // The answer of a lookup on bytes; InternalKeys has the engine's view of lookup keys and answers.
  datatype Answer = Missing | Deleted | Found(value: Bytes)

  ghost predicate Tells(writes: seq<Write>, user: Bytes, sequence: nat, a: Answer) {
    match a
    case Missing => forall w | w in writes && w.user == user :: w.sequence > sequence
    case Deleted => exists w :: NewestWrite(writes, user, sequence, w) && !w.put
    case Found(value) => exists w :: NewestWrite(writes, user, sequence, w) && w.put && w.value == value
  }

  /** The first write at or past the lookup key says it all. */
  lemma {:induction false} FirstTells(writes: seq<Write>, user: Bytes, sequence: nat, i: nat)
    requires InKeyOrder(writes) && (forall w | w in writes :: ValidWrite(w)) && |user| + 8 < TWO_32 && sequence <= MAX_SEQUENCE
    requires i <= |writes| && forall j | 0 <= j < i :: KeyBefore(KeyBytes(writes[j]), LookupKey(user, sequence))
    requires i < |writes| ==> !KeyBefore(KeyBytes(writes[i]), LookupKey(user, sequence))
    ensures i < |writes| && writes[i].user == user ==> NewestWrite(writes, user, sequence, writes[i])
    ensures i == |writes| || writes[i].user != user ==> Tells(writes, user, sequence, Missing)
  {
    hide KeyBefore, Before, KeyBytes;
    var probe := Write(user, sequence, true, []);
    forall j | 0 <= j < |writes|
      ensures j < i ==> !(writes[j].user == user && writes[j].sequence <= sequence)
      ensures j == i && writes[j].user == user ==> writes[j].sequence <= sequence
      ensures j > i && writes[j].user == user ==> writes[i].user == user && writes[j].sequence <= writes[i].sequence {
      assert writes[j] in writes;
      Placed(writes[j], probe);
      if j > i && writes[j].user == user {
        assert writes[i] in writes;
        Placed(writes[i], probe);
        InTurn(writes[i], writes[j], probe);
      }
    }
  }

  lemma {:induction false} Placed(w: Write, probe: Write)
    requires ValidWrite(w) && ValidWrite(probe) && probe.put
    ensures LookupKey(probe.user, probe.sequence) == KeyBytes(probe)
    ensures w.user == probe.user ==> (KeyBefore(KeyBytes(w), KeyBytes(probe)) <==> w.sequence > probe.sequence)
  {
    hide KeyBefore, Before;
    OrderOfWrites(w, probe);
    BeforeIsStrict(w.user, probe.user);
  }

  /** Past the probe come first the versions of its user key, newest first. */
  lemma {:induction false} InTurn(a: Write, b: Write, probe: Write)
    requires ValidWrite(a) && ValidWrite(b) && ValidWrite(probe)
    requires !KeyBefore(KeyBytes(a), KeyBytes(probe)) && KeyBefore(KeyBytes(a), KeyBytes(b)) && b.user == probe.user
    ensures a.user == probe.user && b.sequence <= a.sequence
  {
    hide KeyBefore, Before;
    OrderOfWrites(a, probe);
    OrderOfWrites(a, b);
    BeforeIsStrict(a.user, probe.user);
  }

  class MemTable {
    var table: seq<Bytes>         // in the order that the skip list keeps
    ghost var writes: seq<Write>

    ghost predicate Ok()
      reads this
    {
      Holds(table, writes) && InKeyOrder(writes)
    }

    constructor ()
      ensures Ok() && writes == []
    {
      table, writes := [], [];
    }

    /** The first entry whose key is at or past the target. */
    method Seek(target: Bytes) returns (i: nat)
      requires Ok()
      ensures i <= |table| && (forall j | 0 <= j < i :: KeyBefore(KeyBytes(writes[j]), target))
      ensures i < |table| ==> !KeyBefore(KeyBytes(writes[i]), target)
    {
      hide KeyBefore, EntryBytes, KeyBytes;
      i := 0;
      while i < |table|
        invariant i <= |table| && forall j | 0 <= j < i :: KeyBefore(KeyBytes(writes[j]), target)
      {
        EntryReadsBack(writes[i]);
        if !KeyBefore(KeySlice(table[i]), target) {
          return;
        }
        i := i + 1;
      }
    }

    /** A write that is not there yet goes to its place. */
    method Add(sequence: nat, put: bool, user: Bytes, value: Bytes)
      requires Ok() && ValidWrite(Write(user, sequence, put, value))
      requires forall w | w in writes :: !(w.user == user && w.sequence == sequence && w.put == put)
      modifies this
      ensures Ok() && multiset(writes) == multiset(old(writes)) + multiset{Write(user, sequence, put, value)}
    {
      hide KeyBefore, KeyBytes, Prefixed, Varint, Fixed, InKeyOrder;
      ghost var w := Write(user, sequence, put, value);
      var internalKey := user + Fixed(PackSequenceAndType(sequence, put), 8);
      KeyIs(w);
      var a := EncodeVarint32(|internalKey|);
      var buf := a + internalKey;
      var b := EncodeVarint32(|value|);
      buf := buf + b;
      buf := buf + value;
      EntryIs(w, a, b);
      var i := Seek(internalKey);
      Placing(writes, i, w);
      Inserting(writes, i, w);
      table := table[..i] + [buf] + table[i..];
      writes := writes[..i] + [w] + writes[i..];
    }

    /** What the memtable says about a key at a sequence: the newest write it admits, whatever was added around it. */
    method Get(user: Bytes, sequence: nat) returns (r: Answer)
      requires Ok() && |user| + 8 < TWO_32 && sequence <= MAX_SEQUENCE
      ensures Tells(writes, user, sequence, r)
    {
      hide KeyBefore, EntryBytes, KeyBytes, UserOf, TagOf, Before;
      var i := Seek(LookupKey(user, sequence));
      FirstTells(writes, user, sequence, i);
      if i < |table| {
        var key := KeySlice(table[i]);
        EntryReadsBack(writes[i]);
        if UserOf(key) == user {
          var tag := TagOf(key);
          if tag % 256 == TYPE_VALUE {
            return Found(ValueSlice(table[i]));
          } else if tag % 256 == TYPE_DELETION {
            return Deleted;
          }
        }
      }
      return Missing;
    }
  }

  lemma {:induction false} KeyIs(w: Write)
    ensures KeyBytes(w) == w.user + Fixed(PackSequenceAndType(w.sequence, w.put), 8)
  {
    hide Fixed;
  }

  lemma {:induction false} EntryIs(w: Write, a: Bytes, b: Bytes)
    requires ValidWrite(w) && a == Varint(|KeyBytes(w)|) && b == Varint(|w.value|)
    ensures a + KeyBytes(w) + b + w.value == EntryBytes(w)
  {
    hide Varint, KeyBytes;
    assert a + KeyBytes(w) + b + w.value == (a + KeyBytes(w)) + (b + w.value);
  }

  lemma {:induction false} Placing(writes: seq<Write>, i: nat, w: Write)
    requires InKeyOrder(writes) && (forall x | x in writes :: ValidWrite(x)) && ValidWrite(w)
    requires i <= |writes| && (forall j | 0 <= j < i :: KeyBefore(KeyBytes(writes[j]), KeyBytes(w)))
    requires i < |writes| ==> !KeyBefore(KeyBytes(writes[i]), KeyBytes(w))
    requires forall x | x in writes :: !(x.user == w.user && x.sequence == w.sequence && x.put == w.put)
    ensures InKeyOrder(writes[..i] + [w] + writes[i..])
  {
    hide KeyBefore, KeyBytes, Before;
    var all := writes[..i] + [w] + writes[i..];
    forall j | i <= j < |writes| ensures KeyBefore(KeyBytes(w), KeyBytes(writes[j])) {
      assert writes[i] in writes;
      OrderOfWrites(writes[i], w);
      OrderOfWrites(w, writes[i]);
      BeforeIsStrict(w.user, writes[i].user);
      if j > i {
        KeyBeforeIsOrder(KeyBytes(w), KeyBytes(writes[i]), KeyBytes(writes[j]));
      }
    }
    assert forall j | 0 <= j < |all| :: all[j] == if j < i then writes[j] else if j == i then w else writes[j - 1];
  }

  lemma {:induction false} Inserting(writes: seq<Write>, i: nat, w: Write)
    requires i <= |writes|
    ensures multiset(writes[..i] + [w] + writes[i..]) == multiset(writes) + multiset{w}
  {
    assert writes == writes[..i] + writes[i..];
  }
}
