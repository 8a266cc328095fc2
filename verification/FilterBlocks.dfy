/** The filter block of a table: one filter for each 2 KB of block offsets. */
module FilterBlocks {
  import opened Coding
  import opened Octets
  import opened Varints
  import opened Comparators
  import opened BloomFilters

  const BASE_LG: nat := 11
  const FILTER_BASE: nat := 2048

  datatype Policy = Policy(bitsPerKey: nat, k: nat)

  ghost predicate ValidPolicy(p: Policy) {
    1 <= p.k <= 30
  }

  function Users(keys: seq<Bytes>): (r: seq<Bytes>)
    ensures |r| == |keys|
  {
    seq(|keys|, i requires 0 <= i < |keys| => UserOf(keys[i]))
  }

  // ----- What a filter block promises

  /** The filter of a group of keys: nothing for no keys, else one that knows their user keys. */
  ghost predicate Covers(group: seq<Bytes>, k: nat, filter: Bytes)
    requires Hashable(group)
  {
    if group == [] then filter == [] else Hashable(Users(group)) && FilterOf(Users(group), k, filter)
  }

  ghost predicate AllHashable(groups: seq<seq<Bytes>>) {
    forall i | 0 <= i < |groups| :: Hashable(groups[i])
  }

  function EndOf(offsets: seq<nat>, i: nat, end: nat): nat {
    if i + 1 < |offsets| then offsets[i + 1] else end
  }

  ghost predicate FilterAt(groups: seq<seq<Bytes>>, k: nat, offsets: seq<nat>, result: Bytes, i: nat)
    requires i < |groups| == |offsets| && AllHashable(groups)
  {
    && offsets[i] <= EndOf(offsets, i, |result|) <= |result|
    && Covers(groups[i], k, result[offsets[i]..EndOf(offsets, i, |result|)])
  }

  ghost predicate AllFilters(groups: seq<seq<Bytes>>, k: nat, offsets: seq<nat>, result: Bytes) {
    && |groups| == |offsets| && AllHashable(groups)
    && forall i | 0 <= i < |groups| :: FilterAt(groups, k, offsets, result, i)
  }

  /** The finished block: the filters, where each starts, where those numbers start, and the granularity. */
  function FilterBlockOf(offsets: seq<nat>, result: Bytes): Bytes {
    result + (Words(offsets + [|result|]) + [Byte(BASE_LG)])
  }

  // ----- One more filter

  lemma {:induction false} HashableUsers(keys: seq<Bytes>)
    requires Hashable(keys)
    ensures Hashable(Users(keys))
  {
    forall u | u in Users(keys) ensures |u| < 0x1_0000_0000 {
      var i :| 0 <= i < |keys| && u == UserOf(keys[i]);
      assert keys[i] in keys;
    }
  }

  lemma {:induction false} OneMoreFilter(groups: seq<seq<Bytes>>, k: nat, offsets: seq<nat>, result: Bytes, group: seq<Bytes>, filter: Bytes)
    requires AllFilters(groups, k, offsets, result) && Hashable(group) && Covers(group, k, filter)
    ensures AllFilters(groups + [group], k, offsets + [|result|], result + filter)
  {
    hide Covers;
    var groups', offsets', result' := groups + [group], offsets + [|result|], result + filter;
    assert AllHashable(groups');
    forall i | 0 <= i < |groups'| ensures FilterAt(groups', k, offsets', result', i) {
      if i < |groups| {
        assert FilterAt(groups, k, offsets, result, i);
        assert EndOf(offsets', i, |result'|) == EndOf(offsets, i, |result|);
        assert groups'[i] == groups[i];
        assert result'[offsets[i]..EndOf(offsets, i, |result|)] == result[offsets[i]..EndOf(offsets, i, |result|)];
      } else {
        assert result'[|result|..|result'|] == filter;
      }
    }
  }

  // ----- The builder

  /** The keys laid end to end. */
  ghost predicate Flattened(keys: Bytes, start: seq<nat>, pending: seq<Bytes>) {
    && |start| == |pending|
    && (pending == [] ==> keys == [])
    && forall i | 0 <= i < |pending| ::
         && start[i] + |pending[i]| == EndOf(start, i, |keys|) <= |keys|
         && keys[start[i]..start[i] + |pending[i]|] == pending[i]
  }

  lemma {:induction false} NotEmptyTogether(keys: Bytes, start: seq<nat>, pending: seq<Bytes>)
    requires Flattened(keys, start, pending)
    ensures start == [] <==> pending == []
  {
  }

  lemma {:induction false} CoversNothing(k: nat)
    ensures Covers([], k, [])
  {
  }

  lemma {:induction false} CoversIs(group: seq<Bytes>, k: nat, filter: Bytes)
    requires Hashable(group) && group != [] && Hashable(Users(group)) && FilterOf(Users(group), k, filter)
    ensures Covers(group, k, filter)
  {
  }

  lemma {:induction false} KeysInPlace(keys: Bytes, start: seq<nat>, pending: seq<Bytes>)
    requires Flattened(keys, start, pending)
    ensures var ends := start + [|keys|];
      |start| == |pending|
      && forall i | 0 <= i < |start| :: start[i] <= ends[i + 1] <= |keys| && keys[start[i]..ends[i + 1]] == pending[i]
  {
    var ends := start + [|keys|];
    forall i | 0 <= i < |start| ensures start[i] <= ends[i + 1] <= |keys| && keys[start[i]..ends[i + 1]] == pending[i] {
      assert ends[i + 1] == EndOf(start, i, |keys|);
    }
  }

  class FilterBlockBuilder {
    const policy: Policy
    var keys: Bytes
    var start: seq<nat>
    var result: Bytes
    var filterOffsets: seq<nat>
    ghost var groups: seq<seq<Bytes>>     // the keys of each filter made so far
    ghost var pending: seq<Bytes>         // the keys for the next one

    ghost predicate Ok()
      reads this
    {
      && ValidPolicy(policy) && Flattened(keys, start, pending) && Hashable(pending)
      && AllFilters(groups, policy.k, filterOffsets, result)
    }

    constructor (policy: Policy)
      requires ValidPolicy(policy)
      ensures Ok() && groups == [] && pending == [] && this.policy == policy
    {
      this.policy := policy;
      keys, start, result, filterOffsets, groups, pending := [], [], [], [], [], [];
    }

    method AddKey(key: Bytes)
      requires Ok() && |key| < 0x1_0000_0000
      modifies this
      ensures Ok() && groups == old(groups) && pending == old(pending) + [key]
    {
      hide AllFilters;
      start := start + [|keys|];
      keys := keys + key;
      pending := pending + [key];
    }

    lemma KeysThere()
      requires Ok()
      ensures var ends := start + [|keys|];
        |start| == |pending|
        && forall i | 0 <= i < |start| :: start[i] <= ends[i + 1] <= |keys| && keys[start[i]..ends[i + 1]] == pending[i]
    {
      KeysInPlace(keys, start, pending);
    }

    /** Cuts the keys apart again and keeps their user keys. */
    method KeysOf() returns (users: seq<Bytes>)
      requires Ok()
      ensures users == Users(pending)
    {
      hide AllFilters, Flattened, UserOf, Ok;
      KeysThere();
      var ends := start + [|keys|];
      users := [];
      for i := 0 to |start|
        invariant |users| == i && forall j | 0 <= j < i :: users[j] == UserOf(pending[j])
      {
        users := users + [UserOf(keys[ends[i]..ends[i + 1]])];
      }
    }

    method GenerateFilter()
      requires Ok()
      modifies this
      ensures Ok() && groups == old(groups) + [old(pending)] && pending == []
    {
      hide AllFilters, FilterOf, UserOf, SizedFor, Covers, Users;
      ghost var before := result;
      CoversNothing(policy.k);
      if start == [] {
        assert result + [] == result;
        OneMoreFilter(groups, policy.k, filterOffsets, result, pending, []);
        filterOffsets := filterOffsets + [|result|];
      } else {
        HashableUsers(pending);
        NotEmptyTogether(keys, start, pending);
        var users := KeysOf();
        filterOffsets := filterOffsets + [|result|];
        result := CreateFilter(users, policy.bitsPerKey, policy.k, result);
        ghost var f :| result == before + f && FilterOf(users, policy.k, f);
        CoversIs(pending, policy.k, f);
        OneMoreFilter(groups, policy.k, old(filterOffsets), before, pending, f);
      }
      groups := groups + [pending];
      pending := [];
      keys, start := [], [];
    }

    /** The filters of the offsets before the block's are made; the pending keys belong to the first of them. */
    method StartBlock(blockOffset: nat)
      requires Ok() && |groups| <= blockOffset / FILTER_BASE
      modifies this
      ensures Ok() && |groups| == blockOffset / FILTER_BASE
      ensures |groups| == old(|groups|) ==> groups == old(groups) && pending == old(pending)
      ensures |groups| > old(|groups|) ==> pending == [] && old(groups) + [old(pending)] <= groups
    {
      hide AllFilters, Flattened;
      var filterIndex := blockOffset / FILTER_BASE;
      SameSize(groups, policy.k, filterOffsets, result);
      while filterIndex > |filterOffsets|
        invariant Ok() && |groups| == |filterOffsets| <= filterIndex
        invariant |groups| == old(|groups|) ==> groups == old(groups) && pending == old(pending)
        invariant |groups| > old(|groups|) ==> pending == [] && old(groups) + [old(pending)] <= groups
        decreases filterIndex - |filterOffsets|
      {
        GenerateFilter();
        SameSize(groups, policy.k, filterOffsets, result);
      }
    }

    method Finish() returns (block: Bytes)
      requires Ok()
      modifies this
      ensures AllFilters(groups, policy.k, filterOffsets, result)
      ensures groups == (if old(pending) == [] then old(groups) else old(groups) + [old(pending)])
      ensures block == FilterBlockOf(filterOffsets, result)
    {
      hide AllFilters, Fixed, Byte, UserOf, Covers;
      if start != [] {
        GenerateFilter();
      }
      var arrayOffset := |result|;
      block := result;
      for i := 0 to |filterOffsets|
        invariant block == result + Words(filterOffsets[..i])
      {
        assert filterOffsets[..i + 1][..i] == filterOffsets[..i];
        assert result + Words(filterOffsets[..i]) + Fixed(filterOffsets[i], 4) == result + (Words(filterOffsets[..i]) + Fixed(filterOffsets[i], 4));
        block := block + Fixed(filterOffsets[i], 4);
      }
      assert filterOffsets[..|filterOffsets|] == filterOffsets;
      block := block + Fixed(arrayOffset, 4);
      block := block + [Byte(BASE_LG)];
      assert (filterOffsets + [arrayOffset])[..|filterOffsets|] == filterOffsets;
      assert block == result + (Words(filterOffsets) + Fixed(arrayOffset, 4) + [Byte(BASE_LG)]);
    }
  }

  // ----- The reader

  /** The filter that an offset falls to: a shift to the right. */
  function FilterIndex(blockOffset: nat, baseLg: nat): nat {
    if baseLg == 0 then blockOffset else FilterIndex(blockOffset / 2, baseLg - 1)
  }

  lemma {:induction false} IndexAtBase(o: nat)
    ensures FilterIndex(o, BASE_LG) == o / FILTER_BASE
  {
    hide FilterIndex;
    Quarters(o);
    ShiftTwo(o, 9);
    ShiftTwo(o / 4, 7);
    ShiftTwo(o / 0x10, 5);
    ShiftTwo(o / 0x40, 3);
    ShiftTwo(o / 0x100, 1);
    ShiftOne(o / 0x400);
  }

  lemma {:induction false} Quarters(o: nat)
    ensures o / 4 / 4 == o / 0x10 && o / 0x10 / 4 == o / 0x40 && o / 0x40 / 4 == o / 0x100 && o / 0x100 / 4 == o / 0x400
    ensures o / 0x400 / 2 == o / 0x800
  {
  }

  lemma {:induction false} ShiftOne(o: nat)
    ensures FilterIndex(o, 1) == o / 2
  {
  }

  lemma {:induction false} ShiftTwo(o: nat, lg: nat)
    ensures FilterIndex(o, lg + 2) == FilterIndex(o / 4, lg)
  {
    assert FilterIndex(o, lg + 2) == FilterIndex(o / 2, lg + 1) == FilterIndex(o / 2 / 2, lg);
  }

  datatype Fields = Fields(offset: nat, num: nat, baseLg: nat)

  function FieldsOf(contents: Bytes): (f: Fields)
    ensures f.num > 0 ==> f.offset + 4 * f.num + 5 <= |contents|
  {
    var n := |contents|;
    if n < 5 then Fields(0, 0, 0)
    else
      var lastWord := FixedValue(contents[n - 5..], 4);
      if lastWord > n - 5 then Fields(0, 0, Value(contents[n - 1]))
      else Fields(lastWord, (n - 5 - lastWord) / 4, Value(contents[n - 1]))
  }

  /** Only a filter that is there and says no rules a key out. */
  function MayMatch(contents: Bytes, blockOffset: nat, key: Bytes): bool
    requires |key| < 0x1_0000_0000
  {
    var f := FieldsOf(contents);
    var index := FilterIndex(blockOffset, f.baseLg);
    index >= f.num ||
      var from, limit := FixedValue(contents[f.offset + 4 * index..], 4), FixedValue(contents[f.offset + 4 * index + 4..], 4);
      if from <= limit && limit <= f.offset then Matches(UserOf(key), contents[from..limit]) else from != limit
  }

  class FilterBlockReader {
    const data: Bytes
    const offset: nat        // where the offsets of the filters start
    const num: nat
    const baseLg: nat

    ghost predicate Ok() {
      FieldsOf(data) == Fields(offset, num, baseLg)
    }

    constructor (contents: Bytes)
      ensures Ok() && data == contents
    {
      hide FixedValue;
      var lg, first, count := 0, 0, 0;
      var n := |contents|;
      if n >= 5 {
        lg := Value(contents[n - 1]);
        var lastWord := FixedValue(contents[n - 5..], 4);
        if lastWord <= n - 5 {
          first := lastWord;
          count := (n - 5 - lastWord) / 4;
        }
      }
      data, offset, num, baseLg := contents, first, count, lg;
    }

    method KeyMayMatch(blockOffset: nat, key: Bytes) returns (r: bool)
      requires Ok() && |key| < 0x1_0000_0000
      ensures r == MayMatch(data, blockOffset, key)
    {
      hide FixedValue, Matches, FieldsOf, FilterIndex, UserOf;
      assert |UserOf(key)| <= |key| by {
        UserIsShorter(key);
      }
      var index := FilterIndex(blockOffset, baseLg);
      if index < num {
        var from := FixedValue(data[offset + 4 * index..], 4);
        var limit := FixedValue(data[offset + 4 * index + 4..], 4);
        if from <= limit && limit <= offset {
          r := BloomFilters.KeyMayMatch(UserOf(key), data[from..limit]);
          return;
        } else if from == limit {
          return false;
        }
      }
      return true;
    }
  }

  lemma {:induction false} UserIsShorter(key: Bytes)
    ensures |UserOf(key)| <= |key|
  {
  }

  // ----- No false negatives

  lemma {:induction false} FieldsOfBlock(offsets: seq<nat>, result: Bytes)
    requires |result| < TWO_32
    ensures FieldsOf(FilterBlockOf(offsets, result)) == Fields(|result|, |offsets|, BASE_LG)
  {
    hide Fixed, FixedValue, Pow256, Words;
    var words := Words(offsets + [|result|]);
    var contents := FilterBlockOf(offsets, result);
    FixedWidths();
    LastWord(offsets, |result|);
    FixedValueInvertsFixed(|result|, 4, [Byte(BASE_LG)]);
    assert contents[|contents| - 5..] == Fixed(|result|, 4) + [Byte(BASE_LG)];
  }

  lemma {:induction false} LastWord(offsets: seq<nat>, last: nat)
    ensures Words(offsets + [last]) == Words(offsets) + Fixed(last, 4)
  {
    assert (offsets + [last])[..|offsets|] == offsets;
  }

  lemma {:induction false} OffsetsInBlock(offsets: seq<nat>, result: Bytes, i: nat)
    requires |result| < TWO_32 && i <= |offsets| && forall x | x in offsets :: x <= |result|
    ensures var contents := FilterBlockOf(offsets, result);
      && |result| + 4 * i + 4 <= |contents|
      && FixedValue(contents[|result| + 4 * i..], 4) == if i < |offsets| then offsets[i] else |result|
  {
    hide Fixed, FixedValue, Words;
    var all := offsets + [|result|];
    forall x | x in all ensures x < TWO_32 {
    }
    WordAt(all, i, [Byte(BASE_LG)]);
    var contents := FilterBlockOf(offsets, result);
    assert contents[|result| + 4 * i..] == (Words(all) + [Byte(BASE_LG)])[4 * i..];
  }

  /** A block offset's filter does not rule out any key of its group, nor another version of such a key. */
  lemma {:induction false} NoFalseNegatives(groups: seq<seq<Bytes>>, k: nat, offsets: seq<nat>, result: Bytes, blockOffset: nat, i: nat, key: Bytes)
    requires AllFilters(groups, k, offsets, result) && |result| < TWO_32 && |key| < TWO_32
    requires blockOffset / FILTER_BASE < |groups| && i < |groups[blockOffset / FILTER_BASE]|
    requires UserOf(key) == UserOf(groups[blockOffset / FILTER_BASE][i])
    ensures MayMatch(FilterBlockOf(offsets, result), blockOffset, key)
  {
    hide FixedValue, Matches, FieldsOf, FilterIndex, UserOf, FilterOf, FilterBlockOf;
    var contents := FilterBlockOf(offsets, result);
    var index := blockOffset / FILTER_BASE;
    IndexAtBase(blockOffset);
    FieldsOfBlock(offsets, result);
    assert FilterAt(groups, k, offsets, result, index);
    OffsetsBounded(groups, k, offsets, result);
    OffsetsInBlock(offsets, result, index);
    OffsetsInBlock(offsets, result, index + 1);
    var group := groups[index];
    var from, limit := offsets[index], EndOf(offsets, index, |result|);
    FrontOfBlock(offsets, result, from, limit);
    UsersAt(group, i);
    FilterMatchesItsKeys(Users(group), k, result[from..limit], i);
  }

  lemma {:induction false} UsersAt(group: seq<Bytes>, i: nat)
    requires i < |group|
    ensures Users(group)[i] == UserOf(group[i])
  {
  }

  lemma {:induction false} FrontOfBlock(offsets: seq<nat>, result: Bytes, from: nat, limit: nat)
    requires from <= limit <= |result|
    ensures |result| <= |FilterBlockOf(offsets, result)| && FilterBlockOf(offsets, result)[from..limit] == result[from..limit]
  {
  }

  lemma {:induction false} OffsetsBounded(groups: seq<seq<Bytes>>, k: nat, offsets: seq<nat>, result: Bytes)
    requires AllFilters(groups, k, offsets, result)
    ensures forall x | x in offsets :: x <= |result|
  {
    forall x | x in offsets ensures x <= |result| {
      var i :| 0 <= i < |offsets| && offsets[i] == x;
      assert FilterAt(groups, k, offsets, result, i);
    }
  }

  lemma {:induction false} SameSize(groups: seq<seq<Bytes>>, k: nat, offsets: seq<nat>, result: Bytes)
    requires AllFilters(groups, k, offsets, result)
    ensures |groups| == |offsets|
  {
  }
}
