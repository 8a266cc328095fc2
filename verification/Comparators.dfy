/** The bytewise order of user keys, the order of encoded internal keys, and short keys between two of them. */
module Comparators {
  import opened Coding
  import opened Varints

  const MAX_TAG: nat := 0xFFFF_FFFF_FFFF_FF01    // the highest sequence, of the kind that sorts first

  // ----- Bytewise

  /** Byte by byte, unsigned; a proper prefix comes first. */
  predicate Before(a: Bytes, b: Bytes) {
    b != [] && (a == [] || a[0] < b[0] || (a[0] == b[0] && Before(a[1..], b[1..])))
  }

  function CommonPrefix(a: Bytes, b: Bytes): (n: nat)
    ensures n <= |a| && n <= |b| && a[..n] == b[..n]
    ensures n < |a| && n < |b| ==> a[n] != b[n]
  {
    if a == [] || b == [] || a[0] != b[0] then 0 else 1 + CommonPrefix(a[1..], b[1..])
  }

  lemma {:induction false} BeforeIsStrict(a: Bytes, b: Bytes)
    ensures !Before(a, a) && !(Before(a, b) && Before(b, a))
    ensures a != b ==> Before(a, b) || Before(b, a)
  {
    if a != [] {
      BeforeIsStrict(a[1..], if b == [] then [] else b[1..]);
      if b != [] && a[0] == b[0] && a[1..] == b[1..] {
        assert a == [a[0]] + a[1..] == b;
      }
    }
  }

  lemma {:induction false} BeforeIsTransitive(a: Bytes, b: Bytes, c: Bytes)
    requires Before(a, b) && Before(b, c)
    ensures Before(a, c)
  {
    if a != [] && a[0] == b[0] == c[0] {
      BeforeIsTransitive(a[1..], b[1..], c[1..]);
    }
  }

  /** The first difference decides. */
  lemma {:induction false} BeforeAtDifference(a: Bytes, b: Bytes, d: nat)
    requires d <= |a| && d <= |b| && a[..d] == b[..d]
    requires d < |a| && d < |b| ==> a[d] != b[d]
    ensures Before(a, b) <==> d < |b| && (d == |a| || a[d] < b[d])
  {
    if d == 0 {
    } else {
      assert a[0] == a[..d][0] == b[..d][0] == b[0];
      assert a[1..][..d - 1] == a[..d][1..] == b[..d][1..] == b[1..][..d - 1];
      BeforeAtDifference(a[1..], b[1..], d - 1);
    }
  }

  /** One more in the first byte that differs still stays below the limit. */
  predicate HasRoom(start: Bytes, limit: Bytes) {
    var d := CommonPrefix(start, limit);
    d < |start| && d < |limit| && start[d] < 0xff && start[d] + 1 < limit[d]
  }

  /** Nothing shorter than one byte past the common prefix lies at or past the start and below the limit. */
  lemma {:induction false} NoShorterSeparator(start: Bytes, limit: Bytes, k: Bytes)
    requires |k| <= CommonPrefix(start, limit) < |start|
    ensures Before(k, start) || !Before(k, limit)
  {
    hide Before, CommonPrefix;
    var n, d := CommonPrefix(start, limit), CommonPrefix(k, start);
    assert k[..d] == start[..d] == start[..n][..d] == limit[..n][..d] == limit[..d];
    if d < |k| {
      assert start[..n][d] == limit[..n][d];
    }
    BeforeAtDifference(k, start, d);
    BeforeAtDifference(k, limit, d);
  }

  /** Replaces everything from the first difference on by one higher byte, where that stays below the limit. */
  method FindShortestSeparator(start: Bytes, limit: Bytes) returns (r: Bytes)
    ensures r == start || (Before(start, r) && |r| == CommonPrefix(start, limit) + 1 <= |start|)
    ensures Before(start, limit) ==> Before(r, limit)
    ensures r != start ==> Before(r, limit)
    ensures r != start <==> HasRoom(start, limit)
    ensures r != start ==> forall k: Bytes | |k| < |r| :: Before(k, start) || !Before(k, limit)
  {
    hide Before, CommonPrefix;
    var minLength := if |start| < |limit| then |start| else |limit|;
    var diffIndex := 0;
    while diffIndex < minLength && start[diffIndex] == limit[diffIndex]
      invariant diffIndex <= minLength && start[..diffIndex] == limit[..diffIndex]
    {
      assert start[..diffIndex + 1] == start[..diffIndex] + [start[diffIndex]];
      assert limit[..diffIndex + 1] == limit[..diffIndex] + [limit[diffIndex]];
      diffIndex := diffIndex + 1;
    }
    r := start;
    if diffIndex >= minLength {
      // one is a prefix of the other
      PrefixIsAll(start, limit, diffIndex);
    } else {
      PrefixLength(start, limit, diffIndex);
      var diffByte := start[diffIndex];
      if diffByte < 0xff && diffByte + 1 < limit[diffIndex] {
        r := start[..diffIndex] + [diffByte + 1];
        assert r[..diffIndex] == start[..diffIndex];
        BeforeAtDifference(start, r, diffIndex);
        BeforeAtDifference(r, limit, diffIndex);
        forall k: Bytes | |k| < |r| ensures Before(k, start) || !Before(k, limit) {
          NoShorterSeparator(start, limit, k);
        }
      }
    }
  }

  lemma {:induction false} PrefixLength(a: Bytes, b: Bytes, d: nat)
    requires d < |a| && d < |b| && a[..d] == b[..d] && a[d] != b[d]
    ensures CommonPrefix(a, b) == d
  {
    if d > 0 {
      assert a[0] == a[..d][0] == b[..d][0] == b[0];
      assert a[1..][..d - 1] == a[..d][1..] == b[..d][1..] == b[1..][..d - 1];
      PrefixLength(a[1..], b[1..], d - 1);
    }
  }

  lemma {:induction false} PrefixIsAll(a: Bytes, b: Bytes, d: nat)
    requires d <= |a| && d <= |b| && a[..d] == b[..d] && (d == |a| || d == |b|)
    ensures CommonPrefix(a, b) == d
  {
    if d > 0 {
      assert a[0] == a[..d][0] == b[..d][0] == b[0];
      assert a[1..][..d - 1] == a[..d][1..] == b[..d][1..] == b[1..][..d - 1];
      PrefixIsAll(a[1..], b[1..], d - 1);
    }
  }

  predicate AllFF(s: Bytes) {
    forall b | b in s :: b == 0xff
  }

  /** No shorter key comes after a key that starts with bytes of 0xff only. */
  lemma {:induction false} ShortIsBefore(k: Bytes, key: Bytes, n: nat)
    requires |k| <= n < |key| && AllFF(key[..n])
    ensures Before(k, key)
  {
    hide Before, CommonPrefix;
    var d := CommonPrefix(k, key);
    if d < |k| {
      assert key[..n][d] == key[d] && key[d] in key[..n];
    }
    BeforeAtDifference(k, key, d);
  }

  method FindShortSuccessor(key: Bytes) returns (r: Bytes)
    ensures r == key <==> AllFF(key)
    ensures r != key ==> Before(key, r) && |r| <= |key|
    ensures forall k: Bytes | |k| < |r| :: Before(k, key)
  {
    hide Before;
    for i := 0 to |key|
      invariant AllFF(key[..i])
    {
      var byte := key[i];
      if byte != 0xff {
        r := key[..i] + [byte + 1];
        assert r[..i] == key[..i];
        BeforeAtDifference(key, r, i);
        BeforeIsStrict(key, r);
        assert key[i] in key && r[i] != key[i];
        forall k: Bytes | |k| < |r| ensures Before(k, key) {
          ShortIsBefore(k, key, i);
        }
        return;
      }
      assert key[..i + 1] == key[..i] + [key[i]];
    }
    assert key[..|key|] == key;
    r := key;
    forall k: Bytes | |k| < |r| ensures Before(k, key) {
      assert forall b | b in key[..|k|] :: b in key;
      ShortIsBefore(k, key, |k|);
    }
  }

  // ----- Internal keys

  /** A user key followed by its 8-byte trailer. */
  function Encoded(user: Bytes, tag: nat): (r: Bytes)
    ensures |r| == |user| + 8
  {
    user + Fixed(tag, 8)
  }

  function UserOf(key: Bytes): Bytes {
    if |key| < 8 then key else key[..|key| - 8]
  }

  function TagOf(key: Bytes): nat {
    if |key| < 8 then 0 else FixedValue(key[|key| - 8..], 8)
  }

  lemma {:induction false} PartsOf(user: Bytes, tag: nat)
    requires tag < TWO_64
    ensures UserOf(Encoded(user, tag)) == user && TagOf(Encoded(user, tag)) == tag
  {
    hide Fixed, FixedValue, Pow256;
    FixedWidths();
    FixedValueInvertsFixed(tag, 8, []);
    var key := Encoded(user, tag);
    assert key[|key| - 8..] == Fixed(tag, 8) + [];
    assert key[..|key| - 8] == user;
  }

  /** User key ascending, trailer descending. */
  predicate KeyBefore(a: Bytes, b: Bytes) {
    Before(UserOf(a), UserOf(b)) || (UserOf(a) == UserOf(b) && TagOf(a) > TagOf(b))
  }

  lemma {:induction false} KeyBeforeIsOrder(a: Bytes, b: Bytes, c: Bytes)
    ensures !KeyBefore(a, a) && !(KeyBefore(a, b) && KeyBefore(b, a))
    ensures KeyBefore(a, b) && KeyBefore(b, c) ==> KeyBefore(a, c)
    ensures !KeyBefore(a, b) && !KeyBefore(b, a) ==> UserOf(a) == UserOf(b) && TagOf(a) == TagOf(b)
  {
    hide Before, UserOf, TagOf;
    BeforeIsStrict(UserOf(a), UserOf(a));
    BeforeIsStrict(UserOf(a), UserOf(b));
    if Before(UserOf(a), UserOf(b)) && Before(UserOf(b), UserOf(c)) {
      BeforeIsTransitive(UserOf(a), UserOf(b), UserOf(c));
    }
  }

  /** No key of the limit's user key lies in the gap that a shortened separator leaves. */
  ghost predicate SeparatesUsers(start: Bytes, r: Bytes, limit: Bytes) {
    forall k: Bytes {:trigger KeyBefore(start, k)} :: KeyBefore(start, k) && !KeyBefore(r, k) ==> UserOf(k) != UserOf(limit)
  }

  /** Shortens the user part of the key if the result is physically shorter and logically larger. */
  method FindKeySeparator(start: Bytes, limit: Bytes) returns (r: Bytes)
    requires |start| >= 8 && |limit| >= 8 && KeyBefore(start, limit)
    ensures |r| >= 8 && |r| <= |start| && !KeyBefore(r, start) && KeyBefore(r, limit)
    ensures SeparatesUsers(start, r, limit)
    ensures var user, bound := UserOf(start), UserOf(limit);
      if HasRoom(user, bound) && CommonPrefix(user, bound) + 1 < |user|
      then UserOf(r) != user && |r| == CommonPrefix(user, bound) + 9 && TagOf(r) == 0xFFFF_FFFF_FFFF_FF01
      else r == start
  {
    hide Before, TagOf, Fixed, CommonPrefix;
    var userStart, userLimit := UserOf(start), UserOf(limit);
    var tmp := FindShortestSeparator(userStart, userLimit);
    r := start;
    KeyBeforeIsOrder(start, start, start);
    if |tmp| < |userStart| && Before(userStart, tmp) {
      BeforeIsStrict(userStart, tmp);
      assert tmp != userStart;
      r := Encoded(tmp, MAX_TAG);
      PartsOf(tmp, MAX_TAG);
      forall k: Bytes | KeyBefore(start, k) && !KeyBefore(r, k) ensures UserOf(k) != UserOf(limit) {
        BeforeIsStrict(tmp, userLimit);
      }
    }
  }

  method FindKeySuccessor(key: Bytes) returns (r: Bytes)
    requires |key| >= 8
    ensures |r| >= 8 && |r| <= |key| && !KeyBefore(r, key)
    ensures r != key ==> |r| < |key| && Before(UserOf(key), UserOf(r)) && TagOf(r) == 0xFFFF_FFFF_FFFF_FF01
    ensures r == key <== AllFF(UserOf(key))
    ensures forall k: Bytes | |k| + 8 < |r| :: !Before(UserOf(key), k)
  {
    hide Before, TagOf, Fixed;
    var user := UserOf(key);
    var tmp := FindShortSuccessor(user);
    forall k: Bytes | |k| < |tmp| ensures !Before(user, k) {
      BeforeIsStrict(k, user);
    }
    r := key;
    KeyBeforeIsOrder(key, key, key);
    if |tmp| < |user| && Before(user, tmp) {
      BeforeIsStrict(user, tmp);
      r := Encoded(tmp, MAX_TAG);
      PartsOf(tmp, MAX_TAG);
    }
  }
}
