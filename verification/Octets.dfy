/** Numbers in a byte. */
module Octets {
  lemma {:induction false} ByteKeeps(n: int)
    requires 0 <= n < 256
    ensures (n as bv8) as int == n
  {
  }

  /** What a byte says as an unsigned number. */
  function Value(b: bv8): (n: nat)
    ensures n < 256
  {
    b as nat
  }

  function Byte(n: nat): (b: bv8)
    requires n < 256
    ensures Value(b) == n
  {
    ByteKeeps(n);
    n as bv8
  }

  lemma {:induction false} ByteInvertsValue(b: bv8)
    ensures Byte(Value(b)) == b
  {
  }
}
