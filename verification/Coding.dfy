/** Fixed-width little-endian numbers. */
module Coding {
  type Bytes = seq<bv8>

  function EncodeFixed32(v: bv32): (r: Bytes)
    ensures |r| == 4
  {
    [(v & 0xff) as bv8, ((v >> 8) & 0xff) as bv8, ((v >> 16) & 0xff) as bv8, ((v >> 24) & 0xff) as bv8]
  }

  function DecodeFixed32(b: Bytes): bv32
    requires |b| >= 4
  {
    (b[0] as bv32) | ((b[1] as bv32) << 8) | ((b[2] as bv32) << 16) | ((b[3] as bv32) << 24)
  }

  lemma {:induction false} WordOfBytes(v: bv32)
    ensures ((v & 0xff) as bv8 as bv32) | ((((v >> 8) & 0xff) as bv8 as bv32) << 8) |
            ((((v >> 16) & 0xff) as bv8 as bv32) << 16) | ((((v >> 24) & 0xff) as bv8 as bv32) << 24) == v
  {
  }

  lemma {:induction false} DecodeInvertsEncode(v: bv32, rest: Bytes)
    ensures DecodeFixed32(EncodeFixed32(v) + rest) == v
  {
    WordOfBytes(v);
    var b := EncodeFixed32(v);
    assert (b + rest)[0] == b[0] && (b + rest)[1] == b[1] && (b + rest)[2] == b[2] && (b + rest)[3] == b[3];
  }
}
