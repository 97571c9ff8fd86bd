/** Variable-length integers (section 16 of RFC 9000): the top two bits of the first byte say how many
    bytes there are. */
module Varint {
  import opened Bytes
  import opened Wrappers

  const MAX_VARINT := 0x3FFF_FFFF_FFFF_FFFF

  datatype Got = Got(value: nat, len: nat)

  function VarintLen(v: nat): (len: nat)
  {
    if v < 64 then 1 else if v < 16384 then 2 else if v < 1_073_741_824 then 4 else 8
  }

  function Put(v: nat): (b: seq<byte>)
    requires v <= MAX_VARINT
  {
    if v < 64 then [v]
    else if v < 16384 then Be16(v + 0x4000)
    else if v < 1_073_741_824 then Be32(v + 0x8000_0000)
    else Be64(v + 0xC000_0000_0000_0000)
  }

  function LenOf(first: byte): (len: nat)
    ensures len == 1 || len == 2 || len == 4 || len == 8
  {
    if first < 0x40 then 1 else if first < 0x80 then 2 else if first < 0xC0 then 4 else 8
  }

  function Get(b: seq<byte>): (r: Option<Got>)
    ensures r.Some? ==> 1 <= r.value.len <= |b| && r.value.value <= MAX_VARINT
  {
    if b == [] || LenOf(b[0]) > |b| then None
    else
      var len := LenOf(b[0]);
      Some(Got(if len == 1 then b[0]
               else if len == 2 then U16At(b, 0) % 0x4000
               else if len == 4 then U32At(b, 0) % 0x4000_0000
               else U64At(b, 0) % 0x4000_0000_0000_0000, len))
  }

  lemma FirstOf16(n: nat)
    ensures Be16(n)[0] == n / 256 % 256
  {
  }

  lemma FirstOf32(n: nat)
    ensures Be32(n)[0] == n / 0x100_0000 % 256
  {
  }

  lemma FirstOf64(n: nat)
    ensures |Be64(n)| == 8 && Be64(n)[0] == n / 0x100_0000_0000_0000 % 256
  {
    FirstOf32(n / U32_LIMIT);
    hide Be32;
  }

  lemma Get16(n: nat, rest: seq<byte>)
    requires 0x4000 <= n < 0x8000
    ensures Get(Be16(n) + rest) == Some(Got(n - 0x4000, 2))
  {
    var b := Be16(n) + rest;
    assert [] + Be16(n) + rest == b;
    Be16RoundTrip(n, [], rest);
    FirstOf16(n);
    hide U16At;
    assert b[0] == Be16(n)[0];
  }

  lemma Get32(n: nat, rest: seq<byte>)
    requires 0x8000_0000 <= n < 0xC000_0000
    ensures Get(Be32(n) + rest) == Some(Got(n - 0x8000_0000, 4))
  {
    hide Be32, U32At;
    var b := Be32(n) + rest;
    assert [] + Be32(n) + rest == b;
    Be32RoundTrip(n, [], rest);
    FirstOf32(n);
    assert b[0] == Be32(n)[0];
  }

  lemma Get64(n: nat, rest: seq<byte>)
    requires 0xC000_0000_0000_0000 <= n < U64_LIMIT
    ensures Get(Be64(n) + rest) == Some(Got(n - 0xC000_0000_0000_0000, 8))
  {
    hide Be64, U64At;
    var b := Be64(n) + rest;
    assert [] + Be64(n) + rest == b;
    Be64RoundTrip(n, [], rest);
    FirstOf64(n);
    assert b[0] == Be64(n)[0];
  }

  /** A number comes back out of the bytes it was written as, whatever follows them. */
  lemma VarintRoundTrip(v: nat, rest: seq<byte>)
    requires v <= MAX_VARINT
    ensures |Put(v)| == VarintLen(v)
    ensures Get(Put(v) + rest) == Some(Got(v, VarintLen(v)))
  {
    if v < 64 {
    } else if v < 16384 {
      Get16(v + 0x4000, rest);
      hide Get;
    } else if v < 1_073_741_824 {
      hide Get, Be32;
      Get32(v + 0x8000_0000, rest);
    } else {
      hide Get;
      Get64(v + 0xC000_0000_0000_0000, rest);
    }
  }

  /** Bytes that come later do not change a number already there. */
  lemma GetOfPrefix(b: seq<byte>, more: seq<byte>)
    requires Get(b).Some?
    ensures Get(b + more) == Get(b)
  {
  }

  /** A number is there once its bytes are, and not before. */
  lemma GetNeedsAll(v: nat, b: seq<byte>)
    requires v <= MAX_VARINT && b <= Put(v) && b != Put(v)
    ensures Get(b).None?
  {
    VarintRoundTrip(v, []);
    assert Put(v) + [] == Put(v);
    if b != [] {
      assert b[0] == Put(v)[0];
    }
  }
}
