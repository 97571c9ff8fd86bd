/** Octets, and the big-endian integers the wire formats are made of. */
module Bytes {
  type byte = b: int | 0 <= b < 256

  const U16_LIMIT := 0x1_0000
  const U32_LIMIT := 0x1_0000_0000
  const U64_LIMIT := 0x1_0000_0000_0000_0000

  /** A 16-bit integer in network order; `n` is cut to 16 bits as a cast does. */
  function Be16(n: nat): (b: seq<byte>)
  {
    [n / 256 % 256, n % 256]
  }

  function Be32(n: nat): (b: seq<byte>)
    ensures |b| == 4
  {
    Be16(n / U16_LIMIT) + Be16(n)
  }

  function U16At(b: seq<byte>, i: nat): (n: nat)
    requires i + 2 <= |b|
    ensures n < U16_LIMIT
  {
    b[i] as int * 256 + b[i + 1] as int
  }

  function U32At(b: seq<byte>, i: nat): (n: nat)
    requires i + 4 <= |b|
    ensures n < U32_LIMIT
  {
    U16At(b, i) * U16_LIMIT + U16At(b, i + 2)
  }

  function Be64(n: nat): (b: seq<byte>)
  {
    Be32(n / U32_LIMIT) + Be32(n)
  }

  function U64At(b: seq<byte>, i: nat): (n: nat)
    requires i + 8 <= |b|
    ensures n < U64_LIMIT
  {
    U32At(b, i) * U32_LIMIT + U32At(b, i + 4)
  }

  function Zeros(n: nat): (b: seq<byte>)
  {
    seq(n, i => 0)
  }

  lemma Be16RoundTrip(n: nat, before: seq<byte>, after: seq<byte>)
    ensures U16At(before + Be16(n) + after, |before|) == n % U16_LIMIT
  {
  }

  lemma Be32RoundTrip(n: nat, before: seq<byte>, after: seq<byte>)
    ensures U32At(before + Be32(n) + after, |before|) == n % U32_LIMIT
  {
    var b := before + Be32(n) + after;
    assert b == before + Be16(n / U16_LIMIT) + (Be16(n) + after);
    Be16RoundTrip(n / U16_LIMIT, before, Be16(n) + after);
    assert b == (before + Be16(n / U16_LIMIT)) + Be16(n) + after;
    Be16RoundTrip(n, before + Be16(n / U16_LIMIT), after);
  }

  lemma Be64RoundTrip(n: nat, before: seq<byte>, after: seq<byte>)
    ensures U64At(before + Be64(n) + after, |before|) == n % U64_LIMIT
  {
    hide Be32, U32At;
    var b := before + Be64(n) + after;
    var high := n / U32_LIMIT;
    assert b == before + Be32(high) + (Be32(n) + after);
    Be32RoundTrip(high, before, Be32(n) + after);
    assert b == (before + Be32(high)) + Be32(n) + after;
    Be32RoundTrip(n, before + Be32(high), after);
  }
}
