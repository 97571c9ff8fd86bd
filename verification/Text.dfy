/** Text as the HTTP reader sees it: UTF-8, Unicode white space, and unsigned numbers in a radix. */
module Text {
  import opened Bytes
  import opened Wrappers

  const REPLACEMENT: char := '\U{FFFD}'

  /** One character at the front of a byte string, or the length of the run that is none. */
  datatype Unit = Char(c: char, len: nat) | Bad(len: nat)

  predicate Continues(b: seq<byte>, i: nat) {
    i < |b| && 0x80 <= b[i] <= 0xBF
  }

  /** Whether the second byte may follow the first: no overlong forms, no surrogates, nothing past
      U+10FFFF. */
  predicate SecondOk(first: byte, second: byte) {
    if first == 0xE0 then 0xA0 <= second <= 0xBF
    else if first == 0xED then 0x80 <= second <= 0x9F
    else if first == 0xF0 then 0x90 <= second <= 0xBF
    else if first == 0xF4 then 0x80 <= second <= 0x8F
    else 0x80 <= second <= 0xBF
  }

  function FirstUnit(b: seq<byte>): (u: Unit)
    requires b != []
    ensures 1 <= u.len <= |b|
  {
    var first: int := b[0];
    if first < 0x80 then Char(first as char, 1)
    else if 0xC2 <= first <= 0xDF then
      if Continues(b, 1) then Char(((first - 0xC0) * 64 + (b[1] as int - 0x80)) as char, 2) else Bad(1)
    else if 0xE0 <= first <= 0xEF then
      if |b| < 2 || !SecondOk(first, b[1]) then Bad(1)
      else if !Continues(b, 2) then Bad(2)
      else Char(((first - 0xE0) * 4096 + (b[1] as int - 0x80) * 64 + (b[2] as int - 0x80)) as char, 3)
    else if 0xF0 <= first <= 0xF4 then
      if |b| < 2 || !SecondOk(first, b[1]) then Bad(1)
      else if !Continues(b, 2) then Bad(2)
      else if !Continues(b, 3) then Bad(3)
      else Char(((first - 0xF0) * 262144 + (b[1] as int - 0x80) * 4096 +
                 (b[2] as int - 0x80) * 64 + (b[3] as int - 0x80)) as char, 4)
    else Bad(1)
  }

  /** The text of `b`, if it is UTF-8. */
  function Decode(b: seq<byte>): (s: Option<string>)
    decreases |b|
  {
    if b == [] then Some([])
    else
      match FirstUnit(b)
      case Bad(_) => None
      case Char(c, len) =>
        match Decode(b[len..])
        case None => None
        case Some(rest) => Some([c] + rest)
  }

  /** The text of `b` with each run that is no UTF-8 replaced. */
  function DecodeLossy(b: seq<byte>): (s: string)
    decreases |b|
  {
    if b == [] then []
    else
      var u := FirstUnit(b);
      [if u.Char? then u.c else REPLACEMENT] + DecodeLossy(b[u.len..])
  }

  predicate IsSpace(c: char) {
    || '\t' <= c <= '\r'
    || c in [' ', '\U{0085}', '\U{00A0}', '\U{1680}', '\U{2028}', '\U{2029}', '\U{202F}', '\U{205F}', '\U{3000}']
    || '\U{2000}' <= c <= '\U{200A}'
  }

  function TrimStart(s: string): (t: string)
  {
    if s != [] && IsSpace(s[0]) then TrimStart(s[1..]) else s
  }

  function TrimEnd(s: string): (t: string)
  {
    if s != [] && IsSpace(s[|s| - 1]) then TrimEnd(s[..|s| - 1]) else s
  }

  function Trim(s: string): (t: string)
  {
    TrimEnd(TrimStart(s))
  }

  /** The front of `s` up to the first `c`. */
  function UpTo(s: string, c: char): (t: string)
    ensures |t| <= |s|
  {
    if s == [] || s[0] == c then [] else [s[0]] + UpTo(s[1..], c)
  }

  /** The runs of `s` between white space. */
  function Words(s: string): (ws: seq<string>)
    decreases |s|
  {
    if s == [] then []
    else if IsSpace(s[0]) then Words(s[1..])
    else
      var n := WordLen(s);
      [s[..n]] + Words(s[n..])
  }

  function WordLen(s: string): (n: nat)
    ensures n <= |s|
    ensures s != [] && !IsSpace(s[0]) ==> n >= 1
  {
    if s == [] || IsSpace(s[0]) then 0 else 1 + WordLen(s[1..])
  }

  function DigitValue(c: char, radix: nat): (n: Option<nat>)
    ensures n.Some? ==> n.value < radix
  {
    var v := if '0' <= c <= '9' then c as int - '0' as int
             else if 'a' <= c <= 'f' then c as int - 'a' as int + 10
             else if 'A' <= c <= 'F' then c as int - 'A' as int + 10
             else radix;
    if v < radix then Some(v) else None
  }

  function ParseDigits(s: string, radix: nat): (n: Option<nat>)
  {
    if s == [] then Some(0)
    else
      match (ParseDigits(s[..|s| - 1], radix), DigitValue(s[|s| - 1], radix))
      case (Some(high), Some(low)) => Some(high * radix + low)
      case _ => None
  }

  /** An unsigned number below `limit`: an optional plus sign and at least one digit. */
  function ParseUnsigned(s: string, radix: nat, limit: nat): (n: Option<nat>)
  {
    var digits := if s != [] && s[0] == '+' then s[1..] else s;
    if digits == [] then None
    else
      match ParseDigits(digits, radix)
      case Some(n) => if n < limit then Some(n) else None
      case None => None
  }

  function Lower(s: string): (t: string)
  {
    seq(|s|, i requires 0 <= i < |s| =>
      if 'A' <= s[i] <= 'Z' then (s[i] as int + 32) as char else s[i])
  }

  predicate Contains(s: string, t: string) {
    t <= s || (s != [] && Contains(s[1..], t))
  }

  // ---- hexadecimal ----

  function HexDigit(n: nat): (c: byte)
    requires n < 16
  {
    if n < 10 then 48 + n else 97 + n - 10
  }

  /** `n` in lower-case hexadecimal, as bytes. */
  function Hex(n: nat): (b: seq<byte>)
    ensures b != []
  {
    (if n < 16 then [] else Hex(n / 16)) + [HexDigit(n % 16)]
  }

  predicate AllAscii(b: seq<byte>) {
    forall i :: 0 <= i < |b| ==> b[i] < 0x80
  }

  function AsciiText(b: seq<byte>): (s: string)
    requires AllAscii(b)
  {
    seq(|b|, i requires 0 <= i < |b| => b[i] as char)
  }

  lemma {:induction false} DecodeAscii(b: seq<byte>, rest: seq<byte>)
    requires AllAscii(b)
    ensures Decode(b + rest) ==
      match Decode(rest) case None => None case Some(t) => Some(AsciiText(b) + t)
  {
    if b == [] {
      assert b + rest == rest;
      if Decode(rest).Some? {
        assert AsciiText(b) + Decode(rest).value == Decode(rest).value;
      }
    } else {
      assert (b + rest)[1..] == b[1..] + rest;
      DecodeAscii(b[1..], rest);
      if Decode(rest).Some? {
        var t := Decode(rest).value;
        assert AsciiText(b) + t == [b[0] as char] + (AsciiText(b[1..]) + t);
      }
    }
  }

  lemma {:induction false} HexIsAscii(n: nat)
    ensures AllAscii(Hex(n))
    ensures forall i :: 0 <= i < |Hex(n)| ==> 48 <= Hex(n)[i] <= 57 || 97 <= Hex(n)[i] <= 102
  {
    if n >= 16 { HexIsAscii(n / 16); }
  }

  lemma HexDigitValue(n: nat)
    requires n < 16
    ensures DigitValue(HexDigit(n) as char, 16) == Some(n)
  {
  }

  lemma HexMore(n: nat)
    requires AllAscii(Hex(n)) && n >= 16
    ensures AllAscii(Hex(n / 16)) && AsciiText(Hex(n)) == AsciiText(Hex(n / 16)) + [HexDigit(n % 16) as char]
  {
    HexIsAscii(n / 16);
    assert Hex(n) == Hex(n / 16) + [HexDigit(n % 16)];
  }

  lemma {:induction false} ParseHex(n: nat)
    requires AllAscii(Hex(n))
    ensures ParseDigits(AsciiText(Hex(n)), 16) == Some(n)
  {
    HexDigitValue(n % 16);
    if n < 16 {
      assert Hex(n) == [HexDigit(n)];
      assert AsciiText(Hex(n))[..0] == [];
    } else {
      HexMore(n);
      ParseHex(n / 16);
      hide Hex, HexDigit, DigitValue, AsciiText;
      var s, front := AsciiText(Hex(n)), AsciiText(Hex(n / 16));
      assert s[..|s| - 1] == front;
    }
  }

  // ---- decimal ----

  function DecimalDigit(n: nat): (c: char)
    requires n < 10
  {
    (48 + n) as char
  }

  /** `n` in decimal. */
  function Decimal(n: nat): (s: string)
    ensures s != []
  {
    (if n < 10 then [] else Decimal(n / 10)) + [DecimalDigit(n % 10)]
  }

  predicate AllDigits(s: string) {
    forall i :: 0 <= i < |s| ==> '0' <= s[i] <= '9'
  }

  lemma {:induction false} DecimalIsDigits(n: nat)
    ensures AllDigits(Decimal(n))
  {
    if n >= 10 { DecimalIsDigits(n / 10); }
  }

  lemma DecimalDigitValue(n: nat)
    requires n < 10
    ensures DigitValue(DecimalDigit(n), 10) == Some(n)
  {
  }

  lemma {:induction false} DecimalIsParsed(n: nat)
    ensures ParseDigits(Decimal(n), 10) == Some(n)
  {
    DecimalDigitValue(n % 10);
    var s := Decimal(n);
    if n < 10 {
      assert s[..0] == [];
    } else {
      DecimalIsParsed(n / 10);
      assert s[..|s| - 1] == Decimal(n / 10);
    }
  }

  /** A number written in decimal is read back exactly when it is below the limit. */
  lemma UnsignedRoundTrip(n: nat, limit: nat)
    ensures ParseUnsigned(Decimal(n), 10, limit) == if n < limit then Some(n) else None
  {
    DecimalIsDigits(n);
    DecimalIsParsed(n);
    hide Decimal, ParseDigits;
  }

  /** A number is digits and nothing else. */
  lemma {:induction false} EveryDigit(s: string, radix: nat)
    ensures ParseDigits(s, radix).Some? <==> forall i :: 0 <= i < |s| ==> DigitValue(s[i], radix).Some?
    decreases |s|
  {
    hide DigitValue;
    if s != [] {
      var front := s[..|s| - 1];
      EveryDigit(front, radix);
      assert forall i :: 0 <= i < |front| ==> front[i] == s[i];
    }
  }

  lemma OnlyDigits(s: string)
    ensures ParseDigits(s, 10).Some? <==> AllDigits(s)
  {
    EveryDigit(s, 10);
    assert forall i :: 0 <= i < |s| ==> (DigitValue(s[i], 10).Some? <==> '0' <= s[i] <= '9');
  }

  // ---- UTF-8 ----

  /** One character as section 3 of RFC 3629 writes it. */
  function Utf8(c: char): (b: seq<byte>)
    ensures 1 <= |b| <= 4
  {
    var n := c as int;
    if n < 0x80 then [n]
    else if n < 0x800 then [0xC0 + n / 64, 0x80 + n % 64]
    else if n < 0x1_0000 then [0xE0 + n / 4096, 0x80 + n / 64 % 64, 0x80 + n % 64]
    else [0xF0 + n / 262144, 0x80 + n / 4096 % 64, 0x80 + n / 64 % 64, 0x80 + n % 64]
  }

  function Utf8Text(s: string): (b: seq<byte>) {
    if s == [] then [] else Utf8(s[0]) + Utf8Text(s[1..])
  }

  lemma Sixes(n: nat)
    ensures n == n / 64 * 64 + n % 64
    ensures n == n / 4096 * 4096 + n / 64 % 64 * 64 + n % 64
    ensures n == n / 262144 * 262144 + n / 4096 % 64 * 4096 + n / 64 % 64 * 64 + n % 64
  {
    assert n / 4096 == n / 64 / 64;
    assert n / 262144 == n / 4096 / 64;
  }

  lemma TwoBytes(c: char, b: seq<byte>)
    requires 0x80 <= c as int < 0x800 && Utf8(c) <= b
    ensures FirstUnit(b) == Char(c, 2)
  {
    Sixes(c as int);
    assert b[0] == Utf8(c)[0] && b[1] == Utf8(c)[1];
  }

  lemma ThreeBytes(c: char, b: seq<byte>)
    requires 0x800 <= c as int < 0x1_0000 && Utf8(c) <= b
    ensures FirstUnit(b) == Char(c, 3)
  {
    Sixes(c as int);
    assert b[0] == Utf8(c)[0] && b[1] == Utf8(c)[1] && b[2] == Utf8(c)[2];
  }

  lemma FourBytes(c: char, b: seq<byte>)
    requires 0x1_0000 <= c as int && Utf8(c) <= b
    ensures FirstUnit(b) == Char(c, 4)
  {
    Sixes(c as int);
    assert b[0] == Utf8(c)[0] && b[1] == Utf8(c)[1] && b[2] == Utf8(c)[2] && b[3] == Utf8(c)[3];
  }

  lemma UnitOf(c: char, b: seq<byte>)
    requires Utf8(c) <= b
    ensures FirstUnit(b) == Char(c, |Utf8(c)|)
  {
    if c as int < 0x80 {
      assert b[0] == Utf8(c)[0];
    } else if c as int < 0x800 {
      TwoBytes(c, b);
    } else if c as int < 0x1_0000 {
      ThreeBytes(c, b);
    } else {
      FourBytes(c, b);
    }
  }

  lemma TwoParts(high: nat, c: nat)
    requires c < 64
    ensures (high * 64 + c) / 64 == high && (high * 64 + c) % 64 == c
  {
  }

  lemma ThreeParts(n: nat, high: nat, b: nat, c: nat)
    requires b < 64 && c < 64 && n == high * 4096 + b * 64 + c
    ensures n / 4096 == high && n / 64 == high * 64 + b && n / 64 % 64 == b && n % 64 == c
  {
    TwoParts(high * 64 + b, c);
    TwoParts(high, b);
    assert n / 4096 == n / 64 / 64;
  }

  lemma FourParts(n: nat, high: nat, a: nat, b: nat, c: nat)
    requires a < 64 && b < 64 && c < 64 && n == high * 262144 + a * 4096 + b * 64 + c
    ensures n / 262144 == high && n / 4096 % 64 == a && n / 64 % 64 == b && n % 64 == c
  {
    ThreeParts(n, high * 64 + a, b, c);
    TwoParts(high, a);
    assert n / 262144 == n / 4096 / 64;
  }

  /** What is read as a character is that character written the one way there is. */
  lemma UnitIs(b: seq<byte>)
    requires b != [] && FirstUnit(b).Char?
    ensures b[..FirstUnit(b).len] == Utf8(FirstUnit(b).c)
  {
    var first := b[0];
    if first < 0x80 {
    } else if first < 0xE0 {
      ReadTwo(b);
    } else if first < 0xF0 {
      ReadThree(b);
    } else {
      ReadFour(b);
    }
    hide FirstUnit, Utf8;
  }

  lemma ReadTwo(b: seq<byte>)
    requires b != [] && 0x80 <= b[0] < 0xE0 && FirstUnit(b).Char?
    ensures FirstUnit(b).len == 2 && b[..2] == Utf8(FirstUnit(b).c)
  {
    TwoParts(b[0] - 0xC0, b[1] - 0x80);
  }

  lemma ReadThree(b: seq<byte>)
    requires b != [] && 0xE0 <= b[0] < 0xF0 && FirstUnit(b).Char?
    ensures FirstUnit(b).len == 3 && b[..3] == Utf8(FirstUnit(b).c)
  {
    ThreeParts(FirstUnit(b).c as int, b[0] - 0xE0, b[1] - 0x80, b[2] - 0x80);
  }

  lemma ReadFour(b: seq<byte>)
    requires b != [] && 0xF0 <= b[0] && FirstUnit(b).Char?
    ensures FirstUnit(b).len == 4 && b[..4] == Utf8(FirstUnit(b).c)
  {
    FourParts(FirstUnit(b).c as int, b[0] - 0xF0, b[1] - 0x80, b[2] - 0x80, b[3] - 0x80);
  }

  /** Bytes are read as a text exactly when they are that text in UTF-8. */
  lemma {:induction false} DecodedIsUtf8(b: seq<byte>, s: string)
    ensures Decode(b) == Some(s) <==> b == Utf8Text(s)
    decreases |b| + |s|
  {
    hide FirstUnit, Utf8;
    if b != [] && FirstUnit(b).Char? {
      UnitIs(b);
      var u := FirstUnit(b);
      assert b == b[..u.len] + b[u.len..];
      if s != [] {
        DecodedIsUtf8(b[u.len..], s[1..]);
        assert s == [s[0]] + s[1..];
      }
    }
    if s != [] && b == Utf8Text(s) {
      UnitOf(s[0], b);
      assert b[|Utf8(s[0])|..] == Utf8Text(s[1..]);
    }
  }

  /** Text in UTF-8 is read as it is, whatever follows. */
  lemma {:induction false} LossyText(s: string, rest: seq<byte>)
    ensures DecodeLossy(Utf8Text(s) + rest) == s + DecodeLossy(rest)
    decreases |s|
  {
    hide DecodeLossy, Utf8;
    if s == [] {
      assert Utf8Text(s) + rest == rest && s + DecodeLossy(rest) == DecodeLossy(rest);
    } else {
      var first, more := Utf8(s[0]), Utf8Text(s[1..]) + rest;
      LossyText(s[1..], rest);
      assert Utf8Text(s) + rest == first + more;
      LossyUnit(s[0], more);
      assert [s[0]] + (s[1..] + DecodeLossy(rest)) == s + DecodeLossy(rest);
    }
  }

  lemma LossyUnit(c: char, more: seq<byte>)
    ensures DecodeLossy(Utf8(c) + more) == [c] + DecodeLossy(more)
  {
    hide FirstUnit, Utf8;
    UnitOf(c, Utf8(c) + more);
    assert (Utf8(c) + more)[|Utf8(c)|..] == more;
  }

  /** A byte that starts no character is replaced, and reading goes on behind it. */
  lemma LossyReplaces(s: string, x: byte, rest: seq<byte>)
    requires 0x80 <= x < 0xC2 || x > 0xF4
    ensures DecodeLossy(Utf8Text(s) + ([x] + rest)) == s + ([REPLACEMENT] + DecodeLossy(rest))
  {
    LossyText(s, [x] + rest);
    assert ([x] + rest)[1..] == rest;
  }
}
