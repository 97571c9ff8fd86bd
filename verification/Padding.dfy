/** Padding schemes: where the packet sizes come from, what they do to the packets on the wire, and
    when a waste frame is as transparent as it is meant to be. */
module Padding {
  import opened Bytes
  import opened Wrappers
  import opened Frames
  import opened Writer
  import Text

  const INT64_LIMIT := 0x8000_0000_0000_0000

  /** An entry of a scheme line: a range of sizes, already ordered, or a check mark. */
  datatype Entry = Range(min: nat, max: nat) | Check

  function Split(s: string, sep: char): (parts: seq<string>)
    ensures |parts| >= 1
  {
    if s == [] then [[]]
    else
      var rest := Split(s[1..], sep);
      if s[0] == sep then [[]] + rest else [[s[0]] + rest[0]] + rest[1..]
  }

  function Join(parts: seq<string>, sep: char): (s: string)
    requires |parts| >= 1
  {
    if |parts| == 1 then parts[0] else parts[0] + [sep] + Join(parts[1..], sep)
  }

  /** Parts without the separator come back as they were joined. */
  lemma {:induction false} SplitJoined(parts: seq<string>, sep: char)
    requires |parts| >= 1 && forall i :: 0 <= i < |parts| ==> sep !in parts[i]
    ensures Split(Join(parts, sep), sep) == parts
    decreases |parts|
  {
    if |parts| == 1 {
      SplitWhole(parts[0], sep);
    } else {
      SplitJoined(parts[1..], sep);
      SplitFirst(parts[0], Join(parts[1..], sep), sep);
      assert parts[0] + [sep] + Join(parts[1..], sep) == parts[0] + ([sep] + Join(parts[1..], sep));
    }
  }

  lemma {:induction false} SplitWhole(s: string, sep: char)
    requires sep !in s
    ensures Split(s, sep) == [s]
  {
    if s != [] {
      SplitWhole(s[1..], sep);
      assert s == [s[0]] + s[1..];
    }
  }

  lemma {:induction false} SplitFirst(first: string, rest: string, sep: char)
    requires sep !in first
    ensures Split(first + ([sep] + rest), sep) == [first] + Split(rest, sep)
  {
    var s := first + ([sep] + rest);
    if first == [] {
      assert s[0] == sep && s[1..] == rest;
    } else {
      SplitFirst(first[1..], rest, sep);
      assert s[0] == first[0] && s[1..] == first[1..] + ([sep] + rest);
      assert first == [first[0]] + first[1..];
    }
  }

  /** Base 10, 64 bits: an optional sign and at least one digit. */
  function ParseInt(s: string): (n: Option<int>)
  {
    var signed := s != [] && (s[0] == '+' || s[0] == '-');
    var digits := if signed then s[1..] else s;
    if digits == [] then None
    else
      match Text.ParseDigits(digits, 10)
      case None => None
      case Some(n) =>
        if signed && s[0] == '-' then (if n <= INT64_LIMIT then Some(-(n as int)) else None)
        else if n < INT64_LIMIT then Some(n) else None
  }

  /** A number in decimal is read back exactly when it fits 64 bits with its sign. */
  lemma IntRoundTrip(n: nat)
    ensures ParseInt(Text.Decimal(n)) == if n < INT64_LIMIT then Some(n) else None
    ensures ParseInt("+" + Text.Decimal(n)) == if n < INT64_LIMIT then Some(n) else None
    ensures ParseInt("-" + Text.Decimal(n)) == if n <= INT64_LIMIT then Some(-(n as int)) else None
  {
    hide Text.Decimal, Text.ParseDigits, ParseInt;
    Text.DecimalIsDigits(n);
    Text.DecimalIsParsed(n);
    ParseUnsigned(Text.Decimal(n), n);
    ParseSigned(Text.Decimal(n), n);
  }

  lemma ParseUnsigned(digits: string, n: nat)
    requires digits != [] && Text.AllDigits(digits) && Text.ParseDigits(digits, 10) == Some(n)
    ensures ParseInt(digits) == if n < INT64_LIMIT then Some(n) else None
  {
    hide Text.ParseDigits;
  }

  lemma ParseSigned(digits: string, n: nat)
    requires digits != [] && Text.ParseDigits(digits, 10) == Some(n)
    ensures ParseInt("+" + digits) == if n < INT64_LIMIT then Some(n) else None
    ensures ParseInt("-" + digits) == if n <= INT64_LIMIT then Some(-(n as int)) else None
  {
    hide Text.ParseDigits;
    assert ("+" + digits)[1..] == digits && ("-" + digits)[1..] == digits;
  }

  /** An entry as written; the loop skips one that is malformed or not positive. */
  function ParseEntry(s: string): (e: Option<Entry>)
  {
    var ends := Split(s, '-');
    if |ends| == 2 then
      match (ParseInt(ends[0]), ParseInt(ends[1]))
      case (Some(a), Some(b)) =>
        if a <= 0 || b <= 0 then None
        else if a <= b then Some(Range(a, b)) else Some(Range(b, a))
      case _ => None
    else if s == "c" then Some(Check)
    else None
  }

  /** Two positive numbers with a dash between are the range they span, whichever comes first; with a zero it
      is no entry. */
  lemma EntryRoundTrip(a: nat, b: nat)
    requires a < INT64_LIMIT && b < INT64_LIMIT
    ensures ParseEntry(Text.Decimal(a) + "-" + Text.Decimal(b)) ==
      if a == 0 || b == 0 then None else if a <= b then Some(Range(a, b)) else Some(Range(b, a))
    ensures ParseEntry("c") == Some(Check)
  {
    hide Text.Decimal, ParseInt, Split;
    var x, y := Text.Decimal(a), Text.Decimal(b);
    Text.DecimalIsDigits(a);
    Text.DecimalIsDigits(b);
    IntRoundTrip(a);
    IntRoundTrip(b);
    SplitWhole("c", '-');
    NoDash(x);
    NoDash(y);
    SplitPair(x, y);
  }

  lemma NoDash(s: string)
    requires Text.AllDigits(s)
    ensures '-' !in s
  {
  }

  lemma SplitPair(x: string, y: string)
    requires '-' !in x && '-' !in y
    ensures Split(x + "-" + y, '-') == [x, y]
  {
    SplitJoined([x, y], '-');
    assert [x, y][1..] == [y];
  }

  function Entries(parts: seq<string>): (es: seq<Entry>)
  {
    if parts == [] then []
    else
      var init := Entries(parts[..|parts| - 1]);
      match ParseEntry(parts[|parts| - 1])
      case Some(e) => init + [e]
      case None => init
  }

  /** An entry as a scheme writes it. */
  function WriteEntry(e: Entry): (s: string)
  {
    match e
    case Check => "c"
    case Range(min, max) => Text.Decimal(min) + "-" + Text.Decimal(max)
  }

  function WriteEntries(es: seq<Entry>): (parts: seq<string>)
    ensures |parts| == |es|
  {
    if es == [] then [] else WriteEntries(es[..|es| - 1]) + [WriteEntry(es[|es| - 1])]
  }

  predicate GoodEntry(e: Entry) {
    e.Range? ==> 1 <= e.min <= e.max < INT64_LIMIT
  }

  lemma {:induction false} EntriesAreRead(es: seq<Entry>)
    requires forall i :: 0 <= i < |es| ==> GoodEntry(es[i])
    ensures Entries(WriteEntries(es)) == es
    ensures forall i :: 0 <= i < |es| ==> ',' !in WriteEntries(es)[i]
  {
    hide ParseEntry, Text.Decimal;
    if es != [] {
      var init, last := es[..|es| - 1], es[|es| - 1];
      EntriesAreRead(init);
      assert WriteEntries(es)[..|es| - 1] == WriteEntries(init);
      if last.Range? {
        EntryRoundTrip(last.min, last.max);
        Text.DecimalIsDigits(last.min);
        Text.DecimalIsDigits(last.max);
        NoComma(Text.Decimal(last.min), Text.Decimal(last.max));
      } else {
        EntryRoundTrip(1, 1);
      }
    }
  }

  lemma NoComma(x: string, y: string)
    requires Text.AllDigits(x) && Text.AllDigits(y)
    ensures ',' !in x + "-" + y
  {
  }

  /** The line of a scheme is read as the entries it was written from. */
  lemma LineRoundTrip(es: seq<Entry>)
    requires es != [] && forall i :: 0 <= i < |es| ==> GoodEntry(es[i])
    ensures Entries(Split(Join(WriteEntries(es), ','), ',')) == es
  {
    hide Split, Join, Entries, WriteEntries;
    EntriesAreRead(es);
    SplitJoined(WriteEntries(es), ',');
  }

  predicate DrawnFrom(size: int, e: Entry) {
    match e
    case Check => size == CHECK_MARK
    case Range(min, max) => min >= 1 && min <= size && (if min == max then size == min else size < max)
  }

  /** `GenerateRecordPayloadSizes`: one size for each entry of the packet's line that is well formed,
      in order, drawn from its range; a packet without a line has none. */
  method GenerateSizes(line: Option<string>) returns (sizes: seq<int>)
    ensures line.None? ==> sizes == []
    ensures line.Some? ==>
      var es := Entries(Split(line.value, ','));
      |sizes| == |es| && forall k :: 0 <= k < |es| ==> DrawnFrom(sizes[k], es[k])
    ensures SizeList(sizes)
  {
    sizes := [];
    if line.None? {
      return;
    }
    var parts := Split(line.value, ',');
    var i := 0;
    while i < |parts|
      invariant 0 <= i <= |parts|
      invariant |sizes| == |Entries(parts[..i])|
      invariant forall k :: 0 <= k < |sizes| ==> DrawnFrom(sizes[k], Entries(parts[..i])[k])
      invariant SizeList(sizes)
    {
      assert parts[..i + 1][..i] == parts[..i];
      match ParseEntry(parts[i]) {
        case None =>
        case Some(Check) =>
          sizes := sizes + [CHECK_MARK];
        case Some(Range(min, max)) =>
          if min == max {
            sizes := sizes + [min];
          } else {
            var drawn: nat :| drawn < max - min by { assert 0 < max - min; }
            sizes := sizes + [drawn + min];
          }
      }
      i := i + 1;
    }
    assert parts[..|parts|] == parts;
  }

  // ---- the packets on the wire ----

  function Sum(sizes: seq<int>): (n: int)
  {
    if sizes == [] then 0 else sizes[0] + Sum(sizes[1..])
  }

  predicate Unmarked(sizes: seq<int>) {
    forall i :: 0 <= i < |sizes| ==> 1 <= sizes[i]
  }

  function Remaining(payload: nat, sent: int): (r: nat)
  {
    if payload > sent then payload - sent else 0
  }

  lemma {:induction false} NthPacket(payload: nat, sizes: seq<int>, i: nat)
    requires Unmarked(sizes) && i < |sizes|
    ensures |Packets(payload, sizes)| > i
    ensures Packets(payload, sizes)[i] == PacketSize(Remaining(payload, Sum(sizes[..i])), sizes[i])
    decreases i
  {
    if i > 0 {
      assert sizes[..i][1..] == sizes[1..][..i - 1];
      SumPositive(sizes[1..][..i - 1]);
      NthPacket(Left(payload, sizes[0]), sizes[1..], i - 1);
    }
  }

  lemma {:induction false} SumPositive(sizes: seq<int>)
    requires Unmarked(sizes)
    ensures Sum(sizes) >= |sizes|
  {
    if sizes != [] { SumPositive(sizes[1..]); }
  }

  /** The i-th packet has its scheduled size exactly when the payload left over fills it, or ends
      more than a header short of it. Otherwise it goes out short, or, as padding alone, a header
      too long. */
  lemma ScheduledSize(payload: nat, sizes: seq<int>, i: nat)
    requires Unmarked(sizes) && i < |sizes|
    ensures |Packets(payload, sizes)| > i
    ensures
      var left := Remaining(payload, Sum(sizes[..i]));
      Packets(payload, sizes)[i] == sizes[i] <==>
        left >= sizes[i] || (left > 0 && left + HEADER_SIZE < sizes[i])
  {
    NthPacket(payload, sizes, i);
  }

  /** A check mark stops the schedule exactly when the sizes before it have used up the payload. */
  lemma {:induction false} CheckMarkStops(payload: nat, sizes: seq<int>, more: seq<int>)
    requires Unmarked(sizes) && SizeList(more)
    ensures SizeList(sizes + [CHECK_MARK] + more)
    ensures
      Packets(payload, sizes + [CHECK_MARK] + more) ==
        if payload <= Sum(sizes) then Packets(payload, sizes)
        else sizes + Packets(payload - Sum(sizes), more)
  {
    var all := sizes + [CHECK_MARK] + more;
    if sizes == [] {
      assert all == [CHECK_MARK] + more;
    } else {
      assert all[1..] == sizes[1..] + [CHECK_MARK] + more;
      SumPositive(sizes[1..]);
      CheckMarkStops(Left(payload, sizes[0]), sizes[1..], more);
      if payload > Sum(sizes) {
        assert sizes == [sizes[0]] + sizes[1..];
      }
    }
  }

  // ---- waste frames ----

  lemma NextOfZeros(n: nat)
    ensures n < HEADER_SIZE ==> Next(Zeros(n)) == None
    ensures n >= HEADER_SIZE ==> Next(Zeros(n)) == Some(Parsed(Frame(CMD_WASTE, 0, []), Zeros(n - HEADER_SIZE)))
  {
    var z := Zeros(n);
    if n >= HEADER_SIZE {
      assert z[HEADER_SIZE..] == Zeros(n - HEADER_SIZE);
      assert U16At(z, 5) == 0 && U32At(z, 1) == 0;
      assert z[HEADER_SIZE..HEADER_SIZE] == [];
    }
  }

  lemma {:induction false} ParseZeros(n: nat)
    ensures AllWaste(Parse(Zeros(n)).frames)
    ensures |Parse(Zeros(n)).rest| == n % HEADER_SIZE
  {
    NextOfZeros(n);
    hide Next;
    if n >= HEADER_SIZE {
      ParseZeros(n - HEADER_SIZE);
    }
  }

  /** The receiver reads nothing but waste out of a waste frame, to its last byte, exactly when what
      the 16-bit length leaves uncounted is whole zero headers: always up to 65535 bytes of padding,
      never from 65536 to 458751. */
  lemma WasteIsTransparent(len: nat)
    ensures AllWaste(Parse(Encode(WasteFrame(len))).frames)
    ensures Parse(Encode(WasteFrame(len))).rest == [] <==> len / U16_LIMIT % HEADER_SIZE == 0
    ensures len <= MAX_PAYLOAD ==> Sendable(WasteFrame(len))
  {
    var b := Encode(WasteFrame(len));
    var left := len / U16_LIMIT * U16_LIMIT;
    WasteNext(len);
    hide Encode, Next;
    ParseZeros(left);
    ZeroHeaders(len / U16_LIMIT);
  }

  lemma WasteNext(len: nat)
    ensures
      var n := Next(Encode(WasteFrame(len)));
      n.Some? && n.value.frame.cmd == CMD_WASTE && n.value.rest == Zeros(len / U16_LIMIT * U16_LIMIT)
  {
    var b := Encode(WasteFrame(len));
    HeaderFields(WasteFrame(len), []);
    assert b + [] == b;
    hide Encode;
    var counted := len % U16_LIMIT;
    assert len == len / U16_LIMIT * U16_LIMIT + counted;
    assert b[HEADER_SIZE..] == Zeros(len);
    assert b[HEADER_SIZE + counted..] == b[HEADER_SIZE..][counted..] == Zeros(len - counted);
  }

  lemma ZeroHeaders(q: nat)
    ensures q * U16_LIMIT % HEADER_SIZE == 0 <==> q % HEADER_SIZE == 0
  {
    assert q * U16_LIMIT == HEADER_SIZE * (9362 * q) + 2 * q;
    assert q * U16_LIMIT % HEADER_SIZE == 2 * q % HEADER_SIZE;
  }
}
