/** The head of an answer as a server writes it, and what the reader makes of it: the status, the fields and
    where the body ends (sections 4, 5 and 6.3 of RFC 9112). */
module Heads {
  import opened Bytes
  import opened Wrappers
  import opened Search
  import opened Text
  import opened Dechunk
  import opened Answer

  /** A field with the white space around its value. */
  datatype Written = Written(name: string, lead: string, value: string, trail: string)

  /** A head: the version and the status in decimal, whatever comes behind it on the line, and the fields. */
  datatype HeadText = HeadText(version: string, status: nat, reason: string, fields: seq<Written>)

  predicate Blank(s: string) {
    forall i :: 0 <= i < |s| ==> IsSpace(s[i])
  }

  predicate Trimmed(s: string) {
    s != [] ==> !IsSpace(s[0]) && !IsSpace(s[|s| - 1])
  }

  /** Text that stands on one line. */
  predicate OnLine(s: string) {
    '\r' !in s
  }

  predicate GoodField(f: Written) {
    && OnLine(f.name) && OnLine(f.lead) && OnLine(f.value) && OnLine(f.trail)
    && ':' !in f.name && Trimmed(f.name) && Blank(f.lead) && Trimmed(f.value) && Blank(f.trail)
  }

  predicate GoodHead(h: HeadText) {
    && OnLine(h.version) && h.version != [] && (forall i :: 0 <= i < |h.version| ==> !IsSpace(h.version[i]))
    && h.status < U16_LIMIT
    && OnLine(h.reason) && (h.reason != [] ==> IsSpace(h.reason[0]))
    && forall i :: 0 <= i < |h.fields| ==> GoodField(h.fields[i])
  }

  function FieldLine(f: Written): (s: string)
  {
    f.name + ":" + (f.lead + f.value + f.trail)
  }

  function FieldLines(fs: seq<Written>): (ls: seq<string>)
    ensures |ls| == |fs|
  {
    if fs == [] then [] else [FieldLine(fs[0])] + FieldLines(fs[1..])
  }

  function StatusLine(h: HeadText): (s: string)
  {
    h.version + " " + Decimal(h.status) + h.reason
  }

  function HeadLines(h: HeadText): (ls: seq<string>)
    ensures ls != []
  {
    [StatusLine(h)] + FieldLines(h.fields)
  }

  predicate AllOnLine(ls: seq<string>) {
    forall i :: 0 <= i < |ls| ==> OnLine(ls[i]) && ls[i] != []
  }

  /** The lines in UTF-8, with CRLF between them. */
  function WriteLines(ls: seq<string>): (b: seq<byte>)
    requires ls != [] && AllOnLine(ls)
  {
    if |ls| == 1 then Utf8Text(ls[0]) else Utf8Text(ls[0]) + (CRLF + WriteLines(ls[1..]))
  }

  function TextLines(ls: seq<string>): (s: string)
    requires ls != []
  {
    if |ls| == 1 then ls[0] else ls[0] + ("\r\n" + TextLines(ls[1..]))
  }

  /** What the reader makes of a field. */
  function Plain(fs: seq<Written>): (fields: seq<Field>)
    ensures |fields| == |fs|
  {
    if fs == [] then [] else [Field(fs[0].name, fs[0].value)] + Plain(fs[1..])
  }

  // ---- text ----

  lemma LineEndText()
    ensures Utf8Text("\r\n") == CRLF
  {
    assert "\r\n"[1..] == "\n" && "\n"[1..] == [];
  }

  lemma {:induction false} LinesDecoded(ls: seq<string>)
    requires ls != [] && AllOnLine(ls)
    ensures DecodeLossy(WriteLines(ls)) == TextLines(ls)
    decreases |ls|
  {
    if |ls| == 1 {
      LossyText(ls[0], []);
      assert Utf8Text(ls[0]) + [] == Utf8Text(ls[0]);
    } else {
      LinesDecoded(ls[1..]);
      LossyText(ls[0], CRLF + WriteLines(ls[1..]));
      LineEndText();
      LossyText("\r\n", WriteLines(ls[1..]));
    }
  }

  lemma {:induction false} LineAlone(s: string)
    requires '\r' !in s
    ensures Lines(s) == [s]
    decreases |s|
  {
    if s != [] {
      LineAlone(s[1..]);
      assert s == [s[0]] + s[1..];
    }
  }

  lemma {:induction false} LineFirst(s: string, rest: string)
    requires '\r' !in s
    ensures Lines(s + ("\r\n" + rest)) == [s] + Lines(rest)
    decreases |s|
  {
    var all := s + ("\r\n" + rest);
    if s == [] {
      assert all[0] == '\r' && all[1] == '\n' && all[2..] == rest;
    } else {
      LineFirst(s[1..], rest);
      assert all[0] == s[0] && all[1..] == s[1..] + ("\r\n" + rest);
      assert s == [s[0]] + s[1..];
    }
  }

  lemma {:induction false} LinesAreSplit(ls: seq<string>)
    requires ls != [] && AllOnLine(ls)
    ensures Lines(TextLines(ls)) == ls
    decreases |ls|
  {
    if |ls| == 1 {
      LineAlone(ls[0]);
    } else {
      LinesAreSplit(ls[1..]);
      LineFirst(ls[0], TextLines(ls[1..]));
    }
  }

  // ---- the status ----

  lemma {:induction false} WordEnds(w: string, rest: string)
    requires (forall i :: 0 <= i < |w| ==> !IsSpace(w[i])) && (rest != [] ==> IsSpace(rest[0]))
    ensures WordLen(w + rest) == |w|
    decreases |w|
  {
    hide IsSpace;
    if w == [] {
      assert w + rest == rest;
    } else {
      WordEnds(w[1..], rest);
      assert (w + rest)[1..] == w[1..] + rest;
    }
  }

  lemma FirstWord(w: string, rest: string)
    requires w != [] && (forall i :: 0 <= i < |w| ==> !IsSpace(w[i])) && (rest != [] ==> IsSpace(rest[0]))
    ensures Words(w + rest) == [w] + Words(rest)
  {
    hide IsSpace;
    WordEnds(w, rest);
    assert (w + rest)[..|w|] == w && (w + rest)[|w|..] == rest;
  }

  lemma StatusIsRead(h: HeadText)
    requires GoodHead(h)
    ensures Status(StatusLine(h)) == Some(h.status)
  {
    hide GoodField, Decimal;
    var digits := Decimal(h.status);
    var rest := [' '] + (digits + h.reason);
    DecimalIsDigits(h.status);
    DigitsAreNoSpace(digits);
    assert StatusLine(h) == h.version + rest;
    FirstWord(h.version, rest);
    FirstWord(digits, h.reason);
    assert rest[1..] == digits + h.reason;
    assert Words(rest) == Words(digits + h.reason);
    UnsignedRoundTrip(h.status, U16_LIMIT);
  }

  lemma DigitsAreNoSpace(s: string)
    requires AllDigits(s)
    ensures forall i :: 0 <= i < |s| ==> !IsSpace(s[i])
  {
  }

  // ---- the fields ----

  lemma {:induction false} NameEnds(name: string, rest: string)
    requires ':' !in name
    ensures UpTo(name + ([':'] + rest), ':') == name
    decreases |name|
  {
    var all := name + ([':'] + rest);
    if name != [] {
      NameEnds(name[1..], rest);
      assert all[1..] == name[1..] + ([':'] + rest);
      assert name == [name[0]] + name[1..];
    }
  }

  lemma {:induction false} StartTrimmed(lead: string, s: string)
    requires Blank(lead) && (s != [] ==> !IsSpace(s[0]))
    ensures TrimStart(lead + s) == s
    decreases |lead|
  {
    hide IsSpace;
    if lead == [] {
      assert lead + s == s;
    } else {
      StartTrimmed(lead[1..], s);
      assert (lead + s)[1..] == lead[1..] + s;
    }
  }

  lemma {:induction false} EndTrimmed(s: string, trail: string)
    requires Blank(trail) && (s != [] ==> !IsSpace(s[|s| - 1]))
    ensures TrimEnd(s + trail) == s
    decreases |trail|
  {
    hide IsSpace;
    var all := s + trail;
    if trail == [] {
      assert all == s;
    } else {
      EndTrimmed(s, trail[..|trail| - 1]);
      assert all[..|all| - 1] == s + trail[..|trail| - 1];
    }
  }

  /** White space around a text is trimmed, and nothing else. */
  lemma TrimIs(lead: string, s: string, trail: string)
    requires Blank(lead) && Blank(trail) && Trimmed(s)
    ensures Trim(lead + s + trail) == s
  {
    hide IsSpace;
    if s == [] {
      assert lead + s + trail == (lead + trail) + [];
      StartTrimmed(lead + trail, []);
      assert TrimEnd([]) == [];
    } else {
      assert lead + s + trail == lead + (s + trail);
      StartTrimmed(lead, s + trail);
      EndTrimmed(s, trail);
    }
  }

  lemma {:induction false} FieldsAreRead(fs: seq<Written>)
    requires forall i :: 0 <= i < |fs| ==> GoodField(fs[i])
    ensures Fields(FieldLines(fs)) == Plain(fs)
    decreases |fs|
  {
    hide IsSpace, Trim, UpTo, OnLine;
    if fs != [] {
      var f := fs[0];
      var value := f.lead + f.value + f.trail;
      FieldsAreRead(fs[1..]);
      FieldIsRead(f);
      assert FieldLines(fs)[1..] == FieldLines(fs[1..]);
    }
  }

  lemma FieldIsRead(f: Written)
    requires GoodField(f)
    ensures
      var line := FieldLine(f);
      UpTo(line, ':') == f.name && |f.name| < |line| && Trim(f.name) == f.name && Trim(line[|f.name| + 1..]) == f.value
  {
    hide IsSpace, Trim, UpTo, OnLine;
    var line, value := FieldLine(f), f.lead + f.value + f.trail;
    assert line == f.name + ([':'] + value);
    NameEnds(f.name, value);
    TrimIs([], f.name, []);
    assert [] + f.name + [] == f.name;
    assert line[|f.name| + 1..] == value;
    TrimIs(f.lead, f.value, f.trail);
  }

  // ---- the end of the body ----

  function FoldChar(c: char): (d: char) {
    if 'A' <= c <= 'Z' then (c as int + 32) as char else c
  }

  /** The text is this one, in any letter case. */
  predicate Spells(s: string, lower: string) {
    |s| == |lower| && forall i :: 0 <= i < |s| ==> FoldChar(s[i]) == lower[i]
  }

  /** The text holds this one from k on, in any letter case. */
  predicate SpellsAt(s: string, lower: string, k: nat) {
    k + |lower| <= |s| && Spells(s[k..k + |lower|], lower)
  }

  ghost predicate Mentions(s: string, lower: string) {
    exists k: nat :: SpellsAt(s, lower, k)
  }

  /** The i-th field is the first with this name. */
  predicate FirstNamed(fields: seq<Field>, lower: string, i: nat) {
    i < |fields| && Spells(fields[i].name, lower) && forall k :: 0 <= k < i ==> !Spells(fields[k].name, lower)
  }

  predicate Unnamed(fields: seq<Field>, lower: string) {
    forall k :: 0 <= k < |fields| ==> !Spells(fields[k].name, lower)
  }

  lemma LowerSpells(s: string, lower: string)
    ensures Lower(s) == lower <==> Spells(s, lower)
  {
    if Spells(s, lower) {
      assert Lower(s) == lower;
    }
  }

  lemma {:induction false} LookedUpFirst(fields: seq<Field>, lower: string, i: nat)
    requires FirstNamed(fields, lower, i)
    ensures Lookup(fields, lower) == Some(fields[i].value)
    decreases i
  {
    hide Lower, Spells;
    LowerSpells(fields[0].name, lower);
    if i > 0 {
      LookedUpFirst(fields[1..], lower, i - 1);
    }
  }

  lemma {:induction false} LookedUpNone(fields: seq<Field>, lower: string)
    requires Unnamed(fields, lower)
    ensures Lookup(fields, lower) == None
    decreases |fields|
  {
    hide Lower, Spells;
    if fields != [] {
      LowerSpells(fields[0].name, lower);
      LookedUpNone(fields[1..], lower);
    }
  }

  lemma {:induction false} ContainsFrom(s: string, lower: string, k: nat)
    requires SpellsAt(s, lower, k)
    ensures Contains(Lower(s), lower)
    decreases k
  {
    hide Spells;
    LowerSpells(s[k..k + |lower|], lower);
    LowerPart(s, k, k + |lower|);
    if k == 0 {
      assert lower <= Lower(s);
    } else if !(lower <= Lower(s)) {
      SpellsLater(s, lower, k - 1);
      ContainsFrom(s[1..], lower, k - 1);
      LowerPart(s, 1, |s|);
      assert s[1..|s|] == s[1..] && Lower(s)[1..|s|] == Lower(s)[1..];
    }
  }

  lemma SpellsLater(s: string, lower: string, k: nat)
    requires s != []
    ensures SpellsAt(s, lower, k + 1) <==> SpellsAt(s[1..], lower, k)
  {
    hide Spells;
    if k + 1 + |lower| <= |s| {
      assert s[1..][k..k + |lower|] == s[k + 1..k + 1 + |lower|];
    }
  }

  lemma LowerPart(s: string, i: nat, j: nat)
    requires i <= j <= |s|
    ensures |Lower(s)| == |s| && Lower(s)[i..j] == Lower(s[i..j])
  {
  }

  lemma {:induction false} WhereContained(s: string, lower: string) returns (k: nat)
    requires Contains(Lower(s), lower)
    ensures SpellsAt(s, lower, k)
    decreases |s|
  {
    hide Spells, Lower;
    LowerPart(s, 0, 0);
    if lower <= Lower(s) {
      LowerPart(s, 0, |lower|);
      LowerSpells(s[0..|lower|], lower);
      k := 0;
    } else {
      LowerPart(s, 1, |s|);
      assert s[1..|s|] == s[1..] && Lower(s)[1..|s|] == Lower(s)[1..];
      k := WhereContained(s[1..], lower);
      SpellsLater(s, lower, k);
      k := k + 1;
    }
  }

  lemma ContainsMentions(s: string, lower: string)
    ensures Contains(Lower(s), lower) <==> Mentions(s, lower)
  {
    hide Contains, SpellsAt, Lower;
    if Contains(Lower(s), lower) {
      var k := WhereContained(s, lower);
    }
    if k: nat :| SpellsAt(s, lower, k) {
      ContainsFrom(s, lower, k);
    }
  }

  /** The answer says that its body comes in chunks. */
  ghost predicate SaysChunked(fields: seq<Field>) {
    exists i: nat :: FirstNamed(fields, "transfer-encoding", i) && Mentions(fields[i].value, "chunked")
  }

  lemma ChunkedIsFound(fields: seq<Field>)
    ensures
      var encoding := Answer.Lookup(fields, "transfer-encoding");
      encoding.Some? && Contains(Lower(encoding.value), "chunked") <==> SaysChunked(fields)
  {
    hide Answer.Lookup, Contains, Lower, Mentions, Spells;
    var name := "transfer-encoding";
    if Unnamed(fields, name) {
      LookedUpNone(fields, name);
    } else {
      var i := FirstOf(fields, name);
      LookedUpFirst(fields, name, i);
      ContainsMentions(fields[i].value, "chunked");
    }
  }

  lemma {:induction false} FirstOf(fields: seq<Field>, lower: string) returns (i: nat)
    requires !Unnamed(fields, lower)
    ensures FirstNamed(fields, lower, i)
    decreases |fields|
  {
    hide Spells;
    if Spells(fields[0].name, lower) {
      return 0;
    }
    i := FirstOf(fields[1..], lower);
    i := i + 1;
  }

  /** Digits, behind at most one plus sign. */
  predicate Numeric(s: string) {
    var digits := if s != [] && s[0] == '+' then s[1..] else s;
    digits != [] && AllDigits(digits)
  }

  /** Where the body ends: at once for a 204 and a 304; else at its last chunk if the first transfer-encoding
      says so; else after the length that the first content-length gives; else with the connection. */
  ghost predicate Ends(status: nat, fields: seq<Field>, f: Framing) {
    if status == 204 || status == 304 then f == Length(0)
    else if SaysChunked(fields) then f == Chunked
    else if Unnamed(fields, "content-length") then f == Close
    else
      f.Length? && f.n < U64_LIMIT &&
      exists i: nat :: FirstNamed(fields, "content-length", i) && fields[i].value == Decimal(f.n)
  }

  ghost predicate TooBig(s: string) {
    exists n: nat :: n >= U64_LIMIT && s == Decimal(n)
  }

  /** No end can be told: the length is no number, or one that is too big. */
  ghost predicate Endless(status: nat, fields: seq<Field>) {
    && status != 204 && status != 304 && !SaysChunked(fields)
    && exists i: nat :: FirstNamed(fields, "content-length", i) && (!Numeric(fields[i].value) || TooBig(fields[i].value))
  }

  lemma FramingIsRight(status: nat, fields: seq<Field>, f: Framing)
    requires Ends(status, fields, f)
    ensures FramingOf(status, fields) == Ok(f)
  {
    hide Answer.Lookup, Contains, Lower, SaysChunked, Spells, Decimal, ParseUnsigned;
    ChunkedIsFound(fields);
    if Unnamed(fields, "content-length") {
      LookedUpNone(fields, "content-length");
    } else if status != 204 && status != 304 && !SaysChunked(fields) {
      var i: nat :| FirstNamed(fields, "content-length", i) && fields[i].value == Decimal(f.n);
      LookedUpFirst(fields, "content-length", i);
      UnsignedRoundTrip(f.n, U64_LIMIT);
    }
  }

  lemma FramingIsRefused(status: nat, fields: seq<Field>)
    requires Endless(status, fields)
    ensures FramingOf(status, fields) == Err(BadContentLength)
  {
    hide Answer.Lookup, Contains, Lower, SaysChunked, Spells, Decimal, ParseUnsigned, Numeric;
    ChunkedIsFound(fields);
    var i: nat :| FirstNamed(fields, "content-length", i) && (!Numeric(fields[i].value) || TooBig(fields[i].value));
    LookedUpFirst(fields, "content-length", i);
    if !Numeric(fields[i].value) {
      NotANumber(fields[i].value, U64_LIMIT);
    } else {
      var n: nat :| n >= U64_LIMIT && fields[i].value == Decimal(n);
      UnsignedRoundTrip(n, U64_LIMIT);
    }
  }

  lemma NotANumber(s: string, limit: nat)
    requires !Numeric(s)
    ensures ParseUnsigned(s, 10, limit) == None
  {
    OnlyDigits(if s != [] && s[0] == '+' then s[1..] else s);
  }

  // ---- heads ----

  lemma {:induction false} FieldLinesAreGood(fs: seq<Written>)
    requires forall i :: 0 <= i < |fs| ==> GoodField(fs[i])
    ensures AllOnLine(FieldLines(fs))
    decreases |fs|
  {
    hide IsSpace, Trimmed, Blank;
    if fs != [] {
      FieldLinesAreGood(fs[1..]);
    }
  }

  lemma StatusLineIsGood(h: HeadText)
    requires GoodHead(h)
    ensures OnLine(StatusLine(h)) && StatusLine(h) != []
  {
    hide IsSpace, Decimal, GoodField;
    DecimalIsDigits(h.status);
  }

  lemma LinesAreGood(h: HeadText)
    requires GoodHead(h)
    ensures AllOnLine(HeadLines(h))
  {
    hide OnLine, StatusLine, GoodField, FieldLines;
    StatusLineIsGood(h);
    FieldLinesAreGood(h.fields);
  }

  /** A head without the CRLF of its last line. */
  function WriteHead(h: HeadText): (b: seq<byte>)
    requires GoodHead(h)
  {
    LinesAreGood(h);
    WriteLines(HeadLines(h))
  }

  predicate Interim(h: HeadText) {
    100 <= h.status < 200 && h.status != 101
  }

  /** A head is read as it was written: one that is interim is passed over, and any other gives its status, its
      fields in their order and where its body ends. */
  lemma HeadRoundTrip(h: HeadText, k: nat)
    requires GoodHead(h)
    ensures Interim(h) ==> ReadHead(WriteHead(h), k) == Ok(None)
    ensures forall f :: !Interim(h) && Ends(h.status, Plain(h.fields), f) ==>
      ReadHead(WriteHead(h), k) == Ok(Some(Head(h.status, Plain(h.fields), f, k)))
    ensures !Interim(h) && Endless(h.status, Plain(h.fields)) ==> ReadHead(WriteHead(h), k) == Err(BadContentLength)
  {
    hide GoodHead, Ends, Endless, HeadLines, Plain, FramingOf, ReadHead;
    HeadIsParsed(h, k);
    var fields := Plain(h.fields);
    forall f | !Interim(h) && Ends(h.status, fields, f)
      ensures ReadHead(WriteHead(h), k) == Ok(Some(Head(h.status, fields, f, k)))
    {
      FramingIsRight(h.status, fields, f);
    }
    if !Interim(h) && Endless(h.status, fields) {
      FramingIsRefused(h.status, fields);
    }
  }

  lemma HeadIsParsed(h: HeadText, k: nat)
    requires GoodHead(h)
    ensures ReadHead(WriteHead(h), k) ==
      if Interim(h) then Ok(None)
      else
        match FramingOf(h.status, Plain(h.fields))
        case Err(e) => Err(e)
        case Ok(f) => Ok(Some(Head(h.status, Plain(h.fields), f, k)))
  {
    hide GoodField, AllOnLine, Plain, FramingOf, Lines, DecodeLossy, Fields, Status, StatusLine, FieldLines, TextLines, WriteLines;
    var ls := HeadLines(h);
    LinesAreGood(h);
    LinesDecoded(ls);
    LinesAreSplit(ls);
    StatusIsRead(h);
    FieldsAreRead(h.fields);
    assert ls[1..] == FieldLines(h.fields);
  }

  /** Lines hold no end of a head. */
  lemma {:induction false} NoEndWithin(ls: seq<string>, j: nat)
    requires ls != [] && AllOnLine(ls) && j < |WriteLines(ls)|
    ensures !At(WriteLines(ls) + HEAD_END, HEAD_END, j)
    decreases |ls|
  {
    hide Utf8Text;
    var line, all := Utf8Text(ls[0]), WriteLines(ls) + HEAD_END;
    NoReturn(ls[0]);
    if j < |line| {
      assert all[j] == line[j];
    } else {
      var rest := WriteLines(ls[1..]) + HEAD_END;
      assert all == line + CRLF + rest;
      if j == |line| {
        NoReturn(ls[1]);
        assert all[j + 2] == rest[0] == Utf8Text(ls[1])[0];
      } else if j == |line| + 1 {
        assert all[j] == 10;
      } else {
        assert all[|line| + 2..] == rest;
        AtOfSuffix(all, HEAD_END, |line| + 2, j);
        NoEndWithin(ls[1..], j - |line| - 2);
      }
    }
  }

  lemma {:induction false} NoReturn(s: string)
    requires '\r' !in s
    ensures forall j :: 0 <= j < |Utf8Text(s)| ==> Utf8Text(s)[j] != 13
    ensures s != [] ==> Utf8Text(s) != []
    decreases |s|
  {
    if s != [] {
      NoReturn(s[1..]);
      assert forall j :: 0 <= j < |Utf8(s[0])| ==> Utf8(s[0])[j] != 13;
      hide Utf8;
    }
  }

  lemma HeadIsOne(h: HeadText)
    requires GoodHead(h)
    ensures OneHead(WriteHead(h))
  {
    hide GoodHead, HeadLines, WriteLines, AllOnLine;
    LinesAreGood(h);
    var b := WriteHead(h);
    forall j: nat | 0 <= j < |b| ensures !At(b + HEAD_END, HEAD_END, j) {
      NoEndWithin(HeadLines(h), j);
    }
    assert (b + HEAD_END)[|b|..|b| + |HEAD_END|] == HEAD_END;
    FindIs(b + HEAD_END, HEAD_END, 0, |b|);
  }

  // ---- answers ----

  predicate AllInterim(hs: seq<HeadText>) {
    forall i :: 0 <= i < |hs| ==> GoodHead(hs[i]) && Interim(hs[i])
  }

  function AllWritten(hs: seq<HeadText>): (bs: seq<seq<byte>>)
    requires AllInterim(hs)
  {
    seq(|hs|, i requires 0 <= i < |hs| => WriteHead(hs[i]))
  }

  /** Interim heads, the head, and what follows it. */
  function WriteAnswer(interims: seq<HeadText>, h: HeadText, rest: seq<byte>): (raw: seq<byte>)
    requires AllInterim(interims) && GoodHead(h)
  {
    EncodeHeads(AllWritten(interims)) + (WriteHead(h) + HEAD_END + rest)
  }

  lemma HeadsAreRead(interims: seq<HeadText>, h: HeadText, f: Framing)
    requires AllInterim(interims) && GoodHead(h) && !Interim(h) && Ends(h.status, Plain(h.fields), f)
    ensures forall b :: b in AllWritten(interims) ==> OneHead(b) && ReadHead(b, 0) == Ok(None)
    ensures OneHead(WriteHead(h)) && ReadHead(WriteHead(h), 0) == Ok(Some(Head(h.status, Plain(h.fields), f, 0)))
  {
    hide GoodHead, WriteHead, OneHead, ReadHead, Ends, Plain;
    forall i | 0 <= i < |interims| ensures OneHead(AllWritten(interims)[i]) && ReadHead(AllWritten(interims)[i], 0) == Ok(None) {
      HeadIsOne(interims[i]);
      HeadRoundTrip(interims[i], 0);
    }
    HeadIsOne(h);
    HeadRoundTrip(h, 0);
  }

  /** Past any interim answers, an answer gives back its status, its fields and the body its head announces,
      and nothing of what follows it. */
  lemma AnswerWithLength(interims: seq<HeadText>, h: HeadText, body: seq<byte>, after: seq<byte>)
    requires AllInterim(interims) && GoodHead(h) && !Interim(h) && Ends(h.status, Plain(h.fields), Length(|body|))
    requires |WriteAnswer(interims, h, body + after)| <= MAX_BODY
    ensures Read(WriteAnswer(interims, h, body + after)) == Ok(Response(h.status, Plain(h.fields), body))
  {
    hide AllInterim, GoodHead, WriteHead, OneHead, ReadHead, Ends, Plain, Read, AllWritten, Interim;
    HeadsAreRead(interims, h, Length(|body|));
    LengthAnswer(AllWritten(interims), WriteHead(h), body, after);
  }

  lemma AnswerInChunks(interims: seq<HeadText>, h: HeadText, chunks: seq<Chunk>, last: seq<byte>,
                       trailer: seq<seq<byte>>, after: seq<byte>)
    requires AllInterim(interims) && GoodHead(h) && !Interim(h) && Ends(h.status, Plain(h.fields), Chunked)
    requires forall i :: 0 <= i < |chunks| ==> Legal(chunks[i])
    requires OneLine(last) && SizeOf(last) == Some(0)
    requires forall i :: 0 <= i < |trailer| ==> OneLine(trailer[i]) && trailer[i] != []
    requires |WriteAnswer(interims, h, EncodeBody(chunks, last, trailer) + after)| <= MAX_BODY
    ensures Read(WriteAnswer(interims, h, EncodeBody(chunks, last, trailer) + after)) ==
      Ok(Response(h.status, Plain(h.fields), Joined(chunks)))
  {
    hide AllInterim, GoodHead, WriteHead, OneHead, ReadHead, Ends, Plain, Read, AllWritten, Interim, OneLine, SizeOf, Legal, EncodeBody;
    HeadsAreRead(interims, h, Chunked);
    ChunkedAnswer(AllWritten(interims), WriteHead(h), chunks, last, trailer, after);
  }

  /** An answer that announces no end goes on until the connection ends. */
  lemma AnswerToTheEnd(interims: seq<HeadText>, h: HeadText, body: seq<byte>)
    requires AllInterim(interims) && GoodHead(h) && !Interim(h) && Ends(h.status, Plain(h.fields), Close)
    requires |WriteAnswer(interims, h, body)| <= MAX_BODY
    ensures Read(WriteAnswer(interims, h, body)) == Ok(Response(h.status, Plain(h.fields), body))
  {
    hide AllInterim, GoodHead, WriteHead, OneHead, ReadHead, Ends, Plain, Read, AllWritten, Interim;
    HeadsAreRead(interims, h, Close);
    ClosingAnswer(AllWritten(interims), WriteHead(h), body);
  }

  // ---- answers that are cut short ----

  /** How long the heads are. */
  function HeadLength(interims: seq<HeadText>, h: HeadText): (n: nat)
    requires AllInterim(interims) && GoodHead(h)
  {
    |WriteAnswer(interims, h, [])|
  }

  lemma CutAfterHead(interims: seq<HeadText>, h: HeadText, rest: seq<byte>, k: nat)
    requires AllInterim(interims) && GoodHead(h) && HeadLength(interims, h) <= k <= |WriteAnswer(interims, h, rest)|
    ensures
      var n := k - HeadLength(interims, h);
      n <= |rest| && WriteAnswer(interims, h, rest)[..k] == WriteAnswer(interims, h, rest[..n])
  {
    hide AllInterim, GoodHead, EncodeHeads, WriteHead, AllWritten;
    var a, b := EncodeHeads(AllWritten(interims)), WriteHead(h) + HEAD_END;
    var n := k - |a| - |b|;
    assert WriteAnswer(interims, h, []) == a + b;
    assert WriteAnswer(interims, h, rest) == (a + b) + rest;
    assert WriteAnswer(interims, h, rest[..n]) == (a + b) + rest[..n];
  }

  lemma ReadToBody(interims: seq<HeadText>, h: HeadText, f: Framing, rest: seq<byte>)
    requires AllInterim(interims) && GoodHead(h) && !Interim(h) && Ends(h.status, Plain(h.fields), f)
    ensures
      var raw, k := WriteAnswer(interims, h, rest), HeadLength(interims, h);
      k <= |raw| && raw[k..] == rest && ScanHead(0, raw) == Ok(InBody(Head(h.status, Plain(h.fields), f, k), START))
  {
    hide AllInterim, GoodHead, WriteHead, OneHead, ReadHead, Ends, Plain, AllWritten, Interim, EncodeHeads, ScanHead;
    HeadsAreRead(interims, h, f);
    HeadIsRead(AllWritten(interims), WriteHead(h), rest);
  }

  /** Before its head is there an answer is not whole, and if nothing follows it was cut in its head. */
  lemma AnswerCutInHead(interims: seq<HeadText>, h: HeadText, f: Framing, rest: seq<byte>, k: nat)
    requires AllInterim(interims) && GoodHead(h) && !Interim(h) && Ends(h.status, Plain(h.fields), f)
    requires k < HeadLength(interims, h) && k <= MAX_BODY
    ensures
      var part := WriteAnswer(interims, h, rest)[..k];
      ReadOn(InHead(0), part).Ok? && !IsWhole(part) && Read(part) == Err(if k == 0 then Empty else TruncatedHead)
  {
    hide AllInterim, GoodHead, WriteHead, OneHead, ReadHead, Ends, Plain, AllWritten, Interim, EncodeHeads, ScanHead, Read, IsWhole, ReadOn;
    HeadsAreRead(interims, h, f);
    assert EncodeHeads(AllWritten(interims)) + (WriteHead(h) + HEAD_END) == WriteAnswer(interims, h, []) by {
      assert WriteHead(h) + HEAD_END + [] == WriteHead(h) + HEAD_END;
    }
    HeadIsCut(AllWritten(interims), WriteHead(h), rest, k);
    CutInHead(WriteAnswer(interims, h, rest)[..k]);
  }

  /** An answer with a length is whole from the last byte of its body on, and not before. */
  lemma WholeWithLength(interims: seq<HeadText>, h: HeadText, body: seq<byte>, after: seq<byte>, k: nat)
    requires AllInterim(interims) && GoodHead(h) && !Interim(h) && Ends(h.status, Plain(h.fields), Length(|body|))
    requires k <= |WriteAnswer(interims, h, body + after)| && k <= MAX_BODY
    ensures
      var part := WriteAnswer(interims, h, body + after)[..k];
      && (IsWhole(part) <==> k >= HeadLength(interims, h) + |body|)
      && (HeadLength(interims, h) <= k < HeadLength(interims, h) + |body| ==> Read(part) == Err(TruncatedBody))
  {
    hide AllInterim, GoodHead, Ends, Plain, Interim, ScanHead, Read, IsWhole, WriteAnswer, HeadLength;
    var n := HeadLength(interims, h);
    if k < n {
      AnswerCutInHead(interims, h, Length(|body|), body + after, k);
    } else {
      CutAfterHead(interims, h, body + after, k);
      ReadToBody(interims, h, Length(|body|), (body + after)[..k - n]);
      CutInBody(WriteAnswer(interims, h, (body + after)[..k - n]), Head(h.status, Plain(h.fields), Length(|body|), n));
    }
  }

  /** A chunked answer is whole from the last byte of its trailer on, and not before. */
  lemma WholeInChunks(interims: seq<HeadText>, h: HeadText, chunks: seq<Chunk>, last: seq<byte>,
                      trailer: seq<seq<byte>>, after: seq<byte>, k: nat)
    requires AllInterim(interims) && GoodHead(h) && !Interim(h) && Ends(h.status, Plain(h.fields), Chunked)
    requires forall i :: 0 <= i < |chunks| ==> Legal(chunks[i])
    requires OneLine(last) && SizeOf(last) == Some(0)
    requires forall i :: 0 <= i < |trailer| ==> OneLine(trailer[i]) && trailer[i] != []
    requires k <= |WriteAnswer(interims, h, EncodeBody(chunks, last, trailer) + after)| < U64_LIMIT && k <= MAX_BODY
    ensures
      var body := EncodeBody(chunks, last, trailer);
      var part := WriteAnswer(interims, h, body + after)[..k];
      && (IsWhole(part) <==> k >= HeadLength(interims, h) + |body|)
      && (HeadLength(interims, h) <= k < HeadLength(interims, h) + |body| ==>
        Read(part) == Err(TruncatedChunks) || Read(part) == Err(BadChunk(LineTooLong)))
  {
    hide AllInterim, GoodHead, Ends, Plain, Interim, ScanHead, Read, IsWhole, WriteAnswer, HeadLength;
    hide Legal, OneLine, SizeOf, EncodeBody, Scan, Joined;
    var n, body := HeadLength(interims, h), EncodeBody(chunks, last, trailer);
    ReadToBody(interims, h, Chunked, body + after);
    if k < n {
      AnswerCutInHead(interims, h, Chunked, body + after, k);
    } else {
      CutAfterHead(interims, h, body + after, k);
      var rest := (body + after)[..k - n];
      ReadToBody(interims, h, Chunked, rest);
      CutInBody(WriteAnswer(interims, h, rest), Head(h.status, Plain(h.fields), Chunked, n));
      PartOfBody(chunks, last, trailer, after, k - n);
    }
  }

  lemma PartOfBody(chunks: seq<Chunk>, last: seq<byte>, trailer: seq<seq<byte>>, after: seq<byte>, n: nat)
    requires forall i :: 0 <= i < |chunks| ==> Legal(chunks[i])
    requires OneLine(last) && SizeOf(last) == Some(0)
    requires forall i :: 0 <= i < |trailer| ==> OneLine(trailer[i]) && trailer[i] != []
    requires n <= |EncodeBody(chunks, last, trailer) + after| < U64_LIMIT
    ensures
      var body := EncodeBody(chunks, last, trailer);
      match Scan(START, (body + after)[..n])
      case Err(e) => e == LineTooLong && n < |body|
      case Ok(c) => c.done <==> n >= |body|
  {
    hide Legal, OneLine, SizeOf, EncodeBody, Scan, Joined;
    var body := EncodeBody(chunks, last, trailer);
    if n >= |body| {
      var more := after[..n - |body|];
      assert (body + after)[..n] == body + more;
      ChunkedRoundTrip(chunks, last, trailer, more);
    } else {
      assert (body + after)[..n] == body[..n];
      assert body == body[..n] + body[n..] && body + [] == body;
      ChunkedRoundTrip(chunks, last, trailer, []);
      ScanResumes(START, body[..n], body[n..]);
    }
  }

  /** An answer that goes past the limit before it is whole is refused, however it is split. */
  lemma TooLargeIsRefused(interims: seq<HeadText>, h: HeadText, f: Framing, rest: seq<byte>, pieces: seq<seq<byte>>)
    requires AllInterim(interims) && GoodHead(h) && !Interim(h) && Ends(h.status, Plain(h.fields), f)
    requires f == Close || (f.Length? && HeadLength(interims, h) + f.n > MAX_BODY)
    requires Flatten(pieces) == WriteAnswer(interims, h, rest) && |Flatten(pieces)| > MAX_BODY
    ensures Exchange(InHead(0), [], pieces) == Err(TooLarge)
  {
    hide AllInterim, GoodHead, Ends, Plain, Interim, IsWhole, ReadOn, WriteAnswer, HeadLength, Exchange, Flatten;
    var raw := WriteAnswer(interims, h, rest);
    assert [] + Flatten(pieces) == raw;
    forall k: nat | k <= MAX_BODY ensures var part := ([] + Flatten(pieces))[..k]; ReadOn(InHead(0), part).Ok? && !IsWhole(part) {
      PartIsOpen(interims, h, f, rest, k);
    }
    assert ReadOn(InHead(0), []) == Ok(InHead(0)) by {
      NothingRead();
    }
    NeverWhole(InHead(0), [], pieces);
  }

  lemma NothingRead()
    ensures ReadOn(InHead(0), []) == Ok(InHead(0))
  {
  }

  lemma PartIsOpen(interims: seq<HeadText>, h: HeadText, f: Framing, rest: seq<byte>, k: nat)
    requires AllInterim(interims) && GoodHead(h) && !Interim(h) && Ends(h.status, Plain(h.fields), f)
    requires f == Close || (f.Length? && HeadLength(interims, h) + f.n > MAX_BODY)
    requires k <= MAX_BODY && k <= |WriteAnswer(interims, h, rest)|
    ensures var part := WriteAnswer(interims, h, rest)[..k]; ReadOn(InHead(0), part).Ok? && !IsWhole(part)
  {
    hide AllInterim, GoodHead, Ends, Plain, Interim, IsWhole, ReadOn, WriteAnswer, HeadLength, ScanHead, Read;
    var n := HeadLength(interims, h);
    if k < n {
      AnswerCutInHead(interims, h, f, rest, k);
    } else {
      CutAfterHead(interims, h, rest, k);
      ReadToBody(interims, h, f, rest[..k - n]);
      CutInBody(WriteAnswer(interims, h, rest[..k - n]), Head(h.status, Plain(h.fields), f, n));
    }
  }

  /** A first line without a status, or with one that does not fit 16 bits, is refused, whatever lines follow. */
  lemma BadStatusIsRefused(version: string, token: string, reason: string, more: seq<string>, k: nat)
    requires OnLine(version) && version != [] && (forall i :: 0 <= i < |version| ==> !IsSpace(version[i]))
    requires OnLine(token) && token != [] && (forall i :: 0 <= i < |token| ==> !IsSpace(token[i]))
    requires OnLine(reason) && (reason != [] ==> IsSpace(reason[0]))
    requires !Numeric(token) || exists n: nat :: n >= U16_LIMIT && token == Decimal(n)
    requires AllOnLine(more)
    ensures ReadHead(WriteLines([version] + more), k) == Err(BadStatusLine)
    ensures ReadHead(WriteLines([version + " " + token + reason] + more), k) == Err(BadStatusLine)
  {
    hide OnLine, WriteLines, ReadHead, IsSpace, Numeric, Decimal;
    NoStatus(version);
    OddStatus(version, token, reason);
    FirstLineRules(version, more, k);
    var line := version + " " + token + reason;
    assert OnLine(line) by { JoinedOnLine(version, token, reason); }
    FirstLineRules(line, more, k);
  }

  lemma JoinedOnLine(version: string, token: string, reason: string)
    requires OnLine(version) && OnLine(token) && OnLine(reason)
    ensures OnLine(version + " " + token + reason)
  {
  }

  lemma NoStatus(version: string)
    requires version != [] && (forall i :: 0 <= i < |version| ==> !IsSpace(version[i]))
    ensures Status(version) == None
  {
    hide IsSpace;
    FirstWord(version, []);
    assert version + [] == version;
  }

  lemma OddStatus(version: string, token: string, reason: string)
    requires version != [] && (forall i :: 0 <= i < |version| ==> !IsSpace(version[i]))
    requires token != [] && (forall i :: 0 <= i < |token| ==> !IsSpace(token[i]))
    requires reason != [] ==> IsSpace(reason[0])
    requires !Numeric(token) || exists n: nat :: n >= U16_LIMIT && token == Decimal(n)
    ensures Status(version + " " + token + reason) == None
  {
    hide Decimal, ParseUnsigned, Numeric;
    var rest := [' '] + (token + reason);
    assert version + " " + token + reason == version + rest;
    FirstWord(version, rest);
    FirstWord(token, reason);
    assert rest[1..] == token + reason;
    assert Words(rest) == Words(token + reason);
    if !Numeric(token) {
      NotANumber(token, U16_LIMIT);
    } else {
      var n: nat :| n >= U16_LIMIT && token == Decimal(n);
      UnsignedRoundTrip(n, U16_LIMIT);
    }
  }

  lemma FirstLineRules(line: string, more: seq<string>, k: nat)
    requires OnLine(line) && line != [] && AllOnLine(more) && Status(line) == None
    ensures ReadHead(WriteLines([line] + more), k) == Err(BadStatusLine)
  {
    hide OnLine, Lines, DecodeLossy, Fields, Status, TextLines, WriteLines, FramingOf;
    var ls := [line] + more;
    LinesDecoded(ls);
    LinesAreSplit(ls);
  }
}
