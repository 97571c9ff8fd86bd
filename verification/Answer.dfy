/** An HTTP/1.1 answer as it comes in: its head, past any interim answers, then its body, which ends
    as section 6.3 of RFC 9112 has it. */
module Answer {
  import opened Bytes
  import opened Wrappers
  import opened Search
  import opened Text
  import opened Dechunk

  const MAX_BODY := 512 * 1024

  datatype Failure =
    | TooLarge
    | BadStatusLine
    | BadContentLength
    | BadChunk(error: Error)
    | Empty
    | TruncatedHead
    | TruncatedBody
    | TruncatedChunks

  datatype Field = Field(name: string, value: string)

  datatype Framing = Length(n: nat) | Chunked | Close

  datatype Head = Head(status: nat, fields: seq<Field>, framing: Framing, bodyStart: nat)

  datatype Response = Response(status: nat, fields: seq<Field>, body: seq<byte>)

  // ---- the head ----

  function Lines(s: string): (ls: seq<string>)
    ensures |ls| >= 1
    decreases |s|
  {
    if s == [] then [[]]
    else if |s| >= 2 && s[0] == '\r' && s[1] == '\n' then [[]] + Lines(s[2..])
    else
      var ls := Lines(s[1..]);
      [[s[0]] + ls[0]] + ls[1..]
  }

  /** The lines with a colon, split at the first one and trimmed. */
  function Fields(lines: seq<string>): (fs: seq<Field>)
  {
    if lines == [] then []
    else
      var name := UpTo(lines[0], ':');
      var rest := Fields(lines[1..]);
      if |name| == |lines[0]| then rest
      else [Field(Trim(name), Trim(lines[0][|name| + 1..]))] + rest
  }

  function Status(line: string): (n: Option<nat>)
  {
    var words := Words(line);
    if |words| < 2 then None else ParseUnsigned(words[1], 10, U16_LIMIT)
  }

  function Lookup(fields: seq<Field>, wanted: string): (value: Option<string>)
  {
    if fields == [] then None
    else if Lower(fields[0].name) == wanted then Some(fields[0].value)
    else Lookup(fields[1..], wanted)
  }

  /** Where the body ends: chunked goes before any Content-Length. */
  function FramingOf(status: nat, fields: seq<Field>): (f: Result<Framing, Failure>)
  {
    var encoding := Lookup(fields, "transfer-encoding");
    if status == 204 || status == 304 then Ok(Length(0))
    else if encoding.Some? && Contains(Lower(encoding.value), "chunked") then Ok(Chunked)
    else
      match Lookup(fields, "content-length")
      case None => Ok(Close)
      case Some(value) =>
        match ParseUnsigned(value, 10, U64_LIMIT)
        case Some(n) => Ok(Length(n))
        case None => Err(BadContentLength)
  }

  /** A head without its last CRLF: an interim one is `None`. */
  function ReadHead(head: seq<byte>, bodyStart: nat): (r: Result<Option<Head>, Failure>)
    ensures r.Ok? && r.value.Some? ==> r.value.value.bodyStart == bodyStart
  {
    var lines := Lines(DecodeLossy(head));
    match Status(lines[0])
    case None => Err(BadStatusLine)
    case Some(status) =>
      if 100 <= status < 200 && status != 101 then Ok(None)
      else
        var fields := Fields(lines[1..]);
        match FramingOf(status, fields)
        case Err(e) => Err(e)
        case Ok(framing) => Ok(Some(Head(status, fields, framing, bodyStart)))
  }

  // ---- reading ----

  /** How far an answer has been read: the head that starts at `start` is still coming, or the body
      is being read, at the cursor when it is chunked. */
  datatype Progress = InHead(start: nat) | InBody(head: Head, cursor: Cursor)

  predicate Within(p: Progress, raw: seq<byte>) {
    match p
    case InHead(start) => start <= |raw|
    case InBody(head, cursor) => head.bodyStart <= |raw| && cursor.at <= |raw| - head.bodyStart
  }

  function ScanHead(start: nat, raw: seq<byte>): (r: Result<Progress, Failure>)
    requires start <= |raw|
    ensures r.Ok? ==> Within(r.value, raw)
    ensures r.Ok? && r.value.InBody? ==> r.value.cursor == START
    decreases |raw| - start
  {
    match Find(raw, HEAD_END, start)
    case None => Ok(InHead(start))
    case Some(end) =>
      match ReadHead(raw[start..end], end + 4)
      case Err(e) => Err(e)
      case Ok(Some(head)) => Ok(InBody(head, START))
      case Ok(None) => ScanHead(end + 4, raw)
  }

  function ScanBody(head: Head, cursor: Cursor, raw: seq<byte>): (r: Result<Progress, Failure>)
    requires Within(InBody(head, cursor), raw)
    ensures r.Ok? ==> r.value.InBody? && r.value.head == head && Within(r.value, raw)
  {
    if head.framing != Chunked then Ok(InBody(head, cursor))
    else
      match Scan(cursor, raw[head.bodyStart..])
      case Err(e) => Err(BadChunk(e))
      case Ok(c) => Ok(InBody(head, c))
  }

  /** All of `raw` that can be read on from `p`. */
  function ReadOn(p: Progress, raw: seq<byte>): (r: Result<Progress, Failure>)
    requires Within(p, raw)
    ensures r.Ok? ==> Within(r.value, raw)
  {
    match p
    case InBody(head, cursor) => ScanBody(head, cursor, raw)
    case InHead(start) =>
      match ScanHead(start, raw)
      case Err(e) => Err(e)
      case Ok(InHead(s)) => Ok(InHead(s))
      case Ok(InBody(head, cursor)) => ScanBody(head, cursor, raw)
  }

  predicate Whole(p: Progress, raw: seq<byte>)
    requires Within(p, raw)
  {
    match p
    case InHead(_) => false
    case InBody(head, cursor) =>
      match head.framing
      case Length(n) => |raw| - head.bodyStart >= n
      case Chunked => cursor.done
      case Close => false
  }

  /** What `finish` makes of an answer once the connection has ended. */
  function Ended(p: Progress, raw: seq<byte>): (r: Result<Response, Failure>)
    requires Within(p, raw)
  {
    match p
    case InHead(_) => Err(if raw == [] then Empty else TruncatedHead)
    case InBody(head, cursor) =>
      var body := raw[head.bodyStart..];
      match head.framing
      case Length(n) => if |body| < n then Err(TruncatedBody) else Ok(Response(head.status, head.fields, body[..n]))
      case Chunked => if cursor.done then Ok(Response(head.status, head.fields, cursor.joined)) else Err(TruncatedChunks)
      case Close => Ok(Response(head.status, head.fields, body))
  }

  /** An answer read in one go. */
  function Read(raw: seq<byte>): (r: Result<Response, Failure>)
  {
    if |raw| > MAX_BODY then Err(TooLarge)
    else
      match ReadOn(InHead(0), raw)
      case Err(e) => Err(e)
      case Ok(p) => Ended(p, raw)
  }

  // ---- the reader ----

  class Http1Answer {
    var raw: seq<byte>
    var headStart: nat
    var searched: nat
    var head: Option<Head>
    const dechunker: Dechunker
    /** How many places the searches for the end of a head have looked at. */
    var looked: nat

    ghost function State(): (p: Progress)
      reads this, dechunker
    {
      if head.None? then InHead(headStart) else InBody(head.value, dechunker.State())
    }

    ghost predicate HeadValid()
      reads this
    {
      && headStart <= searched <= |raw|
      && looked <= searched
      && (head.None? ==> Absent(raw, HEAD_END, headStart, searched))
      && (head.Some? ==> searched <= head.value.bodyStart <= |raw|)
    }

    ghost predicate BodyValid()
      reads this, dechunker
    {
      if head.Some? && head.value.framing == Chunked
      then head.value.bodyStart <= |raw| && dechunker.Valid(raw[head.value.bodyStart..])
      else dechunker.Untouched()
    }

    ghost predicate Valid()
      reads this, dechunker
      ensures Valid() ==> Within(State(), raw)
    {
      HeadValid() && BodyValid()
    }

    constructor ()
      ensures Valid() && fresh(dechunker) && State() == InHead(0) && raw == [] && looked == 0
    {
      raw, headStart, searched, head, looked := [], 0, 0, None, 0;
      dechunker := new Dechunker();
    }

    /** The end of the head being read, looked for from where the last search stopped. */
    method HeadEnd() returns (found: Option<nat>)
      requires HeadValid() && head.None?
      modifies this`looked
      ensures found == Find(raw, HEAD_END, headStart)
      ensures found.Some? ==> headStart <= found.value && found.value + 4 <= |raw| && looked <= found.value + 4
      ensures looked <= |raw|
    {
      var from := if searched >= 3 && searched - 3 > headStart then searched - 3 else headStart;
      ResumedFind(raw, HEAD_END, headStart, searched, from);
      var steps;
      found, steps := Look(raw, HEAD_END, from);
      looked := looked + steps;
    }

    /** The loop over heads. */
    method FindHead() returns (failure: Option<Failure>)
      requires HeadValid() && head.None?
      modifies this
      ensures raw == old(raw) && looked <= |raw|
      ensures
        match ScanHead(old(headStart), raw)
        case Err(e) => failure == Some(e)
        case Ok(InHead(start)) => failure == None && head == None && headStart == start && HeadValid()
        case Ok(InBody(h, _)) => failure == None && head == Some(h) && HeadValid()
    {
      hide ReadHead, At;
      while head.None?
        invariant HeadValid() && raw == old(raw)
        invariant head.None? ==> ScanHead(headStart, raw) == ScanHead(old(headStart), raw)
        invariant head.Some? ==> ScanHead(old(headStart), raw) == Ok(InBody(head.value, START))
        decreases head.None?, |raw| - headStart
      {
        var found := HeadEnd();
        if found.None? {
          searched := |raw|;
          return None;
        }
        var end := found.value;
        var read := ReadHead(raw[headStart..end], end + 4);
        if read.Err? {
          return Some(read.error);
        }
        searched := end + 4;
        if read.value.None? {
          headStart := end + 4;
        } else {
          head := read.value;
        }
      }
      return None;
    }

    /** Takes the next bytes and says whether the answer is whole. Taking them piece by piece comes to
        reading on from where the last piece ended, and no place is looked at twice. */
    method Push(bytes: seq<byte>) returns (r: Result<bool, Failure>)
      requires Valid()
      modifies this, dechunker
      ensures raw == old(raw) + bytes
      ensures |raw| > MAX_BODY ==> r == Err(TooLarge)
      ensures |raw| <= MAX_BODY ==>
        match ReadOn(old(State()), raw)
        case Err(e) => r == Err(e)
        case Ok(p) => r == Ok(Whole(p, raw)) && State() == p && Valid()
      ensures |raw| <= MAX_BODY ==> looked + dechunker.looked <= |raw|
    {
      ghost var before := raw;
      if head.None? {
        AbsentOfPrefix(raw, bytes, HEAD_END, headStart, searched);
      }
      raw := raw + bytes;
      if |raw| > MAX_BODY {
        return Err(TooLarge);
      }
      ghost var had := if head.Some? then before[head.value.bodyStart..] else [];
      if head.None? {
        var failure := FindHead();
        if failure.Some? {
          return Err(failure.value);
        }
        if head.None? {
          return Ok(false);
        }
      }
      var body := raw[head.value.bodyStart..];
      match head.value.framing {
        case Length(n) => return Ok(|body| >= n);
        case Close => return Ok(false);
        case Chunked =>
          var advanced := dechunker.Advance(body, had);
          return if advanced.Ok? then Ok(advanced.value) else Err(BadChunk(advanced.error));
      }
    }

    /** The answer, once the connection has ended. */
    method Finish() returns (r: Result<Response, Failure>)
      requires Valid()
      ensures r == Ended(State(), raw)
    {
      if head.None? {
        return Err(if |raw| == 0 then Empty else TruncatedHead);
      }
      var h := head.value;
      var body := raw[h.bodyStart..];
      match h.framing {
        case Length(n) =>
          if |body| < n {
            return Err(TruncatedBody);
          }
          return Ok(Response(h.status, h.fields, body[..n]));
        case Close => return Ok(Response(h.status, h.fields, body));
        case Chunked =>
          var joined := dechunker.Finish();
          return if joined.Some? then Ok(Response(h.status, h.fields, joined.value)) else Err(TruncatedChunks);
      }
    }
  }

  // ---- segmentation ----

  lemma {:induction false} ScanHeadResumes(start: nat, raw: seq<byte>, more: seq<byte>)
    requires start <= |raw|
    ensures
      match ScanHead(start, raw)
      case Err(e) => ScanHead(start, raw + more) == Err(e)
      case Ok(InBody(head, _)) => ScanHead(start, raw + more) == Ok(InBody(head, START))
      case Ok(InHead(s)) => ScanHead(s, raw + more) == ScanHead(start, raw + more)
    decreases |raw| - start
  {
    hide ReadHead, Find;
    if Find(raw, HEAD_END, start).Some? {
      var end := Find(raw, HEAD_END, start).value;
      FindOfPrefix(raw, more, HEAD_END, start);
      assert (raw + more)[start..end] == raw[start..end];
      if ReadHead(raw[start..end], end + 4) == Ok(None) {
        ScanHeadResumes(end + 4, raw, more);
      }
    }
  }

  lemma ScanBodyResumes(head: Head, cursor: Cursor, raw: seq<byte>, more: seq<byte>)
    requires Within(InBody(head, cursor), raw)
    ensures
      match ScanBody(head, cursor, raw)
      case Err(e) => e == BadChunk(LineTooLong) || ScanBody(head, cursor, raw + more) == Err(e)
      case Ok(p) => ScanBody(p.head, p.cursor, raw + more) == ScanBody(head, cursor, raw + more)
  {
    if head.framing == Chunked {
      var body := raw[head.bodyStart..];
      assert (raw + more)[head.bodyStart..] == body + more;
      ScanResumes(cursor, body, more);
      hide Scan;
    }
  }

  /** Reading on when more has come is reading it all, unless a chunk line was cut too late. */
  lemma ReadResumes(p: Progress, raw: seq<byte>, more: seq<byte>)
    requires Within(p, raw)
    ensures
      match ReadOn(p, raw)
      case Err(e) => e == BadChunk(LineTooLong) || ReadOn(p, raw + more) == Err(e)
      case Ok(q) => ReadOn(q, raw + more) == ReadOn(p, raw + more)
  {
    match p
    case InBody(head, cursor) => ScanBodyResumes(head, cursor, raw, more);
    case InHead(start) =>
      ScanHeadResumes(start, raw, more);
      if ScanHead(start, raw).Ok? && ScanHead(start, raw).value.InBody? {
        var head := ScanHead(start, raw).value.head;
        ScanBodyResumes(head, START, raw, more);
        hide ScanHead, ScanBody;
      }
  }

  /** A whole answer is the same answer behind anything. */
  lemma WholeIsFinal(p: Progress, raw: seq<byte>, more: seq<byte>)
    requires Within(p, raw) && ReadOn(p, raw) == Ok(p) && Whole(p, raw)
    ensures ReadOn(p, raw + more) == Ok(p) && Ended(p, raw + more) == Ended(p, raw)
  {
    var body := raw[p.head.bodyStart..];
    assert (raw + more)[p.head.bodyStart..] == body + more;
    match p.head.framing
    case Length(n) => assert (body + more)[..n] == body[..n];
    case Chunked =>
    case Close =>
  }

  function Flatten(pieces: seq<seq<byte>>): (b: seq<byte>)
  {
    if pieces == [] then [] else pieces[0] + Flatten(pieces[1..])
  }

  /** The reading loop: a push for each piece until the answer is whole or the connection ends. */
  function Exchange(p: Progress, raw: seq<byte>, pieces: seq<seq<byte>>): (r: Result<Response, Failure>)
    requires Within(p, raw)
    decreases |pieces|
  {
    if pieces == [] then Ended(p, raw)
    else
      var now := raw + pieces[0];
      if |now| > MAX_BODY then Err(TooLarge)
      else
        match ReadOn(p, now)
        case Err(e) => Err(e)
        case Ok(q) => if Whole(q, now) then Ended(q, now) else Exchange(q, now, pieces[1..])
  }

  /** The reading loop over a reader: what it returns is `Exchange`. */
  method Receive(pieces: seq<seq<byte>>) returns (r: Result<Response, Failure>)
    ensures r == Exchange(InHead(0), [], pieces)
  {
    var answer := new Http1Answer();
    var i := 0;
    while i < |pieces|
      invariant 0 <= i <= |pieces| && answer.Valid()
      invariant fresh(answer) && fresh(answer.dechunker)
      invariant Exchange(answer.State(), answer.raw, pieces[i..]) == Exchange(InHead(0), [], pieces)
    {
      hide ReadOn, Whole, Ended;
      assert pieces[i..][0] == pieces[i] && pieces[i..][1..] == pieces[i + 1..];
      var pushed := answer.Push(pieces[i]);
      if pushed.Err? {
        return Err(pushed.error);
      }
      if pushed.value {
        break;
      }
      i := i + 1;
    }
    r := answer.Finish();
  }

  /** From wherever it is, the loop gives what reading all the rest at once gives, unless it turns down a
      chunk line that was cut past the limit. */
  lemma {:induction false} ExchangeResumes(p: Progress, raw: seq<byte>, pieces: seq<seq<byte>>)
    requires Within(p, raw) && ReadOn(p, raw) == Ok(p) && |raw + Flatten(pieces)| <= MAX_BODY
    ensures
      || Exchange(p, raw, pieces) == Err(BadChunk(LineTooLong))
      || Exchange(p, raw, pieces) ==
           match ReadOn(p, raw + Flatten(pieces))
           case Err(e) => Err(e)
           case Ok(q) => Ended(q, raw + Flatten(pieces))
    decreases |pieces|
  {
    hide ReadOn, Whole, Ended;
    if pieces == [] {
      assert raw + Flatten(pieces) == raw;
    } else {
      var now, more := raw + pieces[0], Flatten(pieces[1..]);
      assert raw + Flatten(pieces) == now + more;
      ReadResumes(p, now, more);
      if ReadOn(p, now).Ok? {
        var q := ReadOn(p, now).value;
        ReadResumes(p, now, []);
        assert now + [] == now;
        if Whole(q, now) {
          WholeIsFinal(q, now, more);
        } else {
          ExchangeResumes(q, now, pieces[1..]);
        }
      }
    }
  }

  /** The answer is not chunked, or no line of its body is at the limit. */
  predicate ShortAnswer(raw: seq<byte>) {
    match ScanHead(0, raw)
    case Ok(InBody(head, _)) => head.framing == Chunked ==> ShortLines(START, raw[head.bodyStart..])
    case _ => true
  }

  lemma StartIsFixed()
    ensures ReadOn(InHead(0), []) == Ok(InHead(0))
  {
  }

  /** The answer was turned down for a chunk line too long. */
  predicate TooLong<T>(r: Result<T, Failure>) {
    r.Err? && r.error == BadChunk(LineTooLong)
  }

  /** No cut of an answer with short lines is refused for a line too long. */
  lemma ShortAnswerCuts(raw: seq<byte>, n: nat)
    requires !TooLong(ReadOn(InHead(0), raw)) && ShortAnswer(raw) && n <= |raw|
    ensures !TooLong(ReadOn(InHead(0), raw[..n]))
  {
    hide ScanHead, ShortLines, Scan;
    var part, rest := raw[..n], raw[n..];
    assert part + rest == raw;
    ScanHeadResumes(0, part, rest);
    if ScanHead(0, part).Ok? && ScanHead(0, part).value.InBody? && ScanHead(0, part).value.head.framing == Chunked {
      var k := ScanHead(0, part).value.head.bodyStart;
      assert part[k..] == raw[k..][..n - k];
      ShortLinesNeverTooLong(START, raw[k..], n - k);
    } else {
      HeadIsNotTooLong(0, part);
    }
  }

  lemma {:induction false} HeadIsNotTooLong(start: nat, raw: seq<byte>)
    requires start <= |raw|
    ensures !TooLong(ScanHead(start, raw))
    decreases |raw| - start
  {
    hide Find, Lines, DecodeLossy, Fields, Status;
    if Find(raw, HEAD_END, start).Some? {
      HeadIsNotTooLong(Find(raw, HEAD_END, start).value + 4, raw);
    }
  }

  /** A chunk line at the limit is refused at some cut. */
  lemma LongAnswerCut(raw: seq<byte>) returns (n: nat)
    requires !ShortAnswer(raw)
    ensures n <= |raw| && ReadOn(InHead(0), raw[..n]) == Err(BadChunk(LineTooLong))
  {
    var head := ScanHead(0, raw).value.head;
    var k := head.bodyStart;
    var m := LongLineFails(START, raw[k..]);
    n := k + m;
    var part := raw[..n];
    assert part[k..] == raw[k..][..m];
    HeadWithin(0, raw, n);
  }

  /** A head is read as soon as its last byte is there. */
  lemma {:induction false} HeadWithin(start: nat, raw: seq<byte>, n: nat)
    requires start <= |raw| && ScanHead(start, raw).Ok? && ScanHead(start, raw).value.InBody?
    requires ScanHead(start, raw).value.head.bodyStart <= n <= |raw|
    ensures start <= n && ScanHead(start, raw[..n]) == ScanHead(start, raw)
    decreases |raw| - start
  {
    hide ReadHead, Find;
    var part := raw[..n];
    var end := Find(raw, HEAD_END, start).value;
    BodyAfter(end + 4, raw);
    FindWithin(raw, HEAD_END, start, n);
    assert part[start..end] == raw[start..end];
    if ReadHead(raw[start..end], end + 4) == Ok(None) {
      HeadWithin(end + 4, raw, n);
    }
  }

  lemma {:induction false} BodyAfter(start: nat, raw: seq<byte>)
    requires start <= |raw|
    ensures ScanHead(start, raw).Ok? && ScanHead(start, raw).value.InBody? ==>
      start + 4 <= ScanHead(start, raw).value.head.bodyStart
    decreases |raw| - start
  {
    hide ReadHead;
    if Find(raw, HEAD_END, start).Some? {
      var end := Find(raw, HEAD_END, start).value;
      BodyAfter(end + 4, raw);
    }
  }

  /** However the bytes are split, the loop gives what reading them in one piece gives, or turns down a
      chunk line for its length; and that only when one of them is at the limit. */
  lemma ExchangeIsRead(pieces: seq<seq<byte>>)
    requires |Flatten(pieces)| <= MAX_BODY
    ensures
      var raw, r := Flatten(pieces), Exchange(InHead(0), [], pieces);
      r == Read(raw) || (TooLong(r) && !ShortAnswer(raw))
  {
    hide ReadOn, Ended, ShortAnswer;
    var raw := Flatten(pieces);
    StartIsFixed();
    assert [] + raw == raw;
    ExchangeResumes(InHead(0), [], pieces);
    if ShortAnswer(raw) && !TooLong(ReadOn(InHead(0), raw)) {
      NeverTooLong(InHead(0), [], pieces, raw);
    }
  }

  /** Whatever the answer, well formed or not: how it is split over reads does not matter exactly when its
      chunk lines are short, or when it is turned down for a line too long in one piece as well. */
  lemma SplitsDoNotMatter(raw: seq<byte>)
    requires |raw| <= MAX_BODY
    ensures ShortAnswer(raw) || TooLong(Read(raw)) <==>
      forall pieces :: Flatten(pieces) == raw ==> Exchange(InHead(0), [], pieces) == Read(raw)
  {
    if ShortAnswer(raw) || TooLong(Read(raw)) {
      forall pieces | Flatten(pieces) == raw ensures Exchange(InHead(0), [], pieces) == Read(raw) {
        hide ReadOn, Ended, ShortAnswer, Exchange, Read;
        ExchangeIsRead(pieces);
      }
    } else {
      hide ReadOn, Ended, ShortAnswer, Read;
      var n := LongAnswerCut(raw);
      var pieces := [raw[..n], raw[n..]];
      TwoPieces(raw, n);
      assert [] + pieces[0] == raw[..n];
      assert TooLong(Exchange(InHead(0), [], pieces));
    }
  }

  lemma TwoPieces(raw: seq<byte>, n: nat)
    requires n <= |raw|
    ensures Flatten([raw[..n], raw[n..]]) == raw
  {
    var pieces := [raw[..n], raw[n..]];
    assert Flatten(pieces[1..]) == raw[n..] + [];
  }

  lemma {:induction false} NeverTooLong(p: Progress, raw: seq<byte>, pieces: seq<seq<byte>>, all: seq<byte>)
    requires !TooLong(ReadOn(InHead(0), all)) && ShortAnswer(all) && raw + Flatten(pieces) == all
    requires ReadOn(InHead(0), raw) == Ok(p)
    ensures !TooLong(Exchange(p, raw, pieces))
    decreases |pieces|
  {
    hide ReadOn, Whole, ShortAnswer, Ended;
    if pieces != [] {
      var now := raw + pieces[0];
      assert now + Flatten(pieces[1..]) == all;
      assert all[..|now|] == now;
      ShortAnswerCuts(all, |now|);
      ReadResumes(InHead(0), raw, pieces[0]);
      if ReadOn(p, now).Ok? {
        var q := ReadOn(p, now).value;
        if !Whole(q, now) {
          NeverTooLong(q, now, pieces[1..], all);
        } else {
          EndedIsNotTooLong(q, now);
        }
      }
    } else {
      EndedIsNotTooLong(p, raw);
    }
  }

  lemma EndedIsNotTooLong(p: Progress, raw: seq<byte>)
    requires Within(p, raw)
    ensures !TooLong(Ended(p, raw))
  {
  }

  // ---- whole answers ----

  /** A head that its own end cannot be mistaken in. */
  predicate OneHead(h: seq<byte>) {
    Find(h + HEAD_END, HEAD_END, 0) == Some(|h|)
  }

  function EncodeHeads(hs: seq<seq<byte>>): (b: seq<byte>)
  {
    if hs == [] then [] else (hs[0] + HEAD_END) + EncodeHeads(hs[1..])
  }

  lemma HeadAhead(raw: seq<byte>, start: nat, h: seq<byte>, rest: seq<byte>)
    requires OneHead(h) && Ahead(raw, start, h + HEAD_END, rest)
    ensures Find(raw, HEAD_END, start) == Some(start + |h|)
    ensures start + |h| + 4 <= |raw| && raw[start..start + |h|] == h && raw[start + |h| + 4..] == rest
  {
    hide Find;
    var tail := raw[start..];
    FindOfPrefix(h + HEAD_END, rest, HEAD_END, 0);
    var end := start + |h|;
    assert raw[start..end] == tail[..|h|];
    assert raw[end + 4..] == tail[|h| + 4..];
    forall i: nat | start <= i <= end ensures At(raw, HEAD_END, i) <==> At(tail, HEAD_END, i - start) {
      AtOfSuffix(raw, HEAD_END, start, i);
    }
    FindIs(raw, HEAD_END, start, end);
  }

  /** Interim answers are passed over, however many there are. */
  lemma {:induction false} InterimsArePassed(raw: seq<byte>, start: nat, hs: seq<seq<byte>>, rest: seq<byte>)
    requires forall i :: 0 <= i < |hs| ==> OneHead(hs[i]) && ReadHead(hs[i], 0) == Ok(None)
    requires Ahead(raw, start, EncodeHeads(hs), rest)
    ensures
      var next := start + |EncodeHeads(hs)|;
      next <= |raw| && raw[next..] == rest && ScanHead(start, raw) == ScanHead(next, raw)
    decreases |hs|
  {
    hide ReadHead, Find, OneHead, ScanHead;
    if hs != [] {
      var h, more := hs[0], EncodeHeads(hs[1..]) + rest;
      assert EncodeHeads(hs) + rest == (h + HEAD_END) + more;
      HeadAhead(raw, start, h, more);
      InterimStep(raw, start, h);
      InterimsArePassed(raw, start + |h| + 4, hs[1..], rest);
    }
  }

  lemma InterimStep(raw: seq<byte>, start: nat, h: seq<byte>)
    requires start + |h| + 4 <= |raw| && raw[start..start + |h|] == h
    requires Find(raw, HEAD_END, start) == Some(start + |h|) && ReadHead(h, 0) == Ok(None)
    ensures ScanHead(start, raw) == ScanHead(start + |h| + 4, raw)
  {
    hide Find, Lines, DecodeLossy, Fields, FramingOf, Status;
  }

  lemma HeadIsRead(interims: seq<seq<byte>>, h: seq<byte>, rest: seq<byte>)
    requires forall i :: 0 <= i < |interims| ==> OneHead(interims[i]) && ReadHead(interims[i], 0) == Ok(None)
    requires OneHead(h) && ReadHead(h, 0).Ok? && ReadHead(h, 0).value.Some?
    ensures
      var raw := EncodeHeads(interims) + (h + HEAD_END + rest);
      var k := |raw| - |rest|;
      ScanHead(0, raw) == Ok(InBody(ReadHead(h, 0).value.value.(bodyStart := k), START)) && raw[k..] == rest
  {
    hide Find, OneHead, ScanHead, ReadHead;
    var raw := EncodeHeads(interims) + (h + HEAD_END + rest);
    assert raw[0..] == raw;
    InterimsArePassed(raw, 0, interims, h + HEAD_END + rest);
    var start := |EncodeHeads(interims)|;
    HeadAhead(raw, start, h, rest);
    FinalHead(raw, start, h);
  }

  lemma FinalHead(raw: seq<byte>, start: nat, h: seq<byte>)
    requires start + |h| + 4 <= |raw| && raw[start..start + |h|] == h
    requires Find(raw, HEAD_END, start) == Some(start + |h|)
    requires ReadHead(h, 0).Ok? && ReadHead(h, 0).value.Some?
    ensures ScanHead(start, raw) == Ok(InBody(ReadHead(h, 0).value.value.(bodyStart := start + |h| + 4), START))
  {
    hide Find, Lines, DecodeLossy, Fields, FramingOf, Status;
  }

  /** Behind a head that announces a length the body is that long. */
  lemma LengthAnswer(interims: seq<seq<byte>>, h: seq<byte>, body: seq<byte>, after: seq<byte>)
    requires forall i :: 0 <= i < |interims| ==> OneHead(interims[i]) && ReadHead(interims[i], 0) == Ok(None)
    requires OneHead(h) && ReadHead(h, 0).Ok? && ReadHead(h, 0).value.Some?
    requires ReadHead(h, 0).value.value.framing == Length(|body|)
    requires |EncodeHeads(interims) + (h + HEAD_END + (body + after))| <= MAX_BODY
    ensures
      var head := ReadHead(h, 0).value.value;
      Read(EncodeHeads(interims) + (h + HEAD_END + (body + after))) == Ok(Response(head.status, head.fields, body))
  {
    hide ReadHead, ScanHead, OneHead, EncodeHeads, Read;
    HeadIsRead(interims, h, body + after);
    var raw := EncodeHeads(interims) + (h + HEAD_END + (body + after));
    BodyOfLength(raw, ScanHead(0, raw).value.head, body, after);
  }

  lemma BodyOfLength(raw: seq<byte>, head: Head, body: seq<byte>, after: seq<byte>)
    requires |raw| <= MAX_BODY && head.bodyStart <= |raw|
    requires ScanHead(0, raw) == Ok(InBody(head, START))
    requires head.framing == Length(|body|) && raw[head.bodyStart..] == body + after
    ensures Read(raw) == Ok(Response(head.status, head.fields, body))
  {
    hide ScanHead;
    assert (body + after)[..|body|] == body;
  }

  lemma ChunkedAnswer(interims: seq<seq<byte>>, h: seq<byte>, chunks: seq<Chunk>, last: seq<byte>,
                      trailer: seq<seq<byte>>, after: seq<byte>)
    requires forall i :: 0 <= i < |interims| ==> OneHead(interims[i]) && ReadHead(interims[i], 0) == Ok(None)
    requires OneHead(h) && ReadHead(h, 0).Ok? && ReadHead(h, 0).value.Some?
    requires ReadHead(h, 0).value.value.framing == Chunked
    requires forall i :: 0 <= i < |chunks| ==> Legal(chunks[i])
    requires OneLine(last) && SizeOf(last) == Some(0)
    requires forall i :: 0 <= i < |trailer| ==> OneLine(trailer[i]) && trailer[i] != []
    requires |EncodeHeads(interims) + (h + HEAD_END + (EncodeBody(chunks, last, trailer) + after))| <= MAX_BODY
    ensures
      var head := ReadHead(h, 0).value.value;
      Read(EncodeHeads(interims) + (h + HEAD_END + (EncodeBody(chunks, last, trailer) + after))) ==
        Ok(Response(head.status, head.fields, Joined(chunks)))
  {
    var body := EncodeBody(chunks, last, trailer);
    hide ReadHead, ScanHead, OneHead, Legal, OneLine, SizeOf, EncodeBody, Scan;
    HeadIsRead(interims, h, body + after);
    ChunkedRoundTrip(chunks, last, trailer, after);
  }

  /** Behind a head that announces no end the body is all there is. */
  lemma ClosingAnswer(interims: seq<seq<byte>>, h: seq<byte>, body: seq<byte>)
    requires forall i :: 0 <= i < |interims| ==> OneHead(interims[i]) && ReadHead(interims[i], 0) == Ok(None)
    requires OneHead(h) && ReadHead(h, 0).Ok? && ReadHead(h, 0).value.Some?
    requires ReadHead(h, 0).value.value.framing == Close
    requires |EncodeHeads(interims) + (h + HEAD_END + body)| <= MAX_BODY
    ensures
      var head := ReadHead(h, 0).value.value;
      Read(EncodeHeads(interims) + (h + HEAD_END + body)) == Ok(Response(head.status, head.fields, body))
  {
    hide ReadHead, ScanHead, OneHead, EncodeHeads, Read;
    HeadIsRead(interims, h, body);
    var raw := EncodeHeads(interims) + (h + HEAD_END + body);
    BodyToTheEnd(raw, ScanHead(0, raw).value.head, body);
  }

  lemma BodyToTheEnd(raw: seq<byte>, head: Head, body: seq<byte>)
    requires |raw| <= MAX_BODY && head.bodyStart <= |raw|
    requires ScanHead(0, raw) == Ok(InBody(head, START))
    requires head.framing == Close && raw[head.bodyStart..] == body
    ensures Read(raw) == Ok(Response(head.status, head.fields, body))
  {
    hide ScanHead;
  }

  /** A head that is cut anywhere is not yet there. */
  lemma HeadIsCut(interims: seq<seq<byte>>, h: seq<byte>, rest: seq<byte>, k: nat)
    requires forall i :: 0 <= i < |interims| ==> OneHead(interims[i]) && ReadHead(interims[i], 0) == Ok(None)
    requires OneHead(h) && ReadHead(h, 0).Ok? && ReadHead(h, 0).value.Some?
    requires k < |EncodeHeads(interims) + (h + HEAD_END)|
    ensures
      var part := (EncodeHeads(interims) + (h + HEAD_END + rest))[..k];
      ScanHead(0, part).Ok? && ScanHead(0, part).value.InHead?
  {
    hide OneHead, ScanHead, ReadHead, EncodeHeads;
    var raw := EncodeHeads(interims) + (h + HEAD_END + rest);
    HeadIsRead(interims, h, rest);
    assert raw[..k] + raw[k..] == raw;
    ScanHeadResumes(0, raw[..k], raw[k..]);
  }

  /** The answer is whole. */
  predicate IsWhole(raw: seq<byte>) {
    ReadOn(InHead(0), raw).Ok? && Whole(ReadOn(InHead(0), raw).value, raw)
  }

  lemma CutInHead(raw: seq<byte>)
    requires |raw| <= MAX_BODY && ScanHead(0, raw).Ok? && ScanHead(0, raw).value.InHead?
    ensures !IsWhole(raw) && Read(raw) == Err(if raw == [] then Empty else TruncatedHead)
    ensures ReadOn(InHead(0), raw).Ok?
  {
    hide ScanHead;
  }

  lemma CutInBody(raw: seq<byte>, head: Head)
    requires |raw| <= MAX_BODY && head.bodyStart <= |raw| && ScanHead(0, raw) == Ok(InBody(head, START))
    ensures head.framing.Length? ==>
      && (IsWhole(raw) <==> |raw| >= head.bodyStart + head.framing.n)
      && (!IsWhole(raw) ==> Read(raw) == Err(TruncatedBody))
    ensures head.framing == Close ==> !IsWhole(raw)
    ensures head.framing != Chunked ==> ReadOn(InHead(0), raw).Ok?
    ensures head.framing == Chunked ==>
      match Scan(START, raw[head.bodyStart..])
      case Err(e) => !IsWhole(raw) && Read(raw) == Err(BadChunk(e))
      case Ok(c) => (IsWhole(raw) <==> c.done) && (!c.done ==> Read(raw) == Err(TruncatedChunks))
  {
    hide ScanHead, Scan;
  }

  /** Bytes that make no whole answer within the limit are refused once they pass it, however they are split. */
  lemma {:induction false} NeverWhole(p: Progress, got: seq<byte>, pieces: seq<seq<byte>>)
    requires |got| <= MAX_BODY < |got + Flatten(pieces)| && ReadOn(InHead(0), got) == Ok(p)
    requires forall k: nat :: |got| <= k <= MAX_BODY ==>
      var part := (got + Flatten(pieces))[..k]; ReadOn(InHead(0), part).Ok? && !IsWhole(part)
    ensures Exchange(p, got, pieces) == Err(TooLarge)
    decreases |pieces|
  {
    hide ReadOn, Whole, Ended;
    if pieces != [] {
      var now := got + pieces[0];
      assert now + Flatten(pieces[1..]) == got + Flatten(pieces);
      if |now| <= MAX_BODY {
        assert (got + Flatten(pieces))[..|now|] == now;
        ReadResumes(InHead(0), got, pieces[0]);
        NeverWhole(ReadOn(InHead(0), now).value, now, pieces[1..]);
      }
    }
  }

  /** Reading a whole is pushing it in one piece, whatever it is. */
  lemma ReadIsOnePush(raw: seq<byte>)
    ensures Read(raw) == Exchange(InHead(0), [], [raw])
  {
    hide ReadOn, Ended, Whole;
    assert [] + raw == raw && [raw][1..] == [];
  }
}
