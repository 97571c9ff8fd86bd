/** A chunked body (section 7.1 of RFC 9112), joined as it comes in. */
module Dechunk {
  import opened Bytes
  import opened Wrappers
  import opened Search
  import opened Text

  const MAX_LINE := 8 * 1024

  datatype Error =
    | ChunkTooLarge
    | NoLineEnd
    | LineTooLong
    | BadSize

  /** How far the body has been read: `at` is where its next piece starts. */
  datatype Cursor = Cursor(at: nat, data: Option<nat>, trailer: bool, done: bool, joined: seq<byte>)

  const START := Cursor(0, None, false, false, [])

  /** The size a chunk-size line announces: hexadecimal, up to a semicolon. */
  function SizeOf(line: seq<byte>): (n: Option<nat>)
  {
    match Decode(line)
    case None => None
    case Some(s) => ParseUnsigned(Trim(UpTo(s, ';')), 16, U64_LIMIT)
  }

  /** What a whole line does: one of the trailer, or a chunk size. */
  function TakeLine(c: Cursor, line: seq<byte>): (r: Result<Cursor, Error>)
  {
    var c' := c.(at := c.at + |line| + 2);
    if c.trailer then Ok(c'.(done := line == []))
    else
      match SizeOf(line)
      case None => Err(BadSize)
      case Some(n) => if n == 0 then Ok(c'.(trailer := true)) else Ok(c'.(data := Some(n)))
  }

  /** One piece of `body` at the cursor: `None` while it has not all come. */
  function Piece(c: Cursor, body: seq<byte>): (r: Result<Option<Cursor>, Error>)
    requires c.at <= |body|
    ensures r.Ok? && r.value.Some? ==> c.at < r.value.value.at <= |body|
  {
    if c.data.Some? then
      var end := c.at + c.data.value + 2;
      if end >= U64_LIMIT then Err(ChunkTooLarge)
      else if |body| < end then Ok(None)
      else if body[end - 2..end] != CRLF then Err(NoLineEnd)
      else Ok(Some(c.(at := end, data := None, joined := c.joined + body[c.at..end - 2])))
    else
      match Find(body, CRLF, c.at)
      case None => if |body| - c.at > MAX_LINE then Err(LineTooLong) else Ok(None)
      case Some(end) =>
        match TakeLine(c, body[c.at..end])
        case Err(e) => Err(e)
        case Ok(c') => Ok(Some(c'))
  }

  /** All of `body` that can be read from the cursor on. */
  function Scan(c: Cursor, body: seq<byte>): (r: Result<Cursor, Error>)
    requires c.at <= |body|
    ensures r.Ok? ==> r.value.at <= |body|
    decreases |body| - c.at
  {
    if c.done then Ok(c)
    else
      match Piece(c, body)
      case Err(e) => Err(e)
      case Ok(None) => Ok(c)
      case Ok(Some(c')) => Scan(c', body)
  }

  // ---- the reader ----

  class Dechunker {
    var at: nat
    var searched: nat
    var data: Option<nat>
    var trailer: bool
    var done: bool
    var joined: seq<byte>
    /** How many places the searches for line ends have looked at. */
    var looked: nat

    function State(): (c: Cursor)
      reads this
    {
      Cursor(at, data, trailer, done, joined)
    }

    /** The body so far is `body`, and no line end stands in what was searched. */
    ghost predicate Valid(body: seq<byte>)
      reads this
    {
      && at <= searched <= |body|
      && (data.Some? ==> searched == at)
      && looked <= searched
      && Absent(body, CRLF, at, searched)
    }

    ghost predicate Untouched()
      reads this
    {
      State() == START && searched == 0 && looked == 0
    }

    constructor ()
      ensures Untouched()
    {
      at, searched, data, trailer, done, joined, looked := 0, 0, None, false, false, [], 0;
    }

    /** The end of the line at `at`, looked for from where the last search stopped. */
    method LineEnd(body: seq<byte>) returns (found: Option<nat>)
      requires Valid(body)
      modifies this`looked
      ensures found == Find(body, CRLF, at)
      ensures found.Some? ==> at <= found.value && found.value + 2 <= |body| && looked <= found.value + 2
      ensures looked <= |body|
    {
      var from := if searched >= 1 && searched - 1 > at then searched - 1 else at;
      ResumedFind(body, CRLF, at, searched, from);
      var steps;
      found, steps := Look(body, CRLF, from);
      looked := looked + steps;
    }

    /** One turn of the loop: whether a piece was there to take. */
    method Take(body: seq<byte>) returns (r: Result<bool, Error>)
      requires Valid(body) && !done
      modifies this
      ensures
        match Piece(old(State()), body)
        case Err(e) => r == Err(e)
        case Ok(None) => r == Ok(false) && State() == old(State())
        case Ok(Some(c)) => r == Ok(true) && State() == c
      ensures r.Ok? ==> Valid(body)
      ensures looked <= |body|
    {
      hide SizeOf, At;
      if data.Some? {
        var end := at + data.value + 2;
        if end >= U64_LIMIT {
          return Err(ChunkTooLarge);
        }
        if |body| < end {
          return Ok(false);
        }
        if body[end - 2..end] != CRLF {
          return Err(NoLineEnd);
        }
        joined := joined + body[at..end - 2];
        at, searched, data := end, end, None;
        return Ok(true);
      }
      var found := LineEnd(body);
      if found.None? {
        if |body| - at > MAX_LINE {
          return Err(LineTooLong);
        }
        searched := |body|;
        return Ok(false);
      }
      var line := body[at..found.value];
      at := found.value + 2;
      searched := at;
      if trailer {
        done := |line| == 0;
        return Ok(true);
      }
      var size := SizeOf(line);
      if size.None? {
        return Err(BadSize);
      }
      if size.value == 0 {
        trailer := true;
      } else {
        data := Some(size.value);
      }
      return Ok(true);
    }

    /** Goes on with `body`, the whole body so far: a search taken up where it stopped comes to the
        same as reading on from the cursor, and looks at no place twice. */
    method Advance(body: seq<byte>, ghost before: seq<byte>) returns (r: Result<bool, Error>)
      requires before <= body && Valid(before)
      modifies this
      ensures Scan(old(State()), body) == if r.Ok? then Ok(State()) else Err(r.error)
      ensures r.Ok? ==> Valid(body) && r.value == done
      ensures looked <= |body|
    {
      AbsentOfPrefix(before, body[|before|..], CRLF, at, searched);
      assert body == before + body[|before|..];
      hide Piece, Absent;
      while !done
        invariant Valid(body)
        invariant Scan(State(), body) == Scan(old(State()), body)
        decreases |body| - at, !done
      {
        r := Take(body);
        if r.Err? || !r.value {
          return;
        }
      }
      return Ok(true);
    }

    method Finish() returns (body: Option<seq<byte>>)
      ensures body == if done then Some(joined) else None
    {
      body := if done then Some(joined) else None;
    }
  }

  // ---- segmentation ----

  /** A piece that has come, and any error but that of a line still open, stands whatever follows. */
  lemma PieceOfPrefix(c: Cursor, body: seq<byte>, more: seq<byte>)
    requires c.at <= |body|
    ensures Piece(c, body).Ok? && Piece(c, body).value.Some? ==> Piece(c, body + more) == Piece(c, body)
    ensures Piece(c, body).Err? && Piece(c, body) != Err(LineTooLong) ==> Piece(c, body + more) == Piece(c, body)
  {
    hide SizeOf;
    if c.data.Some? {
      var end := c.at + c.data.value + 2;
      if end <= |body| {
        assert (body + more)[end - 2..end] == body[end - 2..end];
        assert (body + more)[c.at..end - 2] == body[c.at..end - 2];
      }
    } else if Find(body, CRLF, c.at).Some? {
      FindOfPrefix(body, more, CRLF, c.at);
      var end := Find(body, CRLF, c.at).value;
      assert (body + more)[c.at..end] == body[c.at..end];
    }
  }

  /** Reading part of a body and going on when the rest has come is reading it all at once. */
  lemma {:induction false} ScanResumes(c: Cursor, body: seq<byte>, more: seq<byte>)
    requires c.at <= |body|
    ensures Scan(c, body).Ok? ==> Scan(Scan(c, body).value, body + more) == Scan(c, body + more)
    ensures Scan(c, body).Err? && Scan(c, body) != Err(LineTooLong) ==> Scan(c, body + more) == Scan(c, body)
    decreases |body| - c.at
  {
    PieceOfPrefix(c, body, more);
    var p := Piece(c, body);
    hide Piece;
    if !c.done && p.Ok? && p.value.Some? {
      ScanResumes(p.value.value, body, more);
    }
  }

  /** A whole body is read the same behind anything: what ends it is its own last byte. */
  lemma DoneIsFinal(body: seq<byte>, more: seq<byte>)
    requires Scan(START, body).Ok? && Scan(START, body).value.done
    ensures Scan(START, body + more) == Scan(START, body)
  {
    ScanResumes(START, body, more);
  }

  /** The lines read from the cursor on are all shorter than the limit. */
  predicate ShortLines(c: Cursor, body: seq<byte>)
    requires c.at <= |body|
    decreases |body| - c.at
  {
    if c.done then true
    else
      var end := Find(body, CRLF, c.at);
      && (c.data.None? && end.Some? ==> end.value - c.at < MAX_LINE)
      && match Piece(c, body)
         case Ok(Some(c')) => ShortLines(c', body)
         case _ => true
  }

  lemma {:induction false} ShortLinesNeverTooLong(c: Cursor, body: seq<byte>, n: nat)
    requires c.at <= n <= |body| && Scan(c, body) != Err(LineTooLong) && ShortLines(c, body)
    ensures Scan(c, body[..n]) != Err(LineTooLong)
    decreases |body| - c.at
  {
    var part, rest := body[..n], body[n..];
    assert part + rest == body;
    PieceOfPrefix(c, part, rest);
    if c.done {
    } else if Piece(c, part).Ok? {
      if Piece(c, part).value.Some? {
        ShortLinesNeverTooLong(Piece(c, part).value.value, body, n);
      }
    } else if Piece(c, part) == Err(LineTooLong) {
      var end := Find(body, CRLF, c.at);
      assert end.None? ==> |body| - c.at > MAX_LINE;
      assert end.Some? && end.value + 2 <= n ==> !At(part, CRLF, end.value) && At(body, CRLF, end.value);
      if end.Some? && end.value + 2 <= n { AtOfPrefix(part, rest, CRLF, end.value); }
    }
  }

  /** A piece is there as soon as its last byte is. */
  lemma PieceWithin(c: Cursor, body: seq<byte>, n: nat)
    requires c.at <= |body| && Piece(c, body).Ok? && Piece(c, body).value.Some?
    requires Piece(c, body).value.value.at <= n <= |body|
    ensures Piece(c, body[..n]) == Piece(c, body)
  {
    var part, rest := body[..n], body[n..];
    assert part + rest == body;
    if c.data.None? {
      FindWithin(body, CRLF, c.at, n);
    }
    PieceOfPrefix(c, part, rest);
    hide SizeOf, TakeLine;
  }

  lemma LongLineHere(c: Cursor, body: seq<byte>, end: nat)
    requires c.at <= |body| && c.data.None? && !c.done
    requires Find(body, CRLF, c.at) == Some(end) && end - c.at >= MAX_LINE
    ensures Scan(c, body[..end + 1]) == Err(LineTooLong)
  {
    NoEndYet(body, c.at, end);
    hide TakeLine, Find;
  }

  lemma NoEndYet(body: seq<byte>, at: nat, end: nat)
    requires Find(body, CRLF, at) == Some(end)
    ensures end + 2 <= |body| && Find(body[..end + 1], CRLF, at).None?
  {
    var part, rest := body[..end + 1], body[end + 1..];
    assert part + rest == body;
    if Find(part, CRLF, at).Some? {
      FindOfPrefix(part, rest, CRLF, at);
      assert false;
    }
  }

  /** Somewhere in a line at the limit or over it, a cut is refused. */
  lemma {:induction false} LongLineFails(c: Cursor, body: seq<byte>) returns (n: nat)
    requires c.at <= |body| && !ShortLines(c, body)
    ensures c.at <= n <= |body| && Scan(c, body[..n]) == Err(LineTooLong)
    decreases |body| - c.at
  {
    hide Piece;
    var end := Find(body, CRLF, c.at);
    if c.data.None? && end.Some? && end.value - c.at >= MAX_LINE {
      n := end.value + 1;
      LongLineHere(c, body, end.value);
    } else {
      var c' := Piece(c, body).value.value;
      n := LongLineFails(c', body);
      PieceWithin(c, body, n);
    }
  }

  /** Whatever the body, well formed or not: a cut of it is refused for a line too long unless its lines are
      shorter than the limit and what is left open at its end is too; and a body that is read well is read
      well up to any cut exactly when its lines are shorter than the limit. */
  lemma CutsDoNotMatter(body: seq<byte>)
    ensures ShortLines(START, body) && Scan(START, body) != Err(LineTooLong) <==>
      forall n: nat :: n <= |body| ==> Scan(START, body[..n]) != Err(LineTooLong)
    ensures Scan(START, body).Ok? ==>
      (ShortLines(START, body) <==> forall n: nat :: n <= |body| ==> Scan(START, body[..n]).Ok?)
  {
    hide Scan, ShortLines;
    assert body[..|body|] == body;
    if !ShortLines(START, body) {
      var n := LongLineFails(START, body);
      assert Scan(START, body[..n]) == Err(LineTooLong);
    } else if Scan(START, body) != Err(LineTooLong) {
      forall n: nat | n <= |body|
        ensures Scan(START, body[..n]) != Err(LineTooLong)
        ensures Scan(START, body).Ok? ==> Scan(START, body[..n]).Ok?
      {
        ShortLinesNeverTooLong(START, body, n);
        ScanResumes(START, body[..n], body[n..]);
        assert body[..n] + body[n..] == body;
      }
    }
  }

  // ---- whole bodies ----

  /** A chunk: the line that announces its size, whatever else the line says, and its data. */
  datatype Chunk = Chunk(line: seq<byte>, data: seq<byte>)

  predicate OneLine(line: seq<byte>) {
    Absent(line, CRLF, 0, |line|)
  }

  predicate Legal(c: Chunk) {
    OneLine(c.line) && SizeOf(c.line) == Some(|c.data|) && c.data != []
  }

  function EncodeChunks(chunks: seq<Chunk>): (b: seq<byte>)
  {
    if chunks == [] then []
    else chunks[0].line + CRLF + chunks[0].data + CRLF + EncodeChunks(chunks[1..])
  }

  function EncodeLines(lines: seq<seq<byte>>): (b: seq<byte>)
  {
    if lines == [] then [] else lines[0] + CRLF + EncodeLines(lines[1..])
  }

  /** A chunked body: its chunks, the last line of size zero, the trailer and an empty line. */
  function EncodeBody(chunks: seq<Chunk>, last: seq<byte>, trailer: seq<seq<byte>>): (b: seq<byte>)
  {
    EncodeChunks(chunks) + (last + CRLF) + EncodeLines(trailer) + CRLF
  }

  function Joined(chunks: seq<Chunk>): (b: seq<byte>)
  {
    if chunks == [] then [] else chunks[0].data + Joined(chunks[1..])
  }

  /** From `at` on, `body` is `piece` and then `rest`. */
  predicate Ahead(body: seq<byte>, at: nat, piece: seq<byte>, rest: seq<byte>) {
    at <= |body| && body[at..] == piece + rest
  }

  lemma AheadLine(body: seq<byte>, at: nat, line: seq<byte>, rest: seq<byte>)
    requires Ahead(body, at, line + CRLF, rest)
    ensures at + |line| + 2 <= |body|
    ensures body[at..at + |line|] == line
    ensures body[at + |line|..at + |line| + 2] == CRLF
    ensures body[at + |line| + 2..] == rest
  {
    var tail := body[at..];
    assert tail == line + (CRLF + rest);
    assert body[at..at + |line|] == tail[..|line|];
    assert body[at + |line|..at + |line| + 2] == tail[|line|..|line| + 2];
    assert body[at + |line| + 2..] == tail[|line| + 2..];
  }

  lemma FindLine(body: seq<byte>, at: nat, line: seq<byte>)
    requires OneLine(line) && at + |line| + 2 <= |body|
    requires body[at..at + |line|] == line
    requires body[at + |line|..at + |line| + 2] == CRLF
    ensures Find(body, CRLF, at) == Some(at + |line|)
  {
    var end := at + |line|;
    forall i: nat | at <= i < end ensures !At(body, CRLF, i) {
      NoLineEndAt(body, at, line, i - at);
    }
    FindIs(body, CRLF, at, end);
  }

  lemma PartOfPart(s: seq<byte>, from: nat, to: nat, j: nat)
    requires from <= to <= |s| && j + 2 <= to - from
    ensures s[from..to][j..j + 2] == s[from + j..from + j + 2]
  {
    assert s[from..to][j] == s[from + j] && s[from..to][j + 1] == s[from + j + 1];
  }

  lemma NoLineEndAt(body: seq<byte>, at: nat, line: seq<byte>, j: nat)
    requires OneLine(line) && at + |line| + 2 <= |body| && j < |line|
    requires body[at..at + |line|] == line
    requires body[at + |line|..at + |line| + 2] == CRLF
    ensures !At(body, CRLF, at + j)
  {
    if j + 2 <= |line| {
      assert !At(line, CRLF, j);
      PartOfPart(body, at, at + |line|, j);
    } else {
      var end, pair := at + |line|, body[at + j..at + j + 2];
      assert body[end] == body[end..end + 2][0] == CRLF[0] == 13;
      assert pair[1] == body[end] && CRLF[1] == 10;
      assert pair != CRLF;
    }
  }

  lemma ScanLine(c: Cursor, body: seq<byte>, line: seq<byte>, rest: seq<byte>)
    requires c.data.None? && !c.done && OneLine(line)
    requires Ahead(body, c.at, line + CRLF, rest) && TakeLine(c, line).Ok?
    ensures
      var c' := TakeLine(c, line).value;
      c'.at <= |body| && body[c'.at..] == rest && Scan(c, body) == Scan(c', body)
  {
    hide Scan, Find, Piece, TakeLine, OneLine;
    AheadLine(body, c.at, line, rest);
    FindLine(body, c.at, line);
    PieceLine(c, body, line);
    ScanStep(c, body);
  }

  lemma PieceLine(c: Cursor, body: seq<byte>, line: seq<byte>)
    requires c.data.None? && c.at + |line| + 2 <= |body|
    requires Find(body, CRLF, c.at) == Some(c.at + |line|)
    requires body[c.at..c.at + |line|] == line && TakeLine(c, line).Ok?
    ensures TakeLine(c, line).value.at == c.at + |line| + 2
    ensures Piece(c, body) == Ok(Some(TakeLine(c, line).value))
  {
    hide SizeOf;
  }

  lemma ScanStep(c: Cursor, body: seq<byte>)
    requires c.at <= |body| && !c.done && Piece(c, body).Ok? && Piece(c, body).value.Some?
    ensures Scan(c, body) == Scan(Piece(c, body).value.value, body)
  {
  }

  lemma ScanDone(c: Cursor, body: seq<byte>)
    requires c.at <= |body| && c.done
    ensures Scan(c, body) == Ok(c)
  {
  }

  lemma ScanData(c: Cursor, body: seq<byte>, data: seq<byte>, rest: seq<byte>)
    requires c.data == Some(|data|) && !c.done && |body| < U64_LIMIT
    requires Ahead(body, c.at, data + CRLF, rest)
    ensures
      var c' := c.(at := c.at + |data| + 2, data := None, joined := c.joined + data);
      c'.at <= |body| && body[c'.at..] == rest && Scan(c, body) == Scan(c', body)
  {
    AheadLine(body, c.at, data, rest);
    PieceData(c, body, data);
    hide Ahead, Piece, Scan;
    ScanStep(c, body);
  }

  lemma PieceData(c: Cursor, body: seq<byte>, data: seq<byte>)
    requires c.data == Some(|data|) && c.at + |data| + 2 <= |body| < U64_LIMIT
    requires body[c.at..c.at + |data|] == data && body[c.at + |data|..c.at + |data| + 2] == CRLF
    ensures Piece(c, body) == Ok(Some(c.(at := c.at + |data| + 2, data := None, joined := c.joined + data)))
  {
  }

  lemma ChunkShape(line: seq<byte>, data: seq<byte>, more: seq<byte>, rest: seq<byte>)
    ensures (line + CRLF + data + CRLF + more) + rest == (line + CRLF) + ((data + CRLF) + (more + rest))
  {
  }

  /** Reading the chunks joins their data, wherever they stand. */
  lemma {:induction false} ScanChunks(c: Cursor, body: seq<byte>, chunks: seq<Chunk>, rest: seq<byte>)
    requires c.data.None? && !c.done && !c.trailer && |body| < U64_LIMIT
    requires forall i :: 0 <= i < |chunks| ==> Legal(chunks[i])
    requires Ahead(body, c.at, EncodeChunks(chunks), rest)
    ensures
      var c' := c.(at := c.at + |EncodeChunks(chunks)|, joined := c.joined + Joined(chunks));
      c'.at <= |body| && body[c'.at..] == rest && Scan(c, body) == Scan(c', body)
    decreases |chunks|
  {
    hide Scan, SizeOf, OneLine;
    if chunks == [] {
      assert c.joined + Joined(chunks) == c.joined;
    } else {
      var line, data, more := chunks[0].line, chunks[0].data, EncodeChunks(chunks[1..]);
      assert Legal(chunks[0]);
      ChunkShape(line, data, more, rest);
      ScanLine(c, body, line, (data + CRLF) + (more + rest));
      var c1 := c.(at := c.at + |line| + 2, data := Some(|data|));
      ScanData(c1, body, data, more + rest);
      var c2 := c1.(at := c1.at + |data| + 2, data := None, joined := c1.joined + data);
      ScanChunks(c2, body, chunks[1..], rest);
      assert c2.joined + Joined(chunks[1..]) == c.joined + Joined(chunks);
    }
  }

  lemma {:induction false} ScanTrailer(c: Cursor, body: seq<byte>, lines: seq<seq<byte>>, rest: seq<byte>)
    requires c.data.None? && !c.done && c.trailer
    requires forall i :: 0 <= i < |lines| ==> OneLine(lines[i]) && lines[i] != []
    requires Ahead(body, c.at, EncodeLines(lines), rest)
    ensures
      var c' := c.(at := c.at + |EncodeLines(lines)|);
      c'.at <= |body| && body[c'.at..] == rest && Scan(c, body) == Scan(c', body)
    decreases |lines|
  {
    hide Scan, OneLine;
    if lines != [] {
      var line, more := lines[0], EncodeLines(lines[1..]);
      assert EncodeLines(lines) + rest == (line + CRLF) + (more + rest);
      ScanLine(c, body, line, more + rest);
      ScanTrailer(c.(at := c.at + |line| + 2), body, lines[1..], rest);
    }
  }

  /** Every chunked body, with any legal size lines and trailer, is joined into its data; it ends on
      its last byte whatever bytes follow, and no strict first part of it passes for whole. */
  lemma ChunkedRoundTrip(chunks: seq<Chunk>, last: seq<byte>, trailer: seq<seq<byte>>, after: seq<byte>)
    requires forall i :: 0 <= i < |chunks| ==> Legal(chunks[i])
    requires OneLine(last) && SizeOf(last) == Some(0)
    requires forall i :: 0 <= i < |trailer| ==> OneLine(trailer[i]) && trailer[i] != []
    requires |EncodeBody(chunks, last, trailer) + after| < U64_LIMIT
    ensures
      var body := EncodeBody(chunks, last, trailer);
      Scan(START, body + after) == Ok(Cursor(|body|, None, true, true, Joined(chunks)))
    ensures
      var body := EncodeBody(chunks, last, trailer);
      forall n: nat :: n < |body| ==> Scan(START, body[..n]).Err? || !Scan(START, body[..n]).value.done
  {
    hide Scan, EncodeBody, Legal, OneLine, SizeOf, Joined;
    var body := EncodeBody(chunks, last, trailer);
    ScanBody(chunks, last, trailer, after);
    ScanBody(chunks, last, trailer, []);
    assert body + [] == body;
    forall n: nat | n < |body| ensures Scan(START, body[..n]).Err? || !Scan(START, body[..n]).value.done {
      NotDoneBefore(body, n);
    }
  }

  lemma NotDoneBefore(body: seq<byte>, n: nat)
    requires Scan(START, body).Ok? && Scan(START, body).value.at == |body| && n < |body|
    ensures Scan(START, body[..n]).Err? || !Scan(START, body[..n]).value.done
  {
    hide Scan;
    assert body[..n] + body[n..] == body;
    if Scan(START, body[..n]).Ok? && Scan(START, body[..n]).value.done {
      DoneIsFinal(body[..n], body[n..]);
    }
  }

  lemma ScanBody(chunks: seq<Chunk>, last: seq<byte>, trailer: seq<seq<byte>>, after: seq<byte>)
    requires forall i :: 0 <= i < |chunks| ==> Legal(chunks[i])
    requires OneLine(last) && SizeOf(last) == Some(0)
    requires forall i :: 0 <= i < |trailer| ==> OneLine(trailer[i]) && trailer[i] != []
    requires |EncodeBody(chunks, last, trailer) + after| < U64_LIMIT
    ensures
      var body := EncodeBody(chunks, last, trailer);
      Scan(START, body + after) == Ok(Cursor(|body|, None, true, true, Joined(chunks)))
  {
    hide Legal, OneLine, SizeOf, EncodeChunks, EncodeLines, Joined, Scan;
    var cs, ls := EncodeChunks(chunks), EncodeLines(trailer);
    var all := EncodeBody(chunks, last, trailer) + after;
    var r3 := ([] + CRLF) + after;
    var r2 := ls + r3;
    var r1 := (last + CRLF) + r2;
    BodyShape(cs, last + CRLF, ls, after);
    EmptyIsOneLine();
    assert all[0..] == all;
    ScanChunks(START, all, chunks, r1);
    var c1 := START.(at := |cs|, joined := [] + Joined(chunks));
    ScanLine(c1, all, last, r2);
    var c2 := c1.(at := c1.at + |last| + 2, trailer := true);
    ScanTrailer(c2, all, trailer, r3);
    var c3 := c2.(at := c2.at + |ls|);
    ScanLine(c3, all, [], after);
    var c4 := c3.(at := c3.at + 2, done := true);
    ScanDone(c4, all);
    assert [] + Joined(chunks) == Joined(chunks);
  }

  lemma BodyShape(cs: seq<byte>, last: seq<byte>, ls: seq<byte>, after: seq<byte>)
    ensures (cs + last + ls + CRLF) + after == cs + (last + (ls + (([] + CRLF) + after)))
  {
    assert [] + CRLF == CRLF;
  }

  lemma EmptyIsOneLine()
    ensures OneLine([])
  {
  }

  // ---- bodies that are not well formed ----

  /** Behind any chunks, a size line that gives no size is an error. */
  lemma BadSizeIsRefused(chunks: seq<Chunk>, line: seq<byte>, rest: seq<byte>)
    requires forall i :: 0 <= i < |chunks| ==> Legal(chunks[i])
    requires OneLine(line) && SizeOf(line) == None
    requires |EncodeChunks(chunks) + ((line + CRLF) + rest)| < U64_LIMIT
    ensures Scan(START, EncodeChunks(chunks) + ((line + CRLF) + rest)) == Err(BadSize)
  {
    hide Scan, EncodeChunks, Legal, OneLine, SizeOf, Joined, Find;
    var body := EncodeChunks(chunks) + ((line + CRLF) + rest);
    var c := PastChunks(body, chunks, (line + CRLF) + rest);
    AheadLine(body, c.at, line, rest);
    FindLine(body, c.at, line);
    ScanStops(c, body);
  }

  /** Behind any chunks, one whose announced end would be past the largest address is an error. */
  lemma HugeChunkIsRefused(chunks: seq<Chunk>, line: seq<byte>, rest: seq<byte>)
    requires forall i :: 0 <= i < |chunks| ==> Legal(chunks[i])
    requires OneLine(line) && SizeOf(line).Some? && SizeOf(line).value > 0
    requires |EncodeChunks(chunks) + ((line + CRLF) + rest)| < U64_LIMIT
    requires |EncodeChunks(chunks)| + |line| + 2 + SizeOf(line).value + 2 >= U64_LIMIT
    ensures Scan(START, EncodeChunks(chunks) + ((line + CRLF) + rest)) == Err(ChunkTooLarge)
  {
    hide Scan, EncodeChunks, Legal, OneLine, SizeOf, Joined;
    var body := EncodeChunks(chunks) + ((line + CRLF) + rest);
    var c := PastChunks(body, chunks, (line + CRLF) + rest);
    ScanLine(c, body, line, rest);
    ScanStops(TakeLine(c, line).value, body);
  }

  /** Behind any chunks, data that does not end its line where it was announced to end is an error. */
  lemma BadDataIsRefused(chunks: seq<Chunk>, c: Chunk, wrong: seq<byte>, rest: seq<byte>)
    requires forall i :: 0 <= i < |chunks| ==> Legal(chunks[i])
    requires Legal(c) && |wrong| == 2 && wrong != CRLF
    requires |EncodeChunks(chunks) + ((c.line + CRLF) + (c.data + wrong + rest))| < U64_LIMIT
    ensures Scan(START, EncodeChunks(chunks) + ((c.line + CRLF) + (c.data + wrong + rest))) == Err(NoLineEnd)
  {
    hide Scan, EncodeChunks, OneLine, SizeOf, Joined, Piece;
    var tail := c.data + wrong + rest;
    var body := EncodeChunks(chunks) + ((c.line + CRLF) + tail);
    var past := PastChunks(body, chunks, (c.line + CRLF) + tail);
    ScanLine(past, body, c.line, tail);
    var c1 := TakeLine(past, c.line).value;
    WrongEnd(c1, body, c.data, wrong, rest);
    ScanStops(c1, body);
  }

  lemma WrongEnd(c: Cursor, body: seq<byte>, data: seq<byte>, wrong: seq<byte>, rest: seq<byte>)
    requires c.at <= |body| < U64_LIMIT && c.data == Some(|data|) && |wrong| == 2 && wrong != CRLF
    requires body[c.at..] == data + wrong + rest
    ensures Piece(c, body) == Err(NoLineEnd)
  {
    var end := c.at + |data| + 2;
    assert body[end - 2..end] == body[c.at..][|data|..|data| + 2] == wrong;
  }

  lemma PastChunks(body: seq<byte>, chunks: seq<Chunk>, rest: seq<byte>) returns (c: Cursor)
    requires forall i :: 0 <= i < |chunks| ==> Legal(chunks[i])
    requires body == EncodeChunks(chunks) + rest && |body| < U64_LIMIT
    ensures c == Cursor(|EncodeChunks(chunks)|, None, false, false, Joined(chunks))
    ensures Ahead(body, c.at, rest, []) && Scan(START, body) == Scan(c, body)
  {
    hide Scan, EncodeChunks, Legal, Joined;
    assert body[0..] == body;
    ScanChunks(START, body, chunks, rest);
    assert [] + Joined(chunks) == Joined(chunks);
    c := Cursor(|EncodeChunks(chunks)|, None, false, false, Joined(chunks));
    assert rest + [] == rest;
  }

  lemma ScanStops(c: Cursor, body: seq<byte>)
    requires c.at <= |body| && !c.done && Piece(c, body).Err?
    ensures Scan(c, body) == Err(Piece(c, body).error)
  {
  }

  /** The size line every server writes: lower-case hexadecimal, then nothing or an extension. */
  lemma HexLine(n: nat, ext: seq<byte>)
    requires n < U64_LIMIT
    requires ext == [] || (ext[0] == 59 && Decode(ext).Some?)
    ensures SizeOf(Hex(n) + ext) == Some(n)
  {
    hide Hex, Decode, AsciiText, ParseDigits, UpTo, Trim;
    HexText(n);
    DecodeAscii(Hex(n), ext);
    TailStart(ext);
    var digits, tail := AsciiText(Hex(n)), Decode(ext).value;
    UpToTail(digits, tail);
    NothingToTrim(digits);
  }

  /** A line that is no number in hexadecimal, nor one behind a plus sign, gives no size. */
  lemma NoHexLine(word: seq<byte>, ext: seq<byte>)
    requires AllAscii(word) && ';' !in AsciiText(word)
    requires ext == [] || (ext[0] == 59 && Decode(ext).Some?)
    requires
      var s := AsciiText(word);
      s != [] && !IsSpace(s[0]) && !IsSpace(s[|s| - 1]) &&
      exists i :: (if s != [] && s[0] == '+' then 1 else 0) <= i < |s| && DigitValue(s[i], 16) == None
    ensures SizeOf(word + ext) == None
  {
    hide Decode, AsciiText, UpTo, Trim, DigitValue, ParseDigits;
    var s := AsciiText(word);
    DecodeAscii(word, ext);
    TailStart(ext);
    UpToTail(s, Decode(ext).value);
    NothingToTrim(s);
    var signed := s != [] && s[0] == '+';
    var digits := if signed then s[1..] else s;
    var i :| (if signed then 1 else 0) <= i < |s| && DigitValue(s[i], 16) == None;
    assert digits[if signed then i - 1 else i] == s[i];
    EveryDigit(digits, 16);
  }

  lemma HexText(n: nat)
    ensures AllAscii(Hex(n))
    ensures
      var s := AsciiText(Hex(n));
      && s != [] && ParseDigits(s, 16) == Some(n)
      && (forall i :: 0 <= i < |s| ==> '0' <= s[i] <= '9' || 'a' <= s[i] <= 'f')
  {
    HexIsAscii(n);
    ParseHex(n);
    hide Hex, ParseDigits;
  }

  lemma TailStart(ext: seq<byte>)
    requires ext == [] || (ext[0] == 59 && Decode(ext).Some?)
    ensures Decode(ext).Some?
    ensures Decode(ext).value != [] ==> Decode(ext).value[0] == ';'
  {
  }

  lemma {:induction false} UpToTail(s: string, tail: string)
    requires forall i :: 0 <= i < |s| ==> s[i] != ';'
    requires tail != [] ==> tail[0] == ';'
    ensures UpTo(s + tail, ';') == s
  {
    if s == [] {
      assert s + tail == tail;
    } else {
      assert (s + tail)[1..] == s[1..] + tail;
      UpToTail(s[1..], tail);
    }
  }

  lemma NothingToTrim(s: string)
    requires s != [] && !IsSpace(s[0]) && !IsSpace(s[|s| - 1])
    ensures Trim(s) == s
  {
  }
}
