/** The frame format of an AnyTLS session: a 7-byte header, then the payload. */
module Frames {
  import opened Bytes
  import opened Wrappers

  const CMD_WASTE: byte := 0
  const CMD_SYN: byte := 1
  const CMD_PSH: byte := 2
  const CMD_FIN: byte := 3
  const CMD_SETTINGS: byte := 4
  const CMD_ALERT: byte := 5
  const CMD_UPDATE_PADDING_SCHEME: byte := 6
  const CMD_SYNACK: byte := 7
  const CMD_HEART_REQUEST: byte := 8
  const CMD_HEART_RESPONSE: byte := 9
  const CMD_SERVER_SETTINGS: byte := 10

  const HEADER_SIZE := 7
  const MAX_PAYLOAD := 0xFFFF

  datatype Frame = Frame(cmd: byte, sid: nat, data: seq<byte>)

  /** What is left once a receiver has taken a frame off the connection. */
  datatype Parsed = Parsed(frame: Frame, rest: seq<byte>)

  datatype Stream = Stream(frames: seq<Frame>, rest: seq<byte>)

  /** The commands whose payload the receiver reads; the others are a header alone. */
  predicate CarriesData(cmd: byte) {
    || cmd == CMD_WASTE
    || cmd == CMD_PSH
    || cmd == CMD_SETTINGS
    || cmd == CMD_ALERT
    || cmd == CMD_UPDATE_PADDING_SCHEME
    || cmd == CMD_SYNACK
    || cmd == CMD_SERVER_SETTINGS
  }

  /** The frames the length field and the receiver's reading rule leave intact. */
  predicate Sendable(f: Frame) {
    && f.sid < U32_LIMIT
    && |f.data| <= MAX_PAYLOAD
    && (CarriesData(f.cmd) || f.data == [])
  }

  /** A frame as the writers lay it out: the length is cut to 16 bits, the data is not. */
  function Encode(f: Frame): (b: seq<byte>)
    ensures |b| == HEADER_SIZE + |f.data|
  {
    [f.cmd] + Be32(f.sid) + Be16(|f.data|) + f.data
  }

  function EncodeAll(fs: seq<Frame>): (b: seq<byte>)
  {
    if fs == [] then [] else Encode(fs[0]) + EncodeAll(fs[1..])
  }

  /** One turn of the receive loop: a header, then as much payload as it announces. */
  function Next(b: seq<byte>): (r: Option<Parsed>)
    ensures r.Some? ==> |r.value.rest| <= |b| - HEADER_SIZE
  {
    if |b| < HEADER_SIZE then None
    else
      var len := if CarriesData(b[0]) then U16At(b, 5) else 0;
      if |b| < HEADER_SIZE + len then None
      else Some(Parsed(Frame(b[0], U32At(b, 1), b[HEADER_SIZE..HEADER_SIZE + len]), b[HEADER_SIZE + len..]))
  }

  /** Every whole frame at the front of `b`, and the bytes of the frame still coming. */
  function Parse(b: seq<byte>): (s: Stream)
    decreases |b|
  {
    match Next(b)
    case None => Stream([], b)
    case Some(p) =>
      var tail := Parse(p.rest);
      Stream([p.frame] + tail.frames, tail.rest)
  }

  function NonWaste(fs: seq<Frame>): (kept: seq<Frame>)
  {
    if fs == [] then []
    else if fs[0].cmd == CMD_WASTE then NonWaste(fs[1..])
    else [fs[0]] + NonWaste(fs[1..])
  }

  predicate AllSendable(fs: seq<Frame>) {
    forall i :: 0 <= i < |fs| ==> Sendable(fs[i])
  }

  predicate AllWaste(fs: seq<Frame>) {
    forall i :: 0 <= i < |fs| ==> fs[i].cmd == CMD_WASTE
  }

  // ---- the header ----

  lemma HeaderFields(f: Frame, rest: seq<byte>)
    ensures (Encode(f) + rest)[0] == f.cmd
    ensures U32At(Encode(f) + rest, 1) == f.sid % U32_LIMIT
    ensures U16At(Encode(f) + rest, 5) == |f.data| % U16_LIMIT
    ensures (Encode(f) + rest)[HEADER_SIZE..] == f.data + rest
  {
    var b := Encode(f) + rest;
    assert b == [f.cmd] + Be32(f.sid) + (Be16(|f.data|) + f.data + rest);
    Be32RoundTrip(f.sid, [f.cmd], Be16(|f.data|) + f.data + rest);
    assert b == ([f.cmd] + Be32(f.sid)) + Be16(|f.data|) + (f.data + rest);
    Be16RoundTrip(|f.data|, [f.cmd] + Be32(f.sid), f.data + rest);
  }

  /** A frame comes back out of the bytes it was written as, whatever follows it, exactly when
      it is sendable: a longer payload is cut short by its own length field. */
  lemma FrameRoundTrip(f: Frame, rest: seq<byte>)
    ensures Sendable(f) <==> Next(Encode(f) + rest) == Some(Parsed(f, rest))
  {
    HeaderFields(f, rest);
    var b := Encode(f) + rest;
    var len := if CarriesData(b[0]) then U16At(b, 5) else 0;
    if Sendable(f) {
      assert len == |f.data|;
      assert b[HEADER_SIZE..HEADER_SIZE + len] == b[HEADER_SIZE..][..len] == f.data;
      assert b[HEADER_SIZE + len..] == b[HEADER_SIZE..][len..] == rest;
    }
  }

  // ---- sequences of frames ----

  lemma {:induction false} EncodeAllAppend(fs: seq<Frame>, gs: seq<Frame>)
    ensures EncodeAll(fs + gs) == EncodeAll(fs) + EncodeAll(gs)
  {
    if fs == [] {
      assert fs + gs == gs;
    } else {
      assert (fs + gs)[1..] == fs[1..] + gs;
      EncodeAllAppend(fs[1..], gs);
    }
  }

  lemma {:induction false} NonWasteAppend(fs: seq<Frame>, gs: seq<Frame>)
    ensures NonWaste(fs + gs) == NonWaste(fs) + NonWaste(gs)
  {
    if fs == [] {
      assert fs + gs == gs;
    } else {
      assert (fs + gs)[1..] == fs[1..] + gs;
      NonWasteAppend(fs[1..], gs);
    }
  }

  lemma {:induction false} NonWasteOfWaste(fs: seq<Frame>)
    requires AllWaste(fs)
    ensures NonWaste(fs) == []
  {
    if fs != [] { NonWasteOfWaste(fs[1..]); }
  }

  lemma ParseCons(f: Frame, rest: seq<byte>)
    requires Sendable(f)
    ensures Parse(Encode(f) + rest) == Stream([f] + Parse(rest).frames, Parse(rest).rest)
  {
    FrameRoundTrip(f, rest);
  }

  /** A stream of frames comes back whole and in order, whatever bytes follow. */
  lemma {:induction false} StreamRoundTrip(fs: seq<Frame>, rest: seq<byte>)
    requires AllSendable(fs)
    ensures Parse(EncodeAll(fs) + rest) == Stream(fs + Parse(rest).frames, Parse(rest).rest)
    decreases |fs|
  {
    hide Parse, Encode;
    var after := Parse(rest);
    if fs == [] {
      assert EncodeAll(fs) + rest == rest;
      assert fs + after.frames == after.frames;
    } else {
      var tail := EncodeAll(fs[1..]) + rest;
      assert EncodeAll(fs) + rest == Encode(fs[0]) + tail;
      ParseCons(fs[0], tail);
      StreamRoundTrip(fs[1..], rest);
      assert [fs[0]] + (fs[1..] + after.frames) == fs + after.frames;
    }
  }

  /** Bytes that arrive later never change a frame already read. */
  lemma NextOfPrefix(b: seq<byte>, more: seq<byte>)
    requires Next(b).Some?
    ensures Next(b + more) == Some(Parsed(Next(b).value.frame, Next(b).value.rest + more))
  {
    assert (b + more)[0] == b[0];
    assert U32At(b + more, 1) == U32At(b, 1);
    assert U16At(b + more, 5) == U16At(b, 5);
    var len := if CarriesData(b[0]) then U16At(b, 5) else 0;
    assert (b + more)[HEADER_SIZE..HEADER_SIZE + len] == b[HEADER_SIZE..HEADER_SIZE + len];
    assert (b + more)[HEADER_SIZE + len..] == b[HEADER_SIZE + len..] + more;
  }
}
