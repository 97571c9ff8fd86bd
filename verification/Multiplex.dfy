/** A client session and a server session over one connection, as interleaved steps: any number of
    streams opened, written and closed in any order, padding after any write, a connection that may
    break at any byte, and a server that reads and drops streams when it likes. */
module Multiplex {
  import opened Bytes
  import opened Wrappers
  import opened Frames
  import opened Writer
  import Padding
  import Receiver

  /** The client's link, the numbers it has given out and what it has done with them; the server and
      how far it has read. `log` records the frames written, `sent` those frames with the padding
      between them as they left, and `got` the frames the server has read. */
  datatype System = System(
    link: Link,
    ran: bool,
    opens: nat,
    pending: set<nat>,
    synced: set<nat>,
    server: Receiver.State,
    pos: nat,
    log: seq<Frame>,
    sent: seq<Frame>,
    got: seq<Frame>)

  datatype Step =
    | Start(settings: seq<byte>)
    | Reserve
    | SendSyn(sid: nat, pads: seq<nat>, ok: bool)
    | StopBuffering(sid: nat)
    | Push(sid: nat, data: seq<byte>, pads: seq<nat>, ok: bool)
    | Finish(sid: nat, pads: seq<nat>, ok: bool)
    | Heartbeat(sid: nat, pads: seq<nat>, ok: bool)
    | Receive
    | ServerKill(sid: nat)
    | ServerDrop(sid: nat)

  ghost predicate Init(s: System) {
    && s.link == Link(false, [], [], false)
    && !s.ran && s.opens == 0 && s.pending == {} && s.synced == {}
    && !s.server.isClient && !s.server.stopped && !s.server.alerted
    && s.server.streams == {} && s.server.handed == map[] && !s.server.receivedSettings
    && s.pos == 0 && s.log == [] && s.sent == [] && s.got == []
  }

  /** One locked write of `f`; all of the system but the link and its records stays as it was. */
  ghost predicate Writes(s: System, s': System, f: Frame, pads: seq<nat>, ok: bool) {
    && (forall i :: 0 <= i < |pads| ==> pads[i] <= MAX_PAYLOAD)
    && Wrote(s.link, Encode(f), s'.link, pads, ok)
    && s'.log == s.log + [f]
    && s'.sent == Sent(s, f, pads)
    && s' == s.(link := s'.link, log := s'.log, sent := s'.sent, pending := s'.pending, synced := s'.synced)
  }

  ghost function Sent(s: System, f: Frame, pads: seq<nat>): (sent: seq<Frame>)
  {
    if s.link.buffering then (if s.link.broken then s.sent else s.sent + [f])
    else if s.link.broken then s.sent
    else s.sent + [f] + WasteFrames(pads)
  }

  ghost predicate NextStep(s: System, s': System, step: Step) {
    match step
    case Start(settings) =>
      // Run: the settings are the first frame and wait in the buffer.
      && !s.ran && settings != [] && |settings| <= MAX_PAYLOAD
      && s' == s.(ran := true, link := s'.link, log := s'.log, sent := s'.sent)
      && Writes(s.(ran := true, link := s.link.(buffering := true)), s', Frame(CMD_SETTINGS, 0, settings), [], true)
      && s'.pending == s.pending && s'.synced == s.synced
    case Reserve =>
      s.ran && s.opens + 1 < U32_LIMIT && s' == s.(opens := s.opens + 1, pending := s.pending + {s.opens + 1})
    case SendSyn(sid, pads, ok) =>
      && sid in s.pending
      && Writes(s, s', Frame(CMD_SYN, sid, []), pads, ok)
      && s'.pending == s.pending - {sid}
      && s'.synced == if ok then s.synced + {sid} else s.synced
    case StopBuffering(sid) =>
      sid in s.synced && s' == s.(link := s.link.(buffering := false))
    case Push(sid, data, pads, ok) =>
      && sid in s.synced && |data| <= MAX_PAYLOAD
      && Writes(s, s', Frame(CMD_PSH, sid, data), pads, ok)
      && s'.pending == s.pending && s'.synced == s.synced
    case Finish(sid, pads, ok) =>
      && sid in s.synced
      && Writes(s, s', Frame(CMD_FIN, sid, []), pads, ok)
      && s'.pending == s.pending && s'.synced == s.synced
    case Heartbeat(sid, pads, ok) =>
      && s.ran && sid < U32_LIMIT
      && Writes(s, s', Frame(CMD_HEART_RESPONSE, sid, []), pads, ok)
      && s'.pending == s.pending && s'.synced == s.synced
    case Receive =>
      && !s.server.stopped && s.pos <= |s.link.wire|
      && Next(s.link.wire[s.pos..]).Some?
      && var p := Next(s.link.wire[s.pos..]).value;
         s' == s.(server := Receiver.Handle(s.server, p.frame),
                  pos := |s.link.wire| - |p.rest|, got := s.got + [p.frame])
    case ServerKill(sid) =>
      s' == s.(server := s.server.(dead := s.server.dead + {sid}))
    case ServerDrop(sid) =>
      s' == s.(server := s.server.(streams := s.server.streams - {sid}))
  }

  ghost predicate Follows(s: System, s': System) {
    exists step :: NextStep(s, s', step)
  }

  ghost predicate IsRun(run: seq<System>) {
    && run != [] && Init(run[0])
    && forall i :: 0 <= i < |run| - 1 ==> Follows(run[i], run[i + 1])
  }

  /** The bytes written to stream `sid` in `fs`. */
  function Pushed(fs: seq<Frame>, sid: nat): (b: seq<byte>)
  {
    if fs == [] then []
    else
      var init, last := fs[..|fs| - 1], fs[|fs| - 1];
      Pushed(init, sid) + if last.cmd == CMD_PSH && last.sid == sid then last.data else []
  }

  // ---- what every step keeps ----

  predicate HasSyn(fs: seq<Frame>, sid: nat) {
    exists i :: 0 <= i < |fs| && fs[i].cmd == CMD_SYN && fs[i].sid == sid
  }

  /** Settings come first, a stream number is opened once, and written to only after that. */
  predicate WellOrdered(fs: seq<Frame>) {
    && (fs != [] ==> fs[0].cmd == CMD_SETTINGS && fs[0].data != [])
    && (forall i, j :: 0 <= i < j < |fs| && fs[i].cmd == CMD_SYN && fs[j].cmd == CMD_SYN ==> fs[i].sid != fs[j].sid)
    && (forall i :: 0 <= i < |fs| && fs[i].cmd == CMD_PSH ==> HasSyn(fs[..i], fs[i].sid))
  }

  ghost predicate LinkInv(link: Link, log: seq<Frame>, sent: seq<Frame>) {
    && AllSendable(sent)
    && link.wire <= EncodeAll(sent)
    && NonWaste(sent) <= log
    && (!link.broken ==> link.wire + link.buffer == EncodeAll(sent) && NonWaste(sent) == log)
  }

  ghost predicate ClientInv(s: System) {
    && WellOrdered(s.log)
    && (!s.ran ==> s.log == [] && s.pending == {} && s.synced == {})
    && (s.ran ==> s.log != [])
    && s.opens < U32_LIMIT
    && (forall sid :: sid in s.pending ==> 1 <= sid <= s.opens)
    && (forall sid: nat :: HasSyn(s.log, sid) ==> 1 <= sid <= s.opens && sid !in s.pending)
    && (forall sid :: sid in s.synced ==> HasSyn(s.log, sid))
  }

  ghost predicate StreamInv(server: Receiver.State, seen: seq<Frame>, sid: nat) {
    && Receiver.Handed(server, sid) <= Pushed(seen, sid)
    && (Receiver.Open(server, sid) ==> Receiver.Handed(server, sid) == Pushed(seen, sid))
    && (sid in server.streams ==> HasSyn(seen, sid))
  }

  ghost predicate ServerInv(server: Receiver.State, seen: seq<Frame>) {
    && !server.isClient && !server.alerted
    && (seen != [] ==> server.receivedSettings)
    && forall sid: nat :: StreamInv(server, seen, sid)
  }

  ghost predicate ReadInv(s: System) {
    s.got <= s.sent && s.pos == |EncodeAll(s.got)|
  }

  ghost predicate Inv(s: System) {
    && LinkInv(s.link, s.log, s.sent)
    && ClientInv(s)
    && ReadInv(s)
    && ServerInv(s.server, NonWaste(s.got))
  }

  // ---- the client ----

  lemma WasteSendable(pads: seq<nat>)
    requires forall i :: 0 <= i < |pads| ==> pads[i] <= MAX_PAYLOAD
    ensures AllSendable(WasteFrames(pads)) && NonWaste(WasteFrames(pads)) == []
  {
    NonWasteOfWaste(WasteFrames(pads));
  }

  lemma NonWasteOfOne(f: Frame)
    ensures NonWaste([f]) == if f.cmd == CMD_WASTE then [] else [f]
  {
    assert NonWaste([f][1..]) == [];
  }

  lemma EncodeAllOfOne(f: Frame)
    ensures EncodeAll([f]) == Encode(f)
  {
    assert EncodeAll([f][1..]) == [];
  }

  lemma WroteBytes(before: Link, b: seq<byte>, after: Link, pads: seq<nat>, ok: bool, all: seq<byte>)
    requires Wrote(before, b, after, pads, ok)
    requires before.wire <= all && (!before.broken ==> before.wire + before.buffer == all)
    ensures
      var all' := if before.broken then all else if before.buffering then all + b else all + b + Waste(pads);
      after.wire <= all' && (!after.broken ==> after.wire + after.buffer == all')
  {
    hide Waste;
    if !before.broken && !before.buffering {
      var out := before.buffer + b + Waste(pads);
      assert before.wire + out == all + b + Waste(pads);
      if !ok {
        var k :| 0 <= k <= |out| && after.wire == before.wire + out[..k];
        assert before.wire + out[..k] <= before.wire + out;
      }
    }
  }

  lemma SentFrames(s: System, f: Frame, pads: seq<nat>)
    requires AllSendable(s.sent) && Sendable(f) && f.cmd != CMD_WASTE
    requires forall i :: 0 <= i < |pads| ==> pads[i] <= MAX_PAYLOAD
    ensures AllSendable(s.sent + [f]) && AllSendable(s.sent + [f] + WasteFrames(pads))
    ensures NonWaste(s.sent + [f]) == NonWaste(s.sent + [f] + WasteFrames(pads)) == NonWaste(s.sent) + [f]
    ensures EncodeAll(s.sent + [f]) == EncodeAll(s.sent) + Encode(f)
    ensures EncodeAll(s.sent + [f] + WasteFrames(pads)) == EncodeAll(s.sent) + Encode(f) + Waste(pads)
  {
    WasteSendable(pads);
    NonWasteOfOne(f);
    EncodeAllOfOne(f);
    NonWasteAppend(s.sent, [f]);
    NonWasteAppend(s.sent + [f], WasteFrames(pads));
    EncodeAllAppend(s.sent, [f]);
    EncodeAllAppend(s.sent + [f], WasteFrames(pads));
    hide EncodeAll, NonWaste, Encode, WasteFrames, Sendable;
  }

  /** The frames that leave are those written, in order, with waste between: on the wire and in the
      buffer when the connection holds, cut off somewhere when it breaks. */
  lemma WriteKeepsLink(s: System, s': System, f: Frame, pads: seq<nat>, ok: bool)
    requires LinkInv(s.link, s.log, s.sent) && Sendable(f) && f.cmd != CMD_WASTE
    requires Writes(s, s', f, pads, ok)
    ensures LinkInv(s'.link, s'.log, s'.sent)
  {
    SentFrames(s, f, pads);
    WroteBytes(s.link, Encode(f), s'.link, pads, ok, EncodeAll(s.sent));
    assert s.link.broken ==> s'.link.broken;
    hide EncodeAll, NonWaste, Encode, WasteFrames, Sendable, Waste, Wrote, AllSendable;
  }

  lemma HasSynAppend(fs: seq<Frame>, f: Frame, sid: nat)
    ensures HasSyn(fs + [f], sid) <==> HasSyn(fs, sid) || (f.cmd == CMD_SYN && f.sid == sid)
  {
    var gs := fs + [f];
    assert forall i :: 0 <= i < |fs| ==> gs[i] == fs[i];
    assert gs[|fs|] == f;
  }

  lemma AppendKeepsOrder(fs: seq<Frame>, f: Frame)
    requires WellOrdered(fs)
    requires fs == [] ==> f.cmd == CMD_SETTINGS && f.data != []
    requires f.cmd == CMD_SYN ==> !HasSyn(fs, f.sid)
    requires f.cmd == CMD_PSH ==> HasSyn(fs, f.sid)
    ensures WellOrdered(fs + [f])
  {
    var gs := fs + [f];
    forall i | 0 <= i < |gs| && gs[i].cmd == CMD_PSH
      ensures HasSyn(gs[..i], gs[i].sid)
    {
      if i < |fs| { assert gs[..i] == fs[..i]; } else { assert gs[..i] == fs; }
    }
  }

  lemma PrefixKeepsOrder(fs: seq<Frame>, gs: seq<Frame>)
    requires WellOrdered(gs) && fs <= gs
    ensures WellOrdered(fs)
  {
    forall i | 0 <= i < |fs| && fs[i].cmd == CMD_PSH
      ensures HasSyn(fs[..i], fs[i].sid)
    {
      assert fs[..i] == gs[..i] && fs[i] == gs[i];
    }
  }

  /** Any locked write by the client that respects the opening rule keeps the client's invariant. */
  lemma WriteKeepsClient(s: System, s': System, f: Frame)
    requires ClientInv(s) && s'.log == s.log + [f]
    requires s'.opens == s.opens && s'.ran
    requires s.log == [] ==> f.cmd == CMD_SETTINGS && f.data != []
    requires f.cmd == CMD_SYN ==> f.sid in s.pending && s'.pending == s.pending - {f.sid}
    requires f.cmd == CMD_SYN ==> s'.synced == s.synced || s'.synced == s.synced + {f.sid}
    requires f.cmd != CMD_SYN ==> s'.pending == s.pending && s'.synced == s.synced
    requires f.cmd == CMD_PSH ==> f.sid in s.synced
    ensures ClientInv(s')
  {
    AppendKeepsOrder(s.log, f);
    hide WellOrdered;
    forall sid: nat { HasSynAppend(s.log, f, sid); }
    hide HasSyn;
  }

  // ---- the server ----

  /** What the server reads next is the next frame that left. */
  lemma ReceiveReads(link: Link, log: seq<Frame>, sent: seq<Frame>, got: seq<Frame>, pos: nat)
    requires LinkInv(link, log, sent) && got <= sent && pos == |EncodeAll(got)| <= |link.wire|
    requires Next(link.wire[pos..]).Some?
    ensures |got| < |sent|
    ensures Next(link.wire[pos..]).value.frame == sent[|got|]
    ensures |link.wire| - |Next(link.wire[pos..]).value.rest| == |EncodeAll(got + [sent[|got|]])|
  {
    hide Next, Sendable, EncodeAll, Encode, NonWaste;
    var coming := sent[|got|..];
    assert sent == got + coming;
    EncodeAllAppend(got, coming);
    var here := link.wire[pos..];
    var more := EncodeAll(sent)[|link.wire|..];
    Overhang(link.wire, EncodeAll(got), EncodeAll(coming));
    NextOfPrefix(here, more);
    FirstFrame(coming);
    EncodeAllAppend(got, [coming[0]]);
    EncodeAllOfOne(coming[0]);
    assert |EncodeAll(coming)| == |Encode(coming[0])| + |EncodeAll(coming[1..])|;
  }

  lemma Overhang(wire: seq<byte>, a: seq<byte>, b: seq<byte>)
    requires wire <= a + b && |a| <= |wire|
    ensures wire[|a|..] + (a + b)[|wire|..] == b
  {
  }

  lemma FirstFrame(fs: seq<Frame>)
    requires AllSendable(fs) && Next(EncodeAll(fs)).Some?
    ensures fs != []
    ensures Next(EncodeAll(fs)) == Some(Parsed(fs[0], EncodeAll(fs[1..])))
    ensures |EncodeAll(fs)| == |Encode(fs[0])| + |EncodeAll(fs[1..])|
  {
    assert fs != [];
    FrameRoundTrip(fs[0], EncodeAll(fs[1..]));
  }

  lemma PushedAppend(fs: seq<Frame>, f: Frame, sid: nat)
    ensures Pushed(fs + [f], sid) == Pushed(fs, sid) + if f.cmd == CMD_PSH && f.sid == sid then f.data else []
  {
    assert (fs + [f])[..|fs|] == fs;
  }

  /** Nothing was written to a stream that was not opened. */
  lemma {:induction false} NothingBeforeSyn(fs: seq<Frame>, sid: nat)
    requires WellOrdered(fs) && !HasSyn(fs, sid)
    ensures Pushed(fs, sid) == []
  {
    if fs != [] {
      var init, last := fs[..|fs| - 1], fs[|fs| - 1];
      PrefixKeepsOrder(init, fs);
      assert forall i :: 0 <= i < |init| ==> init[i] == fs[i];
      NothingBeforeSyn(init, sid);
      assert last.cmd == CMD_PSH ==> HasSyn(init, last.sid);
    }
  }

  /** Only a push changes what was handed over, and only on its own stream; only SYN opens one. */
  lemma HandleFrames(server: Receiver.State, f: Frame)
    requires !server.isClient && !server.alerted
    requires f.cmd == CMD_SYN ==> server.receivedSettings
    ensures
      var t := Receiver.Handle(server, f);
      && !t.isClient && !t.alerted
      && (server.receivedSettings ==> t.receivedSettings)
      && (f.cmd == CMD_SETTINGS && f.data != [] ==> t.receivedSettings)
      && t.streams <= server.streams + (if f.cmd == CMD_SYN then {f.sid} else {})
      && (forall sid: nat :: Receiver.Handed(t, sid) == Receiver.Handed(server, sid) +
           if f.cmd == CMD_PSH && f.sid == sid && Receiver.Open(server, sid) then f.data else [])
      && (forall sid: nat :: Receiver.Open(t, sid) ==> Receiver.Open(server, sid) || (f.cmd == CMD_SYN && f.sid == sid && sid !in server.streams))
  {
    hide Receiver.Settings, Receiver.Octets, Receiver.Lookup, Padding.ParseInt, Receiver.OnSettings, Receiver.OnServerSettings;
    SettingsChange(server, f);
  }

  /** Settings open no stream and hand nothing over. */
  lemma SettingsChange(server: Receiver.State, f: Frame)
    requires !server.isClient
    ensures Receiver.OnServerSettings(server, f) == server
    ensures
      var t := Receiver.OnSettings(server, f);
      && t.isClient == server.isClient && t.alerted == server.alerted
      && t.handed == server.handed && server.dead <= t.dead && t.streams <= server.streams
      && t.receivedSettings == (server.receivedSettings || f.data != [])
  {
    hide Receiver.Settings, Receiver.Octets, Receiver.Lookup, Padding.ParseInt;
  }

  lemma HandleKeepsServer(server: Receiver.State, seen: seq<Frame>, f: Frame)
    requires ServerInv(server, seen) && WellOrdered(seen + [f])
    ensures ServerInv(Receiver.Handle(server, f), seen + [f])
  {
    var seen' := seen + [f];
    assert seen'[0] == if seen == [] then f else seen[0];
    HandleFrames(server, f);
    var t := Receiver.Handle(server, f);
    hide Receiver.Handle, Receiver.Handed, Receiver.Open;
    forall sid: nat
      ensures StreamInv(t, seen', sid)
    {
      assert StreamInv(server, seen, sid);
      PushedAppend(seen, f, sid);
      HasSynAppend(seen, f, sid);
      if f.cmd == CMD_SYN && f.sid == sid {
        assert !HasSyn(seen, sid) by {
          assert seen'[|seen|] == f;
          assert forall i :: 0 <= i < |seen| ==> seen'[i] == seen[i];
        }
        PrefixKeepsOrder(seen, seen');
        NothingBeforeSyn(seen, sid);
      }
    }
  }

  lemma WasteIsIgnored(server: Receiver.State, f: Frame)
    requires f.cmd == CMD_WASTE
    ensures Receiver.Handle(server, f) == server
  {
  }

  lemma ReceiveKeepsServer(s: System, f: Frame)
    requires Inv(s) && |s.got| < |s.sent| && f == s.sent[|s.got|]
    ensures ServerInv(Receiver.Handle(s.server, f), NonWaste(s.got + [f]))
  {
    NonWasteOfOne(f);
    NonWasteAppend(s.got, [f]);
    assert NonWaste(s.got) + [] == NonWaste(s.got);
    if f.cmd == CMD_WASTE {
      WasteIsIgnored(s.server, f);
    } else {
      var coming := s.sent[|s.got| + 1..];
      assert s.sent == (s.got + [f]) + coming;
      NonWasteAppend(s.got + [f], coming);
      PrefixKeepsOrder(NonWaste(s.got) + [f], s.log);
      HandleKeepsServer(s.server, NonWaste(s.got), f);
    }
  }

  // ---- whole runs ----

  /** The frame a client step writes. */
  function Written(step: Step): (f: Option<Frame>)
  {
    match step
    case Start(settings) => Some(Frame(CMD_SETTINGS, 0, settings))
    case SendSyn(sid, _, _) => Some(Frame(CMD_SYN, sid, []))
    case Push(sid, data, _, _) => Some(Frame(CMD_PSH, sid, data))
    case Finish(sid, _, _) => Some(Frame(CMD_FIN, sid, []))
    case Heartbeat(sid, _, _) => Some(Frame(CMD_HEART_RESPONSE, sid, []))
    case _ => None
  }

  lemma BufferingIsFree(s: System)
    requires LinkInv(s.link, s.log, s.sent)
    ensures LinkInv(s.link.(buffering := true), s.log, s.sent)
  {
    hide EncodeAll, NonWaste, AllSendable;
  }

  lemma WriteKeepsInv(s: System, s': System, step: Step)
    requires Inv(s) && NextStep(s, s', step) && Written(step).Some?
    ensures Inv(s')
  {
    hide ServerInv, Wrote, HasSyn, LinkInv, NonWaste, EncodeAll, WellOrdered, Encode, WasteFrames;
    var f := Written(step).value;
    WriteKeepsClient(s, s', f);
    if step.Start? {
      BufferingIsFree(s);
      WriteKeepsLink(s.(ran := true, link := s.link.(buffering := true)), s', f, [], true);
    } else {
      WriteKeepsLink(s, s', f, step.pads, step.ok);
    }
    assert s.sent <= s'.sent;
  }

  lemma ReserveKeepsInv(s: System, s': System)
    requires Inv(s) && NextStep(s, s', Reserve)
    ensures Inv(s')
  {
    hide LinkInv, ServerInv, WellOrdered, HasSyn, NonWaste, EncodeAll;
  }

  lemma StopBufferingKeepsInv(s: System, s': System, sid: nat)
    requires Inv(s) && NextStep(s, s', StopBuffering(sid))
    ensures Inv(s')
  {
    hide ServerInv, WellOrdered, HasSyn, NonWaste, EncodeAll, AllSendable;
  }

  lemma ReceiveKeepsInv(s: System, s': System)
    requires Inv(s) && NextStep(s, s', Receive)
    ensures Inv(s')
  {
    hide ServerInv, Receiver.Handle, LinkInv, WellOrdered, HasSyn, EncodeAll, NonWaste, Next;
    ReceiveReads(s.link, s.log, s.sent, s.got, s.pos);
    var f := s.sent[|s.got|];
    ReceiveKeepsServer(s, f);
    assert s'.got == s.got + [f] <= s.sent;
  }

  lemma ServerDropKeepsInv(s: System, s': System, sid: nat)
    requires Inv(s) && (NextStep(s, s', ServerDrop(sid)) || NextStep(s, s', ServerKill(sid)))
    ensures Inv(s')
  {
    hide LinkInv, WellOrdered, HasSyn, EncodeAll, NonWaste, Pushed;
    forall sid: nat ensures StreamInv(s'.server, NonWaste(s'.got), sid) {
      assert StreamInv(s.server, NonWaste(s.got), sid);
    }
  }

  lemma StepKeepsInv(s: System, s': System, step: Step)
    requires Inv(s) && NextStep(s, s', step)
    ensures Inv(s')
  {
    hide NextStep, Inv;
    match step
    case Reserve => ReserveKeepsInv(s, s');
    case StopBuffering(sid) => StopBufferingKeepsInv(s, s', sid);
    case Receive => ReceiveKeepsInv(s, s');
    case ServerDrop(sid) => ServerDropKeepsInv(s, s', sid);
    case ServerKill(sid) => ServerDropKeepsInv(s, s', sid);
    case Start(_) => WriteKeepsInv(s, s', step);
    case SendSyn(_, _, _) => WriteKeepsInv(s, s', step);
    case Push(_, _, _, _) => WriteKeepsInv(s, s', step);
    case Finish(_, _, _) => WriteKeepsInv(s, s', step);
    case Heartbeat(_, _, _) => WriteKeepsInv(s, s', step);
  }

  lemma InitInv(s: System)
    requires Init(s)
    ensures Inv(s)
  {
    forall sid: nat ensures StreamInv(s.server, [], sid) {}
  }

  lemma {:induction false} RunKeepsInv(run: seq<System>, i: nat)
    requires IsRun(run) && i < |run|
    ensures Inv(run[i])
  {
    if i == 0 {
      InitInv(run[0]);
    } else {
      RunKeepsInv(run, i - 1);
      hide Inv, NextStep, Init;
      assert Follows(run[i - 1], run[i - 1 + 1]);
      var step :| NextStep(run[i - 1], run[i], step);
      StepKeepsInv(run[i - 1], run[i], step);
    }
  }

  /** After any writes, in any buffering phase and with any padding between them, the wire and the
      buffer read back as whole frames, and without the waste they are the frames written, in order. */
  lemma PaddingIsTransparent(run: seq<System>, i: nat)
    requires IsRun(run) && i < |run| && !run[i].link.broken
    ensures Parse(run[i].link.wire + run[i].link.buffer).rest == []
    ensures NonWaste(Parse(run[i].link.wire + run[i].link.buffer).frames) == run[i].log
  {
    RunKeepsInv(run, i);
    var s := run[i];
    StreamRoundTrip(s.sent, []);
    assert EncodeAll(s.sent) + [] == EncodeAll(s.sent);
    assert Parse([]) == Stream([], []);
    hide Parse, EncodeAll;
    assert s.sent + [] == s.sent;
  }

  /** At every moment of every run, what the server has handed to a stream is a first part of what
      the client wrote to that stream, and the server has never had to send its alert. */
  lemma DeliveryIsPrefix(run: seq<System>, i: nat, sid: nat)
    requires IsRun(run) && i < |run|
    ensures Receiver.Handed(run[i].server, sid) <= Pushed(run[i].log, sid)
    ensures !run[i].server.alerted
  {
    RunKeepsInv(run, i);
    var s := run[i];
    assert StreamInv(s.server, NonWaste(s.got), sid);
    SeenIsPrefix(s);
    PushedOfPrefix(NonWaste(s.got), s.log, sid);
  }

  /** Once the client has flushed and the server has read all there is, a stream still open has been
      handed everything that was written to it. */
  lemma AllDelivered(run: seq<System>, i: nat, sid: nat)
    requires IsRun(run) && i < |run|
    requires !run[i].link.broken && run[i].link.buffer == []
    requires run[i].pos == |run[i].link.wire| && Receiver.Open(run[i].server, sid)
    ensures Receiver.Handed(run[i].server, sid) == Pushed(run[i].log, sid)
  {
    RunKeepsInv(run, i);
    var s := run[i];
    assert StreamInv(s.server, NonWaste(s.got), sid);
    var coming := s.sent[|s.got|..];
    assert s.sent == s.got + coming;
    EncodeAllAppend(s.got, coming);
    assert coming == [];
    assert s.got == s.sent;
  }

  lemma SeenIsPrefix(s: System)
    requires Inv(s)
    ensures NonWaste(s.got) <= s.log
  {
    var coming := s.sent[|s.got|..];
    assert s.sent == s.got + coming;
    NonWasteAppend(s.got, coming);
  }

  lemma {:induction false} PushedOfPrefix(fs: seq<Frame>, gs: seq<Frame>, sid: nat)
    requires fs <= gs
    ensures Pushed(fs, sid) <= Pushed(gs, sid)
  {
    if fs == gs {
    } else {
      PushedOfPrefix(fs, gs[..|gs| - 1], sid);
    }
  }
}
