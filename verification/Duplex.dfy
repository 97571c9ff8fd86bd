/** Both directions of a session: the client's side of `Multiplex`, and beside it the server's frames on
    their way back. The server neither buffers nor pads. The client registers a stream only after its SYN has
    gone out, and hands over nothing for a stream that is not registered. */
module Duplex {
  import opened Bytes
  import opened Wrappers
  import opened Frames
  import opened Writer
  import Multiplex
  import Padding
  import Receiver

  /** `registered` are the streams `OpenStream` has returned; `log` are the frames the server wrote and `got`
      those the client has read. */
  datatype System = System(
    up: Multiplex.System,
    registered: set<nat>,
    down: Link,
    log: seq<Frame>,
    client: Receiver.State,
    pos: nat,
    got: seq<Frame>)

  datatype Step =
    | Up(step: Multiplex.Step)
    | Register(sid: nat)
    | Kill(sid: nat)
    | Drop(sid: nat)
    | ServerWrites(f: Frame, ok: bool)
    | ClientReceives

  ghost predicate Init(s: System) {
    && Multiplex.Init(s.up)
    && s.registered == {} && s.down == Link(false, [], [], false)
    && s.client.isClient && s.client.streams == {} && s.client.handed == map[]
    && s.log == [] && s.pos == 0 && s.got == []
  }

  function Opened(client: Receiver.State, sid: nat): (t: Receiver.State)
  {
    client.(streams := client.streams + {sid}, dead := client.dead - {sid})
  }

  /** The client writes to a stream once it has it; the server's handler writes to a stream once it has read
      from it, as it must to learn the destination. No server opens streams. */
  ghost predicate NextStep(s: System, s': System, step: Step) {
    match step
    case Up(u) =>
      && Multiplex.NextStep(s.up, s'.up, u)
      && (u.Push? ==> u.sid in s.registered)
      && s' == s.(up := s'.up)
    case Register(sid) =>
      && sid in s.up.synced && sid !in s.registered && !s.client.stopped
      && s' == s.(registered := s.registered + {sid}, client := Opened(s.client, sid))
    case Kill(sid) => s' == s.(client := s.client.(dead := s.client.dead + {sid}))
    case Drop(sid) => s' == s.(client := s.client.(streams := s.client.streams - {sid}))
    case ServerWrites(f, ok) =>
      && Sendable(f) && f.cmd != CMD_WASTE && f.cmd != CMD_SYN
      && (f.cmd == CMD_PSH ==> Receiver.Handed(s.up.server, f.sid) != [])
      && Wrote(s.down, Encode(f), s'.down, [], ok)
      && s' == s.(down := s'.down, log := s.log + [f])
    case ClientReceives =>
      && !s.client.stopped && s.pos <= |s.down.wire|
      && Next(s.down.wire[s.pos..]).Some?
      && var p := Next(s.down.wire[s.pos..]).value;
         s' == s.(client := Receiver.Handle(s.client, p.frame), pos := |s.down.wire| - |p.rest|, got := s.got + [p.frame])
  }

  ghost predicate Follows(s: System, s': System) {
    exists step :: NextStep(s, s', step)
  }

  ghost predicate IsRun(run: seq<System>) {
    && run != [] && Init(run[0])
    && forall i :: 0 <= i < |run| - 1 ==> Follows(run[i], run[i + 1])
  }

  // ---- invariant ----

  ghost predicate UpInv(s: System) {
    && Multiplex.Inv(s.up)
    && forall sid: nat :: Multiplex.Pushed(s.up.log, sid) != [] ==> sid in s.registered
  }

  predicate NoOpening(fs: seq<Frame>) {
    forall i :: 0 <= i < |fs| ==> fs[i].cmd != CMD_SYN && fs[i].cmd != CMD_WASTE
  }

  ghost predicate DownInv(s: System) {
    && Multiplex.LinkInv(s.down, s.log, s.log)
    && !s.down.buffering && s.down.buffer == [] && NoOpening(s.log)
    && s.got <= s.log && s.pos == |EncodeAll(s.got)|
    && s.client.isClient
  }

  /** What the client handed over is all that came for the stream while it is registered and open, and
      nothing is written to it before it is registered. */
  ghost predicate StreamInv(s: System, sid: nat) {
    && Receiver.Handed(s.client, sid) <= Multiplex.Pushed(s.got, sid)
    && (sid in s.client.streams ==> sid in s.registered)
    && (Receiver.Open(s.client, sid) ==> Receiver.Handed(s.client, sid) == Multiplex.Pushed(s.got, sid))
    && (sid !in s.registered ==> Multiplex.Pushed(s.log, sid) == [])
  }

  ghost predicate Inv(s: System) {
    && UpInv(s)
    && DownInv(s)
    && forall sid: nat :: StreamInv(s, sid)
  }

  // ---- the client's frames ----

  lemma UpWrites(s: Multiplex.System, s': Multiplex.System, step: Multiplex.Step, sid: nat)
    requires Multiplex.NextStep(s, s', step)
    ensures Multiplex.Pushed(s'.log, sid) != [] ==> Multiplex.Pushed(s.log, sid) != [] || (step.Push? && step.sid == sid)
  {
    hide Wrote, Multiplex.Pushed, Encode, Next, Receiver.Handle;
    if Multiplex.Written(step).Some? {
      Multiplex.PushedAppend(s.log, Multiplex.Written(step).value, sid);
    }
  }

  lemma UpKeeps(s: System, s': System, u: Multiplex.Step)
    requires Inv(s) && NextStep(s, s', Up(u))
    ensures Inv(s')
  {
    hide Multiplex.NextStep, Multiplex.Inv, Multiplex.LinkInv, NoOpening, Multiplex.Pushed;
    Multiplex.StepKeepsInv(s.up, s'.up, u);
    forall sid: nat ensures Multiplex.Pushed(s'.up.log, sid) != [] ==> sid in s'.registered {
      UpWrites(s.up, s'.up, u, sid);
    }
    forall sid: nat ensures StreamInv(s', sid) {
      assert StreamInv(s, sid);
    }
  }

  // ---- the server's frames ----

  /** Whoever the server has read from is registered. */
  lemma ReadIsRegistered(s: System, sid: nat)
    requires UpInv(s) && Receiver.Handed(s.up.server, sid) != []
    ensures sid in s.registered
  {
    assert Multiplex.StreamInv(s.up.server, NonWaste(s.up.got), sid);
    Multiplex.SeenIsPrefix(s.up);
    Multiplex.PushedOfPrefix(NonWaste(s.up.got), s.up.log, sid);
    hide Multiplex.Pushed, Multiplex.Inv;
  }

  lemma {:induction false} NoWaste(fs: seq<Frame>)
    requires NoOpening(fs)
    ensures NonWaste(fs) == fs
  {
    if fs != [] {
      NoWaste(fs[1..]);
    }
  }

  lemma NoOpeningMore(fs: seq<Frame>, f: Frame)
    requires NoOpening(fs) && f.cmd != CMD_SYN && f.cmd != CMD_WASTE
    ensures NoOpening(fs + [f]) && NonWaste(fs + [f]) == fs + [f]
  {
    NoWaste(fs + [f]);
  }

  lemma NoPadding()
    ensures Waste([]) == []
  {
  }

  lemma WriteKeepsDown(s: System, s': System, f: Frame, ok: bool)
    requires DownInv(s) && Sendable(f) && f.cmd != CMD_WASTE && f.cmd != CMD_SYN
    requires Wrote(s.down, Encode(f), s'.down, [], ok) && s' == s.(down := s'.down, log := s.log + [f])
    ensures DownInv(s')
  {
    NoOpeningMore(s.log, f);
    EncodeAllAppend(s.log, [f]);
    Multiplex.EncodeAllOfOne(f);
    NoPadding();
    Multiplex.WroteBytes(s.down, Encode(f), s'.down, [], ok, EncodeAll(s.log));
    assert s.down.broken ==> s'.down.broken;
    assert EncodeAll(s.log) + Encode(f) + [] == EncodeAll(s.log) + Encode(f);
    hide EncodeAll, Encode, NonWaste, Waste, Sendable;
  }

  lemma ServerWritesKeeps(s: System, s': System, f: Frame, ok: bool)
    requires Inv(s) && NextStep(s, s', ServerWrites(f, ok))
    ensures Inv(s')
  {
    hide UpInv, Multiplex.Pushed, Wrote, Encode;
    WriteKeepsDown(s, s', f, ok);
    hide DownInv;
    SameUp(s, s');
    if f.cmd == CMD_PSH {
      ReadIsRegistered(s, f.sid);
    }
    forall sid: nat ensures StreamInv(s', sid) {
      assert StreamInv(s, sid);
      Multiplex.PushedAppend(s.log, f, sid);
    }
  }

  lemma SameUp(s: System, s': System)
    requires UpInv(s) && s'.up == s.up && s.registered <= s'.registered
    ensures UpInv(s')
  {
    hide Multiplex.Inv, Multiplex.Pushed;
  }

  /** On the client only a push changes what was handed over, and only on its own stream. */
  lemma ClientHandles(client: Receiver.State, f: Frame)
    requires client.isClient && f.cmd != CMD_SYN
    ensures
      var t := Receiver.Handle(client, f);
      && t.isClient && t.streams <= client.streams && client.dead <= t.dead
      && (forall sid: nat :: Receiver.Handed(t, sid) == Receiver.Handed(client, sid) +
           if f.cmd == CMD_PSH && f.sid == sid && Receiver.Open(client, sid) then f.data else [])
  {
    hide Receiver.Settings, Receiver.Octets, Receiver.Lookup, Padding.ParseInt, Receiver.OnSettings, Receiver.OnServerSettings;
    ClientSettings(client, f);
  }

  lemma ClientSettings(client: Receiver.State, f: Frame)
    requires client.isClient
    ensures Receiver.OnSettings(client, f) == client
    ensures Receiver.OnServerSettings(client, f) == client.(peerVersion := Receiver.OnServerSettings(client, f).peerVersion)
  {
    hide Receiver.Settings, Receiver.Octets, Receiver.Lookup, Padding.ParseInt;
  }

  lemma ReceiveKeeps(s: System, s': System)
    requires Inv(s) && NextStep(s, s', ClientReceives)
    ensures Inv(s')
  {
    hide UpInv, Multiplex.LinkInv, EncodeAll, Next, Receiver.Handle, Receiver.Handed, Multiplex.Pushed;
    SameUp(s, s');
    Multiplex.ReceiveReads(s.down, s.log, s.log, s.got, s.pos);
    var f := s.log[|s.got|];
    assert s'.got == s.got + [f] <= s.log;
    ClientHandles(s.client, f);
    forall sid: nat ensures StreamInv(s', sid) {
      assert StreamInv(s, sid);
      Multiplex.PushedAppend(s.got, f, sid);
    }
  }

  lemma RegisterKeeps(s: System, s': System, sid: nat)
    requires Inv(s) && NextStep(s, s', Register(sid))
    ensures Inv(s')
  {
    hide UpInv, Multiplex.LinkInv, EncodeAll, Multiplex.Pushed, NoOpening;
    SameUp(s, s');
    forall other: nat ensures StreamInv(s', other) {
      assert StreamInv(s, other);
      if other == sid {
        Multiplex.PushedOfPrefix(s.got, s.log, sid);
      }
    }
  }

  lemma DropKeeps(s: System, s': System, sid: nat)
    requires Inv(s) && (NextStep(s, s', Drop(sid)) || NextStep(s, s', Kill(sid)))
    ensures Inv(s')
  {
    hide UpInv, Multiplex.LinkInv, EncodeAll, Multiplex.Pushed, NoOpening;
    SameUp(s, s');
    forall other: nat ensures StreamInv(s', other) {
      assert StreamInv(s, other);
    }
  }

  lemma StepKeeps(s: System, s': System, step: Step)
    requires Inv(s) && NextStep(s, s', step)
    ensures Inv(s')
  {
    hide Inv, NextStep;
    match step
    case Up(u) => UpKeeps(s, s', u);
    case Register(sid) => RegisterKeeps(s, s', sid);
    case Drop(sid) => DropKeeps(s, s', sid);
    case Kill(sid) => DropKeeps(s, s', sid);
    case ServerWrites(f, ok) => ServerWritesKeeps(s, s', f, ok);
    case ClientReceives => ReceiveKeeps(s, s');
  }

  // ---- whole runs ----

  lemma InitInv(s: System)
    requires Init(s)
    ensures Inv(s)
  {
    Multiplex.InitInv(s.up);
    forall sid: nat ensures StreamInv(s, sid) {}
  }

  lemma {:induction false} RunKeeps(run: seq<System>, i: nat)
    requires IsRun(run) && i < |run|
    ensures Inv(run[i])
  {
    if i == 0 {
      InitInv(run[0]);
    } else {
      RunKeeps(run, i - 1);
      hide Inv, NextStep, Init;
      assert Follows(run[i - 1], run[i - 1 + 1]);
      var step :| NextStep(run[i - 1], run[i], step);
      StepKeeps(run[i - 1], run[i], step);
    }
  }

  /** At every moment of every run and for every stream: what the client has handed over is a first part of
      what the server wrote to it, and what the server has handed over is one of what the client wrote. */
  lemma BothDirectionsArePrefixes(run: seq<System>, i: nat, sid: nat)
    requires IsRun(run) && i < |run|
    ensures Receiver.Handed(run[i].client, sid) <= Multiplex.Pushed(run[i].log, sid)
    ensures Receiver.Handed(run[i].up.server, sid) <= Multiplex.Pushed(run[i].up.log, sid)
  {
    RunKeeps(run, i);
    var s := run[i];
    assert StreamInv(s, sid) && Multiplex.StreamInv(s.up.server, NonWaste(s.up.got), sid);
    Multiplex.PushedOfPrefix(s.got, s.log, sid);
    Multiplex.SeenIsPrefix(s.up);
    Multiplex.PushedOfPrefix(NonWaste(s.up.got), s.up.log, sid);
    hide Multiplex.Pushed, Receiver.Handed, Inv;
  }

  /** Once the client has read all there is, a stream it still has open was handed everything written to it. */
  lemma AllReturned(run: seq<System>, i: nat, sid: nat)
    requires IsRun(run) && i < |run|
    requires !run[i].down.broken && run[i].pos == |run[i].down.wire| && Receiver.Open(run[i].client, sid)
    ensures Receiver.Handed(run[i].client, sid) == Multiplex.Pushed(run[i].log, sid)
  {
    RunKeeps(run, i);
    var s := run[i];
    assert StreamInv(s, sid);
    var coming := s.log[|s.got|..];
    assert s.log == s.got + coming;
    EncodeAllAppend(s.got, coming);
    assert coming == [];
    assert s.got == s.log;
  }

  // ---- a server that writes first ----

  /** Frames for one stream that is not registered yet are read and dropped. What arrives is then all that was
      written exactly when nothing came before the stream was registered. */
  lemma EarlyBytesAreLost(client: Receiver.State, early: seq<Frame>, late: seq<Frame>, sid: nat)
    requires client.isClient && !client.stopped && sid !in client.streams && Receiver.Handed(client, sid) == []
    requires forall i :: 0 <= i < |early| ==> early[i].cmd == CMD_PSH && early[i].sid == sid
    requires forall i :: 0 <= i < |late| ==> late[i].cmd == CMD_PSH && late[i].sid == sid
    ensures
      var before := Receiver.HandleAll(client, early);
      var after := Receiver.HandleAll(Opened(before, sid), late);
      && Receiver.Handed(after, sid) == Multiplex.Pushed(late, sid)
      && (Receiver.Handed(after, sid) == Multiplex.Pushed(early + late, sid) <==> Multiplex.Pushed(early, sid) == [])
  {
    Dropped(client, early, sid);
    var registered := Opened(client, sid);
    HandedOver(registered, late, sid);
    assert Receiver.Handed(registered, sid) == Receiver.Handed(client, sid);
    PushedBoth(early, late, sid);
  }

  lemma {:induction false} Dropped(client: Receiver.State, fs: seq<Frame>, sid: nat)
    requires sid !in client.streams && forall i :: 0 <= i < |fs| ==> fs[i].cmd == CMD_PSH && fs[i].sid == sid
    ensures Receiver.HandleAll(client, fs) == client
    decreases |fs|
  {
    if fs != [] {
      assert Receiver.Handle(client, fs[0]) == client;
      hide Receiver.Handle;
      Dropped(client, fs[1..], sid);
    }
  }

  lemma PushHands(client: Receiver.State, f: Frame)
    requires f.cmd == CMD_PSH && Receiver.Open(client, f.sid)
    ensures
      var t := Receiver.Handle(client, f);
      && Receiver.Handed(t, f.sid) == Receiver.Handed(client, f.sid) + f.data
      && t.streams == client.streams && t.dead == client.dead && t.stopped == client.stopped
  {
  }

  lemma {:induction false} HandedOver(client: Receiver.State, fs: seq<Frame>, sid: nat)
    requires Receiver.Open(client, sid) && !client.stopped
    requires forall i :: 0 <= i < |fs| ==> fs[i].cmd == CMD_PSH && fs[i].sid == sid
    ensures Receiver.Handed(Receiver.HandleAll(client, fs), sid) == Receiver.Handed(client, sid) + Multiplex.Pushed(fs, sid)
    decreases |fs|
  {
    hide Receiver.Handle, Receiver.Handed, Multiplex.Pushed;
    if fs == [] {
      NothingPushed(sid);
    } else {
      PushHands(client, fs[0]);
      HandedOver(Receiver.Handle(client, fs[0]), fs[1..], sid);
      PushedCons(fs, sid);
    }
  }

  lemma NothingPushed(sid: nat)
    ensures Multiplex.Pushed([], sid) == []
  {
  }

  lemma PushedCons(fs: seq<Frame>, sid: nat)
    requires fs != [] && fs[0].cmd == CMD_PSH && fs[0].sid == sid
    ensures Multiplex.Pushed(fs, sid) == fs[0].data + Multiplex.Pushed(fs[1..], sid)
  {
    hide Multiplex.Pushed;
    assert fs == [fs[0]] + fs[1..] && [fs[0]] == [] + [fs[0]];
    PushedBoth([fs[0]], fs[1..], sid);
    Multiplex.PushedAppend([], fs[0], sid);
    NothingPushed(sid);
  }

  lemma {:induction false} PushedBoth(a: seq<Frame>, b: seq<Frame>, sid: nat)
    ensures Multiplex.Pushed(a + b, sid) == Multiplex.Pushed(a, sid) + Multiplex.Pushed(b, sid)
  {
    hide Multiplex.Pushed;
    if b == [] {
      assert a + b == a;
      NothingPushed(sid);
    } else {
      var before, last := b[..|b| - 1], b[|b| - 1];
      PushedBoth(a, before, sid);
      Multiplex.PushedAppend(a + before, last, sid);
      Multiplex.PushedAppend(before, last, sid);
      assert (a + before) + [last] == a + b && before + [last] == b;
    }
  }
}
