/** The capsule tunnel over HTTP/2: packets gathered into batches on one side, and parsed out of
    whatever chunks the stream delivers on the other. */
module Tunnel {
  import opened Bytes
  import opened Wrappers
  import opened Varint
  import opened Capsules

  const SEND_BATCH_BYTES := 32 * 1024
  const MAX_FRAME_SIZE := 64 * 1024

  type Packet = seq<byte>

  // ---- sending ----

  datatype SenderMsg = Framed(capsule: Raw) | Finish

  function Datagrams(packets: seq<Packet>): (cs: seq<Raw>)
    ensures |cs| == |packets|
    ensures forall i :: 0 <= i < |cs| ==> cs[i] == Raw(DATAGRAM, packets[i])
  {
    seq(|packets|, i requires 0 <= i < |packets| => Raw(DATAGRAM, packets[i]))
  }

  predicate AllFit(packets: seq<Packet>) {
    forall i :: 0 <= i < |packets| ==> |packets[i]| <= MAX_VARINT
  }

  /** What one turn of the send loop puts on the stream. */
  datatype Load = Control(capsule: Raw) | Batch(packets: seq<Packet>)

  function SentIn(load: Load): (cs: seq<Raw>)
  {
    match load
    case Control(c) => [c]
    case Batch(ps) => Datagrams(ps)
  }

  /** The capsules of these turns, in order. */
  function SentBy(loads: seq<Load>): (cs: seq<Raw>)
  {
    if loads == [] then [] else SentBy(loads[..|loads| - 1]) + SentIn(loads[|loads| - 1])
  }

  function GatheredIn(load: Load): (packets: seq<Packet>)
  {
    match load
    case Control(_) => []
    case Batch(ps) => ps
  }

  /** The packets taken off the queue in these turns, in order. */
  function GatheredBy(loads: seq<Load>): (packets: seq<Packet>)
  {
    if loads == [] then [] else GatheredBy(loads[..|loads| - 1]) + GatheredIn(loads[|loads| - 1])
  }

  class Sender {
    var outbound: seq<Packet>
    var control: seq<SenderMsg>
    var wire: seq<byte>
    var closed: bool
    /** The capsules sent so far, the turns that sent them, and all packets that were ever queued. */
    ghost var sent: seq<Raw>
    ghost var loads: seq<Load>
    ghost var queued: seq<Packet>

    ghost predicate Valid()
      reads this
    {
      && AllFit(outbound) && AllEncodable(sent)
      && (forall i :: 0 <= i < |control| && control[i].Framed? ==> Encodable(control[i].capsule))
      && wire == EncodeAll(sent) && sent == SentBy(loads)
      && GatheredBy(loads) <= queued && (!closed ==> GatheredBy(loads) + outbound == queued)
    }

    constructor ()
      ensures Valid() && sent == [] && queued == [] && control == [] && !closed
    {
      outbound, control, wire, closed, sent := [], [], [], false, [];
      loads, queued := [], [];
    }

    /** A packet from the network stack. */
    method Queue(packet: Packet)
      requires Valid() && !closed && |packet| <= MAX_VARINT
      modifies this`outbound, this`queued
      ensures Valid() && outbound == old(outbound) + [packet] && queued == old(queued) + [packet]
    {
      outbound := outbound + [packet];
      queued := queued + [packet];
    }

    /** The packets queued behind one another, gathered until the batch is long enough. */
    method Gather() returns (batch: seq<byte>, ghost taken: nat)
      requires AllFit(outbound) && outbound != []
      modifies this`outbound
      ensures 1 <= taken <= |old(outbound)| && outbound == old(outbound)[taken..]
      ensures AllEncodable(Datagrams(old(outbound)[..taken]))
      ensures batch == EncodeAll(Datagrams(old(outbound)[..taken]))
      ensures outbound == [] || |batch| >= SEND_BATCH_BYTES
      ensures |EncodeAll(Datagrams(old(outbound)[..taken - 1]))| < SEND_BATCH_BYTES
    {
      ghost var all := outbound;
      taken := 1;
      BatchOfOne(all);
      batch := Append([], Raw(DATAGRAM, outbound[0]));
      outbound := outbound[1..];
      hide EncodeAll, Datagrams, Encode;
      while |batch| < SEND_BATCH_BYTES && |outbound| > 0
        invariant 1 <= taken <= |all| && outbound == all[taken..]
        invariant AllEncodable(Datagrams(all[..taken])) && batch == EncodeAll(Datagrams(all[..taken]))
        invariant AllEncodable(Datagrams(all[..taken - 1]))
        invariant |EncodeAll(Datagrams(all[..taken - 1]))| < SEND_BATCH_BYTES
        decreases |outbound|
      {
        BatchNext(all, taken);
        batch := Append(batch, Raw(DATAGRAM, outbound[0]));
        outbound := outbound[1..];
        taken := taken + 1;
      }
    }

    /** A control message. */
    method SendControl(ok: bool)
      requires Valid() && !closed && control != []
      modifies this
      ensures Valid() && queued == old(queued)
      ensures outbound == old(outbound) && control == old(control)[1..]
      ensures old(control)[0].Finish? ==> closed && sent == old(sent)
      ensures old(control)[0].Framed? ==>
        closed == !ok && sent == if ok then old(sent) + [old(control)[0].capsule] else old(sent)
    {
      hide EncodeAll, Datagrams, Encode, SentBy, GatheredBy;
      var msg := control[0];
      control := control[1..];
      if msg.Finish? {
        closed := true;
      } else if ok {
        AppendOne(sent, msg.capsule);
        LoadNext(loads, Control(msg.capsule));
        var framed := Append([], msg.capsule);
        wire, sent, loads := wire + framed, sent + [msg.capsule], loads + [Control(msg.capsule)];
      } else {
        closed := true;
      }
    }

    /** A batch of packets. */
    method SendBatch(ok: bool)
      requires Valid() && !closed && outbound != []
      modifies this
      ensures Valid() && queued == old(queued) && control == old(control) && closed == !ok
      ensures |outbound| < |old(outbound)|
      ensures
        var taken := |old(outbound)| - |outbound|;
        && outbound == old(outbound)[taken..]
        && sent == (if ok then old(sent) + Datagrams(old(outbound)[..taken]) else old(sent))
        && AllEncodable(Datagrams(old(outbound)[..taken - 1]))
        && |EncodeAll(Datagrams(old(outbound)[..taken - 1]))| < SEND_BATCH_BYTES
    {
      hide EncodeAll, Datagrams, Encode, SentBy, GatheredBy;
      ghost var all := outbound;
      var batch;
      ghost var taken;
      batch, taken := Gather();
      assert all == all[..taken] + all[taken..];
      if ok {
        Capsules.EncodeAllAppend(sent, Datagrams(all[..taken]));
        LoadNext(loads, Batch(all[..taken]));
        wire, sent, loads := wire + batch, sent + Datagrams(all[..taken]), loads + [Batch(all[..taken])];
      } else {
        closed := true;
      }
    }

    /** One turn of the send loop: a control message first, else a batch of packets. `ok` is whether
        the stream took what was written. */
    method Turn(ok: bool)
      requires Valid() && !closed && (control != [] || outbound != [])
      modifies this
      ensures Valid() && queued == old(queued)
      ensures old(control) != [] ==> outbound == old(outbound) && control == old(control)[1..]
      ensures old(control) != [] && old(control)[0].Finish? ==> closed && sent == old(sent)
      ensures old(control) != [] && old(control)[0].Framed? ==>
        closed == !ok && sent == if ok then old(sent) + [old(control)[0].capsule] else old(sent)
      ensures old(control) == [] ==>
        && control == [] && closed == !ok
        && |outbound| < |old(outbound)|
        && var taken := |old(outbound)| - |outbound|;
           && outbound == old(outbound)[taken..]
           && sent == (if ok then old(sent) + Datagrams(old(outbound)[..taken]) else old(sent))
           && AllEncodable(Datagrams(old(outbound)[..taken - 1]))
           && |EncodeAll(Datagrams(old(outbound)[..taken - 1]))| < SEND_BATCH_BYTES
    {
      hide EncodeAll, Datagrams, Encode, SentBy, GatheredBy;
      if |control| > 0 {
        SendControl(ok);
      } else {
        SendBatch(ok);
      }
    }
  }

  lemma LoadNext(loads: seq<Load>, load: Load)
    ensures SentBy(loads + [load]) == SentBy(loads) + SentIn(load)
    ensures GatheredBy(loads + [load]) == GatheredBy(loads) + GatheredIn(load)
  {
    assert (loads + [load])[..|loads|] == loads;
  }

  lemma AppendOne(cs: seq<Raw>, c: Raw)
    requires AllEncodable(cs) && Encodable(c)
    ensures AllEncodable(cs + [c]) && EncodeAll(cs + [c]) == EncodeAll(cs) + Encode(c)
  {
    Capsules.EncodeAllAppend(cs, [c]);
    assert EncodeAll([c]) == Encode(c) + EncodeAll([c][1..]);
  }

  lemma BatchOfOne(all: seq<Packet>)
    requires AllFit(all) && all != []
    ensures AllEncodable(Datagrams(all[..1])) && EncodeAll(Datagrams(all[..1])) == [] + Encode(Raw(DATAGRAM, all[0]))
    ensures AllEncodable(Datagrams(all[..0])) && EncodeAll(Datagrams(all[..0])) == []
  {
    assert Datagrams(all[..1]) == [] + [Raw(DATAGRAM, all[0])];
    AppendOne([], Raw(DATAGRAM, all[0]));
  }

  lemma BatchNext(all: seq<Packet>, n: nat)
    requires AllFit(all) && n < |all| && AllEncodable(Datagrams(all[..n]))
    ensures AllEncodable(Datagrams(all[..n + 1]))
    ensures EncodeAll(Datagrams(all[..n + 1])) == EncodeAll(Datagrams(all[..n])) + Encode(Raw(DATAGRAM, all[n]))
  {
    assert Datagrams(all[..n + 1]) == Datagrams(all[..n]) + [Raw(DATAGRAM, all[n])];
    AppendOne(Datagrams(all[..n]), Raw(DATAGRAM, all[n]));
  }

  // ---- receiving ----

  datatype Drained = Drained(packets: seq<Packet>, rest: seq<byte>)

  function Offered(c: Raw): (packets: seq<Packet>)
  {
    if c.kind == DATAGRAM && Strip(c.value).Some? then [Strip(c.value).value] else []
  }

  /** What draining a buffer offers to the inbound queue, and what it leaves: a capsule whose value
      is malformed ends it. */
  function Drain(buf: seq<byte>): (d: Drained)
    decreases |buf|
  {
    match Take(buf)
    case None => Drained([], buf)
    case Some(t) =>
      if Interpret(t.raw).Err? then Drained([], t.rest)
      else
        var d := Drain(t.rest);
        Drained(Offered(t.raw) + d.packets, d.rest)
  }

  /** What of `offered` a queue with this much room keeps. */
  function Kept(offered: seq<Packet>, room: nat): (kept: seq<Packet>)
    ensures |kept| <= room
  {
    if |offered| <= room then offered else offered[..room]
  }

  /** `a` is `b` with some packets left out. */
  predicate Thinned(a: seq<Packet>, b: seq<Packet>)
    decreases |b|
  {
    if b == [] then a == []
    else
      || Thinned(a, b[..|b| - 1])
      || (a != [] && a[|a| - 1] == b[|b| - 1] && Thinned(a[..|a| - 1], b[..|b| - 1]))
  }

  class Inbound {
    const parser: CapsuleParser
    const capacity: nat
    var queue: seq<Packet>
    /** The packets offered to the queue and those its consumer took, and whether one found it full. */
    ghost var offered: seq<Packet>
    ghost var taken: seq<Packet>
    ghost var full: bool

    ghost predicate Valid()
      reads this
    {
      && |queue| <= capacity
      && Thinned(taken + queue, offered)
      && (!full ==> taken + queue == offered)
    }

    constructor (capacity: nat)
      ensures Valid() && this.capacity == capacity && queue == [] && fresh(parser) && parser.buf == []
      ensures offered == [] && taken == [] && !full
    {
      this.capacity, queue, offered, taken, full := capacity, [], [], [], false;
      parser := new CapsuleParser();
    }

    /** `drain_capsules`: packets go to the queue while it has room and are dropped when it has not. */
    method DrainCapsules() returns (delivered: bool)
      requires |queue| <= capacity
      modifies this`queue, parser
      ensures parser.buf == Drain(old(parser.buf)).rest
      ensures
        var packets := Drain(old(parser.buf)).packets;
        && queue == old(queue) + Kept(packets, capacity - |old(queue)|)
        && delivered == (packets != [])
    {
      hide Take, Interpret, Strip, Drain, Kept;
      ghost var offered := [];
      QueuedNone(capacity - |queue|);
      delivered := false;
      while true
        invariant |queue| <= capacity
        invariant offered + Drain(parser.buf).packets == Drain(old(parser.buf)).packets
        invariant Drain(parser.buf).rest == Drain(old(parser.buf)).rest
        invariant queue == old(queue) + Kept(offered, capacity - |old(queue)|)
        invariant delivered == (offered != [])
        decreases |parser.buf|
      {
        ghost var before := parser.buf;
        var next := parser.Next();
        DrainStep(before);
        if next.Err? || next.value.None? {
          assert offered + [] == offered;
          break;
        }
        var capsule := next.value.value;
        if capsule.Datagram? && Strip(capsule.payload).Some? {
          var packet := Strip(capsule.payload).value;
          delivered := true;
          if |queue| < capacity {
            queue := queue + [packet];
          }
          Queued(offered, packet, capacity - |old(queue)|);
          offered := offered + [packet];
        }
      }
    }

    /** A chunk off the stream. */
    method Receive(chunk: seq<byte>) returns (delivered: bool)
      requires Valid()
      modifies this, parser
      ensures Valid() && taken == old(taken)
      ensures
        var d := Drain(Pushed(old(parser.buf), chunk));
        && parser.buf == d.rest
        && queue == old(queue) + Kept(d.packets, capacity - |old(queue)|)
        && delivered == (d.packets != [])
        && offered == old(offered) + d.packets
        && full == (old(full) || |old(queue)| + |d.packets| > capacity)
    {
      hide Drain, Thinned;
      parser.Push(chunk);
      ghost var packets := Drain(parser.buf).packets;
      ghost var kept := Kept(packets, capacity - |queue|);
      Thinner(taken + queue, offered, kept, packets);
      assert (taken + queue) + kept == taken + (queue + kept);
      offered, full := offered + packets, full || |queue| + |packets| > capacity;
      assert !full ==> kept == packets;
      delivered := DrainCapsules();
    }

    /** The consumer takes up to `n` packets, from the front. */
    method Consume(n: nat) returns (packets: seq<Packet>)
      requires Valid()
      modifies this`queue, this`taken
      ensures Valid() && old(queue) == packets + queue && taken == old(taken) + packets
      ensures |packets| == n || queue == []
    {
      packets := if n < |queue| then queue[..n] else queue;
      queue := queue[|packets|..];
      taken := taken + packets;
      assert taken + queue == old(taken + queue);
    }

    /** Chunk after chunk, with the consumer taking some packets after each: what was taken and what is
        still queued are the packets received, in order, with some left out only if the queue was full. */
    method Run(chunks: seq<seq<byte>>, takes: seq<nat>)
      requires Valid() && |takes| == |chunks|
      modifies this, parser
      ensures Valid()
      ensures offered == old(offered) + Received(old(parser.buf), chunks)
    {
      hide Drain, Thinned, Kept;
      assert chunks[0..] == chunks;
      for i := 0 to |chunks|
        invariant Valid()
        invariant offered + Received(parser.buf, chunks[i..]) == old(offered) + Received(old(parser.buf), chunks)
      {
        ghost var buf, had := parser.buf, offered;
        var delivered := Receive(chunks[i]);
        var packets := Consume(takes[i]);
        ReceivedStep(buf, chunks[i..]);
        assert chunks[i..][1..] == chunks[i + 1..];
        assert (had + Drain(Pushed(buf, chunks[i])).packets) + Received(parser.buf, chunks[i + 1..]) ==
          had + (Drain(Pushed(buf, chunks[i])).packets + Received(parser.buf, chunks[i + 1..]));
      }
    }
  }

  lemma ReceivedStep(buf: seq<byte>, chunks: seq<seq<byte>>)
    requires chunks != []
    ensures
      var d := Drain(Pushed(buf, chunks[0]));
      Received(buf, chunks) == d.packets + Received(d.rest, chunks[1..])
  {
  }

  lemma {:induction false} Thinner(a: seq<Packet>, b: seq<Packet>, kept: seq<Packet>, more: seq<Packet>)
    requires Thinned(a, b) && kept <= more
    ensures Thinned(a + kept, b + more)
    decreases |more|
  {
    if more == [] {
      assert a + kept == a && b + more == b;
    } else {
      var last := |more| - 1;
      assert (b + more)[..|b| + last] == b + more[..last];
      if |kept| == |more| {
        Thinner(a, b, kept[..last], more[..last]);
        assert (a + kept)[..|a| + last] == a + kept[..last];
      } else {
        Thinner(a, b, kept, more[..last]);
      }
    }
  }

  lemma DrainStep(buf: seq<byte>)
    ensures
      match Take(buf)
      case None => Drain(buf) == Drained([], buf)
      case Some(t) =>
        match Interpret(t.raw)
        case Err(_) => Drain(buf) == Drained([], t.rest)
        case Ok(c) =>
          var offered := if c.Datagram? && Strip(c.payload).Some? then [Strip(c.payload).value] else [];
          Drain(buf) == Drained(offered + Drain(t.rest).packets, Drain(t.rest).rest)
  {
    hide Take, Strip;
  }

  lemma Queued(offered: seq<Packet>, packet: Packet, room: nat)
    ensures
      var was := Kept(offered, room);
      Kept(offered + [packet], room) == if |was| < room then was + [packet] else was
  {
  }

  lemma QueuedNone(room: nat)
    ensures Kept([], room) == []
  {
  }

  function Pushed(buf: seq<byte>, chunk: seq<byte>): (b: seq<byte>)
  {
    if |buf| + |chunk| > MAX_CAPSULE_BUF then [] else buf + chunk
  }

  // ---- end to end ----

  predicate AllParse(cs: seq<Raw>) {
    forall i :: 0 <= i < |cs| ==> Interpret(cs[i]).Ok?
  }

  /** The packets the capsules `cs` offer, in order. */
  function Packets(cs: seq<Raw>): (packets: seq<Packet>)
  {
    if cs == [] then [] else Offered(cs[0]) + Packets(cs[1..])
  }

  /** How many of the capsules `cs` have come whole in their first `n` bytes. */
  function WholeIn(cs: seq<Raw>, n: nat): (k: nat)
    requires AllEncodable(cs)
    ensures k <= |cs|
    decreases |cs|
  {
    if cs == [] || |Encode(cs[0])| > n then 0 else 1 + WholeIn(cs[1..], n - |Encode(cs[0])|)
  }

  /** The first of the capsules that cannot be interpreted. */
  function FirstBad(cs: seq<Raw>): (j: nat)
    ensures j <= |cs|
    ensures forall i :: 0 <= i < j ==> Interpret(cs[i]).Ok?
    ensures j < |cs| ==> Interpret(cs[j]).Err?
  {
    if cs == [] || Interpret(cs[0]).Err? then 0 else 1 + FirstBad(cs[1..])
  }

  /** How many of them one draining takes: those that have come whole, up to the first bad one. */
  function Drains(cs: seq<Raw>, n: nat): (m: nat)
    requires AllEncodable(cs)
    ensures m <= WholeIn(cs, n)
  {
    var k := WholeIn(cs, n);
    if FirstBad(cs) < k then FirstBad(cs) + 1 else k
  }

  /** What a receiver offers to its queue chunk by chunk. */
  function Received(buf: seq<byte>, chunks: seq<seq<byte>>): (packets: seq<Packet>)
    decreases |chunks|
  {
    if chunks == [] then []
    else
      var d := Drain(Pushed(buf, chunks[0]));
      d.packets + Received(d.rest, chunks[1..])
  }

  /** A chunk that would make the buffer too long is lost with everything in it; what comes next is read afresh. */
  lemma OverflowStartsAfresh(buf: seq<byte>, chunk: seq<byte>, chunks: seq<seq<byte>>)
    requires |buf| + |chunk| > MAX_CAPSULE_BUF
    ensures Received(buf, [chunk] + chunks) == Received([], chunks)
  {
    assert ([chunk] + chunks)[1..] == chunks;
    assert Drain([]) == Drained([], []);
    assert [] + Received([], chunks) == Received([], chunks);
  }

  function Flatten(chunks: seq<seq<byte>>): (b: seq<byte>)
  {
    if chunks == [] then [] else chunks[0] + Flatten(chunks[1..])
  }

  /** A capsule is not taken before its last byte is there. */
  lemma NotBeforeItsEnd(c: Raw, rest: seq<byte>, b: seq<byte>)
    requires Encodable(c) && b <= Encode(c) + rest && |b| < |Encode(c)|
    ensures Take(b).None?
  {
    var all := Encode(c) + rest;
    assert b + all[|b|..] == all;
    CapsuleRoundTrip(c, rest);
    hide Take, Encode;
    if Take(b).Some? {
      TakeOfPrefix(b, all[|b|..]);
      assert false;
    }
  }

  /** Draining a first part of the wire offers the packets of the whole capsules in it, in order and up to
      the first that cannot be interpreted, and leaves what is behind them. */
  lemma {:induction false} DrainPrefix(cs: seq<Raw>, b: seq<byte>)
    requires AllEncodable(cs) && b <= EncodeAll(cs)
    ensures
      var m := Drains(cs, |b|);
      && |EncodeAll(cs[..m])| <= |b|
      && Drain(b) == Drained(Packets(cs[..m]), b[|EncodeAll(cs[..m])|..])
    decreases |cs|
  {
    hide Take, Encode, EncodeAll, Interpret, Offered, Drains;
    if cs == [] {
      EmptyHasNone();
      EncodeNone(cs);
    } else {
      var c, more := cs[0], EncodeAll(cs[1..]);
      DrainsStep(cs, |b|);
      EncodeCons(cs);
      if |b| < |Encode(c)| {
        NotBeforeItsEnd(c, more, b);
        EncodeNone(cs);
      } else {
        var b' := b[|Encode(c)|..];
        assert b == Encode(c) + b' && b' <= more;
        CapsuleRoundTrip(c, b');
        if Interpret(c).Err? {
          BadOffersNothing(c);
          assert cs[..1] == [c];
          OneCapsule(c);
        } else {
          DrainPrefix(cs[1..], b');
          var m := Drains(cs[1..], |b'|);
          EncodeFirst(cs, m);
          assert cs[..m + 1][1..] == cs[1..][..m];
        }
      }
    }
  }

  lemma DrainsStep(cs: seq<Raw>, n: nat)
    requires AllEncodable(cs) && cs != []
    ensures |Encode(cs[0])| > n ==> Drains(cs, n) == 0
    ensures |Encode(cs[0])| <= n && Interpret(cs[0]).Err? ==> Drains(cs, n) == 1
    ensures |Encode(cs[0])| <= n && Interpret(cs[0]).Ok? ==> Drains(cs, n) == 1 + Drains(cs[1..], n - |Encode(cs[0])|)
  {
    hide Encode, Interpret;
  }

  lemma EncodeCons(cs: seq<Raw>)
    requires AllEncodable(cs) && cs != []
    ensures EncodeAll(cs) == Encode(cs[0]) + EncodeAll(cs[1..])
  {
  }

  /** What cannot be interpreted is no datagram. */
  lemma BadOffersNothing(c: Raw)
    requires Interpret(c).Err?
    ensures Offered(c) == []
  {
  }

  lemma OneCapsule(c: Raw)
    requires Encodable(c)
    ensures EncodeAll([c]) == Encode(c) && Packets([c]) == Offered(c)
  {
    assert [c][1..] == [];
  }

  lemma EmptyHasNone()
    ensures Take([]).None?
  {
  }

  lemma WholeInSplit(cs: seq<Raw>, m: nat, n: nat)
    requires AllEncodable(cs) && m <= n
    ensures
      var k := WholeIn(cs, m);
      && |EncodeAll(cs[..k])| <= m
      && WholeIn(cs, n) == k + WholeIn(cs[k..], n - |EncodeAll(cs[..k])|)
      && WholeIn(cs[k..], m - |EncodeAll(cs[..k])|) == 0
  {
    hide WholeIn, EncodeAll;
    WholeGrows(cs, m, n);
    StillWhole(cs, m, WholeIn(cs, m));
    StillWhole(cs, n, WholeIn(cs, m));
  }

  lemma EncodeNone(cs: seq<Raw>)
    ensures EncodeAll(cs[..0]) == []
  {
  }

  lemma EncodeFirst(cs: seq<Raw>, k: nat)
    requires AllEncodable(cs) && k < |cs|
    ensures EncodeAll(cs[..k + 1]) == Encode(cs[0]) + EncodeAll(cs[1..][..k])
  {
    assert cs[..k + 1][1..] == cs[1..][..k];
  }

  lemma {:induction false} PacketsAppend(cs: seq<Raw>, ds: seq<Raw>)
    ensures Packets(cs + ds) == Packets(cs) + Packets(ds)
  {
    hide Offered;
    if cs == [] {
      assert cs + ds == ds;
    } else {
      assert (cs + ds)[1..] == cs[1..] + ds;
      PacketsAppend(cs[1..], ds);
    }
  }

  predicate Small(cs: seq<Raw>) {
    forall i :: 0 <= i < |cs| ==> |cs[i].value| <= 65535
  }

  lemma EncodedLen(c: Raw)
    requires Encodable(c) && |c.value| <= 65535
    ensures |Encode(c)| <= 65535 + 16
  {
    CapsuleRoundTrip(c, []);
  }

  /** No push finds the buffer too long. */
  predicate NeverReset(buf: seq<byte>, chunks: seq<seq<byte>>)
    decreases |chunks|
  {
    chunks != [] ==>
      && |buf| + |chunks[0]| <= MAX_CAPSULE_BUF
      && NeverReset(Drain(buf + chunks[0]).rest, chunks[1..])
  }

  /** Whatever the batching and however the stream cuts it up, the receiver has offered exactly the
      packets of the capsules that have come whole, in order; the buffer is never reset. */
  lemma {:induction false} TunnelDelivers(cs: seq<Raw>, buf: seq<byte>, chunks: seq<seq<byte>>)
    requires AllEncodable(cs) && AllParse(cs) && Small(cs)
    requires forall i :: 0 <= i < |chunks| ==> |chunks[i]| <= MAX_FRAME_SIZE
    requires buf + Flatten(chunks) <= EncodeAll(cs) && WholeIn(cs, |buf|) == 0
    ensures Received(buf, chunks) == Packets(cs[..WholeIn(cs, |buf + Flatten(chunks)|)])
    ensures NeverReset(buf, chunks)
    decreases |chunks|
  {
    hide Encode, EncodeAll, Drain, WholeIn, Packets, AllEncodable, AllParse, Interpret;
    if chunks == [] {
      assert buf + Flatten(chunks) == buf;
      NoPackets(cs);
    } else {
      var b, more := buf + chunks[0], Flatten(chunks[1..]);
      assert buf + Flatten(chunks) == b + more;
      BufferIsShort(cs, buf);
      DrainPrefix(cs, b);
      NoneIsBad(cs);
      var k := WholeIn(cs, |b|);
      Parts(cs, k);
      var r := b[|EncodeAll(cs[..k])|..];
      WholeInSplit(cs, |b|, |b| + |more|);
      RestOfWire(EncodeAll(cs[..k]), EncodeAll(cs[k..]), b, more);
      TunnelDelivers(cs[k..], r, chunks[1..]);
      PartPackets(cs, k, WholeIn(cs[k..], |r + more|));
    }
  }

  lemma NoneIsBad(cs: seq<Raw>)
    requires AllParse(cs)
    ensures FirstBad(cs) == |cs|
  {
  }

  lemma NoPackets(cs: seq<Raw>)
    ensures Packets(cs[..0]) == []
  {
  }

  lemma Parts(cs: seq<Raw>, k: nat)
    requires AllEncodable(cs) && AllParse(cs) && Small(cs) && k <= |cs|
    ensures AllEncodable(cs[..k]) && AllEncodable(cs[k..]) && AllParse(cs[k..]) && Small(cs[k..])
    ensures EncodeAll(cs) == EncodeAll(cs[..k]) + EncodeAll(cs[k..])
  {
    hide Encode, Encodable, Interpret, EncodeAll;
    AllParts(cs, k);
  }

  lemma PartPackets(cs: seq<Raw>, k: nat, j: nat)
    requires k <= |cs| && j <= |cs| - k
    ensures Packets(cs[..k + j]) == Packets(cs[..k]) + Packets(cs[k..][..j])
  {
    assert cs[..k + j] == cs[..k] + cs[k..][..j];
    PacketsAppend(cs[..k], cs[k..][..j]);
  }

  lemma RestOfWire(a: seq<byte>, rest: seq<byte>, b: seq<byte>, more: seq<byte>)
    requires b + more <= a + rest && |a| <= |b|
    ensures b[|a|..] + more <= rest
  {
    assert (b + more)[|a|..] == b[|a|..] + more;
    assert (a + rest)[|a|..] == rest;
  }

  lemma BufferIsShort(cs: seq<Raw>, buf: seq<byte>)
    requires AllEncodable(cs) && Small(cs) && buf <= EncodeAll(cs) && WholeIn(cs, |buf|) == 0
    ensures |buf| <= 65535 + 16
  {
    if cs != [] { EncodedLen(cs[0]); }
    hide Encode;
  }

  lemma {:induction false} WholeInAll(cs: seq<Raw>)
    requires AllEncodable(cs)
    ensures WholeIn(cs, |EncodeAll(cs)|) == |cs|
    decreases |cs|
  {
    hide Encode;
    if cs != [] { WholeInAll(cs[1..]); }
  }

  predicate Clear(p: Packet) {
    LooksLikeIp(p) && !Ambiguous(p) && |p| <= 65535
  }

  lemma {:induction false} PacketsOfDatagrams(ps: seq<Packet>)
    requires forall i :: 0 <= i < |ps| ==> Clear(ps[i])
    ensures Packets(Datagrams(ps)) == ps
  {
    if ps != [] {
      BarePacket(ps[0]);
      assert Datagrams(ps)[1..] == Datagrams(ps[1..]);
      PacketsOfDatagrams(ps[1..]);
    }
  }

  /** The packets that arrive of one turn: a probe sent as control counts as one. */
  function PacketsIn(load: Load): (packets: seq<Packet>)
  {
    match load
    case Control(c) => Offered(c)
    case Batch(ps) => ps
  }

  function PacketsBy(loads: seq<Load>): (packets: seq<Packet>)
  {
    if loads == [] then [] else PacketsBy(loads[..|loads| - 1]) + PacketsIn(loads[|loads| - 1])
  }

  /** A control capsule that can be interpreted, or a batch of packets that come back as they are. */
  predicate Deliverable(load: Load) {
    match load
    case Control(c) => Encodable(c) && Interpret(c).Ok? && |c.value| <= 65535
    case Batch(ps) => forall i :: 0 <= i < |ps| ==> Clear(ps[i])
  }

  lemma LoadIsGood(load: Load)
    requires Deliverable(load)
    ensures AllEncodable(SentIn(load)) && AllParse(SentIn(load)) && Small(SentIn(load))
    ensures Packets(SentIn(load)) == PacketsIn(load)
  {
    match load
    case Control(c) => OneCapsule(c);
    case Batch(ps) => PacketsOfDatagrams(ps);
  }

  lemma {:induction false} LoadsAreGood(loads: seq<Load>)
    requires forall i :: 0 <= i < |loads| ==> Deliverable(loads[i])
    ensures AllEncodable(SentBy(loads)) && AllParse(SentBy(loads)) && Small(SentBy(loads))
    ensures Packets(SentBy(loads)) == PacketsBy(loads)
  {
    hide Deliverable, SentIn, PacketsIn, Packets, Interpret, Encodable;
    if loads == [] {
      NoPackets([]);
    } else {
      var before, last := loads[..|loads| - 1], loads[|loads| - 1];
      LoadsAreGood(before);
      LoadIsGood(last);
      PacketsAppend(SentBy(before), SentIn(last));
    }
  }

  /** Whatever the batches and the control capsules between them, and however the stream cuts the bytes up:
      the packets sent are the packets received, in order, and the buffer is never reset. */
  lemma PacketsArrive(loads: seq<Load>, chunks: seq<seq<byte>>)
    requires forall i :: 0 <= i < |loads| ==> Deliverable(loads[i])
    requires forall i :: 0 <= i < |chunks| ==> |chunks[i]| <= MAX_FRAME_SIZE
    requires AllEncodable(SentBy(loads)) && Flatten(chunks) == EncodeAll(SentBy(loads))
    ensures Received([], chunks) == PacketsBy(loads)
    ensures NeverReset([], chunks)
  {
    var cs := SentBy(loads);
    LoadsAreGood(loads);
    NothingInNothing(cs);
    hide Encode, EncodeAll, WholeIn, Deliverable, SentBy, PacketsBy, Received, AllParse, Small, Packets, NeverReset;
    assert [] + Flatten(chunks) == EncodeAll(cs);
    TunnelDelivers(cs, [], chunks);
    WholeInAll(cs);
    assert cs[..|cs|] == cs;
  }

  lemma NothingInNothing(cs: seq<Raw>)
    requires AllEncodable(cs)
    ensures WholeIn(cs, 0) == 0
  {
    if cs != [] { CapsuleRoundTrip(cs[0], []); }
  }

  /** From one end to the other: when the stream delivers all that a sender wrote, cut up in any way, the
      packets the consumer took and those still queued are the packets sent, in order; if the queue was full
      at some time, some of them are missing. */
  method Carry(sender: Sender, inbound: Inbound, chunks: seq<seq<byte>>, takes: seq<nat>)
    requires sender.Valid() && forall i :: 0 <= i < |sender.loads| ==> Deliverable(sender.loads[i])
    requires inbound.Valid() && inbound.offered == [] && inbound.parser.buf == []
    requires Flatten(chunks) == sender.wire && |takes| == |chunks|
    requires forall i :: 0 <= i < |chunks| ==> |chunks[i]| <= MAX_FRAME_SIZE
    modifies inbound, inbound.parser
    ensures Thinned(inbound.taken + inbound.queue, PacketsBy(sender.loads))
    ensures !inbound.full ==> inbound.taken + inbound.queue == PacketsBy(sender.loads)
  {
    hide Deliverable, Thinned, SentBy, PacketsBy, Received, NeverReset, EncodeAll;
    PacketsArrive(sender.loads, chunks);
    inbound.Run(chunks, takes);
    assert [] + PacketsBy(sender.loads) == PacketsBy(sender.loads);
  }

  // ---- capsules that cannot be interpreted ----

  /** One draining takes every capsule that has come whole exactly when all of them but perhaps the last can
      be interpreted: a malformed address or route capsule holds up what is behind it. */
  lemma MalformedStalls(cs: seq<Raw>, b: seq<byte>)
    requires AllEncodable(cs) && b <= EncodeAll(cs)
    ensures
      var k, j, m := WholeIn(cs, |b|), FirstBad(cs), Drains(cs, |b|);
      && m == (if j < k then j + 1 else k) && |EncodeAll(cs[..m])| <= |b|
      && Drain(b) == Drained(Packets(cs[..if j < k then j else k]), b[|EncodeAll(cs[..m])|..])
      && WholeIn(cs[m..], |Drain(b).rest|) == k - m
      && (WholeIn(cs[m..], |Drain(b).rest|) == 0 <==> forall i :: 0 <= i < k - 1 ==> Interpret(cs[i]).Ok?)
  {
    hide Encode, EncodeAll, Drain, WholeIn, Packets, Interpret, Offered;
    var k, j, m := WholeIn(cs, |b|), FirstBad(cs), Drains(cs, |b|);
    DrainPrefix(cs, b);
    StillWhole(cs, |b|, m);
    if j < k {
      assert cs[..j + 1] == cs[..j] + [cs[j]];
      PacketsAppend(cs[..j], [cs[j]]);
      OneCapsule(cs[j]);
      BadOffersNothing(cs[j]);
      assert Packets(cs[..j]) + [] == Packets(cs[..j]);
    }
  }

  lemma {:induction false} StillWhole(cs: seq<Raw>, n: nat, m: nat)
    requires AllEncodable(cs) && m <= WholeIn(cs, n)
    ensures |EncodeAll(cs[..m])| <= n
    ensures WholeIn(cs[m..], n - |EncodeAll(cs[..m])|) == WholeIn(cs, n) - m
    decreases m
  {
    hide Encode, EncodeAll, Encodable;
    if m == 0 {
      EncodeNone(cs);
      assert cs[0..] == cs;
    } else {
      StillWhole(cs[1..], n - |Encode(cs[0])|, m - 1);
      EncodeFirst(cs, m - 1);
      assert cs[m..] == cs[1..][m - 1..];
    }
  }

  /** Whatever the capsules, interpretable or not: unless the buffer is reset, what the receiver has offered
      is at every moment the packets of some first part of the capsules that have come whole. */
  lemma {:induction false} NothingOutOfOrder(cs: seq<Raw>, buf: seq<byte>, chunks: seq<seq<byte>>) returns (p: nat)
    requires AllEncodable(cs) && buf + Flatten(chunks) <= EncodeAll(cs) && NeverReset(buf, chunks)
    ensures p <= WholeIn(cs, |buf + Flatten(chunks)|) && Received(buf, chunks) == Packets(cs[..p])
    decreases |chunks|
  {
    hide Encode, EncodeAll, Drain, Drains, WholeIn, Packets, AllEncodable, NeverReset, Received, Flatten, Pushed;
    p := 0;
    if chunks == [] {
      NoPackets(cs);
      assert Received(buf, chunks) == [] by { NothingReceived(buf); }
    } else {
      NeverResetStep(buf, chunks);
      var b, more := buf + chunks[0], Flatten(chunks[1..]);
      ReceivedStep(buf, chunks);
      FlattenStep(buf, chunks);
      DrainPrefix(cs, b);
      WholeGrows(cs, |b|, |b| + |more|);
      var m := Drains(cs, |b|);
      AllParts(cs, m);
      var r := b[|EncodeAll(cs[..m])|..];
      RestOfWire(EncodeAll(cs[..m]), EncodeAll(cs[m..]), b, more);
      var q := NothingOutOfOrder(cs[m..], r, chunks[1..]);
      StillWhole(cs, |b| + |more|, m);
      PartPackets(cs, m, q);
      p := m + q;
    }
  }

  lemma NothingReceived(buf: seq<byte>)
    ensures Received(buf, []) == []
  {
  }

  lemma FlattenStep(buf: seq<byte>, chunks: seq<seq<byte>>)
    requires chunks != []
    ensures buf + Flatten(chunks) == (buf + chunks[0]) + Flatten(chunks[1..])
  {
  }

  lemma NeverResetStep(buf: seq<byte>, chunks: seq<seq<byte>>)
    requires chunks != [] && NeverReset(buf, chunks)
    ensures Pushed(buf, chunks[0]) == buf + chunks[0] && NeverReset(Drain(buf + chunks[0]).rest, chunks[1..])
  {
  }

  lemma {:induction false} WholeGrows(cs: seq<Raw>, m: nat, n: nat)
    requires AllEncodable(cs) && m <= n
    ensures WholeIn(cs, m) <= WholeIn(cs, n)
    decreases |cs|
  {
    hide Encode;
    if cs != [] && |Encode(cs[0])| <= m {
      WholeGrows(cs[1..], m - |Encode(cs[0])|, n - |Encode(cs[0])|);
    }
  }

  lemma AllParts(cs: seq<Raw>, k: nat)
    requires AllEncodable(cs) && k <= |cs|
    ensures AllEncodable(cs[..k]) && AllEncodable(cs[k..])
    ensures EncodeAll(cs) == EncodeAll(cs[..k]) + EncodeAll(cs[k..])
  {
    hide Encode, Encodable, EncodeAll;
    assert cs == cs[..k] + cs[k..];
    Capsules.EncodeAllAppend(cs[..k], cs[k..]);
  }
}
