/** The sending side of a session: frames are gathered, split into scheduled packets and followed
    by padding, on a connection that may fail at any byte. */
module Writer {
  import opened Bytes
  import opened Frames

  const CHECK_MARK := -1

  /** The byte stream to the peer. A failed write may leave any part of its bytes behind and the
      connection never recovers, as with TLS. */
  class Conn {
    var wire: seq<byte>
    var packets: seq<nat>
    var broken: bool

    constructor ()
      ensures wire == [] && packets == [] && !broken
    {
      wire, packets, broken := [], [], false;
    }

    method Write(b: seq<byte>) returns (n: nat, ok: bool)
      modifies this
      ensures ok ==> !old(broken) && !broken && n == |b|
      ensures !ok ==> broken && n <= |b|
      ensures wire == old(wire) + b[..n]
      ensures old(broken) ==> n == 0
      ensures packets == if ok then old(packets) + [|b|] else old(packets)
    {
      if broken {
        n, ok := 0, false;
      } else if * {
        n, ok := |b|, true;
        packets := packets + [|b|];
      } else {
        n :| 0 <= n <= |b|;
        ok := false;
        broken := true;
      }
      wire := wire + b[..n];
    }
  }

  function WasteFrame(len: nat): (f: Frame)
  {
    Frame(CMD_WASTE, 0, Zeros(len))
  }

  function WasteFrames(lens: seq<nat>): (fs: seq<Frame>)
    ensures |fs| == |lens|
    ensures AllWaste(fs)
  {
    seq(|lens|, i requires 0 <= i < |lens| => WasteFrame(lens[i]))
  }

  /** Waste frames of the lengths `lens`, one after another. */
  function Waste(lens: seq<nat>): (b: seq<byte>)
  {
    EncodeAll(WasteFrames(lens))
  }

  lemma WasteOfOne(len: nat)
    ensures Waste([len]) == Encode(WasteFrame(len))
  {
    assert WasteFrames([len]) == [WasteFrame(len)];
    assert EncodeAll([WasteFrame(len)]) == Encode(WasteFrame(len)) + [];
  }

  lemma WasteConcat(lens: seq<nat>, more: seq<nat>)
    ensures Waste(lens + more) == Waste(lens) + Waste(more)
  {
    assert WasteFrames(lens + more) == WasteFrames(lens) + WasteFrames(more);
    EncodeAllAppend(WasteFrames(lens), WasteFrames(more));
  }

  /** What a size list may hold: check marks and positive sizes. */
  predicate SizeList(sizes: seq<int>) {
    forall i :: 0 <= i < |sizes| ==> sizes[i] == CHECK_MARK || 1 <= sizes[i]
  }

  /** The size of the packet scheduled as `l` when `remaining` bytes of payload are left, and what
      it leaves of them. */
  function PacketSize(remaining: nat, l: nat): (size: nat)
  {
    if remaining > l then l
    else if remaining == 0 then HEADER_SIZE + l
    else if remaining + HEADER_SIZE < l then l
    else remaining
  }

  function Left(remaining: nat, l: nat): (left: nat)
  {
    if remaining > l then remaining - l else 0
  }

  /** The sizes of the packets a payload of `remaining` bytes goes out in. */
  function Packets(remaining: nat, sizes: seq<int>): (packets: seq<nat>)
    requires SizeList(sizes)
  {
    if sizes == [] then (if remaining == 0 then [] else [remaining])
    else if sizes[0] == CHECK_MARK then
      (if remaining == 0 then [] else Packets(remaining, sizes[1..]))
    else [PacketSize(remaining, sizes[0])] + Packets(Left(remaining, sizes[0]), sizes[1..])
  }

  lemma ScheduleStep(remaining: nat, sizes: seq<int>, i: nat)
    requires SizeList(sizes) && i < |sizes|
    ensures sizes[i] == CHECK_MARK || sizes[i] >= 1
    ensures SizeList(sizes[i..]) && SizeList(sizes[i + 1..])
    ensures sizes[i] == CHECK_MARK && remaining == 0 ==> Packets(remaining, sizes[i..]) == []
    ensures sizes[i] == CHECK_MARK && remaining > 0 ==>
      Packets(remaining, sizes[i..]) == Packets(remaining, sizes[i + 1..])
    ensures sizes[i] != CHECK_MARK ==>
      Packets(remaining, sizes[i..]) == [PacketSize(remaining, sizes[i])] + Packets(Left(remaining, sizes[i]), sizes[i + 1..])
  {
    assert sizes[i..][1..] == sizes[i + 1..];
  }

  lemma ScheduleEnd(remaining: nat, sizes: seq<int>)
    ensures SizeList(sizes[|sizes|..])
    ensures Packets(remaining, sizes[|sizes|..]) == if remaining == 0 then [] else [remaining]
  {
  }

  /** `after` is `before` and some first part of `out`. */
  ghost predicate Cut(before: seq<byte>, after: seq<byte>, out: seq<byte>) {
    exists k :: 0 <= k <= |out| && after == before + out[..k]
  }

  lemma CutLater(before: seq<byte>, sent: seq<byte>, after: seq<byte>, out: seq<byte>, more: seq<byte>)
    requires Cut(before + sent, after, out)
    ensures Cut(before, after, sent + out + more)
  {
    var k :| 0 <= k <= |out| && after == before + sent + out[..k];
    assert (sent + out + more)[..|sent| + k] == sent + out[..k];
    assert after == before + (sent + out + more)[..|sent| + k];
  }

  /** No padding is longer than a size on the list. */
  predicate PadsWithin(pads: seq<nat>, sizes: seq<int>) {
    forall p :: p in pads ==> exists l :: l in sizes && 1 <= p <= l
  }

  lemma PadsWithinAppend(pads: seq<nat>, pad: seq<nat>, sizes: seq<int>, i: nat)
    requires PadsWithin(pads, sizes) && i < |sizes|
    requires |pad| <= 1 && (pad != [] ==> 1 <= pad[0] <= sizes[i])
    ensures PadsWithin(pads + pad, sizes)
  {
    assert sizes[i] in sizes;
  }

  lemma Joined(w: seq<byte>, payload: seq<byte>, n: nat, k: nat, waste: seq<byte>, more: seq<byte>)
    requires n + k <= |payload|
    requires k > 0 ==> waste == []
    ensures (w + (payload[..n] + waste)) + (payload[n..][..k] + more) == w + (payload[..n + k] + (waste + more))
  {
    assert payload[..n] + payload[n..][..k] == payload[..n + k];
  }

  lemma CutPadded(w: seq<byte>, payload: seq<byte>, n: nat, waste: seq<byte>, more: seq<byte>, after: seq<byte>)
    requires n <= |payload|
    requires n < |payload| ==> waste == []
    requires Cut(w + (payload[..n] + waste), after, payload[n..] + more)
    ensures Cut(w, after, payload + (waste + more))
  {
    var sent := payload[..n] + waste;
    CutLater(w, sent, after, payload[n..] + more, []);
    assert sent + (payload[n..] + more) + [] == payload + (waste + more);
  }

  lemma LastWrite(w: seq<byte>, payload: seq<byte>, n: nat, k: nat)
    requires n + k <= |payload|
    ensures (w + (payload[..n] + [])) + payload[n..][..k] == w + payload[..n + k]
    ensures payload + [] == payload
    ensures Cut(w, w + payload[..n + k], payload)
  {
    assert payload[..n] + payload[n..][..k] == payload[..n + k];
  }

  /** The state the frames go through on their way out. */
  datatype Link = Link(buffering: bool, buffer: seq<byte>, wire: seq<byte>, broken: bool)

  /** What one call of `writeConn` with `b` does to the link: while buffering, `b` waits; otherwise
      all that waited and `b` go out in order, then nothing but waste frames of lengths `pads`;
      a failure leaves a part of just that on the wire. */
  ghost predicate Wrote(before: Link, b: seq<byte>, after: Link, pads: seq<nat>, ok: bool) {
    if before.buffering then
      ok && after == before.(buffer := before.buffer + b)
    else
      var out := before.buffer + b + Waste(pads);
      && !after.buffering
      && after.buffer == []
      && (ok ==> after.wire == before.wire + out && after.broken == before.broken)
      && (!ok ==> after.broken && Cut(before.wire, after.wire, out))
      && (before.broken ==> after.wire == before.wire)
  }

  class Session {
    const conn: Conn
    var sendPadding: bool
    var buffering: bool
    var buffer: seq<byte>
    var pktCounter: nat

    ghost predicate Valid()
      reads this
    {
      pktCounter < U32_LIMIT
    }

    ghost function State(): (link: Link)
      reads this, conn
    {
      Link(buffering, buffer, conn.wire, conn.broken)
    }

    constructor (conn: Conn)
      ensures Valid() && this.conn == conn
      ensures sendPadding && !buffering && buffer == [] && pktCounter == 0
    {
      this.conn := conn;
      sendPadding, buffering, buffer, pktCounter := true, false, [], 0;
    }

    /** The size list and the stop count are those of the padding scheme loaded for this packet. */
    method WriteConn(b: seq<byte>, stop: nat, sizes: seq<int>)
      returns (n: nat, ok: bool, ghost pads: seq<nat>)
      requires Valid() && SizeList(sizes)
      modifies this, conn
      ensures Valid()
      ensures Wrote(old(State()), b, State(), pads, ok)
      ensures old(buffering) ==>
        n == |b| && pktCounter == old(pktCounter) && sendPadding == old(sendPadding)
        && conn.packets == old(conn.packets)
      ensures !old(buffering) ==>
        && pktCounter == (if old(sendPadding) then (old(pktCounter) + 1) % U32_LIMIT else old(pktCounter))
        && sendPadding == (old(sendPadding) && pktCounter < stop)
        && (ok ==> n == |old(buffer)| + |b|)
        && (!sendPadding ==> pads == [])
        && (ok ==> conn.packets == old(conn.packets) + if sendPadding then Packets(n, sizes) else [n])
      ensures PadsWithin(pads, sizes)
    {
      n, ok, pads := 0, true, [];
      if buffering {
        buffer := buffer + b;
        n := |b|;
        return;
      }
      assert Waste([]) == [];
      hide Waste, Packets, SizeList;
      var rest := b;
      if |buffer| > 0 {
        rest := buffer + b;
        buffer := [];
      }
      assert rest == old(buffer) + b;
      if sendPadding {
        pktCounter := (pktCounter + 1) % U32_LIMIT;
        if pktCounter < stop {
          n, ok, pads := WritePadded(rest, sizes);
          return;
        } else {
          sendPadding := false;
        }
      }
      n, ok := conn.Write(rest);
      assert rest[..|rest|] == rest == rest + Waste([]);
    }

    /** One scheduled packet of size `l`: payload alone, the end of the payload with padding
        behind it, or padding alone. */
    method WritePacket(b: seq<byte>, l: nat) returns (left: seq<byte>, ok: bool, ghost pad: seq<nat>)
      requires l >= 1
      modifies conn
      ensures |left| == Left(|b|, l) <= |b| && left == b[|b| - |left|..]
      ensures left != [] ==> pad == []
      ensures |pad| <= 1 && (pad != [] ==> 1 <= pad[0] <= l)
      ensures ok ==> conn.broken == old(conn.broken) == false
      ensures ok ==> conn.packets == old(conn.packets) + [PacketSize(|b|, l)]
      ensures ok ==> conn.wire == old(conn.wire) + (b[..|b| - |left|] + Waste(pad))
      ensures !ok ==> conn.broken && Cut(old(conn.wire), conn.wire, b + Waste(pad))
      ensures old(conn.broken) ==> !ok && conn.wire == old(conn.wire)
    {
      assert Waste([]) == [];
      hide Waste, Encode;
      pad := [];
      var packet := b;
      if |b| > l {
        packet, left := b[..l], b[l..];
      } else if |b| > 0 {
        var paddingLen := l - |b| - HEADER_SIZE;
        if paddingLen > 0 {
          WasteOfOne(paddingLen);
          packet, pad := b + Encode(WasteFrame(paddingLen)), [paddingLen];
        }
        left := [];
      } else {
        WasteOfOne(l);
        packet, pad := Encode(WasteFrame(l)), [l];
        left := [];
      }
      var sent;
      sent, ok := conn.Write(packet);
      assert packet[..sent] == (b + Waste(pad))[..sent];
    }

    /** The splitting and padding loop of `writeConn`. */
    method WritePadded(payload: seq<byte>, sizes: seq<int>)
      returns (n: nat, ok: bool, ghost pads: seq<nat>)
      requires SizeList(sizes)
      modifies conn
      ensures ok ==> n == |payload| && conn.broken == old(conn.broken)
      ensures !ok ==> conn.broken
      ensures Padded(old(conn.wire), old(conn.packets), payload, sizes, pads, ok, conn.wire, conn.packets)
      ensures old(conn.broken) ==> conn.wire == old(conn.wire)
    {
      hide Progress, Padded, Waste, PacketSize, Left, Cut;
      ghost var w0, k0 := conn.wire, conn.packets;
      n, ok, pads := 0, true, [];
      ProgressInit(w0, k0, payload, sizes);
      var b := payload;
      var i := 0;
      while i < |sizes|
        invariant 0 <= i <= |sizes|
        invariant ok && conn.broken == old(conn.broken)
        invariant n <= |payload| && b == payload[n..]
        invariant Progress(w0, k0, payload, sizes, i, n, pads, conn.wire, conn.packets)
        invariant conn.broken ==> conn.wire == w0
      {
        var l := sizes[i];
        if l == CHECK_MARK {
          if |b| == 0 {
            break;
          }
          ProgressMark(w0, k0, payload, sizes, i, n, pads, conn.wire, conn.packets);
        } else {
          ghost var wire, packets := conn.wire, conn.packets;
          var left;
          ghost var pad;
          left, ok, pad := WritePacket(b, l);
          if !ok {
            ProgressCut(w0, k0, payload, sizes, i, n, pads, wire, packets, pad, conn.wire, conn.packets);
            return 0, false, pads + pad;
          }
          ProgressPacket(w0, k0, payload, sizes, i, n, pads, wire, packets, pad);
          pads := pads + pad;
          n := n + |b| - |left|;
          b := left;
        }
        i := i + 1;
      }
      ghost var wire, packets := conn.wire, conn.packets;
      if |b| == 0 {
        ProgressEnd(w0, k0, payload, sizes, i, n, pads, wire, packets);
        return;
      }
      var last;
      last, ok := conn.Write(b);
      ProgressRest(w0, k0, payload, sizes, n, pads, wire, packets, last);
      n := n + last;
    }
  }

  // ---- the splitting loop's progress ----

  /** After the sizes before `i`: `n` bytes of the payload are out, and padding only behind all of it. */
  ghost predicate Progress(w0: seq<byte>, k0: seq<nat>, payload: seq<byte>, sizes: seq<int>, i: nat,
                           n: nat, pads: seq<nat>, wire: seq<byte>, packets: seq<nat>)
  {
    && n <= |payload| && (n < |payload| ==> pads == [])
    && PadsWithin(pads, sizes)
    && wire == w0 + (payload[..n] + Waste(pads))
    && OnSchedule(k0, |payload|, sizes, i, n, packets)
  }

  predicate OnSchedule(k0: seq<nat>, payload: nat, sizes: seq<int>, i: nat, n: nat, packets: seq<nat>) {
    && i <= |sizes| && SizeList(sizes) && SizeList(sizes[i..]) && n <= payload
    && packets + Packets(payload - n, sizes[i..]) == k0 + Packets(payload, sizes)
  }

  lemma OnScheduleNext(k0: seq<nat>, payload: nat, sizes: seq<int>, i: nat, n: nat, packets: seq<nat>)
    requires OnSchedule(k0, payload, sizes, i, n, packets)
    requires i < |sizes| && sizes[i] != CHECK_MARK && sizes[i] >= 1
    ensures
      var left := Left(payload - n, sizes[i]);
      OnSchedule(k0, payload, sizes, i + 1, payload - left, packets + [PacketSize(payload - n, sizes[i])])
  {
    ScheduleStep(payload - n, sizes, i);
    hide Packets, SizeList, PacketSize;
    var left := Left(payload - n, sizes[i]);
    var size := PacketSize(payload - n, sizes[i]);
    assert packets + [size] + Packets(left, sizes[i + 1..]) == packets + ([size] + Packets(left, sizes[i + 1..]));
  }

  lemma ProgressInit(w0: seq<byte>, k0: seq<nat>, payload: seq<byte>, sizes: seq<int>)
    requires SizeList(sizes)
    ensures Progress(w0, k0, payload, sizes, 0, 0, [], w0, k0)
  {
    assert Waste([]) == [];
    assert sizes[0..] == sizes;
  }

  lemma ProgressMark(w0: seq<byte>, k0: seq<nat>, payload: seq<byte>, sizes: seq<int>, i: nat,
                     n: nat, pads: seq<nat>, wire: seq<byte>, packets: seq<nat>)
    requires Progress(w0, k0, payload, sizes, i, n, pads, wire, packets)
    requires i < |sizes| && sizes[i] == CHECK_MARK && n < |payload|
    ensures Progress(w0, k0, payload, sizes, i + 1, n, pads, wire, packets)
  {
    ScheduleStep(|payload| - n, sizes, i);
    hide Packets, Waste, SizeList, PadsWithin;
  }

  lemma ProgressPacket(w0: seq<byte>, k0: seq<nat>, payload: seq<byte>, sizes: seq<int>, i: nat,
                       n: nat, pads: seq<nat>, wire: seq<byte>, packets: seq<nat>, pad: seq<nat>)
    requires Progress(w0, k0, payload, sizes, i, n, pads, wire, packets)
    requires i < |sizes| && sizes[i] != CHECK_MARK && sizes[i] >= 1
    requires |pad| <= 1 && (pad != [] ==> 1 <= pad[0] <= sizes[i])
    requires Left(|payload| - n, sizes[i]) > 0 ==> pad == []
    ensures
      var left := Left(|payload| - n, sizes[i]);
      && left <= |payload| - n
      && Progress(w0, k0, payload, sizes, i + 1, |payload| - left, pads + pad,
                  wire + (payload[n..][..|payload| - n - left] + Waste(pad)),
                  packets + [PacketSize(|payload| - n, sizes[i])])
  {
    assert Waste([]) == [];
    hide OnSchedule, Waste, PadsWithin, PacketSize;
    OnScheduleNext(k0, |payload|, sizes, i, n, packets);
    WasteConcat(pads, pad);
    PadsWithinAppend(pads, pad, sizes, i);
    var left := Left(|payload| - n, sizes[i]);
    var sent := |payload| - n - left;
    Joined(w0, payload, n, sent, Waste(pads), Waste(pad));
    assert n + sent == |payload| - left;
  }

  /** How the loop ends: the payload and padding behind it are out in the scheduled packets, or the
      connection broke somewhere in them. */
  ghost predicate Padded(w0: seq<byte>, k0: seq<nat>, payload: seq<byte>, sizes: seq<int>, pads: seq<nat>,
                         ok: bool, wire: seq<byte>, packets: seq<nat>)
    requires SizeList(sizes)
  {
    && PadsWithin(pads, sizes)
    && (ok ==> wire == w0 + (payload + Waste(pads)) && packets == k0 + Packets(|payload|, sizes))
    && (!ok ==> Cut(w0, wire, payload + Waste(pads)))
  }

  lemma ProgressCut(w0: seq<byte>, k0: seq<nat>, payload: seq<byte>, sizes: seq<int>, i: nat, n: nat,
                    pads: seq<nat>, wire: seq<byte>, packets: seq<nat>, pad: seq<nat>,
                    after: seq<byte>, packetsAfter: seq<nat>)
    requires Progress(w0, k0, payload, sizes, i, n, pads, wire, packets)
    requires i < |sizes| && |pad| <= 1 && (pad != [] ==> 1 <= pad[0] <= sizes[i])
    requires Cut(wire, after, payload[n..] + Waste(pad))
    ensures Padded(w0, k0, payload, sizes, pads + pad, false, after, packetsAfter)
  {
    WasteConcat(pads, pad);
    PadsWithinAppend(pads, pad, sizes, i);
    CutPadded(w0, payload, n, Waste(pads), Waste(pad), after);
  }

  lemma ProgressEnd(w0: seq<byte>, k0: seq<nat>, payload: seq<byte>, sizes: seq<int>, i: nat,
                    n: nat, pads: seq<nat>, wire: seq<byte>, packets: seq<nat>)
    requires Progress(w0, k0, payload, sizes, i, n, pads, wire, packets)
    requires n == |payload| && (i < |sizes| ==> sizes[i] == CHECK_MARK)
    ensures Padded(w0, k0, payload, sizes, pads, true, wire, packets)
  {
    if i == |sizes| {
      ScheduleEnd(0, sizes);
    } else {
      ScheduleStep(0, sizes, i);
    }
    hide Packets, Waste, PadsWithin;
    assert packets + [] == packets;
    assert payload[..n] == payload;
  }

  /** The sizes are used up and `k` of the bytes left go out in a last packet. */
  lemma ProgressRest(w0: seq<byte>, k0: seq<nat>, payload: seq<byte>, sizes: seq<int>,
                     n: nat, pads: seq<nat>, wire: seq<byte>, packets: seq<nat>, k: nat)
    requires Progress(w0, k0, payload, sizes, |sizes|, n, pads, wire, packets)
    requires n < |payload| && n + k <= |payload|
    ensures Padded(w0, k0, payload, sizes, pads, false, wire + payload[n..][..k], packets)
    ensures k == |payload| - n ==>
      Padded(w0, k0, payload, sizes, pads, true, wire + payload[n..][..k], packets + [k])
  {
    ScheduleEnd(|payload| - n, sizes);
    assert Waste([]) == [];
    LastWrite(w0, payload, n, k);
    hide Packets, Waste, PadsWithin;
    assert payload + [] == payload;
  }
}
