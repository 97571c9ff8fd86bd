/** Capsules (section 3.2 of RFC 9297) and the IP packets carried in them, and in HTTP/3 datagrams. */
module Capsules {
  import opened Bytes
  import opened Wrappers
  import opened Varint

  const ADDRESS_ASSIGN := 1
  const ADDRESS_REQUEST := 2
  const ROUTE_ADVERTISEMENT := 3
  const DATAGRAM := 0
  const CONTEXT_ID := 0
  const MAX_CAPSULE_BUF := 256 * 1024

  /** A capsule before its value is looked into. */
  datatype Raw = Raw(kind: nat, value: seq<byte>)

  datatype Taken = Taken(raw: Raw, rest: seq<byte>)

  datatype Error = TooShort | BadIpVersion

  datatype Address = Address(requestId: nat, version: byte, address: seq<byte>, prefix: byte)

  datatype Route = Route(version: byte, start: seq<byte>, end: seq<byte>, protocol: byte)

  datatype Capsule =
    | AddressAssign(addresses: seq<Address>)
    | AddressRequest
    | Datagram(payload: seq<byte>)
    | RouteAdvertisement(routes: seq<Route>)
    | Unknown(raw: Raw)

  predicate Encodable(c: Raw) {
    c.kind <= MAX_VARINT && |c.value| <= MAX_VARINT
  }

  function Encode(c: Raw): (b: seq<byte>)
    requires Encodable(c)
  {
    Put(c.kind) + (Put(|c.value|) + c.value)
  }

  predicate AllEncodable(cs: seq<Raw>) {
    forall i :: 0 <= i < |cs| ==> Encodable(cs[i])
  }

  function EncodeAll(cs: seq<Raw>): (b: seq<byte>)
    requires AllEncodable(cs)
  {
    if cs == [] then [] else Encode(cs[0]) + EncodeAll(cs[1..])
  }

  /** The capsule at the front of `b`, once all of it is there. */
  function Take(b: seq<byte>): (r: Option<Taken>)
    ensures r.Some? ==> |r.value.rest| < |b|
  {
    match Get(b)
    case None => None
    case Some(kind) =>
      match Get(b[kind.len..])
      case None => None
      case Some(len) =>
        var at := kind.len + len.len;
        if |b| - at < len.value then None
        else Some(Taken(Raw(kind.value, b[at..at + len.value]), b[at + len.value..]))
  }

  // ---- addresses and routes ----

  function AddressLen(version: byte): (n: Option<nat>)
  {
    if version == 4 then Some(4) else if version == 6 then Some(16) else None
  }

  /** The address at the front of `b` and how long it is. */
  function TakeAddress(b: seq<byte>): (r: Result<(Address, nat), Error>)
    ensures r.Ok? ==> 1 <= r.value.1 <= |b|
  {
    match Get(b)
    case None => Err(TooShort)
    case Some(id) =>
      if |b| < id.len + 1 then Err(TooShort)
      else
        match AddressLen(b[id.len])
        case None => Err(BadIpVersion)
        case Some(n) =>
          var at := id.len + 1;
          if |b| < at + n + 1 then Err(TooShort)
          else Ok((Address(id.value, b[id.len], b[at..at + n], b[at + n]), at + n + 1))
  }

  function TakeRoute(b: seq<byte>): (r: Result<(Route, nat), Error>)
    ensures r.Ok? ==> 1 <= r.value.1 <= |b|
  {
    if b == [] then Err(TooShort)
    else
      match AddressLen(b[0])
      case None => Err(BadIpVersion)
      case Some(n) =>
        if |b| < 2 * n + 2 then Err(TooShort)
        else Ok((Route(b[0], b[1..1 + n], b[1 + n..1 + 2 * n], b[1 + 2 * n]), 2 * n + 2))
  }

  /** What was read so far and, unless it fails, what is read next. */
  function Behind<T>(before: seq<T>, next: Result<seq<T>, Error>): (r: Result<seq<T>, Error>)
  {
    match next
    case Err(e) => Err(e)
    case Ok(more) => Ok(before + more)
  }

  lemma BehindNothing<T>(next: Result<seq<T>, Error>)
    ensures Behind([], next) == next
  {
    if next.Ok? { assert [] + next.value == next.value; }
  }

  lemma BehindMore<T>(before: seq<T>, item: T, next: Result<seq<T>, Error>)
    ensures Behind(before, Behind([item], next)) == Behind(before + [item], next)
  {
    if next.Ok? { assert before + ([item] + next.value) == before + [item] + next.value; }
  }

  lemma BehindError<T>(before: seq<T>, e: Error)
    ensures Behind(before, Err(e)) == Err(e)
  {
  }

  lemma BehindEnd<T>(before: seq<T>)
    ensures Behind(before, Ok([])) == Ok(before)
  {
    assert before + [] == before;
  }

  function Addresses(b: seq<byte>): (r: Result<seq<Address>, Error>)
    decreases |b|
  {
    if b == [] then Ok([])
    else
      match TakeAddress(b)
      case Err(e) => Err(e)
      case Ok((a, n)) =>
        Behind([a], Addresses(b[n..]))
  }

  function Routes(b: seq<byte>): (r: Result<seq<Route>, Error>)
    decreases |b|
  {
    if b == [] then Ok([])
    else
      match TakeRoute(b)
      case Err(e) => Err(e)
      case Ok((a, n)) =>
        Behind([a], Routes(b[n..]))
  }

  method ParseAddresses(value: seq<byte>) returns (r: Result<seq<Address>, Error>)
    ensures r == Addresses(value)
  {
    hide TakeAddress, Behind;
    assert value[0..] == value;
    var pos, out := 0, [];
    BehindNothing(Addresses(value));
    while pos < |value|
      invariant 0 <= pos <= |value|
      invariant Addresses(value) == Behind(out, Addresses(value[pos..]))
    {
      var taken := TakeAddress(value[pos..]);
      if taken.Err? {
        BehindError(out, taken.error);
        return Err(taken.error);
      }
      assert value[pos..][taken.value.1..] == value[pos + taken.value.1..];
      BehindMore(out, taken.value.0, Addresses(value[pos + taken.value.1..]));
      pos, out := pos + taken.value.1, out + [taken.value.0];
    }
    BehindEnd(out);
    return Ok(out);
  }

  method ParseRoutes(value: seq<byte>) returns (r: Result<seq<Route>, Error>)
    ensures r == Routes(value)
  {
    hide TakeRoute, Behind;
    assert value[0..] == value;
    var pos, out := 0, [];
    BehindNothing(Routes(value));
    while pos < |value|
      invariant 0 <= pos <= |value|
      invariant Routes(value) == Behind(out, Routes(value[pos..]))
    {
      var taken := TakeRoute(value[pos..]);
      if taken.Err? {
        BehindError(out, taken.error);
        return Err(taken.error);
      }
      assert value[pos..][taken.value.1..] == value[pos + taken.value.1..];
      BehindMore(out, taken.value.0, Routes(value[pos + taken.value.1..]));
      pos, out := pos + taken.value.1, out + [taken.value.0];
    }
    BehindEnd(out);
    return Ok(out);
  }

  // ---- addresses and routes as they are written ----

  predicate GoodAddress(a: Address) {
    a.requestId <= MAX_VARINT && AddressLen(a.version) == Some(|a.address|)
  }

  function EncodeAddress(a: Address): (b: seq<byte>)
    requires GoodAddress(a)
  {
    Put(a.requestId) + ([a.version] + a.address + [a.prefix])
  }

  function EncodeAddresses(list: seq<Address>): (b: seq<byte>)
    requires forall i :: 0 <= i < |list| ==> GoodAddress(list[i])
  {
    if list == [] then [] else EncodeAddress(list[0]) + EncodeAddresses(list[1..])
  }

  lemma AddressIsTaken(a: Address, rest: seq<byte>)
    requires GoodAddress(a)
    ensures TakeAddress(EncodeAddress(a) + rest) == Ok((a, |EncodeAddress(a)|))
  {
    var tail := [a.version] + a.address + [a.prefix] + rest;
    var b, n := EncodeAddress(a) + rest, |Put(a.requestId)|;
    assert b == Put(a.requestId) + tail;
    VarintRoundTrip(a.requestId, tail);
    hide Put, Get;
    assert b[n] == a.version && b[n + 1..n + 1 + |a.address|] == a.address && b[n + 1 + |a.address|] == a.prefix;
  }

  /** Every list of addresses comes back from the value it was written as. */
  lemma {:induction false} AddressesRoundTrip(list: seq<Address>)
    requires forall i :: 0 <= i < |list| ==> GoodAddress(list[i])
    ensures Addresses(EncodeAddresses(list)) == Ok(list)
    decreases |list|
  {
    hide GoodAddress;
    if list != [] {
      AddressesRoundTrip(list[1..]);
      AddressThen(list, []);
      assert EncodeAddresses(list) + [] == EncodeAddresses(list) && EncodeAddresses(list[1..]) + [] == EncodeAddresses(list[1..]);
      assert list == [list[0]] + list[1..];
    }
  }

  predicate GoodRoute(r: Route) {
    |r.start| == |r.end| && AddressLen(r.version) == Some(|r.start|)
  }

  function EncodeRoute(r: Route): (b: seq<byte>)
  {
    [r.version] + r.start + r.end + [r.protocol]
  }

  function EncodeRoutes(list: seq<Route>): (b: seq<byte>)
  {
    if list == [] then [] else EncodeRoute(list[0]) + EncodeRoutes(list[1..])
  }

  lemma RouteIsTaken(r: Route, rest: seq<byte>)
    requires GoodRoute(r)
    ensures TakeRoute(EncodeRoute(r) + rest) == Ok((r, |EncodeRoute(r)|))
  {
    var b, n := EncodeRoute(r) + rest, |r.start|;
    assert b[0] == r.version && b[1..1 + n] == r.start && b[1 + n..1 + 2 * n] == r.end && b[1 + 2 * n] == r.protocol;
  }

  lemma {:induction false} RoutesRoundTrip(list: seq<Route>)
    requires forall i :: 0 <= i < |list| ==> GoodRoute(list[i])
    ensures Routes(EncodeRoutes(list)) == Ok(list)
    decreases |list|
  {
    hide GoodRoute;
    if list != [] {
      RoutesRoundTrip(list[1..]);
      RouteThen(list, []);
      assert EncodeRoutes(list) + [] == EncodeRoutes(list) && EncodeRoutes(list[1..]) + [] == EncodeRoutes(list[1..]);
      assert list == [list[0]] + list[1..];
    }
  }

  function Interpret(c: Raw): (r: Result<Capsule, Error>)
  {
    if c.kind == ADDRESS_ASSIGN then
      match Addresses(c.value)
      case Ok(list) => Ok(AddressAssign(list))
      case Err(e) => Err(e)
    else if c.kind == ADDRESS_REQUEST then Ok(AddressRequest)
    else if c.kind == ROUTE_ADVERTISEMENT then
      match Routes(c.value)
      case Ok(list) => Ok(RouteAdvertisement(list))
      case Err(e) => Err(e)
    else if c.kind == DATAGRAM then Ok(Datagram(c.value))
    else Ok(Unknown(c))
  }

  /** Behind any addresses, one that is cut short is an error. */
  lemma {:induction false} CutAddressIsRefused(list: seq<Address>, a: Address, k: nat)
    requires forall i :: 0 <= i < |list| ==> GoodAddress(list[i])
    requires GoodAddress(a) && 0 < k < |EncodeAddress(a)|
    ensures Addresses(EncodeAddresses(list) + EncodeAddress(a)[..k]) == Err(TooShort)
    decreases |list|
  {
    hide GoodAddress, EncodeAddress, TakeAddress;
    var part := EncodeAddress(a)[..k];
    if list == [] {
      assert EncodeAddresses(list) + part == part;
      CutAddress(a, k);
    } else {
      CutAddressIsRefused(list[1..], a, k);
      AddressThen(list, part);
    }
  }

  lemma AddressThen(list: seq<Address>, part: seq<byte>)
    requires list != [] && forall i :: 0 <= i < |list| ==> GoodAddress(list[i])
    ensures Addresses(EncodeAddresses(list) + part) == Behind([list[0]], Addresses(EncodeAddresses(list[1..]) + part))
  {
    hide TakeAddress, EncodeAddress, GoodAddress, Behind;
    var first, rest := EncodeAddress(list[0]), EncodeAddresses(list[1..]) + part;
    assert EncodeAddresses(list) + part == first + rest;
    AddressIsTaken(list[0], rest);
    assert (first + rest)[|first|..] == rest;
  }

  lemma CutAddress(a: Address, k: nat)
    requires GoodAddress(a) && 0 < k < |EncodeAddress(a)|
    ensures TakeAddress(EncodeAddress(a)[..k]) == Err(TooShort)
  {
    hide Put, Get;
    var part, id := EncodeAddress(a)[..k], Put(a.requestId);
    if k < |id| {
      assert part == id[..k];
      GetNeedsAll(a.requestId, part);
    } else {
      var tail := ([a.version] + a.address + [a.prefix])[..k - |id|];
      assert part == id + tail;
      VarintRoundTrip(a.requestId, tail);
      if k > |id| { assert part[|id|] == a.version; }
    }
  }

  /** Behind any addresses, one of another version than 4 and 6 is an error. */
  lemma {:induction false} OddAddressIsRefused(list: seq<Address>, requestId: nat, version: byte, rest: seq<byte>)
    requires forall i :: 0 <= i < |list| ==> GoodAddress(list[i])
    requires requestId <= MAX_VARINT && version != 4 && version != 6
    ensures Addresses(EncodeAddresses(list) + (Put(requestId) + ([version] + rest))) == Err(BadIpVersion)
    decreases |list|
  {
    hide Put, Get;
    var odd := Put(requestId) + ([version] + rest);
    VarintRoundTrip(requestId, [version] + rest);
    if list == [] {
      assert EncodeAddresses(list) + odd == odd;
      assert odd[|Put(requestId)|] == version;
    } else {
      OddAddressIsRefused(list[1..], requestId, version, rest);
      AddressThen(list, odd);
    }
  }

  /** Behind any routes, one that is cut short or of another version is an error. */
  lemma {:induction false} BadRouteIsRefused(list: seq<Route>, r: Route, k: nat, version: byte, rest: seq<byte>)
    requires forall i :: 0 <= i < |list| ==> GoodRoute(list[i])
    requires GoodRoute(r) && 0 < k < |EncodeRoute(r)| && version != 4 && version != 6
    ensures Routes(EncodeRoutes(list) + EncodeRoute(r)[..k]) == Err(TooShort)
    ensures Routes(EncodeRoutes(list) + ([version] + rest)) == Err(BadIpVersion)
    decreases |list|
  {
    var part, odd := EncodeRoute(r)[..k], [version] + rest;
    if list == [] {
      assert EncodeRoutes(list) + part == part && EncodeRoutes(list) + odd == odd;
      assert part[0] == r.version && odd[0] == version;
    } else {
      BadRouteIsRefused(list[1..], r, k, version, rest);
      RouteThen(list, part);
      RouteThen(list, odd);
      hide Routes, EncodeRoutes, EncodeRoute, GoodRoute;
    }
  }

  lemma RouteThen(list: seq<Route>, part: seq<byte>)
    requires list != [] && GoodRoute(list[0])
    ensures Routes(EncodeRoutes(list) + part) == Behind([list[0]], Routes(EncodeRoutes(list[1..]) + part))
  {
    hide TakeRoute, EncodeRoute, GoodRoute, Behind;
    var first, rest := EncodeRoute(list[0]), EncodeRoutes(list[1..]) + part;
    assert EncodeRoutes(list) + part == first + rest;
    RouteIsTaken(list[0], rest);
    assert (first + rest)[|first|..] == rest;
  }

  /** The kinds of capsule (sections 4.7 of RFC 9484 and 3.5 of RFC 9297) and what each is read as. */
  lemma KindsAreTold(value: seq<byte>, addresses: seq<Address>, routes: seq<Route>, kind: nat)
    requires forall i :: 0 <= i < |addresses| ==> GoodAddress(addresses[i])
    requires forall i :: 0 <= i < |routes| ==> GoodRoute(routes[i])
    ensures Interpret(Raw(0, value)) == Ok(Datagram(value))
    ensures Interpret(Raw(1, EncodeAddresses(addresses))) == Ok(AddressAssign(addresses))
    ensures Interpret(Raw(2, value)) == Ok(AddressRequest)
    ensures Interpret(Raw(3, EncodeRoutes(routes))) == Ok(RouteAdvertisement(routes))
    ensures kind > 3 ==> Interpret(Raw(kind, value)) == Ok(Unknown(Raw(kind, value)))
  {
    AddressesRoundTrip(addresses);
    RoutesRoundTrip(routes);
  }

  // ---- the parser ----

  class CapsuleParser {
    var buf: seq<byte>

    constructor ()
      ensures buf == []
    {
      buf := [];
    }

    /** A push that would make the buffer too long empties it instead. */
    method Push(data: seq<byte>)
      modifies this
      ensures buf == if |old(buf)| + |data| > MAX_CAPSULE_BUF then [] else old(buf) + data
    {
      if |buf| + |data| > MAX_CAPSULE_BUF {
        buf := [];
        return;
      }
      buf := buf + data;
    }

    /** The next capsule: it leaves the buffer even when its value turns out malformed. */
    method Next() returns (r: Result<Option<Capsule>, Error>)
      modifies this
      ensures
        match Take(old(buf))
        case None => r == Ok(None) && buf == old(buf)
        case Some(t) =>
          && buf == t.rest
          && r == match Interpret(t.raw) case Ok(c) => Ok(Some(c)) case Err(e) => Err(e)
    {
      hide Get, Addresses, Routes;
      var kind := Get(buf);
      if kind.None? {
        return Ok(None);
      }
      var len := Get(buf[kind.value.len..]);
      if len.None? {
        return Ok(None);
      }
      var at := kind.value.len + len.value.len;
      if |buf| - at < len.value.value {
        return Ok(None);
      }
      var value := buf[at..at + len.value.value];
      buf := buf[at + len.value.value..];
      if kind.value.value == ADDRESS_ASSIGN {
        var list := ParseAddresses(value);
        return if list.Ok? then Ok(Some(AddressAssign(list.value))) else Err(list.error);
      } else if kind.value.value == ADDRESS_REQUEST {
        return Ok(Some(AddressRequest));
      } else if kind.value.value == ROUTE_ADVERTISEMENT {
        var list := ParseRoutes(value);
        return if list.Ok? then Ok(Some(RouteAdvertisement(list.value))) else Err(list.error);
      } else if kind.value.value == DATAGRAM {
        return Ok(Some(Datagram(value)));
      }
      return Ok(Some(Unknown(Raw(kind.value.value, value))));
    }
  }

  /** `append_capsule` on the end of `out`. */
  method Append(out: seq<byte>, c: Raw) returns (r: seq<byte>)
    requires Encodable(c)
    ensures r == out + Encode(c)
    ensures |r| == |out| + VarintLen(c.kind) + VarintLen(|c.value|) + |c.value|
  {
    VarintRoundTrip(c.kind, []);
    VarintRoundTrip(|c.value|, []);
    r := out + Put(c.kind);
    r := r + Put(|c.value|);
    r := r + c.value;
  }

  // ---- capsules back out of bytes ----

  /** A capsule comes back out of the bytes it was written as, whatever follows. */
  lemma CapsuleRoundTrip(c: Raw, rest: seq<byte>)
    requires Encodable(c)
    ensures Take(Encode(c) + rest) == Some(Taken(c, rest))
    ensures |Encode(c)| == VarintLen(c.kind) + VarintLen(|c.value|) + |c.value|
  {
    hide Get, Put;
    var b := Encode(c) + rest;
    var k, n := Put(c.kind), Put(|c.value|);
    assert b == k + (n + (c.value + rest));
    VarintRoundTrip(c.kind, n + (c.value + rest));
    assert b[|k|..] == n + (c.value + rest);
    VarintRoundTrip(|c.value|, c.value + rest);
    var at := |k| + |n|;
    assert b[at..] == c.value + rest;
    assert b[at..at + |c.value|] == b[at..][..|c.value|] == c.value;
    assert b[at + |c.value|..] == b[at..][|c.value|..] == rest;
  }

  /** Bytes that come later change neither a capsule already there nor what is behind it. */
  lemma TakeOfPrefix(b: seq<byte>, more: seq<byte>)
    requires Take(b).Some?
    ensures Take(b + more) == Some(Taken(Take(b).value.raw, Take(b).value.rest + more))
  {
    var kind := Get(b).value;
    GetOfPrefix(b, more);
    assert (b + more)[kind.len..] == b[kind.len..] + more;
    var len := Get(b[kind.len..]).value;
    GetOfPrefix(b[kind.len..], more);
    hide Get;
    var at := kind.len + len.len;
    assert (b + more)[at..at + len.value] == b[at..at + len.value];
    assert (b + more)[at + len.value..] == b[at + len.value..] + more;
  }

  lemma {:induction false} EncodeAllAppend(cs: seq<Raw>, ds: seq<Raw>)
    requires AllEncodable(cs) && AllEncodable(ds)
    ensures AllEncodable(cs + ds) && EncodeAll(cs + ds) == EncodeAll(cs) + EncodeAll(ds)
  {
    hide Encode;
    if cs == [] {
      assert cs + ds == ds;
    } else {
      assert (cs + ds)[1..] == cs[1..] + ds;
      EncodeAllAppend(cs[1..], ds);
    }
  }

  // ---- IP packets ----

  predicate LooksLikeIp(p: seq<byte>) {
    |p| >= 20 && (p[0] / 16 == 4 || p[0] / 16 == 6)
  }

  /** A payload with its context id taken off, if it has one and there is a packet behind it. */
  function Strip(payload: seq<byte>): (r: Option<seq<byte>>)
    ensures r.Some? ==> LooksLikeIp(r.value)
  {
    var ctx := Get(payload);
    if ctx.Some? && ctx.value.value == CONTEXT_ID && LooksLikeIp(payload[ctx.value.len..])
    then Some(payload[ctx.value.len..])
    else if LooksLikeIp(payload) then Some(payload)
    else None
  }

  /** A packet whose first two bytes read as context id 0, with the start of a packet behind them.
      No IPv4 header is that short, and no IPv6 packet starts so. */
  predicate Ambiguous(p: seq<byte>) {
    |p| >= 22 && p[0] == 0x40 && p[1] == 0 && (p[2] / 16 == 4 || p[2] / 16 == 6)
  }

  /** A bare packet is recovered exactly when it is not ambiguous. */
  lemma BarePacket(p: seq<byte>)
    requires LooksLikeIp(p)
    ensures Strip(p) == Some(p) <==> !Ambiguous(p)
  {
    assert LenOf(p[0]) == 2;
    assert Get(p) == Some(Got(U16At(p, 0) % 0x4000, 2));
    assert U16At(p, 0) % 0x4000 == 0 <==> p[0] == 0x40 && p[1] == 0;
    assert LooksLikeIp(p[2..]) ==> p[2..][0] == p[2];
  }

  /** IPv6 packets, and IPv4 packets whose header is at least five words, are not ambiguous. */
  lemma RealPacketsAreClear(p: seq<byte>)
    requires LooksLikeIp(p)
    requires p[0] / 16 == 6 || p[0] % 16 >= 5
    ensures Strip(p) == Some(p)
    ensures Strip(Put(CONTEXT_ID) + p) == Some(p)
  {
    BarePacket(p);
    PacketWithContext(p);
  }

  /** Behind context id 0 every packet is recovered, ambiguous or not. */
  lemma PacketWithContext(p: seq<byte>)
    requires LooksLikeIp(p)
    ensures Strip(Put(CONTEXT_ID) + p) == Some(p)
  {
    VarintRoundTrip(CONTEXT_ID, p);
    assert (Put(CONTEXT_ID) + p)[1..] == p;
  }

  function EncodeIp(streamId: nat, packet: seq<byte>): (d: seq<byte>)
    requires streamId < U64_LIMIT
  {
    Put(streamId / 4) + (Put(CONTEXT_ID) + packet)
  }

  function DecodeIp(d: seq<byte>, streamId: nat): (r: Result<Option<seq<byte>>, Error>)
  {
    match Get(d)
    case None => Err(TooShort)
    case Some(q) =>
      if q.value != streamId / 4 then Ok(None)
      else
        match Get(d[q.len..])
        case None => Err(TooShort)
        case Some(ctx) => if ctx.value != CONTEXT_ID then Ok(None) else Ok(Some(d[q.len + ctx.len..]))
  }

  /** An HTTP/3 datagram gives its packet back to its own stream and to no other. */
  lemma DatagramRoundTrip(streamId: nat, other: nat, packet: seq<byte>)
    requires streamId < U64_LIMIT
    ensures DecodeIp(EncodeIp(streamId, packet), other) ==
      if other / 4 == streamId / 4 then Ok(Some(packet)) else Ok(None)
  {
    hide Get, Put;
    var d := EncodeIp(streamId, packet);
    var q := Put(streamId / 4);
    VarintRoundTrip(streamId / 4, Put(CONTEXT_ID) + packet);
    assert d[|q|..] == Put(CONTEXT_ID) + packet;
    VarintRoundTrip(CONTEXT_ID, packet);
    assert d[|q| + 1..] == d[|q|..][1..] == packet;
  }

  /** A datagram with another context than that of IP packets is passed over, and one that is cut before its
      packet is an error. */
  lemma OtherDatagrams(streamId: nat, context: nat, packet: seq<byte>, k: nat)
    requires streamId < U64_LIMIT && context <= MAX_VARINT
    ensures
      var d := Put(streamId / 4) + (Put(context) + packet);
      && (context != 0 ==> DecodeIp(d, streamId) == Ok(None))
      && (k < |Put(streamId / 4) + Put(context)| ==> DecodeIp(d[..k], streamId) == Err(TooShort))
  {
    hide Get, Put;
    var q, c := Put(streamId / 4), Put(context);
    var d := q + (c + packet);
    VarintRoundTrip(streamId / 4, c + packet);
    assert d[|q|..] == c + packet;
    VarintRoundTrip(context, packet);
    if k < |q| {
      assert d[..k] == q[..k];
      GetNeedsAll(streamId / 4, d[..k]);
    } else if k < |q| + |c| {
      var part := c[..k - |q|];
      assert d[..k] == q + part;
      VarintRoundTrip(streamId / 4, part);
      assert (q + part)[|q|..] == part;
      GetNeedsAll(context, part);
    }
  }
}
