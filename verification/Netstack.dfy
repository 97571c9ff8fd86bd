/** The bookkeeping of the user-space network stack: connection tables, the sockets they own, the bytes
    waiting for a socket and the one item set aside, and the replies owed for open requests. */
module Netstack {
  import opened Bytes
  import opened Wrappers

  datatype SocketState = Opening | Established | CloseWait | Closing | TimeWait | Closed

  /** A socket of the stack underneath: what of the application's bytes it has accepted. */
  datatype Socket = TcpSocket(accepted: seq<byte>) | UdpSocket

  datatype Reply = Opened(id: nat) | Refused | TimedOut | Failed

  /** `peerClosed` is whether the socket was found in its state for a peer that has closed, `shut` whether it
      was told to close. */
  datatype Tcp = Tcp(
    handle: nat,
    resp: Option<nat>,
    deadline: int,
    pending: seq<byte>,
    established: bool,
    halfClosed: bool,
    orphanedAt: Option<int>,
    aborted: bool,
    peerClosed: bool,
    shut: bool)

  datatype DataIn = TcpData(id: nat, data: seq<byte>) | TcpClose(id: nat) | UdpData(id: nat) | UdpClose(id: nat)

  datatype Owner = OfTcp(id: nat) | OfUdp(id: nat)

  /** The tables, and a record of what goes on in them: the owner of each socket, the bytes taken off
      the application's channel for each connection, how many there were when it asked to close, the
      connections closed on that request, the open requests that wait and that were answered, and the
      replies sent, in order. */
  datatype Stack = Stack(
    maxPending: nat,
    sockets: map<nat, Socket>,
    tcp: map<nat, Tcp>,
    udp: map<nat, nat>,
    nextId: nat,
    deferred: seq<DataIn>,
    owners: map<nat, Owner>,
    taken: map<nat, seq<byte>>,
    marks: map<nat, nat>,
    ended: set<nat>,
    waiting: map<nat, nat>,
    answers: map<nat, Reply>,
    sent: seq<nat>)

  // ---- what holds in every reachable state ----

  predicate OwnsTcp(s: Stack, id: nat) {
    id in s.tcp ==>
      var h := s.tcp[id].handle;
      id < s.nextId && h in s.owners && s.owners[h] == OfTcp(id) && h in s.sockets && s.sockets[h].TcpSocket?
  }

  predicate OwnsUdp(s: Stack, id: nat) {
    id in s.udp ==>
      var h := s.udp[id];
      id < s.nextId && h in s.owners && s.owners[h] == OfUdp(id) && h in s.sockets && s.sockets[h].UdpSocket?
  }

  predicate Held(s: Stack, h: nat) {
    && (h in s.owners <==> h in s.sockets)
    && (h in s.owners ==>
          match s.owners[h]
          case OfTcp(id) => id in s.tcp && s.tcp[id].handle == h
          case OfUdp(id) => id in s.udp && s.udp[id] == h)
  }

  /** Every entry owns its socket and every socket has its one owner in the tables. */
  ghost predicate Owned(s: Stack) {
    && (forall id: nat :: OwnsTcp(s, id))
    && (forall id: nat :: OwnsUdp(s, id))
    && (forall h: nat :: Held(s, h))
  }

  /** The rest of an item set aside for connection `id`. */
  function Aside(s: Stack, id: nat): (b: seq<byte>)
  {
    if |s.deferred| == 1 && s.deferred[0].TcpData? && s.deferred[0].id == id then s.deferred[0].data else []
  }

  function Accepted(s: Stack, id: nat): (b: seq<byte>)
    requires id in s.tcp
  {
    var h := s.tcp[id].handle;
    if h in s.sockets && s.sockets[h].TcpSocket? then s.sockets[h].accepted else []
  }

  /** The socket was told to close while the application was there and the peer had not closed. */
  predicate Asked(t: Tcp) {
    t.shut && t.orphanedAt.None? && !t.peerClosed
  }

  /** Every byte taken for a connection is in its socket, or waits, or is set aside, in that order. */
  ghost predicate ConservedFor(s: Stack, id: nat) {
    id in s.tcp ==>
      && |s.tcp[id].pending| <= s.maxPending
      && id in s.taken && s.taken[id] == Accepted(s, id) + (s.tcp[id].pending + Aside(s, id))
      && (s.tcp[id].halfClosed ==> id in s.marks && s.marks[id] <= |Accepted(s, id)| + |s.tcp[id].pending|)
      && (Asked(s.tcp[id]) ==> id in s.ended)
      && (id in s.ended ==> s.tcp[id].halfClosed && id in s.marks && s.marks[id] <= |Accepted(s, id)|)
  }

  ghost predicate Conserved(s: Stack) {
    && |s.deferred| <= 1
    && (|s.deferred| == 1 && s.deferred[0].TcpData? ==> s.deferred[0].id < s.nextId)
    && (forall id :: id in s.taken ==> id < s.nextId)
    && (forall id :: id in s.ended ==> id < s.nextId)
    && forall id: nat :: ConservedFor(s, id)
  }

  predicate RespRight(s: Stack, id: nat) {
    id in s.tcp ==>
      var t := s.tcp[id];
      && (t.established <==> t.resp.None?)
      && (t.aborted ==> t.established)
      && (t.resp.Some? ==> t.resp.value in s.waiting && s.waiting[t.resp.value] == id)
  }

  predicate WaitRight(s: Stack, r: nat) {
    r in s.waiting ==> r !in s.answers && s.waiting[r] in s.tcp && s.tcp[s.waiting[r]].resp == Some(r)
  }

  /** A request waits in just one entry or has its answer; an entry is established exactly when its
      reply was used. */
  ghost predicate Answered(s: Stack) {
    && (forall id: nat :: RespRight(s, id))
    && (forall r: nat :: WaitRight(s, r))
  }

  /** No request was sent two replies, and those that were sent one are those that have an answer. */
  ghost predicate SentOnce(sent: seq<nat>, answers: map<nat, Reply>) {
    && (forall i, j :: 0 <= i < j < |sent| ==> sent[i] != sent[j])
    && (forall r :: r in sent <==> r in answers)
  }

  ghost predicate Inv(s: Stack) {
    Owned(s) && Conserved(s) && Answered(s) && SentOnce(s.sent, s.answers)
  }

  lemma ExactlyOwned(s: Stack)
    requires Owned(s)
    ensures s.sockets.Keys == (set id | id in s.tcp :: s.tcp[id].handle) + (set id | id in s.udp :: s.udp[id])
    ensures forall i, j :: i in s.tcp && j in s.tcp && i != j ==> s.tcp[i].handle != s.tcp[j].handle
    ensures forall i, j :: i in s.udp && j in s.udp && i != j ==> s.udp[i] != s.udp[j]
    ensures forall i, j :: i in s.tcp && j in s.udp ==> s.tcp[i].handle != s.udp[j]
  {
    forall h | h in s.sockets
      ensures h in (set id | id in s.tcp :: s.tcp[id].handle) + (set id | id in s.udp :: s.udp[id])
    {
      assert Held(s, h);
      match s.owners[h]
      case OfTcp(id) => assert s.tcp[id].handle == h;
      case OfUdp(id) => assert s.udp[id] == h;
    }
    forall i: nat, j: nat
      ensures i in s.tcp && j in s.tcp && i != j ==> s.tcp[i].handle != s.tcp[j].handle
      ensures i in s.udp && j in s.udp && i != j ==> s.udp[i] != s.udp[j]
      ensures i in s.tcp && j in s.udp ==> s.tcp[i].handle != s.udp[j]
      ensures (i in s.tcp ==> s.tcp[i].handle in s.sockets) && (j in s.udp ==> s.udp[j] in s.sockets)
    {
      assert OwnsTcp(s, i) && OwnsTcp(s, j) && OwnsUdp(s, i) && OwnsUdp(s, j);
    }
  }

  lemma Assoc(a: seq<byte>, b: seq<byte>, c: seq<byte>)
    ensures a + (b + c) == a + b + c
  {
  }

  // ---- single changes ----

  /** A connection and its socket replaced by new versions of themselves. */
  function Put(s: Stack, id: nat, t: Tcp, accepted: seq<byte>): (s': Stack)
  {
    s.(tcp := s.tcp[id := t], sockets := s.sockets[t.handle := TcpSocket(accepted)])
  }

  function Unwait(waiting: map<nat, nat>, resp: Option<nat>): (w: map<nat, nat>)
  {
    if resp.Some? then waiting - {resp.value} else waiting
  }

  function Replied(answers: map<nat, Reply>, resp: Option<nat>, reply: Reply): (a: map<nat, Reply>)
  {
    if resp.Some? then answers[resp.value := reply] else answers
  }

  function Logged(sent: seq<nat>, resp: Option<nat>): (log: seq<nat>)
  {
    if resp.Some? then sent + [resp.value] else sent
  }

  lemma LoggedOnce(sent: seq<nat>, answers: map<nat, Reply>, resp: Option<nat>, reply: Reply)
    requires SentOnce(sent, answers) && (resp.Some? ==> resp.value !in answers)
    ensures SentOnce(Logged(sent, resp), Replied(answers, resp, reply))
  {
  }

  /** A connection and its socket taken out, with the answer it still owed. */
  function Drop(s: Stack, id: nat, reply: Reply): (s': Stack)
    requires id in s.tcp
  {
    var t := s.tcp[id];
    s.(tcp := s.tcp - {id}, sockets := s.sockets - {t.handle}, owners := s.owners - {t.handle},
       waiting := Unwait(s.waiting, t.resp), answers := Replied(s.answers, t.resp, reply), sent := Logged(s.sent, t.resp))
  }

  /** The connection's reply used for success. */
  function Establish(s: Stack, id: nat): (s': Stack)
    requires id in s.tcp
  {
    var t := s.tcp[id];
    s.(tcp := s.tcp[id := t.(established := true, resp := None)],
       waiting := Unwait(s.waiting, t.resp), answers := Replied(s.answers, t.resp, Opened(id)), sent := Logged(s.sent, t.resp))
  }

  lemma PutKeepsOwned(s: Stack, id: nat, t: Tcp, accepted: seq<byte>)
    requires Owned(s) && id in s.tcp && t.handle == s.tcp[id].handle
    ensures Owned(Put(s, id, t, accepted))
  {
    var s' := Put(s, id, t, accepted);
    forall i: nat ensures OwnsTcp(s', i) && OwnsUdp(s', i) {
      assert OwnsTcp(s, i) && OwnsUdp(s, i) && OwnsTcp(s, id);
    }
    forall h: nat ensures Held(s', h) {
      assert Held(s, h) && OwnsTcp(s, id);
    }
  }

  lemma PutKeepsAnswered(s: Stack, id: nat, t: Tcp, accepted: seq<byte>)
    requires Answered(s) && id in s.tcp && t.established == s.tcp[id].established && t.resp == s.tcp[id].resp
    requires t.aborted ==> t.established
    ensures Answered(Put(s, id, t, accepted))
  {
    var s' := Put(s, id, t, accepted);
    forall i: nat ensures RespRight(s', i) {
      assert RespRight(s, i) && RespRight(s, id);
    }
    forall r: nat ensures WaitRight(s', r) {
      assert WaitRight(s, r) && RespRight(s, id);
    }
  }

  lemma PutKeeps(s: Stack, id: nat, t: Tcp, accepted: seq<byte>)
    requires Inv(s) && id in s.tcp && t.handle == s.tcp[id].handle
    requires t.established == s.tcp[id].established && t.resp == s.tcp[id].resp && (t.aborted ==> t.established)
    requires t.halfClosed == s.tcp[id].halfClosed && |t.pending| <= s.maxPending
    requires accepted + t.pending == Accepted(s, id) + s.tcp[id].pending && |Accepted(s, id)| <= |accepted|
    requires Asked(t) ==> id in s.ended
    ensures Inv(Put(s, id, t, accepted))
  {
    PutKeepsOwned(s, id, t, accepted);
    PutKeepsAnswered(s, id, t, accepted);
    hide Answered;
    var s' := Put(s, id, t, accepted);
    Assoc(accepted, t.pending, Aside(s, id));
    Assoc(Accepted(s, id), s.tcp[id].pending, Aside(s, id));
    forall i: nat ensures ConservedFor(s', i) {
      assert ConservedFor(s, i) && OwnsTcp(s, i) && OwnsTcp(s, id) && ConservedFor(s, id);
      assert Aside(s', i) == Aside(s, i);
    }
  }

  lemma DropKeepsOwned(s: Stack, id: nat, reply: Reply)
    requires Owned(s) && id in s.tcp
    ensures Owned(Drop(s, id, reply))
  {
    var s' := Drop(s, id, reply);
    forall i: nat ensures OwnsTcp(s', i) && OwnsUdp(s', i) {
      assert OwnsTcp(s, i) && OwnsUdp(s, i) && OwnsTcp(s, id);
    }
    forall h: nat ensures Held(s', h) {
      assert Held(s, h) && OwnsTcp(s, id);
    }
  }

  lemma DropKeepsAnswered(s: Stack, id: nat, reply: Reply)
    requires Answered(s) && id in s.tcp
    ensures Answered(Drop(s, id, reply))
  {
    var s' := Drop(s, id, reply);
    forall i: nat ensures RespRight(s', i) {
      assert RespRight(s, i) && RespRight(s, id);
    }
    forall r: nat ensures WaitRight(s', r) {
      assert WaitRight(s, r) && RespRight(s, id);
    }
  }

  lemma RespIsUnanswered(s: Stack, id: nat)
    requires Answered(s) && id in s.tcp
    ensures s.tcp[id].resp.Some? ==> s.tcp[id].resp.value !in s.answers
  {
    assert RespRight(s, id);
    if s.tcp[id].resp.Some? {
      assert WaitRight(s, s.tcp[id].resp.value);
    }
  }

  lemma DropKeeps(s: Stack, id: nat, reply: Reply)
    requires Inv(s) && id in s.tcp
    ensures Inv(Drop(s, id, reply))
  {
    DropKeepsOwned(s, id, reply);
    DropKeepsAnswered(s, id, reply);
    RespIsUnanswered(s, id);
    LoggedOnce(s.sent, s.answers, s.tcp[id].resp, reply);
    hide SentOnce, Answered, Logged, Replied;
    var s' := Drop(s, id, reply);
    forall i: nat ensures ConservedFor(s', i) {
      assert ConservedFor(s, i) && OwnsTcp(s, i) && OwnsTcp(s, id);
    }
  }

  lemma EstablishKeepsOwned(s: Stack, id: nat)
    requires Owned(s) && id in s.tcp
    ensures Owned(Establish(s, id))
  {
    var s' := Establish(s, id);
    forall i: nat ensures OwnsTcp(s', i) && OwnsUdp(s', i) {
      assert OwnsTcp(s, i) && OwnsUdp(s, i) && OwnsTcp(s, id);
    }
    forall h: nat ensures Held(s', h) {
      assert Held(s, h) && OwnsTcp(s, id);
    }
  }

  lemma EstablishKeepsAnswered(s: Stack, id: nat)
    requires Answered(s) && id in s.tcp
    ensures Answered(Establish(s, id))
  {
    var s' := Establish(s, id);
    forall i: nat ensures RespRight(s', i) {
      assert RespRight(s, i) && RespRight(s, id);
    }
    forall r: nat ensures WaitRight(s', r) {
      assert WaitRight(s, r) && RespRight(s, id);
    }
  }

  lemma EstablishKeeps(s: Stack, id: nat)
    requires Inv(s) && id in s.tcp
    ensures Inv(Establish(s, id))
  {
    EstablishKeepsOwned(s, id);
    EstablishKeepsAnswered(s, id);
    RespIsUnanswered(s, id);
    LoggedOnce(s.sent, s.answers, s.tcp[id].resp, Opened(id));
    hide SentOnce, Answered, Logged, Replied;
    var s' := Establish(s, id);
    forall i: nat ensures ConservedFor(s', i) {
      assert ConservedFor(s, i) && OwnsTcp(s, i) && OwnsTcp(s, id);
    }
  }

  // ---- opening ----

  /** A request that fails before it has a socket. */
  function Refuse(s: Stack, r: nat): (s': Stack)
  {
    s.(answers := s.answers[r := Failed], sent := s.sent + [r])
  }

  /** `handle` is the place the socket set gives the new socket: one that is free. */
  function OpenTcp(s: Stack, r: nat, handle: nat, deadline: int): (s': Stack)
  {
    var id := s.nextId;
    s.(nextId := id + 1,
       sockets := s.sockets[handle := TcpSocket([])],
       owners := s.owners[handle := OfTcp(id)],
       tcp := s.tcp[id := Tcp(handle, Some(r), deadline, [], false, false, None, false, false, false)],
       taken := s.taken[id := []],
       waiting := s.waiting[r := id])
  }

  function OpenUdp(s: Stack, r: nat, handle: nat): (s': Stack)
  {
    var id := s.nextId;
    s.(nextId := id + 1,
       sockets := s.sockets[handle := UdpSocket],
       owners := s.owners[handle := OfUdp(id)],
       udp := s.udp[id := handle],
       answers := s.answers[r := Opened(id)],
       sent := s.sent + [r])
  }

  function CloseUdp(s: Stack, id: nat): (s': Stack)
  {
    if id !in s.udp then s
    else s.(udp := s.udp - {id}, sockets := s.sockets - {s.udp[id]}, owners := s.owners - {s.udp[id]})
  }

  // ---- the application's items ----

  /** An item off the application's channel. */
  function Arrive(s: Stack, d: DataIn): (s': Stack)
  {
    s.(deferred := [d],
       taken := if d.TcpData? && d.id in s.taken then s.taken[d.id := s.taken[d.id] + d.data] else s.taken)
  }

  /** What handling the item in hand comes to; what does not fit stays in hand. */
  function Offer(s: Stack): (s': Stack)
    requires |s.deferred| == 1
  {
    match s.deferred[0]
    case UdpData(_) => s.(deferred := [])
    case UdpClose(id) => CloseUdp(s.(deferred := []), id)
    case TcpClose(id) => OfferClose(s, id)
    case TcpData(id, data) => OfferData(s, id, data)
  }

  function OfferClose(s: Stack, id: nat): (s': Stack)
  {
    s.(deferred := [],
       tcp := if id in s.tcp then s.tcp[id := s.tcp[id].(halfClosed := true)] else s.tcp,
       marks := if id in s.tcp && !s.tcp[id].halfClosed
                then s.marks[id := if id in s.taken then |s.taken[id]| else 0] else s.marks)
  }

  function OfferData(s: Stack, id: nat, data: seq<byte>): (s': Stack)
  {
    var f := if id in s.tcp then Fit(s.tcp[id].pending, data, s.maxPending) else Fitted([], None);
    s.(deferred := if f.left.Some? then [TcpData(id, f.left.value)] else [],
       tcp := if id in s.tcp then s.tcp[id := s.tcp[id].(pending := f.pending)] else s.tcp)
  }

  datatype Fitted = Fitted(pending: seq<byte>, left: Option<seq<byte>>)

  function Rest(left: Option<seq<byte>>): (b: seq<byte>)
  {
    if left.Some? then left.value else []
  }

  /** As much of `data` as there is room for goes behind what waits; nothing of it is lost. */
  function Fit(pending: seq<byte>, data: seq<byte>, max: nat): (f: Fitted)
    ensures f.pending + Rest(f.left) == pending + data
    ensures |pending| <= |f.pending|
    ensures |pending| <= max ==> |f.pending| <= max
    ensures f.left.None? ==> f.pending == pending + data
    ensures f.left.Some? ==> |f.pending| >= max
  {
    if |pending| >= max then Fitted(pending, Some(data))
    else
      var space := max - |pending|;
      if |data| <= space then Fitted(pending + data, None)
      else
        assert data == data[..space] + data[space..];
        Fitted(pending + data[..space], Some(data[space..]))
  }

  // ---- serving a connection ----

  /** What a turn finds out about a connection: the socket's state at the start and the end, how many
      bytes it takes, whether it has some to give, and whether the application has gone. */
  datatype Look = Look(state: SocketState, room: nat, canRecv: bool, after: SocketState, respGone: bool, appGone: bool)

  function Flush(s: Stack, id: nat, room: nat): (s': Stack)
    requires id in s.tcp
  {
    var t := s.tcp[id];
    var n := if |t.pending| <= room then |t.pending| else room;
    Put(s, id, t.(pending := t.pending[n..]), Accepted(s, id) + t.pending[..n])
  }

  /** Whether a connection whose application has gone is given up: it has bytes nobody will take, or
      has lingered long enough. */
  predicate GivesUp(t: Tcp, look: Look, now: int, linger: int) {
    var since := if t.orphanedAt.Some? then t.orphanedAt.value else now;
    look.appGone && (look.canRecv || now - since >= linger)
  }

  /** The end of a turn: a socket is told to close when the application asked for it and nothing waits, when
      the application has gone, or when the peer has closed. */
  function Orphan(t: Tcp, look: Look, now: int, linger: int): (t': Tcp)
  {
    var goesOn := !GivesUp(t, look, now, linger);
    t.(orphanedAt := if look.appGone && t.orphanedAt.None? then Some(now) else t.orphanedAt,
       aborted := t.aborted || !goesOn,
       peerClosed := t.peerClosed || (goesOn && look.after == CloseWait),
       shut := t.shut || (t.halfClosed && t.pending == []) || (goesOn && (look.appGone || look.after == CloseWait)))
  }

  /** The connection noted as closed at the application's request, when it is and nothing waits. */
  function End(s: Stack, id: nat): (s': Stack)
    requires id in s.tcp
  {
    s.(ended := if s.tcp[id].halfClosed && s.tcp[id].pending == [] then s.ended + {id} else s.ended)
  }

  function ServeOpen(s: Stack, id: nat, look: Look, now: int, linger: int): (s': Stack)
    requires id in s.tcp
  {
    var s1 := End(Flush(s, id, look.room), id);
    var t := s1.tcp[id];
    var s2 := Put(s1, id, Orphan(t, look, now, linger), Accepted(s1, id));
    if !GivesUp(t, look, now, linger) && (look.after == Closed || look.after == TimeWait)
    then Drop(s2, id, Refused) else s2
  }

  function Serve(s: Stack, id: nat, look: Look, now: int, linger: int): (s': Stack)
  {
    if id !in s.tcp then s
    else if s.tcp[id].aborted then Drop(s, id, Refused)
    else
      var connected := look.state == Established || look.state == CloseWait;
      var s1 := if !s.tcp[id].established && connected then Establish(s, id) else s;
      if s1.tcp[id].established then ServeOpen(s1, id, look, now, linger)
      else if look.state == Closed || look.state == TimeWait then Drop(s1, id, Refused)
      else if look.respGone || now >= s1.tcp[id].deadline then Drop(s1, id, TimedOut)
      else s1
  }

  /** Turns that find the application gone, at these times, with nothing to receive. */
  function Lingered(t: Tcp, look: Look, times: seq<int>, linger: int): (t': Tcp)
  {
    if times == [] then t
    else Orphan(Lingered(t, look, times[..|times| - 1], linger), look, times[|times| - 1], linger)
  }

  /** A connection whose application has gone is given up at the first turn that comes `linger` after the turn
      that first found it gone, and not before. */
  lemma {:induction false} GivenUpInTime(t: Tcp, look: Look, times: seq<int>, linger: int)
    requires look.appGone && !look.canRecv && t.orphanedAt.None? && !t.aborted && times != []
    requires forall i, j :: 0 <= i < j < |times| ==> times[i] <= times[j]
    ensures
      var t' := Lingered(t, look, times, linger);
      && t'.orphanedAt == Some(times[0])
      && (t'.aborted <==> times[|times| - 1] - times[0] >= linger)
  {
    var last := |times| - 1;
    if last == 0 {
      assert Lingered(t, look, times[..0], linger) == t;
    } else {
      GivenUpInTime(t, look, times[..last], linger);
    }
  }

  /** What a turn found out, and when. */
  datatype Glance = Glance(look: Look, now: int)

  /** The turns of one connection, as far as they decide when it ends. */
  function Watched(t: Tcp, gs: seq<Glance>, linger: int): (t': Tcp)
  {
    if gs == [] then t
    else Orphan(Watched(t, gs[..|gs| - 1], linger), gs[|gs| - 1].look, gs[|gs| - 1].now, linger)
  }

  /** When the application was first found gone. */
  function FirstGone(gs: seq<Glance>): (time: Option<int>)
  {
    if gs == [] then None
    else if gs[0].look.appGone then Some(gs[0].now)
    else FirstGone(gs[1..])
  }

  /** The last turn gives the connection up: nobody will take what it has to give, or it has lingered. */
  predicate GaveUp(gs: seq<Glance>, linger: int) {
    && gs != [] && gs[|gs| - 1].look.appGone
    && (gs[|gs| - 1].look.canRecv || (FirstGone(gs) != None && gs[|gs| - 1].now - FirstGone(gs).value >= linger))
  }

  /** The last turn closes the connection: the application or the peer has gone, and it is not given up. */
  predicate ClosedIt(gs: seq<Glance>, linger: int) {
    gs != [] && !GaveUp(gs, linger) && (gs[|gs| - 1].look.appGone || gs[|gs| - 1].look.after == CloseWait)
  }

  predicate PeerLeft(gs: seq<Glance>, linger: int) {
    gs != [] && !GaveUp(gs, linger) && gs[|gs| - 1].look.after == CloseWait
  }

  lemma {:induction false} FirstGoneMore(gs: seq<Glance>, g: Glance)
    ensures FirstGone(gs + [g]) ==
      if FirstGone(gs) != None then FirstGone(gs) else if g.look.appGone then Some(g.now) else None
    decreases |gs|
  {
    if gs == [] {
      assert gs + [g] == [g];
    } else {
      assert (gs + [g])[1..] == gs[1..] + [g];
      FirstGoneMore(gs[1..], g);
    }
  }

  /** Over any turns: the connection is given up, closed, or left by its peer exactly when one of them did it. */
  lemma {:induction false} WatchedIs(t: Tcp, gs: seq<Glance>, linger: int)
    requires t.orphanedAt == None && !t.aborted && !t.peerClosed && !t.shut && !(t.halfClosed && t.pending == [])
    ensures
      var t' := Watched(t, gs, linger);
      && t'.orphanedAt == FirstGone(gs) && t'.halfClosed == t.halfClosed && t'.pending == t.pending
      && (t'.aborted <==> exists k :: 1 <= k <= |gs| && GaveUp(gs[..k], linger))
      && (t'.peerClosed <==> exists k :: 1 <= k <= |gs| && PeerLeft(gs[..k], linger))
      && (t'.shut <==> exists k :: 1 <= k <= |gs| && ClosedIt(gs[..k], linger))
  {
    if gs != [] {
      var n := |gs| - 1;
      var before, last := gs[..n], gs[n];
      WatchedIs(t, before, linger);
      assert gs == before + [last];
      FirstGoneMore(before, last);
      OrphanIs(Watched(t, before, linger), before, last, linger);
      assert gs[..n + 1] == gs;
      forall k | 1 <= k <= n ensures gs[..k] == before[..k] {}
      hide Watched, Orphan, FirstGone, GaveUp, PeerLeft, ClosedIt;
      LastOne(gs, linger);
    }
  }

  lemma OrphanIs(t: Tcp, before: seq<Glance>, last: Glance, linger: int)
    requires t.orphanedAt == FirstGone(before) && !(t.halfClosed && t.pending == [])
    ensures
      var gs := before + [last];
      var t' := Orphan(t, last.look, last.now, linger);
      && t'.orphanedAt == FirstGone(gs) && t'.halfClosed == t.halfClosed && t'.pending == t.pending
      && (t'.aborted <==> t.aborted || GaveUp(gs, linger))
      && (t'.peerClosed <==> t.peerClosed || PeerLeft(gs, linger))
      && (t'.shut <==> t.shut || ClosedIt(gs, linger))
  {
    hide FirstGone;
    FirstGoneMore(before, last);
  }

  lemma LastOne(gs: seq<Glance>, linger: int)
    requires gs != []
    ensures
      var before := gs[..|gs| - 1];
      && ((exists k :: 1 <= k <= |gs| && GaveUp(gs[..k], linger)) <==>
        (exists k :: 1 <= k <= |before| && GaveUp(before[..k], linger)) || GaveUp(gs, linger))
      && ((exists k :: 1 <= k <= |gs| && PeerLeft(gs[..k], linger)) <==>
        (exists k :: 1 <= k <= |before| && PeerLeft(before[..k], linger)) || PeerLeft(gs, linger))
      && ((exists k :: 1 <= k <= |gs| && ClosedIt(gs[..k], linger)) <==>
        (exists k :: 1 <= k <= |before| && ClosedIt(before[..k], linger)) || ClosedIt(gs, linger))
  {
    hide GaveUp, PeerLeft, ClosedIt;
    var before := gs[..|gs| - 1];
    assert gs[..|gs|] == gs;
    forall k | 1 <= k <= |before| ensures gs[..k] == before[..k] {}
  }

  // ---- every step keeps the invariant ----

  predicate NewRequest(s: Stack, r: nat) {
    r !in s.waiting && r !in s.answers
  }

  lemma RefuseKeeps(s: Stack, r: nat)
    requires Inv(s) && NewRequest(s, r)
    ensures Inv(Refuse(s, r))
  {
    var s' := Refuse(s, r);
    LoggedOnce(s.sent, s.answers, Some(r), Failed);
    hide SentOnce;
    forall i: nat ensures OwnsTcp(s', i) && OwnsUdp(s', i) && Held(s', i) {
      assert OwnsTcp(s, i) && OwnsUdp(s, i) && Held(s, i);
    }
    forall i: nat ensures RespRight(s', i) && WaitRight(s', i) {
      assert RespRight(s, i) && WaitRight(s, i);
    }
    forall i: nat ensures ConservedFor(s', i) {
      assert ConservedFor(s, i);
    }
  }

  lemma OpenTcpOwned(s: Stack, r: nat, handle: nat, deadline: int)
    requires Owned(s) && handle !in s.sockets
    ensures Owned(OpenTcp(s, r, handle, deadline))
  {
    var s' := OpenTcp(s, r, handle, deadline);
    forall i: nat ensures OwnsTcp(s', i) && OwnsUdp(s', i) {
      assert OwnsTcp(s, i) && OwnsUdp(s, i) && Held(s, handle);
    }
    forall h: nat ensures Held(s', h) {
      assert Held(s, h) && OwnsTcp(s, s.nextId);
    }
  }

  lemma OpenTcpAnswered(s: Stack, r: nat, handle: nat, deadline: int)
    requires Owned(s) && Answered(s) && NewRequest(s, r)
    ensures Answered(OpenTcp(s, r, handle, deadline))
  {
    var s' := OpenTcp(s, r, handle, deadline);
    assert OwnsTcp(s, s.nextId);
    forall i: nat ensures RespRight(s', i) { assert RespRight(s, i); }
    forall q: nat ensures WaitRight(s', q) { assert WaitRight(s, q); }
  }

  lemma OpenTcpKeeps(s: Stack, r: nat, handle: nat, deadline: int)
    requires Inv(s) && NewRequest(s, r) && handle !in s.sockets
    ensures Inv(OpenTcp(s, r, handle, deadline))
  {
    OpenTcpOwned(s, r, handle, deadline);
    OpenTcpAnswered(s, r, handle, deadline);
    hide Answered;
    var s' := OpenTcp(s, r, handle, deadline);
    forall i: nat ensures ConservedFor(s', i) {
      assert ConservedFor(s, i) && OwnsTcp(s, i) && Aside(s', i) == Aside(s, i);
      if i == s.nextId { NothingAside(s, i); }
    }
  }

  /** Nothing was taken for a connection that does not exist yet. */
  lemma NothingAside(s: Stack, id: nat)
    requires Conserved(s) && id >= s.nextId
    ensures Aside(s, id) == []
  {
  }

  lemma OpenUdpOwned(s: Stack, r: nat, handle: nat)
    requires Owned(s) && handle !in s.sockets
    ensures Owned(OpenUdp(s, r, handle))
  {
    var s' := OpenUdp(s, r, handle);
    forall i: nat ensures OwnsTcp(s', i) && OwnsUdp(s', i) {
      assert OwnsTcp(s, i) && OwnsUdp(s, i) && Held(s, handle);
    }
    forall h: nat ensures Held(s', h) {
      assert Held(s, h) && OwnsUdp(s, s.nextId);
    }
  }

  lemma OpenUdpKeeps(s: Stack, r: nat, handle: nat)
    requires Inv(s) && NewRequest(s, r) && handle !in s.sockets
    ensures Inv(OpenUdp(s, r, handle))
  {
    OpenUdpOwned(s, r, handle);
    LoggedOnce(s.sent, s.answers, Some(r), Opened(s.nextId));
    hide SentOnce;
    var s' := OpenUdp(s, r, handle);
    forall i: nat ensures RespRight(s', i) && WaitRight(s', i) {
      assert RespRight(s, i) && WaitRight(s, i);
    }
    forall i: nat ensures ConservedFor(s', i) {
      assert ConservedFor(s, i) && OwnsTcp(s, i);
    }
  }

  lemma CloseUdpKeeps(s: Stack, id: nat)
    requires Inv(s)
    ensures Inv(CloseUdp(s, id))
  {
    var s' := CloseUdp(s, id);
    if id in s.udp {
      forall i: nat ensures OwnsTcp(s', i) && OwnsUdp(s', i) && Held(s', i) {
        assert OwnsTcp(s, i) && OwnsUdp(s, i) && OwnsUdp(s, id) && Held(s, i);
      }
      forall i: nat ensures RespRight(s', i) && WaitRight(s', i) {
        assert RespRight(s, i) && WaitRight(s, i);
      }
      forall i: nat ensures ConservedFor(s', i) {
        assert ConservedFor(s, i) && OwnsTcp(s, i) && OwnsUdp(s, id);
      }
    }
  }

  /** A change that leaves the tables and the requests as they are, but for bytes that wait. */
  predicate SameTables(s: Stack, s': Stack) {
    && s'.sockets == s.sockets && s'.owners == s.owners && s'.udp == s.udp && s'.nextId == s.nextId
    && s'.waiting == s.waiting && s'.answers == s.answers && s'.sent == s.sent
    && s'.tcp.Keys == s.tcp.Keys
    && forall id :: id in s.tcp ==>
         s'.tcp[id] == s.tcp[id].(pending := s'.tcp[id].pending, halfClosed := s'.tcp[id].halfClosed)
  }

  lemma SameTablesKeeps(s: Stack, s': Stack)
    requires Owned(s) && Answered(s) && SameTables(s, s')
    ensures Owned(s') && Answered(s')
  {
    forall i: nat ensures OwnsTcp(s', i) && OwnsUdp(s', i) && Held(s', i) {
      assert OwnsTcp(s, i) && OwnsUdp(s, i) && Held(s, i);
    }
    forall i: nat ensures RespRight(s', i) && WaitRight(s', i) {
      assert RespRight(s, i) && WaitRight(s, i);
    }
  }

  /** An item for a connection that was handed out, taken while none is set aside. */
  lemma ArriveKeeps(s: Stack, d: DataIn)
    requires Inv(s) && s.deferred == [] && (d.TcpData? ==> d.id < s.nextId)
    ensures Inv(Arrive(s, d))
  {
    var s' := Arrive(s, d);
    SameTablesKeeps(s, s');
    hide Owned, Answered;
    forall i: nat ensures ConservedFor(s', i) {
      assert ConservedFor(s, i);
      if i in s.tcp {
        assert Accepted(s', i) == Accepted(s, i) && Aside(s, i) == [];
        assert s'.taken[i] == s.taken[i] + Aside(s', i);
      }
    }
  }

  lemma OfferSameTables(s: Stack, id: nat, data: seq<byte>)
    ensures SameTables(s, OfferClose(s, id)) && SameTables(s, OfferData(s, id, data))
  {
    hide Fit, Accepted;
  }

  lemma OfferCloseKeeps(s: Stack, id: nat)
    requires Inv(s) && s.deferred == [TcpClose(id)]
    ensures Inv(OfferClose(s, id))
  {
    hide Owned, Answered, SameTables;
    var s' := OfferClose(s, id);
    OfferSameTables(s, id, []);
    SameTablesKeeps(s, s');
    forall i: nat ensures ConservedFor(s', i) {
      assert ConservedFor(s, i);
      if i in s.tcp {
        assert Accepted(s', i) == Accepted(s, i) && Aside(s', i) == Aside(s, i) == [];
      }
    }
  }

  lemma OfferDataKeeps(s: Stack, id: nat, data: seq<byte>)
    requires Inv(s) && s.deferred == [TcpData(id, data)]
    ensures Inv(OfferData(s, id, data))
  {
    hide Owned, Answered, SameTables, Fit;
    var s' := OfferData(s, id, data);
    OfferSameTables(s, id, data);
    SameTablesKeeps(s, s');
    forall i: nat ensures ConservedFor(s', i) {
      assert ConservedFor(s, i);
      if i in s.tcp {
        OfferMovesBytes(s, id, data, i);
        assert Accepted(s', i) == Accepted(s, i);
      }
    }
  }

  /** Handling moves bytes from the item in hand to the end of those that wait, and loses none. */
  lemma OfferMovesBytes(s: Stack, id: nat, data: seq<byte>, i: nat)
    requires s.deferred == [TcpData(id, data)] && i in s.tcp
    ensures
      var s' := OfferData(s, id, data);
      && i in s'.tcp
      && s'.tcp[i].pending + Aside(s', i) == s.tcp[i].pending + Aside(s, i)
      && |s.tcp[i].pending| <= |s'.tcp[i].pending|
      && (|s.tcp[i].pending| <= s.maxPending ==> |s'.tcp[i].pending| <= s.maxPending)
  {
    hide Fit;
    if i == id {
      var f := Fit(s.tcp[id].pending, data, s.maxPending);
      assert Aside(OfferData(s, id, data), i) == Rest(f.left);
    }
  }

  lemma OfferKeeps(s: Stack)
    requires Inv(s) && |s.deferred| == 1
    ensures Inv(Offer(s))
  {
    assert s.deferred == [s.deferred[0]];
    hide OfferData, OfferClose, CloseUdp, Inv;
    match s.deferred[0]
    case TcpData(id, data) => OfferDataKeeps(s, id, data);
    case TcpClose(id) => OfferCloseKeeps(s, id);
    case UdpData(_) => EmptyHandKeeps(s);
    case UdpClose(id) =>
      EmptyHandKeeps(s);
      CloseUdpKeeps(s.(deferred := []), id);
  }

  lemma EmptyHandKeeps(s: Stack)
    requires Inv(s) && |s.deferred| == 1 && !s.deferred[0].TcpData?
    ensures Inv(s.(deferred := []))
  {
    var s' := s.(deferred := []);
    SameTablesKeeps(s, s');
    hide Owned, Answered;
    forall i: nat ensures ConservedFor(s', i) {
      assert ConservedFor(s, i);
    }
  }

  lemma FlushKeeps(s: Stack, id: nat, room: nat)
    requires Inv(s) && id in s.tcp
    ensures Inv(Flush(s, id, room))
  {
    var t := s.tcp[id];
    var n := if |t.pending| <= room then |t.pending| else room;
    assert t.pending == t.pending[..n] + t.pending[n..];
    assert ConservedFor(s, id) && RespRight(s, id);
    PutKeeps(s, id, t.(pending := t.pending[n..]), Accepted(s, id) + t.pending[..n]);
  }

  /** A connection may be closed at the application's request once nothing of it waits. */
  lemma EndKeeps(s: Stack, id: nat)
    requires Inv(s) && id in s.tcp
    ensures Inv(End(s, id))
  {
    var s' := End(s, id);
    SameTablesKeeps(s, s');
    assert OwnsTcp(s, id);
    hide Owned, Answered;
    forall i: nat ensures ConservedFor(s', i) {
      assert ConservedFor(s, i);
    }
  }

  /** A close nobody but the application asked for is noted, and only once nothing waits. */
  lemma AskedIsEnded(s: Stack, id: nat, look: Look, now: int, linger: int)
    requires Inv(s) && id in s.tcp
    ensures Asked(Orphan(End(s, id).tcp[id], look, now, linger)) ==> id in End(s, id).ended
  {
    assert ConservedFor(s, id);
  }

  lemma ServeOpenKeeps(s: Stack, id: nat, look: Look, now: int, linger: int)
    requires Inv(s) && id in s.tcp && s.tcp[id].established
    ensures Inv(ServeOpen(s, id, look, now, linger))
  {
    hide Inv, Flush, Put, Drop, End, GivesUp;
    FlushTcp(s, id, look.room);
    FlushKeeps(s, id, look.room);
    EndKeeps(Flush(s, id, look.room), id);
    var s1 := End(Flush(s, id, look.room), id);
    var t := Orphan(s1.tcp[id], look, now, linger);
    AskedIsEnded(Flush(s, id, look.room), id, look, now, linger);
    TouchKeeps(s1, id, t);
    PutTcp(s1, id, t, Accepted(s1, id));
    DropKeeps(Put(s1, id, t, Accepted(s1, id)), id, Refused);
  }

  lemma PutTcp(s: Stack, id: nat, t: Tcp, accepted: seq<byte>)
    ensures
      var s' := Put(s, id, t, accepted);
      s'.answers == s.answers && s'.waiting == s.waiting && id in s'.tcp && s'.tcp[id] == t
  {
  }

  lemma FlushTcp(s: Stack, id: nat, room: nat)
    requires id in s.tcp
    ensures
      var s' := Flush(s, id, room);
      && s'.answers == s.answers && s'.waiting == s.waiting && id in s'.tcp && id in End(s', id).tcp
      && End(s', id).answers == s.answers && End(s', id).waiting == s.waiting
      && End(s', id).tcp[id] == s.tcp[id].(pending := s'.tcp[id].pending)
  {
    hide Accepted;
  }

  lemma TouchKeeps(s: Stack, id: nat, t: Tcp)
    requires Inv(s) && id in s.tcp && s.tcp[id].established
    requires t == s.tcp[id].(orphanedAt := t.orphanedAt, aborted := t.aborted, peerClosed := t.peerClosed, shut := t.shut)
    requires Asked(t) ==> id in s.ended
    ensures Inv(Put(s, id, t, Accepted(s, id)))
  {
    assert ConservedFor(s, id);
    PutKeeps(s, id, t, Accepted(s, id));
  }

  lemma ServeKeeps(s: Stack, id: nat, look: Look, now: int, linger: int)
    requires Inv(s)
    ensures Inv(Serve(s, id, look, now, linger))
  {
    hide Inv, ServeOpen, Drop;
    if id in s.tcp {
      DropKeeps(s, id, Refused);
      DropKeeps(s, id, TimedOut);
      EstablishKeeps(s, id);
      var connected := look.state == Established || look.state == CloseWait;
      var s1 := if !s.tcp[id].established && connected then Establish(s, id) else s;
      if s1.tcp[id].established {
        ServeOpenKeeps(s1, id, look, now, linger);
      }
    }
  }

  // ---- runs ----

  datatype Step =
    | AskTcp(r: nat, handle: nat, deadline: int)
    | AskUdp(r: nat, handle: nat)
    | AskFails(r: nat)
    | Item(d: DataIn)
    | Retry
    | TcpTurn(id: nat, look: Look, now: int, linger: int)
    | UdpGone(id: nat)

  /** Requests are new ones, a new socket gets a free place, items name connections that were handed
      out, and none is taken while one is set aside. */
  predicate Enabled(s: Stack, step: Step) {
    match step
    case AskTcp(r, handle, _) => NewRequest(s, r) && handle !in s.sockets
    case AskUdp(r, handle) => NewRequest(s, r) && handle !in s.sockets
    case AskFails(r) => NewRequest(s, r)
    case Item(d) => s.deferred == [] && d.id < s.nextId
    case Retry => |s.deferred| == 1
    case TcpTurn(_, _, _, _) => true
    case UdpGone(_) => true
  }

  function Do(s: Stack, step: Step): (s': Stack)
    requires Enabled(s, step)
  {
    match step
    case AskTcp(r, handle, deadline) => OpenTcp(s, r, handle, deadline)
    case AskUdp(r, handle) => OpenUdp(s, r, handle)
    case AskFails(r) => Refuse(s, r)
    case Item(d) => Offer(Arrive(s, d))
    case Retry => Offer(s)
    case TcpTurn(id, look, now, linger) => Serve(s, id, look, now, linger)
    case UdpGone(id) => CloseUdp(s, id)
  }

  lemma DoKeeps(s: Stack, step: Step)
    requires Inv(s) && Enabled(s, step)
    ensures Inv(Do(s, step))
  {
    hide Inv, OpenTcp, OpenUdp, Refuse, Offer, Serve, CloseUdp;
    match step
    case AskTcp(r, handle, deadline) => OpenTcpKeeps(s, r, handle, deadline);
    case AskUdp(r, handle) => OpenUdpKeeps(s, r, handle);
    case AskFails(r) => RefuseKeeps(s, r);
    case Item(d) => ArriveKeeps(s, d); OfferKeeps(Arrive(s, d));
    case Retry => OfferKeeps(s);
    case TcpTurn(id, look, now, linger) => ServeKeeps(s, id, look, now, linger);
    case UdpGone(id) => CloseUdpKeeps(s, id);
  }

  function Start(maxPending: nat): (s: Stack)
  {
    Stack(maxPending, map[], map[], map[], 1, [], map[], map[], map[], {}, map[], map[], [])
  }

  lemma StartInv(maxPending: nat)
    ensures Inv(Start(maxPending))
  {
    var s := Start(maxPending);
    forall i: nat ensures OwnsTcp(s, i) && OwnsUdp(s, i) && Held(s, i) {}
    forall i: nat ensures RespRight(s, i) && WaitRight(s, i) && ConservedFor(s, i) {}
  }

  /** The states a run passes through from the start. */
  ghost predicate IsRun(run: seq<Stack>, steps: seq<Step>) {
    && |run| == |steps| + 1 && run[0] == Start(run[0].maxPending)
    && forall i :: 0 <= i < |steps| ==> Enabled(run[i], steps[i]) && run[i + 1] == Do(run[i], steps[i])
  }

  lemma {:induction false} RunInv(run: seq<Stack>, steps: seq<Step>, i: nat)
    requires IsRun(run, steps) && i < |run|
    ensures Inv(run[i])
  {
    hide Inv, Do, Enabled;
    if i == 0 {
      StartInv(run[0].maxPending);
    } else {
      RunInv(run, steps, i - 1);
      assert run[i - 1 + 1] == Do(run[i - 1], steps[i - 1]);
      DoKeeps(run[i - 1], steps[i - 1]);
    }
  }

  /** In every reachable state: the socket has a first part of what was taken for its connection, what
      waits comes next and within its bound; and a socket told to close while the application was there and
      the peer had not closed was handed every byte taken before the application's request to close. */
  lemma BytesAreConserved(run: seq<Stack>, steps: seq<Step>, i: nat, id: nat)
    requires IsRun(run, steps) && i < |run| && id in run[i].tcp
    ensures
      var s := run[i];
      && |s.deferred| <= 1 && |s.tcp[id].pending| <= s.maxPending
      && id in s.taken && Accepted(s, id) + (s.tcp[id].pending + Aside(s, id)) == s.taken[id]
      && Accepted(s, id) <= s.taken[id]
      && (Asked(s.tcp[id]) ==> id in s.ended)
      && (id in s.ended ==> id in s.marks && s.marks[id] <= |s.taken[id]| && s.taken[id][..s.marks[id]] <= Accepted(s, id))
  {
    RunInv(run, steps, i);
    var s := run[i];
    assert ConservedFor(s, id);
    hide Owned, Answered;
    assert (Accepted(s, id) + (s.tcp[id].pending + Aside(s, id)))[..|Accepted(s, id)|] == Accepted(s, id);
  }

  /** In every reachable state the sockets are exactly those the tables own, each once. */
  lemma OwnershipIsExact(run: seq<Stack>, steps: seq<Step>, i: nat)
    requires IsRun(run, steps) && i < |run|
    ensures
      var s := run[i];
      && s.sockets.Keys == (set id | id in s.tcp :: s.tcp[id].handle) + (set id | id in s.udp :: s.udp[id])
      && (forall j, k :: j in s.tcp && k in s.tcp && j != k ==> s.tcp[j].handle != s.tcp[k].handle)
      && (forall j, k :: j in s.udp && k in s.udp && j != k ==> s.udp[j] != s.udp[k])
      && (forall j, k :: j in s.tcp && k in s.udp ==> s.tcp[j].handle != s.udp[k])
      && (forall id: nat :: id in s.tcp ==> (s.tcp[id].established <==> s.tcp[id].resp.None?))
  {
    RunInv(run, steps, i);
    ExactlyOwned(run[i]);
    forall id: nat | id in run[i].tcp ensures run[i].tcp[id].established <==> run[i].tcp[id].resp.None? {
      assert RespRight(run[i], id);
    }
    hide Owned, Conserved, SentOnce;
  }

  // ---- bytes reach the socket ----

  function Smaller(a: nat, b: nat): (m: nat) {
    if a < b then a else b
  }

  predicate IsConnected(look: Look) {
    look.state == Established || look.state == CloseWait
  }

  /** What sending does to a connection whose socket had accepted `had`. */
  predicate Sends(s: Stack, s': Stack, id: nat, room: nat)
    requires id in s.tcp
  {
    var t, n := s.tcp[id], Smaller(room, |s.tcp[id].pending|);
    && s'.taken == s.taken && s'.deferred == s.deferred
    && id in s'.tcp && s'.tcp[id].established == t.established && s'.tcp[id].halfClosed == t.halfClosed
    && s'.tcp[id].pending == t.pending[n..] && Accepted(s', id) == Accepted(s, id) + t.pending[..n]
  }

  lemma FlushSends(s: Stack, id: nat, room: nat)
    requires OwnsTcp(s, id) && id in s.tcp
    ensures Sends(s, Flush(s, id, room), id, room)
    ensures OwnsTcp(Flush(s, id, room), id)
  {
  }

  /** What comes after sending leaves the bytes where they are. */
  predicate SameBytes(s: Stack, s': Stack, id: nat)
    requires id in s.tcp
  {
    && s'.taken == s.taken && s'.deferred == s.deferred
    && id in s'.tcp && s'.tcp[id].established == s.tcp[id].established && s'.tcp[id].halfClosed == s.tcp[id].halfClosed
    && s'.tcp[id].pending == s.tcp[id].pending && Accepted(s', id) == Accepted(s, id)
  }

  lemma PutSame(s: Stack, id: nat, look: Look, now: int, linger: int)
    requires OwnsTcp(s, id) && id in s.tcp
    ensures
      var t := Orphan(s.tcp[id], look, now, linger);
      && SameBytes(s, Put(s, id, t, Accepted(s, id)), id) && Put(s, id, t, Accepted(s, id)).tcp[id] == t
      && (t.halfClosed && t.pending == [] ==> t.shut)
  {
  }

  lemma EndSame(s: Stack, id: nat)
    requires OwnsTcp(s, id) && id in s.tcp
    ensures SameBytes(s, End(s, id), id) && OwnsTcp(End(s, id), id) && End(s, id).tcp == s.tcp
  {
  }

  lemma DropsIt(s: Stack, id: nat, reply: Reply)
    requires id in s.tcp
    ensures id !in Drop(s, id, reply).tcp
    ensures s.tcp[id].resp.Some? ==> s.tcp[id].resp.value in Drop(s, id, reply).answers && Drop(s, id, reply).answers[s.tcp[id].resp.value] == reply
  {
  }

  lemma ServeOpenSends(s: Stack, id: nat, look: Look, now: int, linger: int)
    requires OwnsTcp(s, id) && id in s.tcp && id in ServeOpen(s, id, look, now, linger).tcp
    ensures
      var s' := ServeOpen(s, id, look, now, linger);
      Sends(s, s', id, look.room) && (s'.tcp[id].halfClosed && s'.tcp[id].pending == [] ==> s'.tcp[id].shut)
  {
    hide Flush, End, Put, Drop, GivesUp, Orphan, OwnsTcp, Accepted;
    var s0 := Flush(s, id, look.room);
    FlushSends(s, id, look.room);
    EndSame(s0, id);
    var s1 := End(s0, id);
    PutSame(s1, id, look, now, linger);
    DropsIt(Put(s1, id, Orphan(s1.tcp[id], look, now, linger), Accepted(s1, id)), id, Refused);
  }

  lemma EstablishSame(s: Stack, id: nat)
    requires OwnsTcp(s, id) && id in s.tcp
    ensures
      var s' := Establish(s, id);
      && s'.taken == s.taken && s'.deferred == s.deferred && id in s'.tcp && OwnsTcp(s', id)
      && s'.tcp[id] == s.tcp[id].(established := true, resp := None) && Accepted(s', id) == Accepted(s, id)
    ensures s.tcp[id].resp.Some? ==> s.tcp[id].resp.value in Establish(s, id).answers && Establish(s, id).answers[s.tcp[id].resp.value] == Opened(id)
  {
  }

  /** A turn for a connection that is open, or that the turn finds open, sends as much of what waits as the
      socket takes, and closes a socket the application wants closed once nothing waits. */
  lemma ServeSends(s: Stack, id: nat, look: Look, now: int, linger: int)
    requires Inv(s) && id in s.tcp && (s.tcp[id].established || IsConnected(look))
    requires id in Serve(s, id, look, now, linger).tcp
    ensures
      var s' := Serve(s, id, look, now, linger);
      var n := Smaller(look.room, |s.tcp[id].pending|);
      && s'.taken == s.taken && s'.deferred == s.deferred && s'.tcp[id].established
      && s'.tcp[id].pending == s.tcp[id].pending[n..] && s'.tcp[id].halfClosed == s.tcp[id].halfClosed
      && Accepted(s', id) == Accepted(s, id) + s.tcp[id].pending[..n]
      && (s'.tcp[id].halfClosed && s'.tcp[id].pending == [] ==> s'.tcp[id].shut)
  {
    InvOwns(s, id);
    hide Inv, ServeOpen, Establish, Drop, OwnsTcp, Accepted;
    DropsIt(s, id, Refused);
    if s.tcp[id].established {
      ServeOpenSends(s, id, look, now, linger);
    } else {
      EstablishSame(s, id);
      ServeOpenSends(Establish(s, id), id, look, now, linger);
    }
  }

  /** Over a run: after a turn the socket has accepted, of the bytes taken for the connection, as many more
      as waited and fitted. */
  lemma TurnSends(run: seq<Stack>, steps: seq<Step>, i: nat, id: nat)
    requires IsRun(run, steps) && i < |steps| && steps[i].TcpTurn? && steps[i].id == id
    requires id in run[i].tcp && (run[i].tcp[id].established || IsConnected(steps[i].look)) && id in run[i + 1].tcp
    ensures
      var s, s', room := run[i], run[i + 1], steps[i].look.room;
      var had := |Accepted(s, id)|;
      && id in s.taken && had + Smaller(room, |s.tcp[id].pending|) <= |s.taken[id]|
      && Accepted(s', id) == s.taken[id][..had + Smaller(room, |s.tcp[id].pending|)]
  {
    hide Inv, Serve, Accepted;
    RunInv(run, steps, i);
    var s := run[i];
    ServeSends(s, id, steps[i].look, steps[i].now, steps[i].linger);
    InvConserves(s, id);
    Front(Accepted(s, id), s.tcp[id].pending, Aside(s, id), Smaller(steps[i].look.room, |s.tcp[id].pending|));
  }

  lemma InvConserves(s: Stack, id: nat)
    requires Inv(s) && id in s.tcp
    ensures id in s.taken && s.taken[id] == Accepted(s, id) + (s.tcp[id].pending + Aside(s, id))
  {
    assert ConservedFor(s, id);
  }

  lemma Front(had: seq<byte>, waits: seq<byte>, aside: seq<byte>, n: nat)
    requires n <= |waits|
    ensures (had + (waits + aside))[..|had| + n] == had + waits[..n]
  {
  }

  /** Turns for one connection, with nothing else between. */
  function Turns(s: Stack, id: nat, looks: seq<Look>, now: int, linger: int): (s': Stack)
    decreases |looks|
  {
    if looks == [] then s
    else Serve(Turns(s, id, looks[..|looks| - 1], now, linger), id, looks[|looks| - 1], now, linger)
  }

  function Room(looks: seq<Look>): (n: nat)
  {
    if looks == [] then 0 else Room(looks[..|looks| - 1]) + looks[|looks| - 1].room
  }

  lemma {:induction false} TurnsKeep(s: Stack, id: nat, looks: seq<Look>, now: int, linger: int)
    requires Inv(s)
    ensures Inv(Turns(s, id, looks, now, linger))
    decreases |looks|
  {
    hide Inv, Serve;
    if looks != [] {
      TurnsKeep(s, id, looks[..|looks| - 1], now, linger);
      ServeKeeps(Turns(s, id, looks[..|looks| - 1], now, linger), id, looks[|looks| - 1], now, linger);
    }
  }

  lemma ServeRemoves(s: Stack, id: nat, look: Look, now: int, linger: int)
    requires id in Serve(s, id, look, now, linger).tcp
    ensures id in s.tcp
  {
  }

  /** Once the rooms of its turns come to what waits, an open connection that lasts has nothing waiting: its
      socket has accepted it all, and is closed if the application asked for that. */
  lemma {:induction false} EverythingIsSent(s: Stack, id: nat, looks: seq<Look>, now: int, linger: int)
    requires Inv(s) && id in s.tcp && s.tcp[id].established && looks != []
    requires id in Turns(s, id, looks, now, linger).tcp
    ensures
      var s' := Turns(s, id, looks, now, linger);
      var n := Smaller(Room(looks), |s.tcp[id].pending|);
      && s'.taken == s.taken && s'.deferred == s.deferred && s'.tcp[id].established
      && s'.tcp[id].halfClosed == s.tcp[id].halfClosed
      && s'.tcp[id].pending == s.tcp[id].pending[n..]
      && Accepted(s', id) == Accepted(s, id) + s.tcp[id].pending[..n]
      && (s.tcp[id].halfClosed && Room(looks) >= |s.tcp[id].pending| ==> s'.tcp[id].pending == [] && s'.tcp[id].shut)
    decreases |looks|
  {
    hide Inv, Serve, Accepted;
    var before, look := looks[..|looks| - 1], looks[|looks| - 1];
    var mid := Turns(s, id, before, now, linger);
    TurnsKeep(s, id, before, now, linger);
    ServeRemoves(mid, id, look, now, linger);
    if before == [] {
      assert mid == s && Room(before) == 0;
    } else {
      EverythingIsSent(s, id, before, now, linger);
    }
    ServeSends(mid, id, look, now, linger);
    var waits := s.tcp[id].pending;
    Drained(Accepted(s, id), waits, Smaller(Room(before), |waits|), look.room);
  }

  lemma Drained(had: seq<byte>, waits: seq<byte>, n: nat, room: nat)
    requires n <= |waits|
    ensures
      var m := Smaller(room, |waits[n..]|);
      && waits[n..][m..] == waits[n + m..]
      && had + waits[..n] + waits[n..][..m] == had + waits[..n + m]
  {
    var m := Smaller(room, |waits[n..]|);
    assert waits[..n] + waits[n..][..m] == waits[..n + m];
  }

  // ---- what each item does ----

  /** What an item off the channel comes to: data goes behind what waits, or is set aside as far as it does not
      fit; a close is noted together with how much was taken before it; a closed UDP socket is gone. */
  lemma ItemsAreHandled(s: Stack, d: DataIn)
    requires Inv(s) && Enabled(s, Item(d))
    ensures
      var s' := Do(s, Item(d));
      && (d.TcpData? && d.id in s.tcp ==>
        && d.id in s'.tcp && d.id in s.taken && d.id in s'.taken && s'.taken[d.id] == s.taken[d.id] + d.data
        && s'.tcp[d.id].pending + Aside(s', d.id) == s.tcp[d.id].pending + d.data
        && (s'.deferred != [] ==> |s'.tcp[d.id].pending| >= s.maxPending))
      && (d.TcpClose? && d.id in s.tcp ==>
        && d.id in s'.tcp && s'.tcp[d.id] == s.tcp[d.id].(halfClosed := true) && s'.deferred == []
        && (!s.tcp[d.id].halfClosed ==> d.id in s.taken && d.id in s'.marks && s'.marks[d.id] == |s.taken[d.id]|))
      && (d.UdpClose? ==> d.id !in s'.udp && s'.deferred == [])
  {
    if d.TcpData? || d.TcpClose? {
      assert ConservedFor(s, d.id);
    }
    hide Inv, Fit;
  }

  /** When an open connection leaves the table: at once after it was given up, and else when its socket is done
      and this turn does not give it up. */
  lemma WhenRemoved(s: Stack, id: nat, look: Look, now: int, linger: int)
    requires Inv(s) && id in s.tcp && s.tcp[id].established
    ensures
      var t := s.tcp[id];
      var since := if t.orphanedAt.Some? then t.orphanedAt.value else now;
      var givenUp := look.appGone && (look.canRecv || now - since >= linger);
      id !in Serve(s, id, look, now, linger).tcp <==>
        t.aborted || (!givenUp && (look.after == Closed || look.after == TimeWait))
  {
    hide Inv, ServeOpen, Drop;
    DropsIt(s, id, Refused);
    OpenIsRemoved(s, id, look, now, linger);
  }

  lemma OpenIsRemoved(s: Stack, id: nat, look: Look, now: int, linger: int)
    requires id in s.tcp
    ensures id !in ServeOpen(s, id, look, now, linger).tcp <==>
      !GivesUp(s.tcp[id], look, now, linger) && (look.after == Closed || look.after == TimeWait)
  {
    hide Flush, Put, Drop, Orphan, Accepted;
    FlushTime(s, id, look.room);
    var s1 := End(Flush(s, id, look.room), id);
    var t := Orphan(s1.tcp[id], look, now, linger);
    PutTcp(s1, id, t, Accepted(s1, id));
    DropsIt(Put(s1, id, t, Accepted(s1, id)), id, Refused);
  }

  lemma FlushTime(s: Stack, id: nat, room: nat)
    requires id in s.tcp
    ensures id in Flush(s, id, room).tcp && Flush(s, id, room).tcp[id].orphanedAt == s.tcp[id].orphanedAt
  {
  }

  /** A UDP socket whose application has gone is removed, and only it. */
  lemma GoneUdpIsRemoved(s: Stack, id: nat, other: nat)
    requires Inv(s) && id in s.udp
    ensures
      var s' := Do(s, UdpGone(id));
      && id !in s'.udp && s.udp[id] !in s'.sockets && s'.tcp == s.tcp
      && (other in s.udp && other != id ==> other in s'.udp && s.udp[other] in s'.sockets)
  {
    assert OwnsUdp(s, id) && OwnsUdp(s, other);
    hide Inv;
  }

  // ---- replies ----

  /** Which reply each way out of connecting gives: success with the connection's number when the socket is
      connected, a refusal when it is closed, and a timeout when the application has gone or the time is up;
      until then the request waits. */
  lemma RepliesAreRight(s: Stack, id: nat, r: nat, look: Look, now: int, linger: int)
    requires Inv(s) && id in s.tcp && s.tcp[id].resp == Some(r)
    ensures
      var s' := Serve(s, id, look, now, linger);
      var closed := look.state == Closed || look.state == TimeWait;
      var late := look.respGone || now >= s.tcp[id].deadline;
      && (IsConnected(look) ==> r in s'.answers && s'.answers[r] == Opened(id))
      && (!IsConnected(look) && closed ==> id !in s'.tcp && r in s'.answers && s'.answers[r] == Refused)
      && (!IsConnected(look) && !closed && late ==> id !in s'.tcp && r in s'.answers && s'.answers[r] == TimedOut)
      && (!IsConnected(look) && !closed && !late ==> s' == s)
  {
    InvOwns(s, id);
    InvResp(s, id);
    hide Inv, ServeOpen, Establish, Drop;
    DropsIt(s, id, Refused);
    DropsIt(s, id, TimedOut);
    EstablishSame(s, id);
    if IsConnected(look) {
      ServeOpenReplies(Establish(s, id), id, look, now, linger);
    }
  }

  lemma InvResp(s: Stack, id: nat)
    requires Inv(s) && id in s.tcp && s.tcp[id].resp.Some?
    ensures !s.tcp[id].established && !s.tcp[id].aborted
  {
    assert RespRight(s, id);
  }

  /** What a request to open comes to at once: a failure is answered, a UDP socket is there and its number is
      the answer, and a TCP connection waits for its socket. */
  lemma OpensAreAnswered(s: Stack, r: nat, handle: nat, deadline: int)
    requires Inv(s) && NewRequest(s, r) && handle !in s.sockets
    ensures Do(s, AskFails(r)) == s.(answers := s.answers[r := Failed], sent := s.sent + [r])
    ensures
      var s' := Do(s, AskUdp(r, handle));
      r in s'.answers && s'.answers[r] == Opened(s.nextId) && s.nextId in s'.udp && s'.udp[s.nextId] == handle && handle in s'.sockets
    ensures
      var s' := Do(s, AskTcp(r, handle, deadline));
      && r !in s'.answers && s.nextId in s'.tcp && s'.tcp[s.nextId].resp == Some(r) && s'.tcp[s.nextId].deadline == deadline
      && s'.tcp[s.nextId].handle == handle && handle in s'.sockets && s'.nextId == s.nextId + 1
  {
  }

  /** What a step does to the requests: answers stay as they are, and one that waited waits on or has
      its answer. */
  predicate RepliesGoOn(s: Stack, s': Stack) {
    && (forall r :: r in s.answers ==> r in s'.answers && s'.answers[r] == s.answers[r])
    && (forall r :: r in s.waiting ==> r in s'.waiting || r in s'.answers)
  }

  lemma RepliesStay(s: Stack, s': Stack)
    requires s'.answers == s.answers && s'.waiting == s.waiting
    ensures RepliesGoOn(s, s')
  {
  }

  lemma RespIsOpen(s: Stack, id: nat)
    requires Answered(s) && id in s.tcp && s.tcp[id].resp.Some?
    ensures s.tcp[id].resp.value !in s.answers
  {
    assert RespRight(s, id);
    assert WaitRight(s, s.tcp[id].resp.value);
  }

  lemma DropReplies(s: Stack, id: nat, reply: Reply)
    requires Answered(s) && id in s.tcp
    ensures RepliesGoOn(s, Drop(s, id, reply))
  {
    hide Unwait, Replied, Answered;
    if s.tcp[id].resp.Some? {
      RespIsOpen(s, id);
    }
    RepliesFrom(s, Drop(s, id, reply), s.tcp[id].resp, reply);
  }

  lemma RepliesFrom(s: Stack, s': Stack, resp: Option<nat>, reply: Reply)
    requires s'.answers == Replied(s.answers, resp, reply) && s'.waiting == Unwait(s.waiting, resp)
    requires resp.Some? ==> resp.value !in s.answers
    ensures RepliesGoOn(s, s')
  {
  }

  lemma EstablishReplies(s: Stack, id: nat)
    requires Answered(s) && id in s.tcp
    ensures RepliesGoOn(s, Establish(s, id))
  {
    hide Unwait, Replied, Answered;
    if s.tcp[id].resp.Some? {
      RespIsOpen(s, id);
    }
    RepliesFrom(s, Establish(s, id), s.tcp[id].resp, Opened(id));
  }

  lemma SilentDrop(s: Stack, id: nat, reply: Reply)
    requires id in s.tcp && s.tcp[id].resp.None?
    ensures Drop(s, id, reply).answers == s.answers && Drop(s, id, reply).waiting == s.waiting
  {
  }

  lemma ServeOpenReplies(s: Stack, id: nat, look: Look, now: int, linger: int)
    requires id in s.tcp && s.tcp[id].resp.None?
    ensures
      var s' := ServeOpen(s, id, look, now, linger);
      s'.answers == s.answers && s'.waiting == s.waiting
  {
    hide Put, Drop, Flush, End, GivesUp;
    FlushTcp(s, id, look.room);
    var s1 := End(Flush(s, id, look.room), id);
    var t := Orphan(s1.tcp[id], look, now, linger);
    PutTcp(s1, id, t, Accepted(s1, id));
    SilentDrop(Put(s1, id, t, Accepted(s1, id)), id, Refused);
  }

  lemma ServeReplies(s: Stack, id: nat, look: Look, now: int, linger: int)
    requires Answered(s)
    ensures RepliesGoOn(s, Serve(s, id, look, now, linger))
  {
    hide ServeOpen;
    if id in s.tcp {
      assert RespRight(s, id);
      DropReplies(s, id, Refused);
      DropReplies(s, id, TimedOut);
      EstablishReplies(s, id);
      var s1 := Establish(s, id);
      ServeOpenReplies(s1, id, look, now, linger);
      if s.tcp[id].established {
        ServeOpenReplies(s, id, look, now, linger);
      }
      hide Drop, Establish, Answered;
      RepliesStay(s, s);
    }
  }

  lemma OfferReplies(s: Stack)
    requires |s.deferred| == 1
    ensures Offer(s).answers == s.answers && Offer(s).waiting == s.waiting
  {
    hide OfferClose, OfferData;
    var d := s.deferred[0];
    OfferSameTables(s, d.id, if d.TcpData? then d.data else []);
  }

  lemma OpenReplies(s: Stack, r: nat, handle: nat, deadline: int)
    requires NewRequest(s, r)
    ensures RepliesGoOn(s, OpenTcp(s, r, handle, deadline))
    ensures RepliesGoOn(s, OpenUdp(s, r, handle)) && RepliesGoOn(s, Refuse(s, r))
  {
  }

  lemma DoReplies(s: Stack, step: Step)
    requires Answered(s) && Enabled(s, step)
    ensures RepliesGoOn(s, Do(s, step))
  {
    match step
    case AskTcp(r, handle, deadline) => OpenReplies(s, r, handle, deadline);
    case AskUdp(r, handle) => OpenReplies(s, r, handle, 0);
    case AskFails(r) => OpenReplies(s, r, 0, 0);
    case Item(d) => OfferReplies(Arrive(s, d)); hide Offer, Answered; RepliesStay(s, Do(s, step));
    case Retry => OfferReplies(s); hide Offer, Answered; RepliesStay(s, Do(s, step));
    case TcpTurn(id, look, now, linger) => ServeReplies(s, id, look, now, linger);
    case UdpGone(id) => RepliesStay(s, Do(s, step));
  }

  lemma WaitMeans(s: Stack, r: nat)
    requires Inv(s)
    ensures SentOnce(s.sent, s.answers)
    ensures r in s.waiting ==> r !in s.answers && s.waiting[r] in s.tcp && !s.tcp[s.waiting[r]].established
  {
    assert WaitRight(s, r);
    assert r in s.waiting ==> RespRight(s, s.waiting[r]);
  }

  /** An open request is sent at most one reply, its answer never changes, and while it has none its
      connection is in the table and not established. */
  lemma {:induction false} AnsweredOnce(run: seq<Stack>, steps: seq<Step>, i: nat, j: nat, r: nat)
    requires IsRun(run, steps) && i <= j < |run|
    ensures r in run[i].answers ==> r in run[j].answers && run[j].answers[r] == run[i].answers[r] && r !in run[j].waiting
    ensures r in run[i].waiting && r !in run[j].answers ==>
      r in run[j].waiting && run[j].waiting[r] in run[j].tcp && !run[j].tcp[run[j].waiting[r]].established
    ensures SentOnce(run[j].sent, run[j].answers)
    decreases j - i
  {
    hide Inv, Do, Enabled;
    RunInv(run, steps, j);
    WaitMeans(run[j], r);
    hide SentOnce;
    if i < j {
      AnsweredOnce(run, steps, i, j - 1, r);
      RunInv(run, steps, j - 1);
      assert run[j - 1 + 1] == Do(run[j - 1], steps[j - 1]);
      InvAnswered(run[j - 1]);
      DoReplies(run[j - 1], steps[j - 1]);
    }
  }

  // ---- the stack itself ----

  /** All items of `ds`, one after another, until one does not fit. */
  function TakeAll(s: Stack, ds: seq<DataIn>): (s': Stack)
    decreases |ds|
  {
    if ds == [] || s.deferred != [] then s else TakeAll(Offer(Arrive(s, ds[0])), ds[1..])
  }

  lemma {:induction false} TakeAllNext(s: Stack, ds: seq<DataIn>, d: DataIn)
    ensures TakeAll(s, ds + [d]) ==
      if TakeAll(s, ds).deferred == [] then Offer(Arrive(TakeAll(s, ds), d)) else TakeAll(s, ds)
    decreases |ds|
  {
    hide Offer;
    if ds == [] {
      assert (ds + [d])[1..] == [];
    } else if s.deferred == [] {
      assert (ds + [d])[1..] == ds[1..] + [d];
      TakeAllNext(Offer(Arrive(s, ds[0])), ds[1..], d);
    }
  }

  lemma ArriveState(s: Stack, d: DataIn)
    ensures Arrive(s, d).deferred == [d]
    ensures Arrive(s, d) ==
      s.(deferred := [d], taken := if d.TcpData? && d.id in s.taken then s.taken[d.id := s.taken[d.id] + d.data] else s.taken)
  {
  }

  lemma OfferNextId(s: Stack)
    requires |s.deferred| == 1
    ensures Offer(s).nextId == s.nextId
  {
    hide OfferClose, OfferData;
    var d := s.deferred[0];
    OfferSameTables(s, d.id, if d.TcpData? then d.data else []);
  }

  lemma InvOwned(s: Stack)
    requires Inv(s)
    ensures Owned(s) && |s.deferred| <= 1
  {
  }

  lemma OwnedIgnores(s: Stack, s': Stack)
    requires Owned(s) && s'.sockets == s.sockets && s'.owners == s.owners
    requires s'.tcp == s.tcp && s'.udp == s.udp && s'.nextId == s.nextId
    ensures Owned(s')
  {
    forall i: nat ensures OwnsTcp(s', i) && OwnsUdp(s', i) && Held(s', i) {
      assert OwnsTcp(s, i) && OwnsUdp(s, i) && Held(s, i);
    }
  }

  /** Turns for these connections, one after another. */
  function ServeAll(s: Stack, ids: seq<nat>, looks: nat -> Look, now: int, linger: int): (s': Stack)
  {
    if ids == [] then s
    else
      var id := ids[|ids| - 1];
      Serve(ServeAll(s, ids[..|ids| - 1], looks, now, linger), id, looks(id), now, linger)
  }

  lemma ServeNext(s: Stack, ids: seq<nat>, id: nat, looks: nat -> Look, now: int, linger: int)
    ensures ServeAll(s, ids + [id], looks, now, linger) == Serve(ServeAll(s, ids, looks, now, linger), id, looks(id), now, linger)
  {
    hide Serve;
    assert (ids + [id])[..|ids|] == ids;
  }

  /** The end of a turn in the order of the source: the close that was asked for, the application that has
      gone, the peer that has closed. */
  method Orphaned(t: Tcp, look: Look, now: int, linger: int) returns (st: Tcp, abort: bool)
    ensures st == Orphan(t, look, now, linger) && abort == GivesUp(t, look, now, linger)
  {
    st, abort := t, false;
    if st.halfClosed && |st.pending| == 0 {
      st := st.(shut := true);
    }
    if look.appGone {
      var since := if st.orphanedAt.Some? then st.orphanedAt.value else now;
      st := st.(orphanedAt := Some(since));
      if look.canRecv || now - since >= linger {
        return st.(aborted := true), true;
      }
      st := st.(shut := true);
    }
    if look.after == CloseWait {
      st := st.(peerClosed := true, shut := true);
    }
  }

  class NetStack {
    const maxPending: nat
    var sockets: map<nat, Socket>
    var tcp: map<nat, Tcp>
    var udp: map<nat, nat>
    var nextId: nat
    var deferred: seq<DataIn>
    var answers: map<nat, Reply>
    ghost var owners: map<nat, Owner>
    ghost var taken: map<nat, seq<byte>>
    ghost var marks: map<nat, nat>
    ghost var ended: set<nat>
    ghost var waiting: map<nat, nat>
    ghost var sent: seq<nat>

    ghost function State(): (s: Stack)
      reads this
    {
      Stack(maxPending, sockets, tcp, udp, nextId, deferred, owners, taken, marks, ended, waiting, answers, sent)
    }

    constructor (maxPending: nat)
      ensures State() == Start(maxPending)
    {
      this.maxPending := maxPending;
      sockets, tcp, udp, nextId, deferred, answers := map[], map[], map[], 1, [], map[];
      owners, taken, marks, ended, waiting, sent := map[], map[], map[], {}, map[], [];
    }

    /** Taking a socket out of the set is an error when it is not there. */
    method RemoveSocket(handle: nat)
      requires handle in sockets
      modifies this`sockets, this`owners
      ensures sockets == old(sockets) - {handle} && owners == old(owners) - {handle}
    {
      sockets := sockets - {handle};
      owners := owners - {handle};
    }

    method AddSocket(handle: nat, socket: Socket, owner: Owner)
      modifies this`sockets, this`owners
      ensures sockets == old(sockets)[handle := socket] && owners == old(owners)[handle := owner]
    {
      sockets := sockets[handle := socket];
      owners := owners[handle := owner];
    }

    /** `try_handle_data`: what of the item must wait, if anything. */
    method TryHandle(d: DataIn) returns (back: Option<DataIn>)
      requires deferred == [] && Owned(State())
      modifies this
      ensures deferred == []
      ensures
        var s := Offer(old(State()).(deferred := [d]));
        State() == s.(deferred := []) && s.deferred == if back.Some? then [back.value] else []
    {
      match d {
        case TcpData(id, data) =>
          if id in tcp {
            var st := tcp[id];
            if |st.pending| >= maxPending {
              assert tcp[id := st.(pending := st.pending)] == tcp;
              return Some(TcpData(id, data));
            }
            var space := maxPending - |st.pending|;
            if |data| <= space {
              tcp := tcp[id := st.(pending := st.pending + data)];
            } else {
              tcp := tcp[id := st.(pending := st.pending + data[..space])];
              return Some(TcpData(id, data[space..]));
            }
          }
          return None;
        case TcpClose(id) =>
          if id in tcp {
            if !tcp[id].halfClosed {
              marks := marks[id := if id in taken then |taken[id]| else 0];
            }
            tcp := tcp[id := tcp[id].(halfClosed := true)];
          }
          return None;
        case UdpData(_) => return None;
        case UdpClose(id) =>
          if id in udp {
            assert OwnsUdp(State(), id);
            RemoveUdp(id);
          }
          return None;
      }
    }

    /** The item set aside, tried again. */
    method RetryDeferred()
      requires Inv(State())
      modifies this
      ensures State() == if old(deferred) == [] then old(State()) else Offer(old(State()))
      ensures Inv(State())
    {
      if |deferred| == 1 {
        OfferKeeps(State());
      }
      hide Inv, Offer;
      while |deferred| > 0
        invariant |deferred| <= 1
        invariant State() == old(State()) || (|old(deferred)| == 1 && State() == Offer(old(State())) && deferred == [])
        decreases |deferred|
      {
        var d := deferred[0];
        deferred := deferred[1..];
        assert State().(deferred := [d]) == old(State());
        InvOwned(old(State()));
        OwnedIgnores(old(State()), State());
        var back := TryHandle(d);
        if back.Some? {
          deferred := [back.value] + deferred;
          break;
        }
      }
    }

    /** An item from the channel and those queued behind it, until one does not fit. */
    method ReceiveItems(ds: seq<DataIn>) returns (n: nat)
      requires Inv(State()) && deferred == []
      requires forall i :: 0 <= i < |ds| ==> ds[i].id < nextId
      modifies this
      ensures n <= |ds| && State() == TakeAll(old(State()), ds[..n])
      ensures deferred == [] ==> n == |ds|
      ensures Inv(State())
    {
      hide Inv, Offer, Arrive, Owned;
      n := 0;
      while n < |ds| && |deferred| == 0
        invariant n <= |ds| && Inv(State()) && nextId == old(nextId)
        invariant State() == TakeAll(old(State()), ds[..n])
        decreases |ds| - n
      {
        ghost var before := State();
        var d := ds[n];
        assert ds[..n + 1] == ds[..n] + [d];
        TakeAllNext(old(State()), ds[..n], d);
        ArriveState(before, d);
        ArriveKeeps(before, d);
        OfferKeeps(Arrive(before, d));
        OfferNextId(Arrive(before, d));
        if d.TcpData? && d.id in taken {
          taken := taken[d.id := taken[d.id] + d.data];
        }
        InvOwned(before);
        OwnedIgnores(before, State());
        var back := TryHandle(d);
        if back.Some? {
          deferred := [back.value];
        }
        n := n + 1;
      }
    }

    method OpenTcpConn(r: nat, handle: nat, deadline: int, connects: bool)
      requires Inv(State()) && NewRequest(State(), r) && handle !in sockets
      modifies this
      ensures connects ==> State() == OpenTcp(old(State()), r, handle, deadline)
      ensures !connects ==> State() == Refuse(old(State()), r)
      ensures Inv(State())
    {
      hide Inv, OpenTcp;
      RefuseKeeps(State(), r);
      OpenTcpKeeps(State(), r, handle, deadline);
      if !connects {
        answers, sent := answers[r := Failed], sent + [r];
        return;
      }
      AddTcp(r, handle, deadline);
    }

    method AddTcp(r: nat, handle: nat, deadline: int)
      modifies this`sockets, this`owners, this`tcp, this`taken, this`waiting, this`nextId
      ensures State() == OpenTcp(old(State()), r, handle, deadline)
    {
      AddSocket(handle, TcpSocket([]), OfTcp(nextId));
      tcp := tcp[nextId := Tcp(handle, Some(r), deadline, [], false, false, None, false, false, false)];
      taken, waiting := taken[nextId := []], waiting[r := nextId];
      nextId := nextId + 1;
    }

    method OpenUdpConn(r: nat, handle: nat, binds: bool)
      requires Inv(State()) && NewRequest(State(), r) && handle !in sockets
      modifies this
      ensures binds ==> State() == OpenUdp(old(State()), r, handle)
      ensures !binds ==> State() == Refuse(old(State()), r)
      ensures Inv(State())
    {
      hide Inv, OpenUdp;
      RefuseKeeps(State(), r);
      OpenUdpKeeps(State(), r, handle);
      if !binds {
        answers, sent := answers[r := Failed], sent + [r];
        return;
      }
      AddUdp(r, handle);
    }

    method AddUdp(r: nat, handle: nat)
      modifies this`sockets, this`owners, this`udp, this`answers, this`sent, this`nextId
      ensures State() == OpenUdp(old(State()), r, handle)
    {
      AddSocket(handle, UdpSocket, OfUdp(nextId));
      udp, answers, sent := udp[nextId := handle], answers[r := Opened(nextId)], sent + [r];
      nextId := nextId + 1;
    }

    /** An entry and its socket taken out, with the answer it owes. */
    method Remove(id: nat, reply: Reply)
      requires id in tcp && tcp[id].handle in sockets
      modifies this`answers, this`waiting, this`sent, this`sockets, this`owners, this`tcp
      ensures State() == Drop(old(State()), id, reply)
    {
      hide Replied, Unwait, Logged;
      var t := tcp[id];
      Answer(t.resp, reply);
      RemoveSocket(t.handle);
      tcp := tcp - {id};
    }

    /** The reply, when one is still owed. */
    method Answer(resp: Option<nat>, reply: Reply)
      modifies this`answers, this`waiting, this`sent
      ensures answers == Replied(old(answers), resp, reply)
      ensures waiting == Unwait(old(waiting), resp) && sent == Logged(old(sent), resp)
    {
      if resp.Some? {
        answers := answers[resp.value := reply];
        waiting, sent := waiting - {resp.value}, sent + [resp.value];
      }
    }

    /** As many of the bytes that wait as the socket takes. */
    method SendPending(id: nat, room: nat)
      requires OwnsTcp(State(), id) && id in tcp
      modifies this`sockets, this`tcp
      ensures State() == Flush(old(State()), id, room)
    {
      var st := tcp[id];
      var sent := if |st.pending| <= room then |st.pending| else room;
      sockets := sockets[st.handle := TcpSocket(sockets[st.handle].accepted + st.pending[..sent])];
      tcp := tcp[id := st.(pending := st.pending[sent..])];
    }

    /** The clock and the giving up of a connection whose application has gone. */
    method CheckApp(id: nat, look: Look, now: int, linger: int) returns (abort: bool)
      requires OwnsTcp(State(), id) && id in tcp
      modifies this`tcp
      ensures abort == GivesUp(old(tcp)[id], look, now, linger)
      ensures State() == Put(old(State()), id, Orphan(old(tcp)[id], look, now, linger), Accepted(old(State()), id))
    {
      hide Orphan, GivesUp;
      ghost var s := State();
      var st;
      st, abort := Orphaned(tcp[id], look, now, linger);
      tcp := tcp[id := st];
      Touched(s, State(), id, look, now, linger);
    }

    /** What waits goes to the socket, and a close that was asked for follows once nothing waits. */
    method SendAndEnd(id: nat, room: nat)
      requires OwnsTcp(State(), id) && id in tcp
      modifies this`sockets, this`tcp, this`ended
      ensures State() == End(Flush(old(State()), id, room), id)
    {
      FlushOwns(State(), id, room);
      SendPending(id, room);
      hide Flush;
      if tcp[id].halfClosed && |tcp[id].pending| == 0 {
        ended := ended + {id};
      }
    }

    /** The part of a turn that serves an established connection. */
    method ServeEstablished(id: nat, look: Look, now: int, linger: int)
      requires OwnsTcp(State(), id) && id in tcp
      modifies this
      ensures State() == ServeOpen(old(State()), id, look, now, linger)
    {
      hide Flush, End, Put, Drop, GivesUp, OwnsTcp;
      ghost var s := State();
      FlushOwns(s, id, look.room);
      SendAndEnd(id, look.room);
      ghost var s1 := State();
      EndKeepsTcp(s, id, look.room);
      PutOwns(s1, id, Orphan(s1.tcp[id], look, now, linger), Accepted(s1, id));
      var abort := CheckApp(id, look, now, linger);
      if !abort && (look.after == Closed || look.after == TimeWait) {
        OwnsItsSocket(State(), id);
        Remove(id, Refused);
      }
    }

    /** The reply for success. */
    method Connected(id: nat)
      requires id in tcp
      modifies this`answers, this`waiting, this`sent, this`tcp
      ensures State() == Establish(old(State()), id)
    {
      hide Replied, Unwait, Logged;
      var t := tcp[id];
      Answer(t.resp, Opened(id));
      tcp := tcp[id := t.(established := true, resp := None)];
    }

    /** A turn for one connection. */
    method ServeConn(id: nat, look: Look, now: int, linger: int)
      requires Inv(State())
      modifies this
      ensures State() == Serve(old(State()), id, look, now, linger)
      ensures Inv(State())
    {
      hide Inv, ServeOpen, Drop;
      ServeKeeps(State(), id, look, now, linger);
      if id !in tcp {
        return;
      }
      InvOwns(State(), id);
      EstablishOwns(State(), id);
      if tcp[id].aborted {
        Remove(id, Refused);
        return;
      }
      var connected := look.state == Established || look.state == CloseWait;
      if !tcp[id].established && connected {
        Connected(id);
      }
      hide Establish;
      if tcp[id].established {
        ServeEstablished(id, look, now, linger);
      } else if look.state == Closed || look.state == TimeWait {
        Remove(id, Refused);
      } else if look.respGone || now >= tcp[id].deadline {
        Remove(id, TimedOut);
      }
    }

    /** A turn for every connection in the table, each once, in the order the table gives them. */
    method ServiceTcp(looks: nat -> Look, now: int, linger: int) returns (ghost order: seq<nat>)
      requires Inv(State())
      modifies this
      ensures Inv(State()) && RepliesGoOn(old(State()), State())
      ensures State() == ServeAll(old(State()), order, looks, now, linger)
      ensures (forall i, j :: 0 <= i < j < |order| ==> order[i] != order[j]) && forall id :: id in order <==> id in old(tcp)
    {
      RepliesStay(State(), State());
      order := [];
      var ids := tcp.Keys;
      while ids != {}
        invariant Inv(State()) && RepliesGoOn(old(State()), State())
        invariant State() == ServeAll(old(State()), order, looks, now, linger)
        invariant forall i, j :: 0 <= i < j < |order| ==> order[i] != order[j]
        invariant forall id :: id in old(tcp) <==> id in order || id in ids
        invariant forall id :: id in ids ==> id !in order
        decreases ids
      {
        hide Inv, Serve, RepliesGoOn;
        var id :| id in ids;
        ids := ids - {id};
        ghost var before := State();
        InvAnswered(before);
        ServeReplies(before, id, looks(id), now, linger);
        ServeConn(id, looks(id), now, linger);
        RepliesTransitive(old(State()), before, State());
        ServeNext(old(State()), order, id, looks, now, linger);
        order := order + [id];
      }
    }

    method RemoveUdp(id: nat)
      requires id in udp && OwnsUdp(State(), id)
      modifies this`sockets, this`owners, this`udp
      ensures State() == CloseUdp(old(State()), id)
    {
      RemoveSocket(udp[id]);
      udp := udp - {id};
    }

    /** The UDP sockets whose application has gone are taken out. */
    method ServiceUdp(gone: set<nat>)
      requires Inv(State())
      modifies this
      ensures Inv(State()) && udp == old(udp) - gone
    {
      var ids := udp.Keys;
      while ids != {}
        invariant Inv(State()) && udp.Keys == old(udp).Keys - (gone * (old(udp).Keys - ids))
        invariant ids <= old(udp).Keys && forall i :: i in udp ==> udp[i] == old(udp)[i]
        decreases ids
      {
        var id :| id in ids;
        ids := ids - {id};
        if id in gone && id in udp {
          CloseUdpKeeps(State(), id);
          RemoveUdp(id);
        }
      }
    }
  }

  lemma InvOwns(s: Stack, id: nat)
    requires Inv(s)
    ensures OwnsTcp(s, id)
  {
  }

  lemma EstablishOwns(s: Stack, id: nat)
    requires OwnsTcp(s, id) && id in s.tcp
    ensures OwnsTcp(Establish(s, id), id)
    ensures id in Establish(s, id).tcp && Establish(s, id).tcp[id].established
  {
  }

  lemma PutOwns(s: Stack, id: nat, t: Tcp, accepted: seq<byte>)
    requires OwnsTcp(s, id) && id in s.tcp && t.handle == s.tcp[id].handle
    ensures OwnsTcp(Put(s, id, t, accepted), id) && id in Put(s, id, t, accepted).tcp
    ensures t.handle in Put(s, id, t, accepted).sockets && Put(s, id, t, accepted).tcp[id] == t
  {
  }

  lemma FlushOwns(s: Stack, id: nat, room: nat)
    requires OwnsTcp(s, id) && id in s.tcp
    ensures OwnsTcp(Flush(s, id, room), id) && id in Flush(s, id, room).tcp
    ensures OwnsTcp(End(Flush(s, id, room), id), id)
  {
    hide Accepted;
  }

  lemma EndKeepsTcp(s: Stack, id: nat, room: nat)
    requires id in s.tcp
    ensures id in Flush(s, id, room).tcp && id in End(Flush(s, id, room), id).tcp
  {
  }

  lemma OwnsItsSocket(s: Stack, id: nat)
    requires OwnsTcp(s, id) && id in s.tcp
    ensures s.tcp[id].handle in s.sockets
  {
  }

  lemma InvAnswered(s: Stack)
    requires Inv(s)
    ensures Answered(s)
  {
  }

  lemma RepliesTransitive(a: Stack, b: Stack, c: Stack)
    requires RepliesGoOn(a, b) && RepliesGoOn(b, c)
    ensures RepliesGoOn(a, c)
  {
  }

  lemma Touched(s: Stack, s': Stack, id: nat, look: Look, now: int, linger: int)
    requires OwnsTcp(s, id) && id in s.tcp
    requires s' == s.(tcp := s.tcp[id := Orphan(s.tcp[id], look, now, linger)])
    ensures s' == Put(s, id, Orphan(s.tcp[id], look, now, linger), Accepted(s, id))
  {
    var h := s.tcp[id].handle;
    assert s.sockets[h := TcpSocket(s.sockets[h].accepted)] == s.sockets;
  }
}
