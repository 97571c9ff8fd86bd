# MSN-GUARD: verified models of its protocol cores

Dafny models of the parts of MSN-GUARD in which bytes, sessions or connections could get lost, doubled or
mixed up, with proofs that they do not. `dafny verify dfyconfig.toml` checks all of it.

Two code bases are modelled. **AnyTLS** (Go) carries many streams over one TLS connection and hides the sizes
of its packets with padding. **Aether** (Rust) is the client core: it reads HTTP/1.1 answers, tunnels IP
packets in capsules, keeps a user-space network stack, races connection attempts, looks up ECH keys over
DNS and keeps a WireGuard tunnel up.

| file | what it models |
|---|---|
| `Bytes.dfy`, `Wrappers.dfy`, `Text.dfy` | octets and big-endian integers; `Option` and `Result`; UTF-8, trimming, numbers |
| `Frame.dfy` | the frame format and its parser |
| `Writer.dfy`, `Padding.dfy` | the padded writer `writeConn`, on a connection that may break at any byte, and the padding scheme |
| `Receiver.dfy` | the receive loop of client and server |
| `Multiplex.dfy` | client and server together, in every interleaving |
| `Duplex.dfy` | the server's frames on their way back beside it |
| `Lifecycle.dfy` | opening and closing streams on a session that closes |
| `Pool.dfy` | the client's pool of idle sessions and its cleanup |
| `Pipe.dfy` | the synchronous pipe between the session and a stream's readers |
| `Search.dfy`, `Dechunk.dfy`, `Answer.dfy`, `Head.dfy` | the incremental HTTP/1.1 reader (sections 6.3 and 7.1 of RFC 9112), and answers as servers write them |
| `Varint.dfy`, `Capsule.dfy`, `Tunnel.dfy` | variable-length integers (section 16 of RFC 9000), capsules (section 3.2 of RFC 9297), and the tunnel end to end |
| `Netstack.dfy` | connection tables, sockets, waiting bytes and replies of the network stack |
| `Egress.dfy` | the order of addresses and the race (sections 4 and 5 of RFC 8305) |
| `Dns.dfy` | the query, the reply check and the HTTPS-record reader (section 4.1 of RFC 1035, section 2.2 of RFC 9460) |
| `LastConn.dfy`, `Supervisor.dfy` | remembered gateways and the WireGuard reconnect loop |

The shape follows the source. What the source updates in place is a class whose methods are proved against a
function of the old state; loops stay loops. What runs concurrently is a state machine whose steps are single
lock, channel or socket operations, and the theorems hold for every sequence of steps. Time, randomness, the
network, smoltcp's sockets and the schedulers are inputs: a connection may take any first part of a write, a
socket may accept any number of bytes, a timer may fire at any moment.

The results to read first: `Multiplex.DeliveryIsPrefix`, `Multiplex.PaddingIsTransparent` and
`Duplex.BothDirectionsArePrefixes`; `Lifecycle.OneDeathOneHook` and `Lifecycle.HookIsCalled`;
`Answer.SplitsDoNotMatter`, `Heads.HeadRoundTrip` and `Dechunk.ChunkedRoundTrip`; `Tunnel.TunnelDelivers`;
`Netstack.BytesAreConserved`, `Netstack.EverythingIsSent` and `Netstack.AnsweredOnce`; `Pipe.ReadsAreWrites` and
`Pipe.WriteCountsAreExact`; `Pool.OneStreamAtATime` and `Pool.NothingIsLost`; `Dns.AcceptedIsEchoed` and `Dns.FirstEchIsRead`;
`Supervisor.NoThirdRunTooSoon` and `LastConn.RingIsRecentHistory`.

## Where the code does not do what one would expect

Each of these is stated exactly, and with the condition under which it does not arise where there is one.

- A payload over 65535 bytes is cut by the 16-bit length of its own frame (`Frames.FrameRoundTrip`), and a
  padding of 65536 to 458751 bytes leaves the receiver out of step (`Padding.WasteIsTransparent`).
- A packet of padding alone is one header longer than scheduled, and one whose payload ends within a header of
  the scheduled size goes out short (`Padding.ScheduledSize`).
- The limit on a chunk line is checked only while the line has no end, so an over-long line is refused or
  accepted depending on where the reads fall (`Dechunk.CutsDoNotMatter`, `Answer.SplitsDoNotMatter`).
- An IPv4 packet with a header length of zero can be read as a context id (`Capsules.BarePacket`).
- A malformed address or route capsule holds up the whole capsules behind it until the next chunk
  (`Tunnel.MalformedStalls`).
- A stream is registered at the client only after its SYN has left, so that what a server pushed at once would
  be dropped (`Duplex.EarlyBytesAreLost`). The server's handler reads the destination first, and then nothing
  is lost (`Duplex.BothDirectionsArePrefixes`).
- The peer's FIN takes a stream out of the table before it is killed, so that the sweep of a session that closes
  just then does not find it (`Lifecycle.FinEscapesTheSweep`); that is the only way a stream survives it
  (`Lifecycle.NoStreamOutlivesItsSession`).
- `response_matches` does not look at the class of the question, and `build_query` cuts a label's length to a
  byte, so that a name with a longer label is never answered (`Dns.OwnQuestionIsAccepted`).
- A forced WireGuard peer is exempt from the cooldown (`Supervisor.KeptUnlessForced`).

## Model

| member | source | states |
|---|---|---|
| `Frames.HeaderFields` | anytls/proxy/session/frame.go:37-49 | The header read back from a written frame holds its command, its stream number and its length cut to 16 bits, whatever follows. |
| `Frames.FrameRoundTrip` | anytls/proxy/session/session.go:378-402 | The next frame read from the bytes of a frame is that frame, with exactly the following bytes left, if and only if its stream number fits 32 bits, its payload is at most 65535 bytes, and it has none when its command carries none: a longer payload is cut short by its own length field. |
| `Frames.StreamRoundTrip` | anytls/proxy/session/session.go:185-364 | Every list of sendable frames written one after another parses back to that list, in order, in front of any bytes. |
| `Frames.NextOfPrefix` | anytls/proxy/session/session.go:190-208 | Bytes that arrive later never change a frame that could already be read. |
| `Text.DecodedIsUtf8` | core/aether/src/https.rs:505-511 | Bytes are read as a text if and only if they are that text in UTF-8 (section 3 of RFC 3629): nothing overlong, no surrogates, nothing cut. |
| `Text.LossyText` | core/aether/src/https.rs:404-406 | Text in UTF-8 is read back as it is by the lossy reading of a head, whatever follows it. |
| `Text.LossyReplaces` | core/aether/src/https.rs:404-406 | A byte that starts no character becomes one replacement character, and reading goes on right behind it. |
| `Text.UnsignedRoundTrip` | core/aether/src/https.rs:409-413 | A number in decimal is read back if and only if it is below the limit of its type. |
| `Writer.Conn.Write` | anytls/proxy/session/session.go:447-492 | A connection write sends all of its bytes, or breaks the connection for good after some first part of them. |
| `Writer.Session.constructor` | anytls/proxy/session/session.go:58-68 | A new client session pads, does not buffer and has counted no packet. |
| `Writer.Session.WriteConn` | anytls/proxy/session/session.go:418-493 | While buffering nothing leaves and the bytes queue in order. Otherwise the buffered bytes, the new ones and then only whole waste frames leave, the returned count is the payload flushed, the packet sizes are those of the schedule, the 32-bit packet counter and the stop rule decide whether padding goes on, and a failure leaves a first part of just those bytes. |
| `Writer.Session.WritePacket` | anytls/proxy/session/session.go:445-478 | One scheduled packet: payload alone, the end of the payload with a waste frame behind it when more than a header of room is left, or a waste frame alone; what is left over is the rest of the payload. |
| `Writer.Session.WritePadded` | anytls/proxy/session/session.go:435-486 | The whole loop: payload in order with padding only after its last byte, packet sizes as scheduled, the count equal to the payload. |
| `Padding.GenerateSizes` | anytls/proxy/padding/padding.go:66-96 | One size per well-formed entry of the packet's line, in order and drawn from that entry's range (the upper end excluded unless both ends are equal); check marks stay; every size is positive. |
| `Padding.IntRoundTrip` | anytls/proxy/padding/padding.go:74-84 | A number in decimal, with or without a sign, is read back if and only if it fits 64 bits. |
| `Padding.EntryRoundTrip` | anytls/proxy/padding/padding.go:72-93 | An entry of two ends in either order gives that range if both are positive, and a check mark gives a check mark. |
| `Padding.LineRoundTrip` | anytls/proxy/padding/padding.go:66-96 | A line of written entries, joined by commas, is read back as those entries, in order. |
| `Padding.NthPacket` | anytls/proxy/session/session.go:436-486 | The size of the i-th packet as a function of what the sizes before it left of the payload. |
| `Padding.ScheduledSize` | anytls/proxy/session/session.go:436-486 | The i-th packet has exactly its scheduled size if and only if the payload left fills it or ends more than a header short of it; otherwise it goes out short or, as padding alone, one header too long. |
| `Padding.CheckMarkStops` | anytls/proxy/session/session.go:438-444 | A check mark ends the schedule exactly when the sizes before it used up the payload, and otherwise changes nothing. |
| `Padding.WasteIsTransparent` | anytls/proxy/session/session.go:454-473 | A waste frame is read as nothing but waste to its last byte if and only if its length divided by 65536 is a multiple of 7: always up to 65535 bytes, never from 65536 to 458751. |
| `Padding.ParseZeros` | anytls/proxy/session/session.go:260-268 | Any run of zero bytes is read as empty waste frames, leaving its length modulo 7. |
| `Receiver.ReadFrame` | anytls/proxy/session/session.go:190-208 | Reading a header and then its payload, each whole, gives the next frame of the input or nothing. |
| `Receiver.Session.Close` | anytls/proxy/session/session.go:111-133 | The first close stops the session, calls its hook and kills and drops the streams in its table; a later one changes nothing. |
| `Receiver.Session.Send` | anytls/proxy/session/session.go:395-416 | A reply that cannot be written closes the session, and nothing is recorded as sent. |
| `Receiver.Session.HandleSettings` | anytls/proxy/session/session.go:269-306 | Settings change the session as `OnSettings` says; what that is for written settings, `ServerAnswersSettings` states. |
| `Receiver.Session.HandleFrame` | anytls/proxy/session/session.go:191-360 | One frame changes the session as its command says, on client and server: pushes go to open streams only, a SYN before settings is answered with an alert and ends the loop, alerts end it, heartbeats are answered. |
| `Receiver.Session.RecvLoop` | anytls/proxy/session/session.go:174-365 | The loop over the bytes of a connection comes to handling, in order, the frames those bytes parse to, until one stops it; and then the session is closed. |
| `Receiver.SettingsRoundTrip` | anytls/util/string_map.go:9-27 | Settings written as lines of key and value are read back as the map of those keys and values. |
| `Receiver.ServerAnswersSettings` | anytls/proxy/session/session.go:269-306 | For every list of written settings with different keys: the server has seen settings; a `padding-md5` that is missing or another than its own is answered with its scheme, and then a version of two or more is noted and answered with the server settings; nothing else is sent. |
| `Receiver.ClientNotesVersion` | anytls/proxy/session/session.go:342-357 | The client notes the version the server wrote in its settings, cut to a byte. |
| `Receiver.HeartbeatsAreAnswered` | anytls/proxy/session/session.go:335-338 | Any run of heartbeat requests is answered one by one, in order and under their own stream numbers, while the connection takes replies. |
| `Receiver.FailedAnswerEndsSession` | anytls/proxy/session/session.go:395-416 | If the connection takes fewer replies than there are requests, exactly the first ones go out and the session ends. |
| `Receiver.OpenIs` | anytls/proxy/session/session.go:209-258 | While a session goes on, a stream is open if and only if it was opened, or was open before, and neither a FIN nor an error in a SYNACK has ended it since. |
| `Receiver.ErrorIsAnswered` | anytls/proxy/session/session.go:229-250 | A stream the peer reports an error for is closed and ended towards the peer with a FIN. |
| `Receiver.AlertEndsSession` | anytls/proxy/session/session.go:307-319 | An alert anywhere among the frames ends the session, and nothing behind it is handled. |
| `Receiver.SynNeedsSettings` | anytls/proxy/session/session.go:209-215 | A SYN before any settings is answered with the alert and ends the session. |
| `Receiver.ClosedOnce` | anytls/proxy/session/session.go:111-133 | Whatever frames come, the loop closes its session once: its hook is called once, its table is empty, and every stream in it that no frame of its own has ended is dead. |
| `Multiplex.WriteKeepsLink` | anytls/proxy/session/session.go:378-493 | A locked write in any buffering phase keeps the wire a first part of whole frames whose non-waste part is what was written. |
| `Multiplex.WriteKeepsClient` | anytls/proxy/session/session.go:81-98 | Every client write that respects the opening rule keeps settings first, each stream number opened once, and data after its SYN. |
| `Multiplex.ReceiveReads` | anytls/proxy/session/session.go:185-208 | What the server reads next is the next frame that left the client, also when the wire breaks off inside a frame. |
| `Multiplex.HandleFrames` | anytls/proxy/session/session.go:191-258 | Only a push changes what was handed over, and only on its own stream; only a SYN opens one. |
| `Multiplex.HandleKeepsServer` | anytls/proxy/session/session.go:174-365 | Handling a frame of a well-ordered stream keeps, for every stream number, what was handed over equal to what came for it while it is open, and never raises the alert. |
| `Multiplex.NothingBeforeSyn` | anytls/proxy/session/session.go:136-172 | Nothing was written to a stream that was not opened. |
| `Multiplex.StepKeepsInv` | anytls/proxy/session/session.go:81-98 | Every step of client and server keeps the whole invariant. |
| `Multiplex.RunKeepsInv` | anytls/proxy/session/session.go:81-172 | The invariant holds at every moment of every run. |
| `Multiplex.PaddingIsTransparent` | anytls/proxy/session/session.go:418-493 | In every run on an unbroken connection the wire and the buffer parse into whole frames, and without waste they are exactly the frames written, in order. |
| `Multiplex.DeliveryIsPrefix` | anytls/proxy/session/session.go:174-365 | In every run, at every moment and for every stream, also after a break at any byte, the bytes handed to the server's stream are a first part of those the client wrote to it, and the server never takes the alert branch. |
| `Multiplex.AllDelivered` | anytls/proxy/session/session.go:174-365 | Once everything was flushed and read, a stream still open has been handed everything written to it. |
| `Duplex.StepKeeps` | anytls/proxy/session/session.go:136-172 | Every step of either side, in both directions, keeps the invariant. |
| `Duplex.ReadIsRegistered` | anytls/cmd/server/inbound_tcp.go:62-80 | A stream the server has read from is registered at the client. |
| `Duplex.ClientHandles` | anytls/proxy/session/session.go:191-360 | On the client only a push changes what was handed over, only on its own open stream, and no frame but a SYN opens one. |
| `Duplex.BothDirectionsArePrefixes` | anytls/proxy/session/session.go:136-365 | In every run, at every moment and for every stream, what each side has handed over is a first part of what the other wrote to the stream, also after a break of either direction at any byte. |
| `Duplex.AllReturned` | anytls/proxy/session/session.go:174-365 | Once the client has read everything, a stream it has open was handed everything the server wrote to it. |
| `Duplex.EarlyBytesAreLost` | anytls/proxy/session/session.go:197-202 | What the server pushes before the client has registered the stream is dropped: all of it arrives if and only if nothing came before. |
| `Lifecycle.DoKeeps` | anytls/proxy/session/session.go:111-172 | Every lock-granular step of opening, closing, remote ends, dying and sweeping keeps the invariant of numbers, table, deaths and hooks. |
| `Lifecycle.NoStreamOutlivesItsSession` | anytls/proxy/session/session.go:111-172 | In every interleaving: once a session was swept, a stream that was returned is dead unless a FIN took it out of the table and the call handling it has yet to kill it; and an open still under way will fail. |
| `Lifecycle.FinEscapesTheSweep` | anytls/proxy/session/session.go:251-258 | A run in which the FIN's delete comes just before the sweep: the session is swept and the stream that was returned is alive. |
| `Lifecycle.OneDeathOneHook` | anytls/proxy/session/stream.go:68-100 | Of all calls and the sweep that close one stream, in any interleaving, at most one finds it alive, and its hook is called at most once. |
| `Lifecycle.OneHolder` | anytls/proxy/session/stream.go:68-100 | After any step at most one of those that close a stream has killed it and has yet to go to its hook. |
| `Lifecycle.HookIsCalled` | anytls/proxy/session/stream.go:68-100 | In every interleaving a hook that was set while its stream lived has been called, exactly once, as soon as the stream is dead and whoever killed it has gone on. |
| `Lifecycle.TableIs` | anytls/proxy/session/session.go:111-172 | In every run the table holds exactly the streams that were registered and that no FIN, close or sweep has taken out since. |
| `Lifecycle.OpenSucceeds` | anytls/proxy/session/session.go:136-172 | From every reachable state of a living session, an open whose SYN goes out returns a new number, and the stream is in the table and alive. |
| `Lifecycle.CloseSucceeds` | anytls/proxy/session/stream.go:83-100 | From every reachable state, closing a living stream while the table is free takes it out of the table and calls the hook it has. |
| `Pool.OwnedBefore` | anytls/proxy/session/client.go:70-181 | After any step, whoever may use a session could already use it, was handed it by one who no longer can, or has just created it. |
| `Pool.DoKeeps` | anytls/proxy/session/client.go:70-181 | Every step of callers, dying streams, hooks, dying sessions and cleanup keeps each session with at most one user. |
| `Pool.OneStreamAtATime` | anytls/proxy/session/client.go:70-181 | In every interleaving, also of the hook's check and its insertion, the session of a live stream is not pooled and carries no other live stream. |
| `Pool.NothingIsLost` | anytls/proxy/session/client.go:70-181 | In every interleaving a session that was created is closed, pooled, held by a caller, carried by a stream that has yet to give it back, or was let go by the cleanup or by a hook that was set too late. |
| `Pool.ClosedIs` | anytls/proxy/session/client.go:96-137 | A session is closed if and only if it died, a stream could not be opened on it, or its hook found the client closed. |
| `Pool.ClosedStaysOut` | anytls/proxy/session/client.go:109-134 | A session that is closed before its hook looks at it never comes back to the pool, whatever happens. |
| `Pool.SessionIsReused` | anytls/proxy/session/client.go:109-149 | A stream that ends on an open session gives it back, idle since that moment, and the next caller gets it if it is the newest. |
| `Pool.StreamIsCarried` | anytls/proxy/session/client.go:70-107 | A caller that finds no idle session gets a stream on a new one, which nobody else has. |
| `Pool.IdleSessions.GetIdle` | anytls/proxy/session/client.go:140-149 | An idle session is returned exactly when there is one; it is the newest, and only it leaves the pool. |
| `Pool.IdleSessions.Put` | anytls/proxy/session/client.go:121-128 | Putting a session back adds it, or renews its time, and changes nothing else. |
| `Pool.IdleSessions.Remove` | anytls/proxy/session/client.go:159-170 | Removing a session takes out that one, if it is there. |
| `Pool.IdleSessions.Cleanup` | anytls/proxy/session/client.go:205-242 | The cleanup loop leaves what `Kept` says and closes what `Closed` says, newest first. |
| `Pool.CleanupKeepsEnough` | anytls/proxy/session/client.go:205-242 | At least the minimum survive unless nothing was closed, and no survivor is stale afterwards. |
| `Pool.CleanupPartitions` | anytls/proxy/session/client.go:205-242 | A pooled session is closed if and only if it is stale and the minimum was reached by newer ones; otherwise it stays, with its time renewed if it was stale. |
| `Pipe.Paired` | anytls/proxy/pipe/io_pipe.go:52-106 | The reader whose count a writer receives is the one that took the writer's slice. |
| `Pipe.DoKeeps` | anytls/proxy/pipe/io_pipe.go:52-133 | Every channel, lock, close or deadline step keeps the invariant of writers, readers and hand-offs. |
| `Pipe.ReadsAreWrites` | anytls/proxy/pipe/io_pipe.go:52-106 | In every interleaving the bytes read, in hand-off order, are the bytes consumed from the writes, in the order the writes got the lock, each write once. |
| `Pipe.WriteCountsAreExact` | anytls/proxy/pipe/io_pipe.go:82-106 | A write that is back returned exactly the count consumed from it, a first part of its data; no error only when all was consumed, in at least one hand-off even for empty data. |
| `Pipe.ReadsAreExact` | anytls/proxy/pipe/io_pipe.go:52-71 | A read that is back received one slice and returned what it copied, or failed and took nothing. |
| `Pipe.NobodyHangs` | anytls/proxy/pipe/io_pipe.go:61-71 | In every run a reader that has copied a slice can report to the writer that waits for it, and a writer that waits for a count has the reader that will report it, whatever closes and deadlines came. |
| `Pipe.ClosingAfter` | anytls/proxy/pipe/io_pipe.go:17-35 | A stored close error never changes, and the pipe is done only after one was stored. |
| `Pipe.CloseErrorsArrive` | anytls/proxy/pipe/io_pipe.go:73-133 | While only one end was closed, every call of the other end that was refused for it returned the first error it was closed with. |
| `Pipe.FirstCloseIsKept` | anytls/proxy/pipe/io_pipe.go:73-115 | In every run each end keeps the error of its first close: the one given, or the end of data for the writing end and "closed" for the reading end. |
| `Pipe.WhenCallsEnd` | anytls/proxy/pipe/io_pipe.go:52-106 | In every run a call may start if and only if the pipe is not closed and its deadline has not passed, and a call that starts or waits may come back with an error if and only if one of the two is so. |
| `Pipe.RefusedWith` | anytls/proxy/pipe/io_pipe.go:52-133 | Which error that is: the deadline, the other end's first close error if only that end was closed, and else "closed"; a write keeps the count it had reached. |
| `Pipe.Transfer` | anytls/proxy/pipe/io_pipe.go:61-98 | When a reader meets a writer it gets what fits of what is left, and the writer goes on right behind it or is done. |
| `Search.Look` | core/aether/src/https.rs:343-352 | A search from a place finds the first terminator from there on and counts the places it looked at. |
| `Search.ResumedFind` | core/aether/src/https.rs:343-352 | A search resumed less than a terminator before where the last one stopped still finds the first terminator. |
| `Search.FindOfPrefix` | core/aether/src/https.rs:489-500 | Bytes that come later neither move a terminator that was found nor bring one up earlier. |
| `Dechunk.Dechunker.constructor` | core/aether/src/https.rs:449-464 | A new dechunker stands at the start and has looked at nothing. |
| `Dechunk.Dechunker.LineEnd` | core/aether/src/https.rs:489-500 | The resumed search gives the first line end from the cursor and looks at no place twice. |
| `Dechunk.Dechunker.Take` | core/aether/src/https.rs:468-516 | One turn of the loop takes exactly the next piece of the body, or waits, or fails as the body as a whole says. |
| `Dechunk.Dechunker.Advance` | core/aether/src/https.rs:466-519 | Going on with more bytes comes to reading on from the cursor over the whole body; the places looked at over all calls never exceed the bytes received. |
| `Dechunk.ScanResumes` | core/aether/src/https.rs:466-519 | Reading a part and going on is reading it all at once; any error but a line that is still open stands. |
| `Dechunk.DoneIsFinal` | core/aether/src/https.rs:466-519 | A whole body is read the same behind any further bytes. |
| `Dechunk.CutsDoNotMatter` | core/aether/src/https.rs:489-500 | Whatever the body, well formed or not: no cut of it is refused for a line too long if and only if every line is shorter than 8192 bytes and the whole is not refused for that; and a body that reads well reads well up to every cut if and only if its lines are shorter than 8192 bytes. |
| `Dechunk.LongLineFails` | core/aether/src/https.rs:489-496 | A body with a line of 8192 bytes or more, well formed or not, has a cut that is refused for it. |
| `Dechunk.ShortLinesNeverTooLong` | core/aether/src/https.rs:489-496 | No cut of a body with short lines is refused for a line too long, whatever else is wrong with it. |
| `Dechunk.ChunkedRoundTrip` | core/aether/src/https.rs:449-530 | Every list of nonempty chunks with any legal size lines, extensions and trailer yields the joined data, ends on its last byte whatever follows, and no strict first part passes for whole. |
| `Dechunk.HexLine` | core/aether/src/https.rs:505-511 | A lower-case hexadecimal size, alone or before an extension, is read as that size. |
| `Dechunk.NoHexLine` | core/aether/src/https.rs:505-511 | A line that is not a number in hexadecimal gives no size. |
| `Dechunk.BadSizeIsRefused` | core/aether/src/https.rs:505-511 | Behind any chunks, a line that gives no size is an error. |
| `Dechunk.HugeChunkIsRefused` | core/aether/src/https.rs:472-478 | Behind any chunks, a size whose end cannot be addressed is an error. |
| `Dechunk.BadDataIsRefused` | core/aether/src/https.rs:479-487 | Behind any chunks, data that does not end its line where it was announced to is an error. |
| `Answer.Http1Answer.constructor` | core/aether/src/https.rs:309-316 | A new reader is in its first head with nothing received. |
| `Answer.Http1Answer.HeadEnd` | core/aether/src/https.rs:343-352 | The resumed search gives the first end of head from where the head starts and looks at no place twice. |
| `Answer.Http1Answer.FindHead` | core/aether/src/https.rs:343-367 | The loop over heads passes interim answers and stops at a final head, at an error or where bytes are missing, as reading the whole says; `Heads.HeadRoundTrip` states what a head is read as. |
| `Answer.Http1Answer.Push` | core/aether/src/https.rs:338-375 | A push is refused above 512 KiB; else it says whether the answer is whole, exactly as reading on over all bytes says, and the places searched never exceed the bytes received. |
| `Answer.Http1Answer.Finish` | core/aether/src/https.rs:380-401 | The answer, or the error for a missing head, a cut head or a cut body. |
| `Answer.Receive` | core/aether/src/https.rs:265-286 | The reading loop over any pieces returns what `Exchange` says. |
| `Answer.ReadIsOnePush` | core/aether/src/https.rs:265-286 | Reading the whole at once is the loop over one piece, the error for an answer that is too large included. |
| `Answer.ReadResumes` | core/aether/src/https.rs:338-377 | Reading on when more came is reading it all, unless a chunk line was cut past the limit. |
| `Answer.ExchangeResumes` | core/aether/src/https.rs:265-286 | From wherever the loop is, it gives what reading all the rest at once gives, or the error of a chunk line cut past the limit. |
| `Answer.NeverTooLong` | core/aether/src/https.rs:489-496 | However it is split, an answer with short chunk lines, well formed or not, is never turned down for a line too long. |
| `Answer.WholeIsFinal` | core/aether/src/https.rs:338-401 | A whole answer stays the same behind any further bytes. |
| `Answer.ExchangeIsRead` | core/aether/src/https.rs:265-286 | However the bytes are split, the loop gives what one reading of the whole gives, or turns down a chunk line for its length, and that only when the answer has one at the limit. |
| `Answer.SplitsDoNotMatter` | core/aether/src/https.rs:338-401 | For every answer of at most 512 KiB, well formed or not: every split gives the same status, fields, body or error as one push if and only if its chunk lines are shorter than 8192 bytes or the answer is turned down for a line too long in one piece as well. |
| `Answer.InterimsArePassed` | core/aether/src/https.rs:354-359 | Any number of interim heads is passed over. |
| `Answer.HeadIsRead` | core/aether/src/https.rs:343-367 | Past any interim heads, the final head is what is read, its body starts right behind it, and nothing of the body changes it. |
| `Heads.HeadRoundTrip` | core/aether/src/https.rs:404-445 | Every written head, a version, a status in decimal, a reason and fields with any white space around their values, reads back as its status, its fields in order and its end: 204 and 304 have no body, else the first transfer-encoding in any letter case decides for chunks if it mentions them, else the first content-length gives the length, else the connection ends the body. A status of 1xx but 101 is passed over, and a length that is no number or does not fit is an error. |
| `Heads.StatusIsRead` | core/aether/src/https.rs:406-413 | The status is the second word of the first line, whatever follows it. |
| `Heads.FieldsAreRead` | core/aether/src/https.rs:414-418 | Every field line gives its name and its value without the white space around it, in order. |
| `Heads.TrimIs` | core/aether/src/https.rs:414-418 | White space at both ends is taken off, and nothing else. |
| `Heads.FramingIsRight` | core/aether/src/https.rs:423-445 | Where a body ends, by the first fields of each name in any letter case. |
| `Heads.FramingIsRefused` | core/aether/src/https.rs:439-444 | A content-length that is no number, or too large a one, is an error where it decides. |
| `Heads.BadStatusIsRefused` | core/aether/src/https.rs:406-413 | A first line without a second word, or with one that is no number of 16 bits, is refused. |
| `Heads.HeadIsOne` | core/aether/src/https.rs:343-352 | A written head ends where it was written to end, and not before. |
| `Heads.AnswerWithLength` | core/aether/src/https.rs:380-401 | Past any written interim heads, a written answer with a length gives its status, its fields and exactly that body, and nothing of what follows. |
| `Heads.AnswerInChunks` | core/aether/src/https.rs:380-401 | Past any written interim heads, a written chunked answer gives its status, its fields and the joined data, whatever follows. |
| `Heads.AnswerToTheEnd` | core/aether/src/https.rs:380-401 | A written answer that announces no end gives everything up to the end of the connection. |
| `Heads.AnswerCutInHead` | core/aether/src/https.rs:380-388 | Cut anywhere before the end of its head, an answer is not whole, and at the end of the connection it is an error: empty, or cut in its head. |
| `Heads.WholeWithLength` | core/aether/src/https.rs:368-395 | An answer with a length is whole from the last byte of its body on and not before, and cut before that it is an error. |
| `Heads.WholeInChunks` | core/aether/src/https.rs:368-397 | A chunked answer is whole from the last byte of its trailer on and not before, and cut before that it is an error. |
| `Heads.TooLargeIsRefused` | core/aether/src/https.rs:339-342 | An answer that passes 512 KiB before it is whole is refused, however it is split. |
| `Varint.VarintRoundTrip` | core/quiche/octets/src/lib.rs:515-549 | Every number below 2^62 is read back from the bytes it was written as, whatever follows; its length is the one `varint_len` says. |
| `Varint.GetNeedsAll` | core/quiche/octets/src/lib.rs:187-195 | No strict first part of the bytes of a number is read as one. |
| `Capsules.Append` | core/aether/src/masque.rs:103-111 | A capsule is appended to what is there and changes none of it. |
| `Capsules.ParseAddresses` | core/aether/src/masque.rs:226-250 | The loop reads the addresses one after another, or fails as soon as one is cut short or of an unknown version. |
| `Capsules.ParseRoutes` | core/aether/src/masque.rs:252-276 | The loop reads the ranges one after another, or fails as soon as one is cut short or of an unknown version. |
| `Capsules.AddressesRoundTrip` | core/aether/src/masque.rs:226-250 | Every list of addresses is read back from the value it was written as. |
| `Capsules.CutAddressIsRefused` | core/aether/src/masque.rs:226-250 | Behind any addresses, one that is cut anywhere is an error. |
| `Capsules.OddAddressIsRefused` | core/aether/src/masque.rs:226-250 | Behind any addresses, one of another version than 4 and 6 is an error. |
| `Capsules.RoutesRoundTrip` | core/aether/src/masque.rs:252-276 | Every list of ranges is read back from the value it was written as. |
| `Capsules.BadRouteIsRefused` | core/aether/src/masque.rs:252-276 | Behind any ranges, one that is cut or of another version is an error. |
| `Capsules.KindsAreTold` | core/aether/src/masque.rs:199-214 | Which kind of capsule is read as what, for all values; any other kind is kept as it is. |
| `Capsules.CapsuleParser.Push` | core/aether/src/masque.rs:175-182 | Bytes are appended, or everything is dropped when more than 256 KiB would wait. |
| `Capsules.CapsuleParser.Next` | core/aether/src/masque.rs:184-217 | The next whole capsule leaves the buffer, also when its value is malformed; nothing changes while it is not whole. |
| `Capsules.CapsuleRoundTrip` | core/aether/src/masque.rs:91-111 | A capsule is read back from the bytes it was written as, with exactly the following bytes left. |
| `Capsules.TakeOfPrefix` | core/aether/src/masque.rs:184-205 | Bytes that come later change neither a capsule already there nor what is behind it. |
| `Capsules.BarePacket` | core/aether/src/masque.rs:133-162 | A bare packet is recovered as it is if and only if it is not ambiguous, that is unless its first two bytes are 0x40 and 0 and what follows them looks like a packet too. |
| `Capsules.RealPacketsAreClear` | core/aether/src/masque.rs:133-162 | IPv6 packets, and IPv4 packets whose header is at least five words, are never ambiguous. |
| `Capsules.PacketWithContext` | core/aether/src/masque.rs:133-162 | Behind context id 0 every packet of at least 20 bytes is recovered, ambiguous or not. |
| `Capsules.DatagramRoundTrip` | core/aether/src/masque.rs:52-89 | Decoding an HTTP/3 datagram inverts encoding for every stream number, and yields nothing for a stream with another quarter number. |
| `Capsules.OtherDatagrams` | core/aether/src/masque.rs:73-89 | A datagram of another context is passed over, and one cut before its packet is an error. |
| `Tunnel.Sender.Gather` | core/aether/src/masque_h2.rs:699-708 | A batch is the encoding of the first packets queued, at least one, and grows only while it is under 32 KiB. |
| `Tunnel.Sender.Queue` | core/aether/src/masque_h2.rs:693-697 | A packet queues behind the others. |
| `Tunnel.Sender.SendControl` | core/aether/src/masque_h2.rs:683-691 | A control capsule goes out alone and leaves the packets as they are; the end, or a write that is refused, closes the sender. |
| `Tunnel.Sender.SendBatch` | core/aether/src/masque_h2.rs:693-713 | One batch goes out: the first packets queued, in order, none lost while the stream takes them. |
| `Tunnel.Sender.Turn` | core/aether/src/masque_h2.rs:679-715 | Control goes before packets; the wire is always the encoding of the turns so far, and the packets of those turns followed by the queue are all packets ever queued, in order. |
| `Tunnel.Inbound.DrainCapsules` | core/aether/src/masque_h2.rs:738-788 | Draining offers the packets of the whole capsules in order, keeps those the queue has room for and leaves the rest of the bytes. |
| `Tunnel.Inbound.Receive` | core/aether/src/masque_h2.rs:615-620 | A chunk is pushed and drained; what was taken and is still queued stays the packets offered, in order, with some left out only when the queue was full. |
| `Tunnel.Inbound.constructor` | core/aether/src/masque.rs:170-173 | A new receiver has nothing buffered, queued, offered or taken. |
| `Tunnel.Inbound.Consume` | core/aether/src/masque_h2.rs:755-761 | A consumer takes packets from the front of the queue, and nothing is lost. |
| `Tunnel.Inbound.Run` | core/aether/src/masque_h2.rs:615-620 | Over any chunks, with a consumer taking any number of packets after each: the packets taken and those still queued are the packets received, in order, with some left out only when the queue was full. |
| `Tunnel.DrainPrefix` | core/aether/src/masque_h2.rs:738-788 | Draining a first part of the wire offers exactly the packets of the capsules whole in it, up to the first that cannot be interpreted, and leaves what is behind them. |
| `Tunnel.NotBeforeItsEnd` | core/aether/src/masque.rs:184-205 | A capsule is not taken before its last byte came. |
| `Tunnel.TunnelDelivers` | core/aether/src/masque_h2.rs:738-788 | For all capsules of at most 65535 bytes that parse and every cut of their bytes into chunks of at most 64 KiB, the packets offered are at every moment those of the capsules that came whole, and no push of the whole run reaches the 256 KiB reset. |
| `Tunnel.PacketsArrive` | core/aether/src/masque_h2.rs:672-788 | For every sequence of turns, batches of unambiguous packets with control capsules between them, probes included, and every cut of the bytes into chunks of at most 64 KiB, the packets received are the packets sent, in order, and the buffer is never reset. |
| `Tunnel.Carry` | core/aether/src/masque_h2.rs:672-788 | From a sender to a consumer: with the bytes the sender wrote, cut into any chunks of at most 64 KiB, the packets taken and still queued are the packets sent, in order, some missing only if the queue was full. |
| `Tunnel.MalformedStalls` | core/aether/src/masque_h2.rs:780-784 | For all capsules and every first part of their bytes: what one draining offers and leaves; it leaves no whole capsule behind if and only if all whole ones but the last can be interpreted. |
| `Tunnel.NothingOutOfOrder` | core/aether/src/masque_h2.rs:738-788 | For all capsules, interpretable or not, and all chunks: unless the buffer is reset, the packets offered are those of some first part of the capsules that came whole. |
| `Tunnel.OverflowStartsAfresh` | core/aether/src/masque.rs:175-182 | A chunk that would make the buffer too long is lost with everything buffered, and what comes next is read afresh. |
| `Netstack.OwnershipIsExact` | core/aether/src/netstack.rs:660-741 | In every reachable state the socket set is exactly the pairwise distinct handles of the two tables, and a TCP entry is established exactly when its reply was used. |
| `Netstack.OfferMovesBytes` | core/aether/src/netstack.rs:744-782 | Handling an item moves its bytes to the end of those that wait and loses none; what does not fit stays set aside. |
| `Netstack.OfferKeeps` | core/aether/src/netstack.rs:744-782 | Handling an item keeps ownership, conservation and replies. |
| `Netstack.ServeKeeps` | core/aether/src/netstack.rs:784-936 | A turn for any connection, in any socket state and with any number of bytes accepted, keeps ownership, conservation and replies. |
| `Netstack.DoKeeps` | core/aether/src/netstack.rs:581-646 | Every step of the loop keeps the invariant. |
| `Netstack.RunInv` | core/aether/src/netstack.rs:549-651 | The invariant holds in every reachable state. |
| `Netstack.BytesAreConserved` | core/aether/src/netstack.rs:744-869 | In every reachable state, accepted, then waiting, then set-aside bytes are the bytes taken off the channel, in order; at most one item is set aside, the bytes that wait stay within the bound, and a socket told to close while the application was there and the peer had not closed was given every byte taken off the channel before the request to close. |
| `Netstack.DoReplies` | core/aether/src/netstack.rs:660-741 | A step changes no answer, and a request that waited waits on or has its answer. |
| `Netstack.AnsweredOnce` | core/aether/src/netstack.rs:784-936 | No open request is sent two replies, its answer never changes, and while it has none its connection is in the table and not established. |
| `Netstack.NetStack.constructor` | core/aether/src/netstack.rs:506-541 | A new stack has empty tables. |
| `Netstack.NetStack.RemoveSocket` | core/aether/src/netstack.rs:775-780 | A socket is taken out of the set only when it is there, so that none is removed twice. |
| `Netstack.NetStack.TryHandle` | core/aether/src/netstack.rs:744-782 | An item is handled as `Offer` says, and what of it must wait is returned. |
| `Netstack.NetStack.RetryDeferred` | core/aether/src/netstack.rs:581-586 | The item set aside is tried first, and put back in front when it still does not fit. |
| `Netstack.NetStack.ReceiveItems` | core/aether/src/netstack.rs:629-646 | Items are taken in order until one does not fit, which is set aside; the invariant is kept. |
| `Netstack.NetStack.OpenTcpConn` | core/aether/src/netstack.rs:662-700 | A connect that is refused at once is answered; otherwise a new entry owns a new socket and owes the answer. |
| `Netstack.NetStack.OpenUdpConn` | core/aether/src/netstack.rs:701-734 | A bind that fails is answered with a failure; otherwise a new entry owns a new socket and is answered. |
| `Netstack.NetStack.Remove` | core/aether/src/netstack.rs:820-844 | An entry leaves with its socket and with the answer it still owes. |
| `Netstack.NetStack.RemoveUdp` | core/aether/src/netstack.rs:775-780 | A UDP entry leaves with its socket. |
| `Netstack.NetStack.SendPending` | core/aether/src/netstack.rs:846-861 | As many waiting bytes as the socket takes go to it, in order; `TurnSends` and `EverythingIsSent` state what that comes to. |
| `Netstack.NetStack.SendAndEnd` | core/aether/src/netstack.rs:846-869 | The bytes that wait go to the socket first, and the close that was asked for follows only when none is left. |
| `Netstack.GivenUpInTime` | core/aether/src/netstack.rs:903-915 | A connection whose application has gone, with nothing to receive, is given up at the first turn that comes the linger time after the turn that first found it gone, and not before. |
| `Netstack.WatchedIs` | core/aether/src/netstack.rs:903-936 | Over any turns of a connection: it is given up if and only if at one of them the application had gone and there was something to receive or the linger time had passed since it was first found gone; it is closed if and only if one that did not give it up found the application gone or the peer closing. |
| `Netstack.WhenRemoved` | core/aether/src/netstack.rs:790-798 | An open connection leaves the table if and only if it was given up before, or its socket is done and this turn does not give it up. |
| `Netstack.TurnSends` | core/aether/src/netstack.rs:846-869 | In every reachable state a turn for an open connection that it keeps hands the socket the first waiting bytes, as many as it has room for or all of them, and the rest waits on. |
| `Netstack.EverythingIsSent` | core/aether/src/netstack.rs:846-869 | Over several turns the socket accepts the waiting bytes in order up to the sum of its rooms; once that covers them none waits, and a close that was asked for has been done. |
| `Netstack.ItemsAreHandled` | core/aether/src/netstack.rs:744-782 | Data goes behind what waits, what does not fit is set aside only when the bound is reached, a close is noted with what was taken before it, and a closed UDP socket is gone. |
| `Netstack.RepliesAreRight` | core/aether/src/netstack.rs:801-844 | Which reply each way out gives: opened when connected, refused when the socket is closed, timed out when the asker has gone or the deadline passed; until then nothing changes. |
| `Netstack.OpensAreAnswered` | core/aether/src/netstack.rs:662-734 | A request that fails at once is answered so, a UDP request gets its number, and a TCP request waits with its deadline. |
| `Netstack.GoneUdpIsRemoved` | core/aether/src/netstack.rs:938-986 | A UDP socket whose application has gone is removed, and only it. |
| `Netstack.NetStack.ServeEstablished` | core/aether/src/netstack.rs:846-932 | Bytes are flushed before the close that was asked for; the socket is also closed when the application has gone or the peer has closed, aborted when the application has been gone too long, and removed when it is done. |
| `Netstack.NetStack.Connected` | core/aether/src/netstack.rs:804-818 | The answer is given when the socket is connected, and used up with it. |
| `Netstack.NetStack.ServeConn` | core/aether/src/netstack.rs:784-936 | A turn for one connection does what `Serve` says and keeps the invariant. |
| `Netstack.NetStack.ServiceTcp` | core/aether/src/netstack.rs:784-936 | Every connection in the table gets one turn, in some order, and the tables are those that these turns give; the invariant and all answers given are kept. |
| `Netstack.NetStack.ServiceUdp` | core/aether/src/netstack.rs:938-986 | Exactly the UDP entries whose application has gone are taken out with their sockets. |
| `Egress.Interleaved` | core/aether/src/egress.rs:117-131 | Popping the two families by turns gives the alternation of the first address's family with the other. |
| `Egress.InterleavedIsFair` | core/aether/src/egress.rs:115-131 | The order is a permutation that starts with the first address, keeps each family's order, takes turns while both remain, and then holds one family. |
| `Egress.PlayKeeps` | core/aether/src/egress.rs:136-167 | In every race every address waits, runs or has failed; something runs until the race is over. |
| `Egress.RaceTriesAll` | core/aether/src/egress.rs:133-167 | The started addresses are the first ones, each started once; the race is lost if and only if every address was tried and failed; "no address" is the error exactly for an empty list. |
| `Egress.RaceIsDecided` | core/aether/src/egress.rs:155-163 | A race that is over was decided by one event: a connection, which is the result, or the failure of the last attempt with none waiting, whose error is the result. |
| `Egress.FirstConnectionWins` | core/aether/src/egress.rs:155-157 | The first connection seen is the result, whatever comes after it. |
| `Egress.StartsInTime` | core/aether/src/egress.rs:136-167 | While a race is undecided, as many attempts were started as there were delays and failures plus one, up to all addresses, and exactly those that were started and have not failed are running. |
| `Egress.RunRace` | core/aether/src/egress.rs:136-167 | The loop over the events it wakes up to returns what `Play` says; `StartsInTime` and `RaceIsDecided` state what that is. |
| `Dns.PartsRejoin` | core/aether/src/dns.rs:444-447 | Cutting a name at its dots and joining it again are inverse, and no part holds a dot. |
| `Dns.BuildQuery` | core/aether/src/dns.rs:477-495 | The query is the header with the id, one question and recursion desired, then the labels, type and class. |
| `Dns.ResponseMatches` | core/aether/src/dns.rs:424-475 | The label loop decides exactly `Accepts`, and reads nothing outside the message. |
| `Dns.AcceptedIsEchoed` | core/aether/src/dns.rs:424-475 | A message is accepted if and only if it is a reply with the id and one question, and that question is the one asked in some letter case, with room for a class. |
| `Dns.OwnQuestionIsAccepted` | core/aether/src/dns.rs:477-495 | The query turned into a reply, with anything behind it, is accepted if and only if its response bit is set and every label fits its length byte. |
| `Dns.AcceptedForOneName` | core/aether/src/dns.rs:424-475 | A message accepted for two names has the id and type of both, and their labels are equal up to letter case. |
| `Dns.SkipNameAt` | core/aether/src/dns.rs:553-565 | Skipping a name ends on every byte string, behind its empty label or its pointer. |
| `Dns.ParseSvcParamsEch` | core/aether/src/dns.rs:531-551 | The first ech parameter of the record, or nothing when a parameter runs over its end. |
| `Dns.ParseHttpsEch` | core/aether/src/dns.rs:497-529 | The reader over questions and answers ends on every byte string and reads nothing outside it. |
| `Dns.EchStands` | core/aether/src/dns.rs:497-551 | Whatever the message, a value that is read stands in it as an ech parameter with its length. |
| `Dns.NameIsSkipped` | core/aether/src/dns.rs:553-565 | Every name, ended by an empty label or by a compression pointer, is skipped to its last byte. |
| `Dns.FirstEchIsRead` | core/aether/src/dns.rs:497-551 | For all questions and answers and any bytes behind them, the reader returns the first ech value among the HTTPS records, in order. |
| `LastConn.Save` | core/aether/src/lastconn.rs:28-44 | The saved ring is the peer and then the first seven others of the ring carried over, which is none after a change of carrier. |
| `LastConn.RingIsRecentHistory` | core/aether/src/lastconn.rs:28-52 | After any saves from no file, the ring is the first eight of the distinct peers saved since the last change of carrier, newest first. |
| `LastConn.DistinctKeepsOrder` | core/aether/src/lastconn.rs:37-42 | Distinct entries stand in the order of their first places. |
| `LastConn.DistinctHasNoRepeats` | core/aether/src/lastconn.rs:37-42 | No entry stands twice among the distinct ones. |
| `LastConn.UsablePeers` | core/aether/src/lastconn.rs:63-82 | The readable addresses, each once, the saved peer first; none for a record of another carrier. |
| `LastConn.UsableAfterSaves` | core/aether/src/lastconn.rs:63-82 | What is tried again after any saves is the ring itself, read and without repeats. |
| `Supervisor.Loop.constructor` | core/aether/src/lib.rs:2396-2399 | The loop starts with no endpoint counted against and none left alone. |
| `Supervisor.Loop.Retire` | core/aether/src/lib.rs:2402-2415 | Cooldowns that are over go, and an endpoint that closed twice in a row is left alone from now on. |
| `Supervisor.Loop.Choose` | core/aether/src/lib.rs:2416-2510 | The quick pick, else the last good endpoint if it responds, else the forced peer, else what the scan found; `RunsAreChosen` states it over whole runs of the loop. |
| `Supervisor.Loop.RunTunnel` | core/aether/src/lib.rs:2512-2540 | The endpoint is remembered unless forced, becomes the last good one, and its closing counts against it. |
| `Supervisor.Loop.TakeTurn` | core/aether/src/lib.rs:2401-2541 | One turn: cooldowns that are over go, an endpoint that closed twice in a row is left alone, the next endpoint is chosen, remembered and run. |
| `Supervisor.TopKeeps` | core/aether/src/lib.rs:2402-2415 | The top of a turn keeps the invariant and leaves fewer than two closes counted. |
| `Supervisor.NextKeeps` | core/aether/src/lib.rs:2401-2541 | Every possible turn keeps the invariant, with no forced peer. |
| `Supervisor.NoThirdRunTooSoon` | core/aether/src/lib.rs:2396-2541 | In every run of the loop with no forced peer: of three runs of one endpoint in a row, the cooldown lies between the end of one and the start of the next. |
| `Supervisor.ForcedPeerRunsOn` | core/aether/src/lib.rs:2449-2494 | A forced peer is run a third time at once, whatever the cooldown. |
| `Supervisor.KeptUnlessForced` | core/aether/src/lib.rs:2396-2541 | The cooldown is kept in every run of the loop if and only if no peer is forced. |
| `Supervisor.RingIsTheRuns` | core/aether/src/lib.rs:2514-2521 | After any run of the loop from no file, the ring on disk is the first eight distinct endpoints that were run, newest first. |
| `Supervisor.ForcedIsNotSaved` | core/aether/src/lib.rs:2514-2521 | With a forced peer the record on disk never changes. |
| `Supervisor.RunsAreChosen` | core/aether/src/lib.rs:2416-2510 | In every run of the loop the next endpoint is, by the history of runs alone: the quick pick if none was run, else the last one if it responds and has not just closed twice in a row, else the forced peer, else what the scan found. |
| `Supervisor.CooldownsEnd` | core/aether/src/lib.rs:2402-2415 | In every run of the loop, once the cooldown has passed since the last turn, no endpoint is left alone any more but one that has just closed twice in a row. |

## Left out

- TLS, ECH, QUIC and HTTP/2 handshakes and framing: libraries underneath; their streams are byte sequences here.
- smoltcp's TCP: a socket is a state and a number of accepted bytes chosen freely at each turn; that it keeps the order of accepted bytes is taken for granted.
- The direction from a socket to the application in the network stack (the receive loop of `service_tcp` and `service_udp`), address changes, port choice and packet flushing.
- The three-second watcher for a missing SYNACK, the connection's write deadlines and the client's own heartbeat requests.
- Registration of a stream by a server session that is closing: the server does not look at `die` again there, so a stream may be registered after the sweep.
- A pooled session may already be closed: the hook's check and its insertion are not under one lock. The pool results hold with the two as separate steps; that a pooled session is open is not claimed.
- Delivery of every waiting byte after the peer has closed: the network stack closes its socket then whatever waits. Only the conservation of bytes is stated.
- A tunnel whose packet queues were closed by their other ends: the sender and the drain loop then stop early.
- Go's skip list, maps and channels and tokio's queues: a list kept in order, finite maps, and single hand-off steps.
- `Client.Close`, which closes every session: it is covered only as sessions that die at any moment.
- The default padding scheme's text, its MD5 and the storing of an updated scheme: the scheme is any text.
- HTTP header values that the `http` crate refuses, and the request side of `over_http1`.
- The address families, ports and socket marks of `tcp_connect_host`: an address is a family and an identity.
- The transport of DNS messages (UDP, TCP, DoH) and `answer_ech`, which turns an empty value into an error.
- Environment and file formats: the saved record is a value; a save that cannot be written is not modelled.
- Account API, provisioning, identity files, command line, FFI, Psiphon, Tor, noise and address tables: input and output with little logic of their own.
- Multiplex.DeliveryIsPrefix: stream numbers stop below 2^32 and writes and paddings are at most 65535 bytes, as the frame format requires; a counter that wraps around is not modelled.
- Writer.Session.WriteConn: sizes must be positive or check marks, which `Padding.GenerateSizes` guarantees; a size list from elsewhere is not modelled.
- Tunnel.TunnelDelivers: takes capsules that parse and sizes for which the buffer cannot overflow; `Tunnel.NothingOutOfOrder` and `Tunnel.MalformedStalls` take all capsules.
- Tunnel.PacketsArrive: speaks of packets offered to the queue; `Tunnel.Inbound.Run` says what becomes of them with a consumer.
- Answer.SplitsDoNotMatter: speaks of answers of at most 512 KiB; above that the pieces decide whether the answer is whole before the limit is passed.
- Supervisor.NoThirdRunTooSoon: needs no forced peer and a scan that honours the exclusions it is given; the scan itself is not modelled.
- Netstack.NetStack.ServeEstablished: the bytes received and handed to the application are not modelled; whether there are any is an input of the turn.
- Duplex.BothDirectionsArePrefixes: the server's control frames are any frames but SYN, at any moment; that they are the replies of `Receiver` is not stated.
