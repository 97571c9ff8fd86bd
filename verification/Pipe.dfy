/** The synchronous pipe a stream's data goes through: concurrent readers, writers serialized by a
    lock, a hand-off of the writer's slice and an acknowledgement of how much of it was copied, closes
    from both ends and deadlines. Every step is one channel or lock operation, in any interleaving. */
module Pipe {
  import opened Bytes
  import opened Wrappers

  datatype Error = ClosedPipe | Eof | DeadlineExceeded | Other(code: nat)

  /** A call of `write`: waiting for the lock, offering its slice, waiting for the reader's count, back. */
  datatype Write =
    | Waiting(data: seq<byte>)
    | Offering(data: seq<byte>, n: nat)
    | Handing(data: seq<byte>, n: nat)
    | Wrote(data: seq<byte>, n: nat, err: Option<Error>)

  /** A call of `read`: waiting for a slice, holding a copy it has yet to report, back. */
  datatype Read =
    | Ready(room: nat)
    | Copied(bytes: seq<byte>)
    | Got(bytes: seq<byte>, err: Option<Error>)

  /** One slice received by a reader, and what was copied of it. */
  datatype Handoff = Handoff(writer: nat, reader: nat, bytes: seq<byte>)

  /** `order` lists the writers as they took the lock, `log` the hand-offs as they happened. */
  datatype State = State(
    lock: Option<nat>,
    writers: map<nat, Write>,
    readers: map<nat, Read>,
    order: seq<nat>,
    log: seq<Handoff>,
    rerr: Option<Error>,
    werr: Option<Error>,
    done: bool,
    readExpired: bool,
    writeExpired: bool)

  const START := State(None, map[], map[], [], [], None, None, false, false, false)

  datatype Step =
    | ReadStarts(r: nat, room: nat)
    | ReadRefused(r: nat, late: bool)
    | ReadGivesUp(r: nat, late: bool)
    | WriteStarts(w: nat, data: seq<byte>)
    | WriteRefused(w: nat, data: seq<byte>, late: bool)
    | WriteLocks(w: nat)
    | WriteGivesUp(w: nat, late: bool)
    | HandsOff(w: nat, r: nat)
    | Reports(w: nat, r: nat)
    | StoresReadError(err: Option<Error>)
    | StoresWriteError(err: Option<Error>)
    | ClosesDone
    | ReadDeadline(expired: bool)
    | WriteDeadline(expired: bool)

  // ---- the errors of a closed pipe ----

  function Store(before: Option<Error>, err: Error): (now: Option<Error>) {
    if before == None then Some(err) else before
  }

  function ReadCloseError(s: State): (err: Error) {
    if s.rerr == None && s.werr != None then s.werr.value else ClosedPipe
  }

  function WriteCloseError(s: State): (err: Error) {
    if s.werr == None && s.rerr != None then s.rerr.value else ClosedPipe
  }

  function ReadError(s: State, late: bool): (err: Error) {
    if late then DeadlineExceeded else ReadCloseError(s)
  }

  function WriteError(s: State, late: bool): (err: Error) {
    if late then DeadlineExceeded else WriteCloseError(s)
  }

  // ---- steps ----

  predicate Enabled(s: State, step: Step) {
    match step
    case ReadStarts(r, _) => r !in s.readers && !s.done && !s.readExpired
    case ReadRefused(r, late) => r !in s.readers && (if late then s.readExpired else s.done)
    case ReadGivesUp(r, late) => r in s.readers && s.readers[r].Ready? && (if late then s.readExpired else s.done)
    case WriteStarts(w, _) => w !in s.writers && !s.done && !s.writeExpired
    case WriteRefused(w, _, late) => w !in s.writers && (if late then s.writeExpired else s.done)
    case WriteLocks(w) => w in s.writers && s.writers[w].Waiting? && s.lock == None
    case WriteGivesUp(w, late) => w in s.writers && s.writers[w].Offering? && (if late then s.writeExpired else s.done)
    case HandsOff(w, r) => w in s.writers && s.writers[w].Offering? && r in s.readers && s.readers[r].Ready?
    case Reports(w, r) => w in s.writers && s.writers[w].Handing? && r in s.readers && s.readers[r].Copied?
    case StoresReadError(_) => true
    case StoresWriteError(_) => true
    case ClosesDone => s.rerr != None || s.werr != None
    case ReadDeadline(_) => true
    case WriteDeadline(_) => true
  }

  /** What is left of the data to offer. */
  function Left(data: seq<byte>, n: nat): (slice: seq<byte>) {
    if n <= |data| then data[n..] else []
  }

  /** What a reader with this much room copies of a slice. */
  function Copy(slice: seq<byte>, room: nat): (bytes: seq<byte>)
    ensures bytes <= slice && |bytes| <= room
    ensures |bytes| < room ==> bytes == slice
  {
    if room < |slice| then slice[..room] else slice
  }

  /** The writer after the reader's count: it goes on while something is left. */
  function Reported(data: seq<byte>, n: nat): (w: Write) {
    if n < |data| then Offering(data, n) else Wrote(data, n, None)
  }

  function Do(s: State, step: Step): (s': State)
    requires Enabled(s, step)
  {
    match step
    case ReadStarts(r, room) => s.(readers := s.readers[r := Ready(room)])
    case ReadRefused(r, late) => s.(readers := s.readers[r := Got([], Some(ReadError(s, late)))])
    case ReadGivesUp(r, late) => s.(readers := s.readers[r := Got([], Some(ReadError(s, late)))])
    case WriteStarts(w, data) => s.(writers := s.writers[w := Waiting(data)])
    case WriteRefused(w, data, late) => s.(writers := s.writers[w := Wrote(data, 0, Some(WriteError(s, late)))])
    case WriteLocks(w) => s.(lock := Some(w), order := s.order + [w], writers := s.writers[w := Offering(s.writers[w].data, 0)])
    case WriteGivesUp(w, late) =>
      s.(lock := None, writers := s.writers[w := Wrote(s.writers[w].data, s.writers[w].n, Some(WriteError(s, late)))])
    case HandsOff(w, r) =>
      var bytes := Copy(Left(s.writers[w].data, s.writers[w].n), s.readers[r].room);
      s.(writers := s.writers[w := Handing(s.writers[w].data, s.writers[w].n)],
         readers := s.readers[r := Copied(bytes)],
         log := s.log + [Handoff(w, r, bytes)])
    case Reports(w, r) =>
      var n := s.writers[w].n + |s.readers[r].bytes|;
      s.(lock := if n < |s.writers[w].data| then s.lock else None,
         writers := s.writers[w := Reported(s.writers[w].data, n)],
         readers := s.readers[r := Got(s.readers[r].bytes, None)])
    case StoresReadError(err) => s.(rerr := Store(s.rerr, if err == None then ClosedPipe else err.value))
    case StoresWriteError(err) => s.(werr := Store(s.werr, if err == None then Eof else err.value))
    case ClosesDone => s.(done := true)
    case ReadDeadline(expired) => s.(readExpired := expired)
    case WriteDeadline(expired) => s.(writeExpired := expired)
  }

  // ---- what the log says of one writer, of one reader, of all ----

  function OfWriter(log: seq<Handoff>, w: nat): (slices: seq<seq<byte>>) {
    if log == [] then []
    else
      var slices := OfWriter(log[..|log| - 1], w);
      if log[|log| - 1].writer == w then slices + [log[|log| - 1].bytes] else slices
  }

  function OfReader(log: seq<Handoff>, r: nat): (slices: seq<seq<byte>>) {
    if log == [] then []
    else
      var slices := OfReader(log[..|log| - 1], r);
      if log[|log| - 1].reader == r then slices + [log[|log| - 1].bytes] else slices
  }

  function Joined(slices: seq<seq<byte>>): (bytes: seq<byte>) {
    if slices == [] then [] else Joined(slices[..|slices| - 1]) + slices[|slices| - 1]
  }

  /** All bytes read, in the order of the hand-offs. */
  function Handed(log: seq<Handoff>): (bytes: seq<byte>) {
    if log == [] then [] else Handed(log[..|log| - 1]) + log[|log| - 1].bytes
  }

  /** The bytes taken from each write, the writes in the order they got the lock. */
  function InOrder(order: seq<nat>, log: seq<Handoff>): (bytes: seq<byte>) {
    if order == [] then []
    else InOrder(order[..|order| - 1], log) + Joined(OfWriter(log, order[|order| - 1]))
  }

  lemma Extended(log: seq<Handoff>, h: Handoff, w: nat, r: nat)
    ensures OfWriter(log + [h], w) == if h.writer == w then OfWriter(log, w) + [h.bytes] else OfWriter(log, w)
    ensures OfReader(log + [h], r) == if h.reader == r then OfReader(log, r) + [h.bytes] else OfReader(log, r)
    ensures Handed(log + [h]) == Handed(log) + h.bytes
  {
    assert (log + [h])[..|log|] == log;
  }

  lemma JoinedMore(slices: seq<seq<byte>>, bytes: seq<byte>)
    ensures Joined(slices + [bytes]) == Joined(slices) + bytes
  {
    assert (slices + [bytes])[..|slices|] == slices;
  }

  // ---- invariant ----

  predicate Active(s: State, w: nat) {
    w in s.writers && (s.writers[w].Offering? || s.writers[w].Handing?)
  }

  /** Whoever is between a hand-off and its report is in the last entry of the log. */
  predicate Last(s: State, w: nat, r: nat, bytes: seq<byte>) {
    s.log != [] && s.log[|s.log| - 1] == Handoff(w, r, bytes)
  }

  predicate WriteOk(s: State, w: nat) {
    && (Active(s, w) <==> s.lock == Some(w))
    && (w !in s.writers || s.writers[w].Waiting? ==> OfWriter(s.log, w) == [] && w !in s.order)
    && (w in s.writers && !s.writers[w].Waiting? ==>
      var m := s.writers[w];
      && m.n <= |m.data|
      && (m.Offering? || m.Wrote? ==> Joined(OfWriter(s.log, w)) == m.data[..m.n])
      && (m.Handing? ==>
        && s.log != []
        && var h := s.log[|s.log| - 1];
          && h.writer == w && h.reader in s.readers && s.readers[h.reader] == Copied(h.bytes)
          && m.n + |h.bytes| <= |m.data|
          && Joined(OfWriter(s.log, w)) == m.data[..m.n + |h.bytes|])
      && (m.Wrote? && m.err == None ==> m.n == |m.data| && OfWriter(s.log, w) != []))
  }

  predicate ReadOk(s: State, r: nat) {
    && (r !in s.readers || s.readers[r].Ready? ==> OfReader(s.log, r) == [])
    && (r in s.readers && s.readers[r].Copied? ==>
      && OfReader(s.log, r) == [s.readers[r].bytes]
      && s.lock != None && s.lock.value in s.writers && s.writers[s.lock.value].Handing?
      && Last(s, s.lock.value, r, s.readers[r].bytes))
    && (r in s.readers && s.readers[r].Got? ==> OfReader(s.log, r) == if s.readers[r].err == None then [s.readers[r].bytes] else [])
    && (r in s.readers && s.readers[r].Got? && s.readers[r].err != None ==> s.readers[r].bytes == [])
  }

  predicate OrderOk(s: State) {
    && (forall i, j :: 0 <= i < j < |s.order| ==> s.order[i] != s.order[j])
    && Handed(s.log) == InOrder(s.order, s.log)
    && (s.lock != None ==> s.order != [] && s.order[|s.order| - 1] == s.lock.value)
  }

  ghost predicate Inv(s: State) {
    && (forall w: nat :: WriteOk(s, w))
    && (forall r: nat :: ReadOk(s, r))
    && OrderOk(s)
  }

  // ---- every step keeps it ----

  /** The writer and the reader of a report are the two of the last hand-off. */
  lemma Paired(s: State, w: nat, r: nat)
    requires Inv(s) && Enabled(s, Reports(w, r))
    ensures s.lock == Some(w) && Last(s, w, r, s.readers[r].bytes)
  {
    assert WriteOk(s, w) && ReadOk(s, r);
  }

  lemma CopyExtends(data: seq<byte>, n: nat, room: nat)
    requires n <= |data|
    ensures n + |Copy(Left(data, n), room)| <= |data|
    ensures data[..n] + Copy(Left(data, n), room) == data[..n + |Copy(Left(data, n), room)|]
  {}

  lemma HandsOffKeepsWriter(s: State, w: nat, r: nat)
    requires Enabled(s, HandsOff(w, r)) && WriteOk(s, w)
    ensures WriteOk(Do(s, HandsOff(w, r)), w)
  {
    hide OfWriter, OfReader, Joined, Copy, Left;
    var m := s.writers[w];
    var bytes := Copy(Left(m.data, m.n), s.readers[r].room);
    Extended(s.log, Handoff(w, r, bytes), w, r);
    JoinedMore(OfWriter(s.log, w), bytes);
    CopyExtends(m.data, m.n, s.readers[r].room);
    assert Do(s, HandsOff(w, r)).log == s.log + [Handoff(w, r, bytes)];
  }

  lemma HandsOffKeepsOthers(s: State, w: nat, r: nat, v: nat)
    requires Enabled(s, HandsOff(w, r)) && WriteOk(s, w) && WriteOk(s, v) && v != w
    ensures WriteOk(Do(s, HandsOff(w, r)), v)
  {
    hide OfWriter, OfReader, Joined, Copy, Left;
    Extended(s.log, Handoff(w, r, Copy(Left(s.writers[w].data, s.writers[w].n), s.readers[r].room)), v, r);
  }

  lemma ReportsKeepsWrite(s: State, w: nat, r: nat, v: nat)
    requires Enabled(s, Reports(w, r)) && WriteOk(s, w) && WriteOk(s, v)
    requires s.lock == Some(w) && Last(s, w, r, s.readers[r].bytes)
    ensures WriteOk(Do(s, Reports(w, r)), v)
  {
    hide OfWriter, Joined;
    if v == w {
      LastOfWriter(s.log);
    }
  }

  lemma LastOfWriter(log: seq<Handoff>)
    requires log != []
    ensures OfWriter(log, log[|log| - 1].writer) != []
  {}

  /** The writer that takes the step, or any other when none does. */
  function WriterOf(step: Step, other: nat): (w: nat) {
    match step
    case WriteStarts(w, _) => w
    case WriteRefused(w, _, _) => w
    case WriteLocks(w) => w
    case WriteGivesUp(w, _) => w
    case HandsOff(w, _) => w
    case Reports(w, _) => w
    case _ => other
  }

  /** The steps without a hand-off or a report, as the writer `v` sees them. */
  lemma QuietWrite(s: State, step: Step, v: nat)
    requires Enabled(s, step) && WriteOk(s, v) && WriteOk(s, WriterOf(step, v)) && !step.HandsOff? && !step.Reports?
    ensures WriteOk(Do(s, step), v)
  {
    hide OfWriter, OfReader, InOrder, Handed;
  }

  lemma WriteAfter(s: State, step: Step, v: nat)
    requires Inv(s) && Enabled(s, step)
    ensures WriteOk(Do(s, step), v)
  {
    hide WriteOk, ReadOk, OrderOk, Do;
    assert WriteOk(s, v);
    match step
    case HandsOff(w, r) =>
      assert WriteOk(s, w);
      if v == w {
        HandsOffKeepsWriter(s, w, r);
      } else {
        HandsOffKeepsOthers(s, w, r, v);
      }
    case Reports(w, r) =>
      assert WriteOk(s, w);
      Paired(s, w, r);
      ReportsKeepsWrite(s, w, r, v);
    case _ =>
      assert WriteOk(s, WriterOf(step, v));
      QuietWrite(s, step, v);
  }

  lemma HandsOffKeepsRead(s: State, w: nat, r: nat, q: nat)
    requires Enabled(s, HandsOff(w, r)) && WriteOk(s, w) && ReadOk(s, q) && ReadOk(s, r)
    ensures ReadOk(Do(s, HandsOff(w, r)), q)
  {
    hide OfWriter, OfReader, Joined, Copy, Left;
    Extended(s.log, Handoff(w, r, Copy(Left(s.writers[w].data, s.writers[w].n), s.readers[r].room)), w, q);
  }

  lemma ReportsKeepsRead(s: State, w: nat, r: nat, q: nat)
    requires Enabled(s, Reports(w, r)) && ReadOk(s, q) && ReadOk(s, r)
    requires s.lock == Some(w) && Last(s, w, r, s.readers[r].bytes)
    ensures ReadOk(Do(s, Reports(w, r)), q)
  {
    hide OfReader;
  }

  lemma QuietRead(s: State, step: Step, q: nat)
    requires Enabled(s, step) && ReadOk(s, q) && WriteOk(s, WriterOf(step, q)) && !step.HandsOff? && !step.Reports?
    ensures ReadOk(Do(s, step), q)
  {
    hide OfWriter, OfReader, Joined;
  }

  lemma ReadAfter(s: State, step: Step, q: nat)
    requires Inv(s) && Enabled(s, step)
    ensures ReadOk(Do(s, step), q)
  {
    hide WriteOk, ReadOk, OrderOk, Do;
    assert ReadOk(s, q);
    match step
    case HandsOff(w, r) =>
      assert WriteOk(s, w) && ReadOk(s, r);
      HandsOffKeepsRead(s, w, r, q);
    case Reports(w, r) =>
      assert ReadOk(s, r);
      Paired(s, w, r);
      ReportsKeepsRead(s, w, r, q);
    case _ =>
      assert WriteOk(s, WriterOf(step, q));
      QuietRead(s, step, q);
  }

  /** A hand-off to the last writer in the order adds its bytes at the end of everything. */
  lemma {:induction false} Grown(order: seq<nat>, log: seq<Handoff>, h: Handoff)
    requires h.writer !in order
    ensures InOrder(order, log + [h]) == InOrder(order, log)
  {
    if order != [] {
      Grown(order[..|order| - 1], log, h);
      Extended(log, h, order[|order| - 1], h.reader);
    }
  }

  lemma InOrderLast(order: seq<nat>, log: seq<Handoff>)
    requires order != []
    ensures InOrder(order, log) == InOrder(order[..|order| - 1], log) + Joined(OfWriter(log, order[|order| - 1]))
  {
  }

  lemma OrderGrows(s: State, h: Handoff)
    requires OrderOk(s) && s.lock == Some(h.writer)
    ensures Handed(s.log + [h]) == InOrder(s.order, s.log + [h])
  {
    hide Handed, InOrder, Joined, OfWriter, OfReader;
    var others := s.order[..|s.order| - 1];
    assert h.writer !in others;
    Grown(others, s.log, h);
    Extended(s.log, h, h.writer, h.reader);
    JoinedMore(OfWriter(s.log, h.writer), h.bytes);
    InOrderLast(s.order, s.log);
    InOrderLast(s.order, s.log + [h]);
    Regrouped(InOrder(others, s.log), Joined(OfWriter(s.log, h.writer)), h.bytes);
  }

  lemma Regrouped(a: seq<byte>, b: seq<byte>, c: seq<byte>)
    ensures (a + b) + c == a + (b + c)
  {
  }

  lemma OrderAfter(s: State, step: Step)
    requires Inv(s) && Enabled(s, step)
    ensures OrderOk(Do(s, step))
  {
    hide OfWriter, OfReader, Joined, Handed;
    match step
    case HandsOff(w, r) =>
      assert WriteOk(s, w);
      OrderGrows(s, Handoff(w, r, Copy(Left(s.writers[w].data, s.writers[w].n), s.readers[r].room)));
    case WriteLocks(w) =>
      assert WriteOk(s, w);
      NothingYet(s.order, s.log, w);
    case _ =>
  }

  lemma NothingYet(order: seq<nat>, log: seq<Handoff>, w: nat)
    requires OfWriter(log, w) == []
    ensures InOrder(order + [w], log) == InOrder(order, log)
  {
    assert (order + [w])[..|order|] == order;
  }

  lemma DoKeeps(s: State, step: Step)
    requires Inv(s) && Enabled(s, step)
    ensures Inv(Do(s, step))
  {
    hide WriteOk, ReadOk, OrderOk, Do, Enabled;
    forall w: nat ensures WriteOk(Do(s, step), w) {
      WriteAfter(s, step, w);
    }
    forall r: nat ensures ReadOk(Do(s, step), r) {
      ReadAfter(s, step, r);
    }
    OrderAfter(s, step);
  }

  // ---- every run ----

  function Run(s: State, steps: seq<Step>): (s': State)
    decreases |steps|
  {
    if steps == [] then s
    else if !Enabled(s, steps[0]) then Run(s, steps[1..])
    else Run(Do(s, steps[0]), steps[1..])
  }

  lemma {:induction false} RunKeeps(s: State, steps: seq<Step>)
    requires Inv(s) && ClosingOk(s)
    ensures Inv(Run(s, steps)) && ClosingOk(Run(s, steps))
    decreases |steps|
  {
    hide Inv, ClosingOk, Do, Enabled;
    if steps != [] {
      if Enabled(s, steps[0]) {
        DoKeeps(s, steps[0]);
        ClosingAfter(s, steps[0]);
        RunKeeps(Do(s, steps[0]), steps[1..]);
      } else {
        RunKeeps(s, steps[1..]);
      }
    }
  }

  lemma StartsRight()
    ensures Inv(START) && ClosingOk(START)
  {
    forall w: nat ensures WriteOk(START, w) {}
    forall r: nat ensures ReadOk(START, r) {}
  }

  /** In every interleaving: the bytes read, in hand-off order, are the bytes consumed from the writes, in
      the order the writes got their turn. */
  lemma ReadsAreWrites(steps: seq<Step>)
    ensures
      var s := Run(START, steps);
      && Handed(s.log) == InOrder(s.order, s.log)
      && (forall i, j :: 0 <= i < j < |s.order| ==> s.order[i] != s.order[j])
  {
    StartsRight();
    RunKeeps(START, steps);
  }

  /** A write that is back returned exactly the count consumed from it, what was consumed is the front of
      its data, and there is no error only when all of it was consumed, in at least one hand-off. */
  lemma WriteCountsAreExact(steps: seq<Step>, w: nat)
    ensures
      var s := Run(START, steps);
      w in s.writers && s.writers[w].Wrote? ==>
        && Joined(OfWriter(s.log, w)) <= s.writers[w].data
        && s.writers[w].n == |Joined(OfWriter(s.log, w))|
        && (s.writers[w].err == None ==> Joined(OfWriter(s.log, w)) == s.writers[w].data && OfWriter(s.log, w) != [])
  {
    StartsRight();
    RunKeeps(START, steps);
    assert WriteOk(Run(START, steps), w);
  }

  /** A read that is back received one slice and returned all it copied of it, or failed with nothing
      taken from any write. */
  lemma ReadsAreExact(steps: seq<Step>, r: nat)
    ensures
      var s := Run(START, steps);
      r in s.readers && s.readers[r].Got? ==>
        && (s.readers[r].err == None ==> OfReader(s.log, r) == [s.readers[r].bytes])
        && (s.readers[r].err != None ==> OfReader(s.log, r) == [] && s.readers[r].bytes == [])
  {
    StartsRight();
    RunKeeps(START, steps);
    assert ReadOk(Run(START, steps), r);
  }

  /** Nobody is left waiting for a partner that has gone: whoever has copied a slice can report it to the
      writer that waits for the count, and whoever waits for a count has the reader that will report it. */
  lemma NobodyHangs(steps: seq<Step>, r: nat, w: nat)
    ensures
      var s := Run(START, steps);
      && (r in s.readers && s.readers[r].Copied? ==> s.lock != None && Enabled(s, Reports(s.lock.value, r)))
      && (w in s.writers && s.writers[w].Handing? ==> s.log != [] && Enabled(s, Reports(w, s.log[|s.log| - 1].reader)))
  {
    StartsRight();
    RunKeeps(START, steps);
    assert ReadOk(Run(START, steps), r) && WriteOk(Run(START, steps), w);
  }

  // ---- closing ----

  predicate ReadErrorOk(s: State, r: nat) {
    r in s.readers && s.readers[r].Got? && s.readers[r].err != None && s.readers[r].err.value != DeadlineExceeded && s.rerr == None ==>
      s.readers[r].err == s.werr
  }

  predicate WriteErrorOk(s: State, w: nat) {
    w in s.writers && s.writers[w].Wrote? && s.writers[w].err != None && s.writers[w].err.value != DeadlineExceeded && s.werr == None ==>
      s.writers[w].err == s.rerr
  }

  ghost predicate ClosingOk(s: State) {
    && (s.done ==> s.rerr != None || s.werr != None)
    && (forall r: nat :: ReadErrorOk(s, r))
    && (forall w: nat :: WriteErrorOk(s, w))
  }

  lemma ClosingAfter(s: State, step: Step)
    requires ClosingOk(s) && Enabled(s, step)
    ensures ClosingOk(Do(s, step))
    ensures s.rerr != None ==> Do(s, step).rerr == s.rerr
    ensures s.werr != None ==> Do(s, step).werr == s.werr
  {
    var s' := Do(s, step);
    forall r: nat ensures ReadErrorOk(s', r) {
      assert ReadErrorOk(s, r);
    }
    forall w: nat ensures WriteErrorOk(s', w) {
      assert WriteErrorOk(s, w);
    }
  }

  /** As long as only the writing end was closed, every read refused for it returned the first error the
      writer closed with; and the other way round. */
  lemma CloseErrorsArrive(steps: seq<Step>, r: nat, w: nat)
    ensures
      var s := Run(START, steps);
      && (r in s.readers && s.readers[r].Got? && s.readers[r].err != None && s.rerr == None ==>
        s.readers[r].err == Some(DeadlineExceeded) || s.readers[r].err == s.werr)
      && (w in s.writers && s.writers[w].Wrote? && s.writers[w].err != None && s.werr == None ==>
        s.writers[w].err == Some(DeadlineExceeded) || s.writers[w].err == s.rerr)
  {
    StartsRight();
    RunKeeps(START, steps);
    assert ReadErrorOk(Run(START, steps), r) && WriteErrorOk(Run(START, steps), w);
  }

  /** What the first close of the writing end stores: its error, or the end of the data when it gave none. */
  function FirstWriteClose(steps: seq<Step>): (err: Option<Error>) {
    if steps == [] then None
    else
      var before, last := FirstWriteClose(steps[..|steps| - 1]), steps[|steps| - 1];
      if before == None && last.StoresWriteError? then Some(if last.err == None then Eof else last.err.value) else before
  }

  /** What the first close of the reading end stores: its error, or that the pipe is closed. */
  function FirstReadClose(steps: seq<Step>): (err: Option<Error>) {
    if steps == [] then None
    else
      var before, last := FirstReadClose(steps[..|steps| - 1]), steps[|steps| - 1];
      if before == None && last.StoresReadError? then Some(if last.err == None then ClosedPipe else last.err.value) else before
  }

  lemma {:induction false} RunNext(s: State, steps: seq<Step>, step: Step)
    ensures Run(s, steps + [step]) == var t := Run(s, steps); if Enabled(t, step) then Do(t, step) else t
    decreases |steps|
  {
    hide Do, Enabled;
    if steps == [] {
      assert [step][1..] == [] && steps + [step] == [step];
    } else {
      var all := steps + [step];
      assert all[0] == steps[0] && all[1..] == steps[1..] + [step];
      RunNext(if Enabled(s, steps[0]) then Do(s, steps[0]) else s, steps[1..], step);
    }
  }

  /** In every run each end keeps the error its first close gave. */
  lemma {:induction false} FirstCloseIsKept(steps: seq<Step>)
    ensures Run(START, steps).werr == FirstWriteClose(steps)
    ensures Run(START, steps).rerr == FirstReadClose(steps)
  {
    if steps != [] {
      var before, last := steps[..|steps| - 1], steps[|steps| - 1];
      FirstCloseIsKept(before);
      assert steps == before + [last];
      RunNext(START, before, last);
      StoresOnly(Run(START, before), last);
      hide Run, Do, Enabled;
    }
  }

  lemma StoresOnly(s: State, step: Step)
    ensures step.StoresWriteError? || step.StoresReadError? ==> Enabled(s, step)
    ensures Enabled(s, step) && !step.StoresWriteError? ==> Do(s, step).werr == s.werr
    ensures Enabled(s, step) && !step.StoresReadError? ==> Do(s, step).rerr == s.rerr
    ensures step.StoresWriteError? ==>
      Do(s, step).werr == if s.werr == None then Some(if step.err == None then Eof else step.err.value) else s.werr
    ensures step.StoresReadError? ==>
      Do(s, step).rerr == if s.rerr == None then Some(if step.err == None then ClosedPipe else step.err.value) else s.rerr
  {
  }

  /** An end was closed, and then the pipe. */
  predicate IsClosed(steps: seq<Step>) {
    if steps == [] then false
    else
      var before, last := steps[..|steps| - 1], steps[|steps| - 1];
      IsClosed(before) || (last.ClosesDone? && (FirstWriteClose(before) != None || FirstReadClose(before) != None))
  }

  /** The last change of the deadline let it pass. */
  predicate ReadsExpired(steps: seq<Step>) {
    if steps == [] then false
    else if steps[|steps| - 1].ReadDeadline? then steps[|steps| - 1].expired
    else ReadsExpired(steps[..|steps| - 1])
  }

  predicate WritesExpired(steps: seq<Step>) {
    if steps == [] then false
    else if steps[|steps| - 1].WriteDeadline? then steps[|steps| - 1].expired
    else WritesExpired(steps[..|steps| - 1])
  }

  lemma SwitchesOnly(s: State, step: Step)
    ensures step.ReadDeadline? || step.WriteDeadline? ==> Enabled(s, step)
    ensures step.ClosesDone? ==> (Enabled(s, step) <==> s.rerr != None || s.werr != None)
    ensures Enabled(s, step) ==> Do(s, step).done == (s.done || step.ClosesDone?)
    ensures Enabled(s, step) ==> Do(s, step).readExpired == if step.ReadDeadline? then step.expired else s.readExpired
    ensures Enabled(s, step) ==> Do(s, step).writeExpired == if step.WriteDeadline? then step.expired else s.writeExpired
  {
  }

  lemma {:induction false} SwitchesAre(steps: seq<Step>)
    ensures Run(START, steps).done == IsClosed(steps)
    ensures Run(START, steps).readExpired == ReadsExpired(steps)
    ensures Run(START, steps).writeExpired == WritesExpired(steps)
  {
    if steps != [] {
      var before, last := steps[..|steps| - 1], steps[|steps| - 1];
      SwitchesAre(before);
      FirstCloseIsKept(before);
      assert steps == before + [last];
      RunNext(START, before, last);
      SwitchesOnly(Run(START, before), last);
      hide Run, Do, Enabled, FirstWriteClose, FirstReadClose;
    }
  }

  /** In every run: a call may start exactly while the pipe is open and its deadline has not passed, and a call
      that starts or waits may come back with an error exactly when one of the two is so. */
  lemma WhenCallsEnd(steps: seq<Step>, r: nat, w: nat, room: nat, data: seq<byte>)
    ensures
      var s := Run(START, steps);
      var closed, readLate, writeLate := IsClosed(steps), ReadsExpired(steps), WritesExpired(steps);
      && (r !in s.readers ==>
        && (Enabled(s, ReadStarts(r, room)) <==> !closed && !readLate)
        && (Enabled(s, ReadRefused(r, false)) <==> closed)
        && (Enabled(s, ReadRefused(r, true)) <==> readLate))
      && (r in s.readers && s.readers[r].Ready? ==>
        && (Enabled(s, ReadGivesUp(r, false)) <==> closed)
        && (Enabled(s, ReadGivesUp(r, true)) <==> readLate))
      && (w !in s.writers ==>
        && (Enabled(s, WriteStarts(w, data)) <==> !closed && !writeLate)
        && (Enabled(s, WriteRefused(w, data, false)) <==> closed)
        && (Enabled(s, WriteRefused(w, data, true)) <==> writeLate))
      && (w in s.writers && s.writers[w].Offering? ==>
        && (Enabled(s, WriteGivesUp(w, false)) <==> closed)
        && (Enabled(s, WriteGivesUp(w, true)) <==> writeLate))
  {
    SwitchesAre(steps);
    hide IsClosed, ReadsExpired, WritesExpired, Run;
  }

  /** What a read that meets the closed pipe returns: the error of the writing end if only that end was closed,
      and else that the pipe is closed. */
  function ReadEnds(steps: seq<Step>): (err: Error) {
    if FirstReadClose(steps) == None && FirstWriteClose(steps) != None then FirstWriteClose(steps).value else ClosedPipe
  }

  function WriteEnds(steps: seq<Step>): (err: Error) {
    if FirstWriteClose(steps) == None && FirstReadClose(steps) != None then FirstReadClose(steps).value else ClosedPipe
  }

  /** Which error a call comes back with, whether it was just starting or waiting, and what a write had handed over
      by then. */
  lemma RefusedWith(steps: seq<Step>, r: nat, w: nat, data: seq<byte>, late: bool)
    ensures
      var s := Run(START, steps);
      var readErr := if late then DeadlineExceeded else ReadEnds(steps);
      var writeErr := if late then DeadlineExceeded else WriteEnds(steps);
      && (Enabled(s, ReadRefused(r, late)) ==> Do(s, ReadRefused(r, late)).readers[r] == Got([], Some(readErr)))
      && (Enabled(s, ReadGivesUp(r, late)) ==> Do(s, ReadGivesUp(r, late)).readers[r] == Got([], Some(readErr)))
      && (Enabled(s, WriteRefused(w, data, late)) ==> Do(s, WriteRefused(w, data, late)).writers[w] == Wrote(data, 0, Some(writeErr)))
      && (Enabled(s, WriteGivesUp(w, late)) ==>
        Do(s, WriteGivesUp(w, late)).writers[w] == Wrote(s.writers[w].data, s.writers[w].n, Some(writeErr)))
  {
    FirstCloseIsKept(steps);
    hide FirstWriteClose, FirstReadClose, Run;
  }

  /** A writer that offers and a reader that waits: the reader gets what fits of what is left, and the writer goes on
      behind it, or has written everything. */
  lemma Transfer(s: State, w: nat, r: nat)
    requires w in s.writers && s.writers[w].Offering? && r in s.readers && s.readers[r].Ready?
    requires s.writers[w].n <= |s.writers[w].data|
    ensures
      var t := Run(s, [HandsOff(w, r), Reports(w, r)]);
      var data, n, room := s.writers[w].data, s.writers[w].n, s.readers[r].room;
      var m := if |data| - n <= room then |data| else n + room;
      && r in t.readers && t.readers[r] == Got(data[n..m], None)
      && w in t.writers && t.writers[w] == (if m < |data| then Offering(data, m) else Wrote(data, m, None))
  {
    var s1 := Do(s, HandsOff(w, r));
    assert [HandsOff(w, r), Reports(w, r)][1..] == [Reports(w, r)] && [Reports(w, r)][1..] == [];
    var data, n, room := s.writers[w].data, s.writers[w].n, s.readers[r].room;
    var m := if |data| - n <= room then |data| else n + room;
    assert Copy(Left(data, n), room) == data[n..m];
    assert Run(s1, [Reports(w, r)]) == Do(s1, Reports(w, r));
  }
}
