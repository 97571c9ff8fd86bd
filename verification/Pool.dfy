/** The client's pool of idle sessions: who may use a session when, in every interleaving of callers,
    dying streams and dying sessions, and what the periodic cleanup keeps. */
module Pool {
  import opened Wrappers

  /** A stream's hook puts its session back: it is set after the stream is open, looks whether the
      session is closed, and then inserts. */
  datatype Hook = Unset | Set | Passed | Over

  datatype Stream = Stream(session: nat, dead: bool, hook: Hook)

  datatype State = State(
    counter: nat,
    closed: set<nat>,
    pool: map<nat, int>,
    holders: map<nat, nat>,
    streams: map<nat, Stream>)

  const START := State(0, {}, map[], map[], map[])

  datatype Step =
    | TakeIdle(caller: nat, session: nat)
    | CreateSession(caller: nat)
    | Open(caller: nat, sid: nat)
    | OpenFails(caller: nat)
    | SetHook(sid: nat)
    | StreamDies(sid: nat)
    | HookLooks(sid: nat)
    | HookInserts(sid: nat, now: int)
    | HookCloses(sid: nat)
    | SessionDies(session: nat)
    | SessionLeavesPool(session: nat)
    | Cleanup(kept: map<nat, int>)

  predicate Newest(pool: map<nat, int>, n: nat) {
    n in pool && forall m :: m in pool ==> m <= n
  }

  predicate Enabled(s: State, step: Step) {
    match step
    case TakeIdle(c, n) => c !in s.holders && Newest(s.pool, n)
    case CreateSession(c) => c !in s.holders
    case Open(c, sid) => c in s.holders && sid !in s.streams
    case OpenFails(c) => c in s.holders
    case SetHook(sid) => sid in s.streams && s.streams[sid].hook == Unset
    case StreamDies(sid) => sid in s.streams
    case HookLooks(sid) => sid in s.streams && s.streams[sid].dead && (s.streams[sid].hook == Set || s.streams[sid].hook == Unset)
    case HookInserts(sid, _) => sid in s.streams && s.streams[sid].hook == Passed
    case HookCloses(sid) => sid in s.streams && s.streams[sid].hook == Passed
    case SessionDies(n) => n <= s.counter
    case SessionLeavesPool(n) => n in s.closed
    case Cleanup(kept) => kept.Keys <= s.pool.Keys
  }

  function HookTo(s: State, sid: nat, hook: Hook): (streams: map<nat, Stream>)
    requires sid in s.streams
  {
    s.streams[sid := s.streams[sid].(hook := hook)]
  }

  function Do(s: State, step: Step): (s': State)
    requires Enabled(s, step)
  {
    match step
    case TakeIdle(c, n) => s.(pool := s.pool - {n}, holders := s.holders[c := n])
    case CreateSession(c) => s.(counter := s.counter + 1, holders := s.holders[c := s.counter + 1])
    case Open(c, sid) => s.(holders := s.holders - {c}, streams := s.streams[sid := Stream(s.holders[c], false, Unset)])
    case OpenFails(c) => s.(holders := s.holders - {c}, closed := s.closed + {s.holders[c]})
    case SetHook(sid) => s.(streams := HookTo(s, sid, Set))
    case StreamDies(sid) => s.(streams := s.streams[sid := s.streams[sid].(dead := true)])
    case HookLooks(sid) =>
      s.(streams := HookTo(s, sid, if s.streams[sid].hook == Set && s.streams[sid].session !in s.closed then Passed else Over))
    case HookInserts(sid, now) => s.(streams := HookTo(s, sid, Over), pool := s.pool[s.streams[sid].session := now])
    case HookCloses(sid) => s.(streams := HookTo(s, sid, Over), closed := s.closed + {s.streams[sid].session})
    case SessionDies(n) => s.(closed := s.closed + {n})
    case SessionLeavesPool(n) => s.(pool := s.pool - {n})
    case Cleanup(kept) => s.(pool := kept)
  }

  // ---- one user at a time ----

  /** Whoever may use a session: the pool, a caller about to open a stream on it, or a stream whose
      hook has yet to give it back. */
  datatype Owner = Pooled | Caller(caller: nat) | Carried(sid: nat)

  predicate Owns(s: State, o: Owner, n: nat) {
    match o
    case Pooled => n in s.pool
    case Caller(c) => c in s.holders && s.holders[c] == n
    case Carried(sid) => sid in s.streams && s.streams[sid].session == n && s.streams[sid].hook != Over
  }

  ghost predicate Exclusive(s: State, n: nat) {
    && (forall o :: Owns(s, o, n) ==> n <= s.counter)
    && (forall o, p :: Owns(s, o, n) && Owns(s, p, n) ==> o == p)
  }

  predicate Mortal(s: State, sid: nat) {
    sid in s.streams && (s.streams[sid].hook == Passed || s.streams[sid].hook == Over) ==> s.streams[sid].dead
  }

  ghost predicate Inv(s: State) {
    && (forall n: nat :: Exclusive(s, n))
    && (forall sid: nat :: Mortal(s, sid))
  }

  /** From whom the step handed the session over. */
  function Giver(step: Step, o: Owner): (p: Owner) {
    match step
    case TakeIdle(c, _) => if o == Caller(c) then Pooled else o
    case Open(c, sid) => if o == Carried(sid) then Caller(c) else o
    case HookInserts(sid, _) => if o == Pooled then Carried(sid) else o
    case _ => o
  }

  /** An owner after a step already owned the session, was handed it, or just created it. */
  lemma OwnedBefore(s: State, step: Step, o: Owner, n: nat)
    requires Enabled(s, step) && Owns(Do(s, step), o, n)
    ensures Owns(s, Giver(step, o), n) || Owns(s, o, n) || (step.CreateSession? && n == s.counter + 1)
    ensures !Owns(s, o, n) && !step.CreateSession? ==> o != Giver(step, o) && !Owns(Do(s, step), Giver(step, o), n)
    ensures !Owns(s, o, n) && step.CreateSession? ==> o == Caller(step.caller)
  {}

  lemma ExclusiveAfter(s: State, step: Step, n: nat)
    requires Enabled(s, step) && Exclusive(s, n)
    requires step.CreateSession? ==> Exclusive(s, s.counter + 1)
    ensures Exclusive(Do(s, step), n)
  {
    var s' := Do(s, step);
    forall o | Owns(s', o, n) ensures n <= s'.counter {
      OwnedBefore(s, step, o, n);
    }
    forall o, p | Owns(s', o, n) && Owns(s', p, n) ensures o == p {
      OwnedBefore(s, step, o, n);
      OwnedBefore(s, step, p, n);
    }
  }

  lemma DoKeeps(s: State, step: Step)
    requires Inv(s) && Enabled(s, step)
    ensures Inv(Do(s, step))
  {
    var s' := Do(s, step);
    forall n: nat ensures Exclusive(s', n) {
      assert Exclusive(s, n);
      ExclusiveAfter(s, step, n);
    }
    forall sid: nat ensures Mortal(s', sid) {
      assert Mortal(s, sid);
    }
  }

  function Run(s: State, steps: seq<Step>): (s': State)
    decreases |steps|
  {
    if steps == [] then s
    else if !Enabled(s, steps[0]) then Run(s, steps[1..])
    else Run(Do(s, steps[0]), steps[1..])
  }

  lemma {:induction false} RunKeeps(s: State, steps: seq<Step>)
    requires Inv(s)
    ensures Inv(Run(s, steps))
    decreases |steps|
  {
    hide Inv, Do, Enabled;
    if steps != [] {
      if Enabled(s, steps[0]) {
        DoKeeps(s, steps[0]);
        RunKeeps(Do(s, steps[0]), steps[1..]);
      } else {
        RunKeeps(s, steps[1..]);
      }
    }
  }

  /** In every interleaving: a pooled session carries no live stream, and no session carries two. */
  lemma OneStreamAtATime(steps: seq<Step>, a: nat, b: nat)
    ensures
      var s := Run(START, steps);
      a in s.streams && !s.streams[a].dead ==>
        && s.streams[a].session !in s.pool
        && (b in s.streams && !s.streams[b].dead && s.streams[b].session == s.streams[a].session ==> a == b)
  {
    forall n: nat ensures Exclusive(START, n) {}
    assert Inv(START);
    RunKeeps(START, steps);
    var s := Run(START, steps);
    hide Run;
    assert Mortal(s, a) && Mortal(s, b);
    if a in s.streams && !s.streams[a].dead {
      var n := s.streams[a].session;
      assert Exclusive(s, n) && Owns(s, Carried(a), n);
      assert b in s.streams && !s.streams[b].dead && s.streams[b].session == n ==> Owns(s, Carried(b), n);
      assert n in s.pool ==> Owns(s, Pooled, n);
    }
  }

  // ---- where the sessions go ----

  function After(s: State, step: Step): (s': State) {
    if Enabled(s, step) then Do(s, step) else s
  }

  /** The session dies, no stream could be opened on it, or its stream's hook found the client closed. */
  predicate Closing(s: State, step: Step, n: nat) {
    && Enabled(s, step)
    && match step
       case SessionDies(m) => m == n
       case OpenFails(c) => s.holders[c] == n
       case HookCloses(sid) => s.streams[sid].session == n
       case _ => false
  }

  /** The cleanup takes the session out, or its stream died before the hook was set. */
  predicate LettingGo(s: State, step: Step, n: nat) {
    && Enabled(s, step)
    && match step
       case Cleanup(kept) => n in s.pool && n !in kept
       case HookLooks(sid) => s.streams[sid].session == n && s.streams[sid].hook == Unset
       case _ => false
  }

  predicate EverClosed(s: State, steps: seq<Step>, n: nat)
    decreases |steps|
  {
    steps != [] && (Closing(s, steps[0], n) || EverClosed(After(s, steps[0]), steps[1..], n))
  }

  predicate EverLetGo(s: State, steps: seq<Step>, n: nat)
    decreases |steps|
  {
    steps != [] && (LettingGo(s, steps[0], n) || EverLetGo(After(s, steps[0]), steps[1..], n))
  }

  lemma ClosedAfter(s: State, step: Step, n: nat)
    ensures n in After(s, step).closed <==> n in s.closed || Closing(s, step, n)
  {
  }

  /** A session is closed exactly when it died, failed to open a stream, or was given back to a closed client. */
  lemma {:induction false} ClosedIs(s: State, steps: seq<Step>, n: nat)
    ensures n in Run(s, steps).closed <==> n in s.closed || EverClosed(s, steps, n)
    decreases |steps|
  {
    hide Enabled, Do, Closing;
    if steps != [] {
      ClosedAfter(s, steps[0], n);
      ClosedIs(After(s, steps[0]), steps[1..], n);
    }
  }

  ghost predicate Accounted(s: State, n: nat) {
    n in s.closed || exists o :: Owns(s, o, n)
  }

  /** To whom the step hands the session over. */
  function Taker(step: Step, o: Owner): (p: Owner) {
    match step
    case TakeIdle(c, _) => if o == Pooled then Caller(c) else o
    case Open(c, sid) => if o == Caller(c) then Carried(sid) else o
    case HookInserts(sid, _) => if o == Carried(sid) then Pooled else o
    case _ => o
  }

  lemma OwnedAfter(s: State, step: Step, o: Owner, n: nat)
    requires Enabled(s, step) && Owns(s, o, n) && n !in Do(s, step).closed && !LettingGo(s, step, n)
    ensures Owns(Do(s, step), o, n) || Owns(Do(s, step), Taker(step, o), n)
  {
  }

  lemma AccountedAfter(s: State, step: Step, n: nat)
    requires Accounted(s, n) || s.counter < n
    ensures var s' := After(s, step); Accounted(s', n) || LettingGo(s, step, n) || s'.counter < n
  {
    var s' := After(s, step);
    if Enabled(s, step) {
      if n in s.closed {
        assert n in s'.closed;
      } else if o :| Owns(s, o, n) {
        if n !in s'.closed && !LettingGo(s, step, n) {
          OwnedAfter(s, step, o, n);
        }
      } else if step.CreateSession? && n == s.counter + 1 {
        assert Owns(s', Caller(step.caller), n);
      }
    }
  }

  lemma {:induction false} AccountedOn(s: State, steps: seq<Step>, n: nat)
    requires Accounted(s, n) || s.counter < n
    ensures Accounted(Run(s, steps), n) || EverLetGo(s, steps, n) || Run(s, steps).counter < n
    decreases |steps|
  {
    hide Enabled, Do, Accounted, LettingGo;
    if steps != [] {
      AccountedAfter(s, steps[0], n);
      if !LettingGo(s, steps[0], n) {
        AccountedOn(After(s, steps[0]), steps[1..], n);
      }
    }
  }

  /** In every interleaving no session is lost: one that was created is closed, pooled, held by a caller, carried
      by a stream that has yet to give it back, or was let go by the cleanup or by a hook that came too late. */
  lemma NothingIsLost(steps: seq<Step>, n: nat)
    requires 1 <= n <= Run(START, steps).counter
    ensures EverClosed(START, steps, n) || EverLetGo(START, steps, n) || exists o :: Owns(Run(START, steps), o, n)
  {
    AccountedOn(START, steps, n);
    ClosedIs(START, steps, n);
  }

  /** Closed, not pooled, and no hook is past its look at it. */
  predicate Discarded(s: State, n: nat) {
    && n in s.closed && n !in s.pool
    && forall sid :: sid in s.streams && s.streams[sid].session == n ==> s.streams[sid].hook != Passed
  }

  lemma DiscardedAfter(s: State, step: Step, n: nat)
    requires Discarded(s, n)
    ensures Discarded(After(s, step), n)
  {
  }

  /** A session that is closed before its stream's hook looks at it never comes back to the pool. */
  lemma {:induction false} ClosedStaysOut(s: State, steps: seq<Step>, n: nat)
    requires Discarded(s, n)
    ensures n !in Run(s, steps).pool
    decreases |steps|
  {
    hide Enabled, Do;
    if steps != [] {
      DiscardedAfter(s, steps[0], n);
      ClosedStaysOut(After(s, steps[0]), steps[1..], n);
    }
  }

  lemma RunOne(s: State, step: Step, steps: seq<Step>)
    requires Enabled(s, step)
    ensures Run(s, [step] + steps) == Run(Do(s, step), steps)
  {
    assert ([step] + steps)[1..] == steps;
  }

  lemma RunThree(s: State, s1: State, s2: State, a: Step, b: Step, c: Step)
    requires Enabled(s, a) && s1 == Do(s, a) && Enabled(s1, b) && s2 == Do(s1, b) && Enabled(s2, c)
    ensures Run(s, [a, b, c]) == Do(s2, c)
  {
    hide Enabled, Do;
    RunOne(s, a, [b, c]);
    RunOne(s1, b, [c]);
    RunOne(s2, c, []);
    assert [a] + [b, c] == [a, b, c] && [b] + [c] == [b, c] && [c] + [] == [c];
  }

  /** A stream that ends on an open session gives it back, idle since that moment, and a caller that finds it the
      newest gets it again. */
  lemma SessionIsReused(s: State, sid: nat, now: int, c: nat)
    requires sid in s.streams && s.streams[sid].hook == Set && s.streams[sid].session !in s.closed && c !in s.holders
    ensures
      var n := s.streams[sid].session;
      var back := Run(s, [StreamDies(sid), HookLooks(sid), HookInserts(sid, now)]);
      && back.pool == s.pool[n := now] && back.holders == s.holders && back.closed == s.closed
      && ((forall m :: m in s.pool ==> m <= n) ==>
        var again := Run(back, [TakeIdle(c, n)]);
        c in again.holders && again.holders[c] == n && again.pool == s.pool - {n})
  {
    var n := s.streams[sid].session;
    var s1 := Do(s, StreamDies(sid));
    var s2 := Do(s1, HookLooks(sid));
    var s3 := Do(s2, HookInserts(sid, now));
    RunThree(s, s1, s2, StreamDies(sid), HookLooks(sid), HookInserts(sid, now));
    if forall m :: m in s.pool ==> m <= n {
      assert Newest(s3.pool, n);
      RunOne(s3, TakeIdle(c, n), []);
      assert [TakeIdle(c, n)] + [] == [TakeIdle(c, n)];
      assert s.pool[n := now] - {n} == s.pool - {n};
    }
  }

  /** A caller that opens a stream has it carried by the session it holds, alive and not yet to be given back. */
  lemma StreamIsCarried(s: State, c: nat, sid: nat)
    requires c !in s.holders && sid !in s.streams
    ensures
      var t := Run(s, [CreateSession(c), Open(c, sid), SetHook(sid)]);
      && sid in t.streams && t.streams[sid] == Stream(s.counter + 1, false, Set)
      && t.holders == s.holders && t.pool == s.pool && t.counter == s.counter + 1
  {
    var s1 := Do(s, CreateSession(c));
    var s2 := Do(s1, Open(c, sid));
    RunThree(s, s1, s2, CreateSession(c), Open(c, sid), SetHook(sid));
    assert s1.holders - {c} == s.holders;
  }

  // ---- cleanup ----

  /** A pooled session, and when it was put there. */
  datatype Idle = Idle(session: nat, since: int)

  predicate Fresh(e: Idle, expiry: int) {
    e.since >= expiry
  }

  /** How many of the pool's entries, newest first, the cleanup keeps. */
  function Count(pool: seq<Idle>, expiry: int, min: int): (n: nat)
    ensures n <= |pool|
  {
    if pool == [] then 0
    else
      var n := Count(pool[..|pool| - 1], expiry, min);
      if Fresh(pool[|pool| - 1], expiry) || n < min then n + 1 else n
  }

  /** An entry is closed exactly when it is stale and enough were kept before it. */
  predicate Closes(pool: seq<Idle>, expiry: int, min: int, i: nat)
    requires i < |pool|
  {
    !Fresh(pool[i], expiry) && Count(pool[..i], expiry, min) >= min
  }

  function Refreshed(e: Idle, expiry: int, now: int): (e': Idle)
  {
    if Fresh(e, expiry) then e else e.(since := now)
  }

  function Kept(pool: seq<Idle>, expiry: int, min: int, now: int): (kept: seq<Idle>)
    ensures |kept| == Count(pool, expiry, min)
  {
    if pool == [] then []
    else
      var i := |pool| - 1;
      var kept := Kept(pool[..i], expiry, min, now);
      if Closes(pool, expiry, min, i) then kept else kept + [Refreshed(pool[i], expiry, now)]
  }

  function Closed(pool: seq<Idle>, expiry: int, min: int): (closed: seq<nat>)
    ensures |closed| == |pool| - Count(pool, expiry, min)
  {
    if pool == [] then []
    else
      var i := |pool| - 1;
      var closed := Closed(pool[..i], expiry, min);
      if Closes(pool, expiry, min, i) then closed + [pool[i].session] else closed
  }

  /** At least the minimum survive, unless nothing was closed; with a timeout that is not negative no
      survivor is stale any more. */
  lemma {:induction false} CleanupKeepsEnough(pool: seq<Idle>, expiry: int, min: int, now: int)
    ensures |Kept(pool, expiry, min, now)| >= min || Closed(pool, expiry, min) == []
    ensures expiry <= now ==> forall e :: e in Kept(pool, expiry, min, now) ==> Fresh(e, expiry)
  {
    if pool != [] {
      CleanupKeepsEnough(pool[..|pool| - 1], expiry, min, now);
    }
  }

  /** The pool's list runs from the newest session to the oldest. */
  predicate NewestFirst(pool: seq<Idle>) {
    forall i, j :: 0 <= i < j < |pool| ==> pool[i].session > pool[j].session
  }

  lemma SameVerdict(pool: seq<Idle>, expiry: int, min: int, i: nat, last: nat)
    requires i < last <= |pool|
    ensures Closes(pool[..last], expiry, min, i) <==> Closes(pool, expiry, min, i)
  {
    assert pool[..last][..i] == pool[..i];
  }

  /** Nobody is lost and nobody is both kept and closed: a pooled session is closed exactly when it is
      stale and the minimum was reached by the sessions newer than it. */
  lemma {:induction false} CleanupPartitions(pool: seq<Idle>, expiry: int, min: int, now: int, i: nat)
    requires NewestFirst(pool) && i < |pool|
    ensures pool[i].session in Closed(pool, expiry, min) <==> Closes(pool, expiry, min, i)
    ensures (exists e :: e in Kept(pool, expiry, min, now) && e.session == pool[i].session) <==> !Closes(pool, expiry, min, i)
    ensures Refreshed(pool[i], expiry, now) in Kept(pool, expiry, min, now) <==> !Closes(pool, expiry, min, i)
  {
    hide Closes, Fresh;
    var last := |pool| - 1;
    var before := pool[..last];
    if i < last {
      SameVerdict(pool, expiry, min, i, last);
      CleanupPartitions(before, expiry, min, now, i);
    } else {
      NotAmong(before, expiry, min, now, pool[last].session);
    }
  }

  lemma {:induction false} NotAmong(pool: seq<Idle>, expiry: int, min: int, now: int, session: nat)
    requires forall i :: 0 <= i < |pool| ==> pool[i].session != session
    ensures session !in Closed(pool, expiry, min)
    ensures forall e :: e in Kept(pool, expiry, min, now) ==> e.session != session
  {
    if pool != [] {
      NotAmong(pool[..|pool| - 1], expiry, min, now, session);
    }
  }

  lemma {:induction false} KeptAmong(pool: seq<Idle>, expiry: int, min: int, now: int, bound: nat)
    requires NewestFirst(pool)
    requires forall i :: 0 <= i < |pool| ==> pool[i].session > bound
    ensures NewestFirst(Kept(pool, expiry, min, now))
    ensures forall i :: 0 <= i < Count(pool, expiry, min) ==> Kept(pool, expiry, min, now)[i].session > bound
  {
    if pool != [] {
      var i := |pool| - 1;
      KeptAmong(pool[..i], expiry, min, now, pool[i].session);
    }
  }

  lemma KeptIsOrdered(pool: seq<Idle>, expiry: int, min: int, now: int)
    requires NewestFirst(pool)
    ensures NewestFirst(Kept(pool, expiry, min, now))
  {
    if pool != [] {
      var i := |pool| - 1;
      KeptAmong(pool[..i], expiry, min, now, pool[i].session);
    }
  }

  // ---- the list itself ----

  /** The list as the map the steps above speak of. */
  function View(pool: seq<Idle>): (view: map<nat, int>) {
    if pool == [] then map[] else View(pool[1..])[pool[0].session := pool[0].since]
  }

  lemma {:induction false} InView(pool: seq<Idle>, i: nat)
    requires i < |pool|
    ensures pool[i].session in View(pool)
  {
    if i > 0 {
      InView(pool[1..], i - 1);
    }
  }

  lemma {:induction false} FromView(pool: seq<Idle>, n: nat) returns (i: nat)
    requires n in View(pool)
    ensures i < |pool| && pool[i].session == n
  {
    if pool[0].session == n {
      return 0;
    }
    i := FromView(pool[1..], n);
    i := i + 1;
  }

  lemma Uncons(pool: seq<Idle>)
    requires NewestFirst(pool) && pool != []
    ensures NewestFirst(pool[1..])
    ensures forall n :: n in View(pool[1..]) ==> n < pool[0].session
  {
    forall n | n in View(pool[1..]) ensures n < pool[0].session {
      var i := FromView(pool[1..], n);
      assert pool[i + 1].session == n;
    }
  }

  lemma Cons(pool: seq<Idle>)
    requires pool != [] && NewestFirst(pool[1..])
    requires forall n :: n in View(pool[1..]) ==> n < pool[0].session
    ensures NewestFirst(pool)
  {
    var rest := pool[1..];
    forall i | 0 <= i < |rest| ensures rest[i].session < pool[0].session {
      InView(rest, i);
    }
    forall i, j | 0 <= i < j < |pool| ensures pool[i].session > pool[j].session {
      assert pool[j] == rest[j - 1];
      assert i > 0 ==> pool[i] == rest[i - 1];
    }
  }

  lemma PutAndRemove(m: map<nat, int>, n: nat, since: int)
    requires n !in m
    ensures m[n := since] - {n} == m
  {}

  lemma RemoveAndPut(m: map<nat, int>, n: nat, k: nat, since: int)
    requires n != k
    ensures (m - {n})[k := since] == m[k := since] - {n}
  {}

  lemma {:induction false} ViewWithout(pool: seq<Idle>, i: nat)
    requires NewestFirst(pool) && i < |pool|
    ensures NewestFirst(pool[..i] + pool[i + 1..])
    ensures View(pool[..i] + pool[i + 1..]) == View(pool) - {pool[i].session}
    decreases i
  {
    hide NewestFirst;
    var rest, tail, n := pool[..i] + pool[i + 1..], pool[1..], pool[i].session;
    Uncons(pool);
    if i == 0 {
      assert rest == tail;
      PutAndRemove(View(tail), n, pool[0].since);
    } else {
      ViewWithout(tail, i - 1);
      InView(tail, i - 1);
      assert rest[1..] == tail[..i - 1] + tail[i..];
      RemoveAndPut(View(tail), n, pool[0].session, pool[0].since);
      Cons(rest);
    }
  }

  lemma {:induction false} ViewWith(pool: seq<Idle>, i: nat, e: Idle)
    requires NewestFirst(pool) && i <= |pool| && e.session !in View(pool)
    requires forall k :: 0 <= k < i ==> pool[k].session > e.session
    requires i < |pool| ==> pool[i].session <= e.session
    ensures NewestFirst(pool[..i] + [e] + pool[i..])
    ensures View(pool[..i] + [e] + pool[i..]) == View(pool)[e.session := e.since]
    decreases i
  {
    hide NewestFirst;
    var more := pool[..i] + [e] + pool[i..];
    if pool != [] {
      Uncons(pool);
    }
    if i == 0 {
      assert more[1..] == pool;
    } else {
      ViewWith(pool[1..], i - 1, e);
      assert more[1..] == pool[1..][..i - 1] + [e] + pool[1..][i - 1..];
    }
    Cons(more);
  }

  lemma FirstIsNewest(pool: seq<Idle>)
    requires NewestFirst(pool) && pool != []
    ensures Newest(View(pool), pool[0].session)
  {
    Uncons(pool);
  }

  lemma NotInView(pool: seq<Idle>, i: nat, n: nat)
    requires NewestFirst(pool) && i <= |pool| && (i < |pool| ==> pool[i].session < n)
    requires forall k :: 0 <= k < i ==> pool[k].session > n
    ensures n !in View(pool)
  {
    if n in View(pool) {
      var k := FromView(pool, n);
    }
  }

  lemma KeptInView(pool: seq<Idle>, expiry: int, min: int, now: int, n: nat)
    requires n !in View(pool)
    ensures n !in View(Kept(pool, expiry, min, now))
  {
    forall i | 0 <= i < |pool| ensures pool[i].session != n {
      InView(pool, i);
    }
    NotAmong(pool, expiry, min, now, n);
    var kept := Kept(pool, expiry, min, now);
    if n in View(kept) {
      var k := FromView(kept, n);
    }
  }

  class IdleSessions {
    var list: seq<Idle>

    constructor ()
      ensures list == []
    {
      list := [];
    }

    /** The first place whose session is not newer than `n`. */
    method Seek(n: nat) returns (i: nat)
      ensures i <= |list|
      ensures forall k :: 0 <= k < i ==> list[k].session > n
      ensures i < |list| ==> list[i].session <= n
    {
      i := 0;
      while i < |list| && list[i].session > n
        invariant i <= |list|
        invariant forall k :: 0 <= k < i ==> list[k].session > n
      {
        i := i + 1;
      }
    }

    /** Takes the newest idle session, if there is one. */
    method GetIdle() returns (idle: Option<nat>)
      requires NewestFirst(list)
      modifies this
      ensures NewestFirst(list)
      ensures idle == None <==> old(View(list)) == map[]
      ensures idle == None ==> list == old(list)
      ensures idle != None ==> Newest(old(View(list)), idle.value) && View(list) == old(View(list)) - {idle.value}
    {
      hide NewestFirst;
      if list == [] {
        return None;
      }
      FirstIsNewest(list);
      ViewWithout(list, 0);
      idle := Some(list[0].session);
      list := list[..0] + list[1..];
    }

    method Remove(n: nat)
      requires NewestFirst(list)
      modifies this
      ensures NewestFirst(list)
      ensures View(list) == old(View(list)) - {n}
    {
      hide View, NewestFirst;
      var i := Seek(n);
      if i < |list| && list[i].session == n {
        ViewWithout(list, i);
        list := list[..i] + list[i + 1..];
      } else {
        NotInView(list, i, n);
      }
    }

    /** Puts a session back; a session that is there already only gets the new time. */
    method Put(n: nat, now: int)
      requires NewestFirst(list)
      modifies this
      ensures NewestFirst(list)
      ensures View(list) == old(View(list))[n := now]
    {
      hide View, NewestFirst;
      Remove(n);
      var i := Seek(n);
      ViewWith(list, i, Idle(n, now));
      list := list[..i] + [Idle(n, now)] + list[i..];
    }

    /** The entries from the newest, one at a time: fresh ones stay, stale ones stay refreshed while fewer
        than the minimum were kept, and the rest leave the list to be closed. */
    method Cleanup(expiry: int, min: int, now: int) returns (closed: seq<nat>)
      requires NewestFirst(list)
      modifies this
      ensures NewestFirst(list)
      ensures list == Kept(old(list), expiry, min, now)
      ensures closed == Closed(old(list), expiry, min)
      ensures View(list).Keys <= old(View(list)).Keys
    {
      var pool := list;
      closed := [];
      var kept, active, i := [], 0, 0;
      assert pool[..0] == [];
      while i < |pool|
        invariant 0 <= i <= |pool|
        invariant active == |kept|
        invariant kept == Kept(pool[..i], expiry, min, now)
        invariant closed == Closed(pool[..i], expiry, min)
      {
        var e := pool[i];
        assert pool[..i + 1][..i] == pool[..i];
        if Fresh(e, expiry) {
          active := active + 1;
          kept := kept + [e];
        } else if active < min {
          active := active + 1;
          kept := kept + [e.(since := now)];
        } else {
          closed := closed + [e.session];
        }
        i := i + 1;
      }
      assert pool[..|pool|] == pool;
      KeptIsOrdered(pool, expiry, min, now);
      list := kept;
      forall n | n in View(list) ensures n in View(pool) {
        if n !in View(pool) {
          KeptInView(pool, expiry, min, now, n);
        }
      }
    }
  }
}
