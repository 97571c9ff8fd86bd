/** Opening streams on a session while it closes, step by step as the locks allow: any number of callers
    open and close streams, the peer ends them, and the session dies once and sweeps its table. */
module Lifecycle {
  import opened Wrappers

  /** Where a call of `OpenStream` is: it has checked the session and taken a number, has sent its SYN,
      or has returned. */
  datatype Opener = Checked(sid: nat) | Sent(sid: nat) | Returned(sid: nat) | Failed

  /** Where a call that closes a stream is: on its way to the stream's once-only death, back from it as the
      one that brought it about or as one that came too late, or past the hook. `fin` is whether it handles
      the peer's FIN, which has taken the stream out of the table. */
  datatype Closer = Entered(sid: nat, fin: bool) | Won(sid: nat) | Lost(sid: nat) | Done(sid: nat)

  /** The sweep holds the table's lock from its beginning to its end and closes one stream after another. */
  datatype Sweep = NotYet | Sweeping(left: set<nat>, hook: Option<nat>) | Swept

  /** `wins` counts the calls that found the stream alive and killed it, `calls` those of its hook. */
  datatype Stream = Stream(dead: bool, hookSet: bool, wins: nat, calls: nat)

  datatype State = State(
    die: bool,
    sweep: Sweep,
    counter: nat,
    table: set<nat>,
    streams: map<nat, Stream>,
    openers: map<nat, Opener>,
    closers: map<nat, Closer>)

  datatype Step =
    | Check(caller: nat)
    | SendSyn(caller: nat, ok: bool)
    | Register(caller: nat)
    | SetHook(sid: nat)
    | Close(closer: nat, sid: nat)
    | RemoteFin(closer: nat, sid: nat)
    | Kill(closer: nat)
    | CallHook(closer: nat)
    | Forget(closer: nat)
    | Die
    | SweepBegins
    | SweepKills(sid: nat)
    | SweepCallsHook
    | SweepEnds

  const START := State(false, NotYet, 0, {}, map[], map[], map[])

  // ---- one stream ----

  /** `dieOnce`: the first to come kills the stream, all others find it dead. */
  function Killed(st: Stream): (st': Stream)
  {
    st.(dead := true, wins := if st.dead then st.wins else st.wins + 1)
  }

  /** The hook is called when there is one, and then taken away. */
  function Hooked(st: Stream): (st': Stream)
  {
    st.(hookSet := false, calls := if st.hookSet then st.calls + 1 else st.calls)
  }

  // ---- steps ----

  predicate Unlocked(s: State) {
    !s.sweep.Sweeping?
  }

  predicate Enabled(s: State, step: Step) {
    match step
    case Check(c) => c !in s.openers
    case SendSyn(c, _) => c in s.openers && s.openers[c].Checked?
    case Register(c) => c in s.openers && s.openers[c].Sent? && Unlocked(s)
    case SetHook(sid) => sid in s.streams
    case Close(k, sid) => k !in s.closers && sid in s.streams
    case RemoteFin(k, sid) => k !in s.closers && sid in s.table && sid in s.streams && Unlocked(s)
    case Kill(k) => k in s.closers && s.closers[k].Entered? && s.closers[k].sid in s.streams
    case CallHook(k) => k in s.closers && s.closers[k].Won? && s.closers[k].sid in s.streams
    case Forget(k) => k in s.closers && s.closers[k].Won? && Unlocked(s)
    case Die => !s.die
    case SweepBegins => s.die && s.sweep.NotYet?
    case SweepKills(sid) => s.sweep.Sweeping? && s.sweep.hook == None && sid in s.sweep.left && sid in s.streams
    case SweepCallsHook => s.sweep.Sweeping? && s.sweep.hook != None && s.sweep.hook.value in s.streams
    case SweepEnds => s.sweep.Sweeping? && s.sweep.hook == None && s.sweep.left == {}
  }

  function Do(s: State, step: Step): (s': State)
    requires Enabled(s, step)
  {
    match step
    case Check(c) =>
      s.(counter := if s.die then s.counter else s.counter + 1,
         openers := s.openers[c := if s.die then Failed else Checked(s.counter + 1)])
    case SendSyn(c, ok) =>
      s.(openers := s.openers[c := if ok then Sent(s.openers[c].sid) else Failed])
    case Register(c) =>
      var sid := s.openers[c].sid;
      s.(openers := s.openers[c := if s.die then Failed else Returned(sid)],
         table := if s.die then s.table else s.table + {sid},
         streams := if s.die then s.streams else s.streams[sid := Stream(false, false, 0, 0)])
    case SetHook(sid) => s.(streams := s.streams[sid := s.streams[sid].(hookSet := true)])
    case Close(k, sid) => s.(closers := s.closers[k := Entered(sid, false)])
    case RemoteFin(k, sid) => s.(closers := s.closers[k := Entered(sid, true)], table := s.table - {sid})
    case Kill(k) =>
      var sid := s.closers[k].sid;
      s.(closers := s.closers[k := if s.streams[sid].dead then Lost(sid) else Won(sid)],
         streams := s.streams[sid := Killed(s.streams[sid])])
    case CallHook(k) =>
      var sid := s.closers[k].sid;
      s.(closers := s.closers[k := Done(sid)], streams := s.streams[sid := Hooked(s.streams[sid])])
    case Forget(k) => s.(table := s.table - {s.closers[k].sid})
    case Die => s.(die := true)
    case SweepBegins => s.(sweep := Sweeping(s.table, None))
    case SweepKills(sid) =>
      s.(sweep := Sweeping(s.sweep.left - {sid}, if s.streams[sid].dead then None else Some(sid)),
         streams := s.streams[sid := Killed(s.streams[sid])])
    case SweepCallsHook =>
      var sid := s.sweep.hook.value;
      s.(sweep := s.sweep.(hook := None), streams := s.streams[sid := Hooked(s.streams[sid])])
    case SweepEnds => s.(sweep := Swept, table := {})
  }

  // ---- openers and the table ----

  predicate OpenerRight(s: State, c: nat) {
    c in s.openers ==>
      match s.openers[c]
      case Checked(sid) => 1 <= sid <= s.counter && sid !in s.streams
      case Sent(sid) => 1 <= sid <= s.counter && sid !in s.streams
      case Returned(sid) => sid in s.streams
      case Failed => true
  }

  predicate Numbered(s: State, c: nat, sid: nat) {
    c in s.openers && !s.openers[c].Failed? && s.openers[c].sid == sid
  }

  ghost predicate OpenersRight(s: State) {
    && (forall c: nat :: OpenerRight(s, c))
    && (forall c: nat, d: nat, sid: nat :: Numbered(s, c, sid) && Numbered(s, d, sid) ==> c == d)
    && (forall c: nat, sid: nat :: Numbered(s, c, sid) ==> sid <= s.counter)
    && (forall sid :: sid in s.streams ==> sid <= s.counter)
  }

  predicate TableRight(s: State) {
    && (s.sweep.Sweeping? || s.sweep.Swept? ==> s.die)
    && (s.sweep.Swept? ==> s.table == {})
    && s.table <= s.streams.Keys
    && (forall k :: k in s.closers ==> s.closers[k].sid in s.streams)
    && (s.sweep.Sweeping? ==> s.sweep.left <= s.table && (s.sweep.hook != None ==> s.sweep.hook.value in s.streams))
  }

  /** The peer's FIN took the stream out of the table, and the call that handles it has yet to kill it. */
  ghost predicate BeingEnded(s: State, sid: nat) {
    exists k :: k in s.closers && s.closers[k] == Entered(sid, true)
  }

  /** A stream that lives is in the table, where the sweep will find it, or is being ended by the peer. */
  ghost predicate Reachable(s: State, sid: nat) {
    sid in s.streams && !s.streams[sid].dead ==>
      || (if s.sweep.Sweeping? then sid in s.sweep.left else sid in s.table)
      || BeingEnded(s, sid)
  }

  // ---- one death, one hook ----

  /** Whoever killed a stream and has yet to go to its hook. */
  datatype Killer = ByCall(closer: nat) | BySweep

  predicate Holds(s: State, who: Killer, sid: nat) {
    match who
    case ByCall(k) => k in s.closers && s.closers[k] == Won(sid)
    case BySweep => s.sweep.Sweeping? && s.sweep.hook == Some(sid)
  }

  ghost predicate OneDeath(s: State, sid: nat) {
    && (forall who :: Holds(s, who, sid) ==> sid in s.streams && s.streams[sid].dead && s.streams[sid].calls == 0)
    && (forall who, other :: Holds(s, who, sid) && Holds(s, other, sid) ==> who == other)
    && (sid in s.streams ==>
      && s.streams[sid].wins == (if s.streams[sid].dead then 1 else 0)
      && s.streams[sid].calls <= s.streams[sid].wins)
  }

  ghost predicate Inv(s: State) {
    && OpenersRight(s)
    && TableRight(s)
    && (forall sid: nat :: Reachable(s, sid))
    && (forall sid: nat :: OneDeath(s, sid))
  }

  lemma OpenerAfter(s: State, step: Step, c: nat)
    requires Enabled(s, step) && OpenersRight(s)
    ensures OpenerRight(Do(s, step), c)
  {
    assert OpenerRight(s, c);
    if step.Register? {
      assert OpenerRight(s, step.caller) && Numbered(s, step.caller, s.openers[step.caller].sid);
      assert c in s.openers && !s.openers[c].Failed? ==> Numbered(s, c, s.openers[c].sid);
    }
  }

  /** A number a call has after a step is one it had, or a new one. */
  lemma NumberedBefore(s: State, step: Step, c: nat, sid: nat)
    requires Enabled(s, step) && Numbered(Do(s, step), c, sid)
    ensures Numbered(s, c, sid) || (step == Check(c) && sid == s.counter + 1)
    ensures s.counter <= Do(s, step).counter
    ensures step == Check(c) && sid == s.counter + 1 ==> Do(s, step).counter == s.counter + 1
  {
  }

  lemma StreamNumbers(s: State, step: Step)
    requires Enabled(s, step) && OpenersRight(s)
    ensures forall sid :: sid in Do(s, step).streams ==> sid <= Do(s, step).counter
  {
    if step.Register? { assert OpenerRight(s, step.caller); }
  }

  lemma OpenersAfter(s: State, step: Step)
    requires Enabled(s, step) && OpenersRight(s)
    ensures OpenersRight(Do(s, step))
  {
    var s' := Do(s, step);
    StreamNumbers(s, step);
    hide Do, Enabled, OpenerRight, Numbered;
    forall c: nat ensures OpenerRight(s', c) {
      OpenerAfter(s, step, c);
    }
    forall c: nat, sid: nat | Numbered(s', c, sid) ensures sid <= s'.counter {
      NumberedBefore(s, step, c, sid);
    }
    forall c: nat, d: nat, sid: nat | Numbered(s', c, sid) && Numbered(s', d, sid) ensures c == d {
      NumberedBefore(s, step, c, sid);
      NumberedBefore(s, step, d, sid);
    }
  }

  lemma TableAfter(s: State, step: Step)
    requires Enabled(s, step) && TableRight(s) && OpenersRight(s)
    ensures TableRight(Do(s, step))
  {
    if step.Register? { assert OpenerRight(s, step.caller); }
  }

  lemma ReachableAfter(s: State, step: Step, sid: nat)
    requires Enabled(s, step) && TableRight(s) && OpenersRight(s) && Reachable(s, sid)
    requires step.Forget? ==> OneDeath(s, s.closers[step.closer].sid)
    ensures Reachable(Do(s, step), sid)
  {
    var s' := Do(s, step);
    if sid in s.streams && !s.streams[sid].dead {
      if k :| k in s.closers && s.closers[k] == Entered(sid, true) {
        assert s'.streams[sid].dead || (k in s'.closers && s'.closers[k] == Entered(sid, true));
      }
      match step
      case RemoteFin(k, ended) => assert k in s'.closers && s'.closers[k] == Entered(ended, true);
      case Forget(k) => assert Holds(s, ByCall(k), s.closers[k].sid);
      case _ =>
    }
    if step.Register? { assert OpenerRight(s, step.caller); }
  }

  /** Whoever holds a death after a step held it before, or the step killed a stream that was alive. */
  lemma HeldBefore(s: State, step: Step, who: Killer, sid: nat)
    requires Enabled(s, step) && Holds(Do(s, step), who, sid)
    ensures Holds(s, who, sid) || (sid in s.streams && !s.streams[sid].dead && who == Maker(step))
  {
  }

  function Maker(step: Step): (who: Killer)
  {
    if step.Kill? then ByCall(step.closer) else BySweep
  }

  lemma OneHolder(s: State, step: Step, who: Killer, other: Killer, sid: nat)
    requires Enabled(s, step) && OneDeath(s, sid)
    requires Holds(Do(s, step), who, sid) && Holds(Do(s, step), other, sid)
    ensures who == other
  {
    hide Do, Enabled, Holds;
    HeldBefore(s, step, who, sid);
    HeldBefore(s, step, other, sid);
  }

  /** Who calls the hook in this step. */
  function Caller(s: State, step: Step): (who: Option<Killer>)
  {
    if step.CallHook? then Some(ByCall(step.closer)) else if step.SweepCallsHook? then Some(BySweep) else None
  }

  /** A hook is called by the one that holds the stream's death, and no more so afterwards; nothing else
      counts a call. */
  lemma CallerHolds(s: State, step: Step, sid: nat)
    requires Enabled(s, step) && sid in s.streams && sid in Do(s, step).streams
    requires step.Register? ==> s.openers[step.caller].sid != sid
    ensures
      || Do(s, step).streams[sid].calls == s.streams[sid].calls
      || (&& Caller(s, step) != None && Holds(s, Caller(s, step).value, sid)
          && !Holds(Do(s, step), Caller(s, step).value, sid)
          && Do(s, step).streams[sid].calls == s.streams[sid].calls + 1)
    ensures s.streams[sid].dead ==> Do(s, step).streams[sid].dead
    ensures Do(s, step).streams[sid].wins ==
      s.streams[sid].wins + if Do(s, step).streams[sid].dead && !s.streams[sid].dead then 1 else 0
  {
  }

  lemma HolderAfter(s: State, step: Step, who: Killer, sid: nat)
    requires Enabled(s, step) && OneDeath(s, sid) && sid in s.streams && sid in Do(s, step).streams
    requires step.Register? ==> s.openers[step.caller].sid != sid
    requires Holds(Do(s, step), who, sid)
    ensures Do(s, step).streams[sid].dead && Do(s, step).streams[sid].calls == 0
  {
    HeldBefore(s, step, who, sid);
    CallerHolds(s, step, sid);
    HeldIsDead(s, step, who, sid);
    hide Do, Enabled, Holds, Caller;
  }

  lemma HeldIsDead(s: State, step: Step, who: Killer, sid: nat)
    requires Enabled(s, step) && Holds(Do(s, step), who, sid) && sid in Do(s, step).streams
    requires Holds(s, who, sid) ==> sid in s.streams && s.streams[sid].dead
    requires step.Register? ==> s.openers[step.caller].sid != sid
    ensures Do(s, step).streams[sid].dead
  {
  }

  /** A stream that is new was not there before, and nobody has closed it. */
  lemma NewStream(s: State, step: Step, sid: nat)
    requires Enabled(s, step) && OpenersRight(s) && TableRight(s)
    ensures step.Register? && s.openers[step.caller].sid == sid ==> sid !in s.streams
    ensures sid !in s.streams ==> forall who :: !Holds(Do(s, step), who, sid)
    ensures sid !in s.streams && sid in Do(s, step).streams ==> Do(s, step).streams[sid] == Stream(false, false, 0, 0)
    ensures sid in s.streams ==> sid in Do(s, step).streams
  {
    if step.Register? { assert OpenerRight(s, step.caller); }
  }

  lemma OneDeathAfter(s: State, step: Step, sid: nat)
    requires Enabled(s, step) && OneDeath(s, sid) && OpenersRight(s) && TableRight(s)
    ensures OneDeath(Do(s, step), sid)
  {
    hide Do, Enabled, Holds, OpenersRight, TableRight, Caller;
    NewStream(s, step, sid);
    if sid in s.streams {
      CallerHolds(s, step, sid);
      forall who | Holds(Do(s, step), who, sid) ensures Do(s, step).streams[sid].dead && Do(s, step).streams[sid].calls == 0 {
        HolderAfter(s, step, who, sid);
      }
      forall who, other | Holds(Do(s, step), who, sid) && Holds(Do(s, step), other, sid) ensures who == other {
        OneHolder(s, step, who, other, sid);
      }
    }
  }

  lemma DoKeeps(s: State, step: Step)
    requires Inv(s) && Enabled(s, step)
    ensures Inv(Do(s, step))
  {
    hide OpenersRight, TableRight, Reachable, OneDeath, Do, Enabled;
    OpenersAfter(s, step);
    TableAfter(s, step);
    forall sid: nat ensures Reachable(Do(s, step), sid) && OneDeath(Do(s, step), sid) {
      assert Reachable(s, sid) && OneDeath(s, sid);
      ForgetsItsOwn(s, step);
      ReachableAfter(s, step, sid);
      OneDeathAfter(s, step, sid);
    }
  }

  lemma ForgetsItsOwn(s: State, step: Step)
    requires Inv(s) && Enabled(s, step)
    ensures step.Forget? ==> step.closer in s.closers && OneDeath(s, s.closers[step.closer].sid)
  {
  }

  /** Every state some sequence of steps leads to. */
  function Run(s: State, steps: seq<Step>): (s': State)
    decreases |steps|
  {
    if steps == [] then s
    else if !Enabled(s, steps[0]) then Run(s, steps[1..])
    else Run(Do(s, steps[0]), steps[1..])
  }

  lemma {:induction false} RunKeeps(s: State, steps: seq<Step>)
    requires Inv(s)
    ensures Inv(Run(s, steps))
    decreases |steps|
  {
    hide Inv, Do, Enabled;
    if steps != [] {
      if Enabled(s, steps[0]) {
        DoKeeps(s, steps[0]);
        RunKeeps(Do(s, steps[0]), steps[1..]);
      } else {
        RunKeeps(s, steps[1..]);
      }
    }
  }

  lemma StartsRight()
    ensures Inv(START)
  {
    forall c: nat ensures OpenerRight(START, c) {}
    forall sid: nat ensures Reachable(START, sid) && OneDeath(START, sid) {}
  }

  /** Once a session has been swept, a stream that some call of `OpenStream` has returned is dead unless the
      peer is just ending it, and every call still under way will fail. */
  lemma NoStreamOutlivesItsSession(steps: seq<Step>, c: nat, sid: nat)
    ensures
      var s := Run(START, steps);
      s.sweep.Swept? ==>
        && (c in s.openers && s.openers[c] == Returned(sid) && !BeingEnded(s, sid) ==>
          sid in s.streams && s.streams[sid].dead)
        && (Enabled(s, Register(c)) ==> Do(s, Register(c)).openers[c] == Failed)
  {
    StartsRight();
    RunKeeps(START, steps);
    var s := Run(START, steps);
    hide Run;
    assert OpenerRight(s, c) && Reachable(s, sid);
  }

  /** These steps can be taken one after the other. */
  predicate Leads(s: State, steps: seq<Step>, t: State)
    decreases |steps|
  {
    if steps == [] then s == t else Enabled(s, steps[0]) && Leads(Do(s, steps[0]), steps[1..], t)
  }

  lemma {:induction false} LeadsRun(s: State, steps: seq<Step>, t: State)
    requires Leads(s, steps, t)
    ensures Run(s, steps) == t
    decreases |steps|
  {
    hide Do, Enabled;
    if steps != [] {
      LeadsRun(Do(s, steps[0]), steps[1..], t);
    }
  }

  lemma LeadsNowhere(s: State)
    ensures Leads(s, [], s)
  {
  }

  lemma LeadsOn(s: State, step: Step, steps: seq<Step>, t: State)
    requires Enabled(s, step) && Leads(Do(s, step), steps, t)
    ensures Leads(s, [step] + steps, t)
  {
    hide Do, Enabled;
    assert ([step] + steps)[1..] == steps;
  }

  /** The session has one stream, which was returned and lives. */
  function OneStream(die: bool, sweep: Sweep, table: set<nat>, closers: map<nat, Closer>): (s: State)
  {
    State(die, sweep, 1, table, map[1 := Stream(false, false, 0, 0)], map[0 := Returned(1)], closers)
  }

  lemma OpensOne(steps: seq<Step>, t: State)
    requires Leads(OneStream(false, NotYet, {1}, map[]), steps, t)
    ensures Leads(START, [Check(0), SendSyn(0, true), Register(0)] + steps, t)
  {
    hide Leads;
    var s1 := State(false, NotYet, 1, {}, map[], map[0 := Checked(1)], map[]);
    var s2 := s1.(openers := map[0 := Sent(1)]);
    assert Do(START, Check(0)) == s1 && Do(s1, SendSyn(0, true)) == s2;
    assert Do(s2, Register(0)) == OneStream(false, NotYet, {1}, map[]);
    LeadsOn(s2, Register(0), steps, t);
    LeadsOn(s1, SendSyn(0, true), [Register(0)] + steps, t);
    LeadsOn(START, Check(0), [SendSyn(0, true)] + ([Register(0)] + steps), t);
    assert [Check(0)] + ([SendSyn(0, true)] + ([Register(0)] + steps)) == [Check(0), SendSyn(0, true), Register(0)] + steps;
  }

  lemma SweepsNothing(closers: map<nat, Closer>)
    ensures Leads(OneStream(true, NotYet, {}, closers), [SweepBegins, SweepEnds], OneStream(true, Swept, {}, closers))
  {
    hide Leads;
    var s0, s1, s2 := OneStream(true, NotYet, {}, closers), OneStream(true, Sweeping({}, None), {}, closers), OneStream(true, Swept, {}, closers);
    assert Do(s0, SweepBegins) == s1 && Do(s1, SweepEnds) == s2;
    LeadsNowhere(s2);
    LeadsOn(s1, SweepEnds, [], s2);
    assert [SweepEnds] + [] == [SweepEnds] && [SweepBegins] + [SweepEnds] == [SweepBegins, SweepEnds];
    LeadsOn(s0, SweepBegins, [SweepEnds], s2);
  }

  lemma FinThenDie(steps: seq<Step>, t: State)
    requires Leads(OneStream(true, NotYet, {}, map[0 := Entered(1, true)]), steps, t)
    ensures Leads(OneStream(false, NotYet, {1}, map[]), [RemoteFin(0, 1), Die] + steps, t)
  {
    hide Leads;
    var ended := map[0 := Entered(1, true)];
    var s0, s1 := OneStream(false, NotYet, {1}, map[]), OneStream(false, NotYet, {}, ended);
    assert Do(s0, RemoteFin(0, 1)) == s1 && Do(s1, Die) == OneStream(true, NotYet, {}, ended);
    LeadsOn(s1, Die, steps, t);
    LeadsOn(s0, RemoteFin(0, 1), [Die] + steps, t);
    assert [RemoteFin(0, 1)] + ([Die] + steps) == [RemoteFin(0, 1), Die] + steps;
  }

  /** The peer's FIN is the one way out: a stream it takes out of the table just before the sweep is still
      alive after it. */
  lemma FinEscapesTheSweep()
    ensures
      var steps := [Check(0), SendSyn(0, true), Register(0), RemoteFin(0, 1), Die, SweepBegins, SweepEnds];
      var s := Run(START, steps);
      s.sweep.Swept? && 0 in s.openers && s.openers[0] == Returned(1) && 1 in s.streams && !s.streams[1].dead
  {
    hide Leads, Run;
    var ended := map[0 := Entered(1, true)];
    var t := OneStream(true, Swept, {}, ended);
    var rest := [RemoteFin(0, 1), Die] + [SweepBegins, SweepEnds];
    SweepsNothing(ended);
    FinThenDie([SweepBegins, SweepEnds], t);
    OpensOne(rest, t);
    LeadsRun(START, [Check(0), SendSyn(0, true), Register(0)] + rest, t);
    assert [Check(0), SendSyn(0, true), Register(0)] + rest ==
      [Check(0), SendSyn(0, true), Register(0), RemoteFin(0, 1), Die, SweepBegins, SweepEnds];
  }

  /** Of all the calls and the sweep that close one stream, in any interleaving, at most one finds it alive,
      and its hook is called at most once. */
  lemma OneDeathOneHook(steps: seq<Step>, sid: nat)
    requires sid in Run(START, steps).streams
    ensures
      var st := Run(START, steps).streams[sid];
      st.calls <= st.wins <= 1 && (st.wins == 1 <==> st.dead)
  {
    StartsRight();
    RunKeeps(START, steps);
    assert OneDeath(Run(START, steps), sid);
  }

  /** A hook that is set while its stream lives is there until it is called, and once the stream is dead someone
      is on the way to it. */
  ghost predicate HookWaits(s: State, sid: nat) {
    && sid in s.streams
    && (s.streams[sid].calls == 0 ==> s.streams[sid].hookSet && (s.streams[sid].dead ==> exists who :: Holds(s, who, sid)))
  }

  lemma StillHeld(s: State, step: Step, who: Killer, sid: nat)
    requires Inv(s) && Enabled(s, step) && sid in s.streams && s.streams[sid].dead && s.streams[sid].hookSet
    requires Holds(s, who, sid)
    ensures sid in Do(s, step).streams
    ensures Do(s, step).streams[sid].calls == 0 ==> Do(s, step).streams[sid].hookSet && Holds(Do(s, step), who, sid)
  {
    hide OpenersRight, Reachable, OneDeath;
    NewStream(s, step, sid);
    assert OneDeath(s, sid);
  }

  lemma KilledIsHeld(s: State, step: Step, sid: nat)
    requires Inv(s) && Enabled(s, step) && sid in s.streams && !s.streams[sid].dead && s.streams[sid].hookSet
    ensures sid in Do(s, step).streams && Do(s, step).streams[sid].hookSet
    ensures Do(s, step).streams[sid].dead ==> Holds(Do(s, step), Maker(step), sid)
  {
    hide OpenersRight, Reachable, OneDeath;
    NewStream(s, step, sid);
    LivingIsFree(s, sid);
    assert step.CallHook? ==> !Holds(s, ByCall(step.closer), sid);
    assert !Holds(s, BySweep, sid);
  }

  lemma LivingIsFree(s: State, sid: nat)
    requires Inv(s) && sid in s.streams && !s.streams[sid].dead
    ensures forall who :: !Holds(s, who, sid)
  {
    assert OneDeath(s, sid);
  }

  lemma WaitsAfter(s: State, step: Step, sid: nat)
    requires Inv(s) && Enabled(s, step) && HookWaits(s, sid)
    ensures HookWaits(Do(s, step), sid)
  {
    hide Do, Enabled, Inv, Holds;
    if s.streams[sid].calls == 0 {
      if s.streams[sid].dead {
        var who :| Holds(s, who, sid);
        StillHeld(s, step, who, sid);
      } else {
        KilledIsHeld(s, step, sid);
      }
    } else {
      CalledStays(s, step, sid);
    }
  }

  lemma CalledStays(s: State, step: Step, sid: nat)
    requires Inv(s) && Enabled(s, step) && sid in s.streams
    ensures sid in Do(s, step).streams && Do(s, step).streams[sid].calls >= s.streams[sid].calls
  {
    hide OpenersRight, Reachable, OneDeath, TableRight;
    NewStream(s, step, sid);
  }

  lemma {:induction false} WaitsOn(s: State, steps: seq<Step>, sid: nat)
    requires Inv(s) && HookWaits(s, sid)
    ensures HookWaits(Run(s, steps), sid) && Inv(Run(s, steps))
    decreases |steps|
  {
    hide Inv, Do, Enabled, HookWaits;
    if steps != [] {
      if Enabled(s, steps[0]) {
        DoKeeps(s, steps[0]);
        WaitsAfter(s, steps[0], sid);
        WaitsOn(Do(s, steps[0]), steps[1..], sid);
      } else {
        WaitsOn(s, steps[1..], sid);
      }
    }
  }

  /** In every interleaving: a hook that is set on a living stream has been called, once, as soon as the stream is
      dead and whoever killed it has gone on. */
  lemma HookIsCalled(before: seq<Step>, after: seq<Step>, sid: nat)
    requires sid in Run(START, before).streams && !Run(START, before).streams[sid].dead
    ensures
      var t := Run(Do(Run(START, before), SetHook(sid)), after);
      && sid in t.streams
      && (t.streams[sid].dead && (forall who :: !Holds(t, who, sid)) ==> t.streams[sid].calls == 1)
  {
    var s := Run(START, before);
    StartsRight();
    RunKeeps(START, before);
    DoKeeps(s, SetHook(sid));
    assert OneDeath(s, sid);
    assert HookWaits(Do(s, SetHook(sid)), sid);
    WaitsOn(Do(s, SetHook(sid)), after, sid);
    assert OneDeath(Run(Do(s, SetHook(sid)), after), sid);
  }

  /** The peer's FIN, the one that killed the stream, or the end of the sweep takes it out of the table. */
  predicate Leaving(s: State, step: Step, sid: nat) {
    && Enabled(s, step) && sid in s.table
    && match step
       case RemoteFin(_, n) => n == sid
       case Forget(k) => s.closers[k].sid == sid
       case SweepEnds => true
       case _ => false
  }

  predicate EverLeft(s: State, steps: seq<Step>, sid: nat)
    decreases |steps|
  {
    && steps != []
    && (|| Leaving(s, steps[0], sid)
        || EverLeft(if Enabled(s, steps[0]) then Do(s, steps[0]) else s, steps[1..], sid))
  }

  lemma TableStep(s: State, step: Step, sid: nat)
    requires Inv(s) && Enabled(s, step)
    ensures sid in s.streams ==> sid in Do(s, step).streams
    ensures sid in s.table ==> (sid in Do(s, step).table <==> !Leaving(s, step, sid))
    ensures sid !in s.table ==> (sid in Do(s, step).table <==> sid !in s.streams && sid in Do(s, step).streams)
  {
    hide Reachable, OneDeath;
    NewStream(s, step, sid);
  }

  lemma {:induction false} TableOn(s: State, steps: seq<Step>, sid: nat, left: bool)
    requires Inv(s) && (sid in s.table <==> sid in s.streams && !left) && (left ==> sid in s.streams)
    ensures
      var t := Run(s, steps);
      sid in t.table <==> sid in t.streams && !left && !EverLeft(s, steps, sid)
    decreases |steps|
  {
    hide Inv, Do, Enabled, Leaving;
    if steps != [] {
      if Enabled(s, steps[0]) {
        DoKeeps(s, steps[0]);
        TableStep(s, steps[0], sid);
        NotLeaving(s, steps[0], sid);
        TableOn(Do(s, steps[0]), steps[1..], sid, left || Leaving(s, steps[0], sid));
      } else {
        NotLeaving(s, steps[0], sid);
        TableOn(s, steps[1..], sid, left);
      }
    }
  }

  lemma NotLeaving(s: State, step: Step, sid: nat)
    ensures !Enabled(s, step) || sid !in s.table ==> !Leaving(s, step, sid)
  {
  }

  /** In every run the table holds exactly the streams that were registered and have not left it since. */
  lemma TableIs(steps: seq<Step>, sid: nat)
    ensures sid in Run(START, steps).table <==> sid in Run(START, steps).streams && !EverLeft(START, steps, sid)
  {
    StartsRight();
    TableOn(START, steps, sid, false);
  }

  lemma RunOne(s: State, step: Step, steps: seq<Step>)
    requires Enabled(s, step)
    ensures Run(s, [step] + steps) == Run(Do(s, step), steps)
  {
    assert ([step] + steps)[1..] == steps;
  }

  /** On a session that lives, a call of `OpenStream` whose SYN goes out returns a new stream, alive and in the table. */
  lemma OpenSucceeds(s: State, c: nat)
    requires Inv(s) && !s.die && c !in s.openers
    ensures
      var t := Run(s, [Check(c), SendSyn(c, true), Register(c)]);
      var sid := s.counter + 1;
      && sid !in s.streams && c in t.openers && t.openers[c] == Returned(sid)
      && t.table == s.table + {sid} && sid in t.streams && t.streams[sid] == Stream(false, false, 0, 0)
  {
    hide Reachable, OneDeath;
    var s1 := Do(s, Check(c));
    var s2 := Do(s1, SendSyn(c, true));
    RunOne(s, Check(c), [SendSyn(c, true), Register(c)]);
    RunOne(s1, SendSyn(c, true), [Register(c)]);
    RunOne(s2, Register(c), []);
    assert [Check(c)] + [SendSyn(c, true), Register(c)] == [Check(c), SendSyn(c, true), Register(c)];
    assert [SendSyn(c, true)] + [Register(c)] == [SendSyn(c, true), Register(c)];
    assert [Register(c)] + [] == [Register(c)];
  }

  lemma FreshCalls(s: State, sid: nat)
    requires Inv(s) && sid in s.streams && !s.streams[sid].dead
    ensures s.streams[sid].calls == 0
  {
    assert OneDeath(s, sid);
  }

  /** Closing a living stream takes it out of the table and calls its hook. */
  lemma CloseSucceeds(s: State, k: nat, sid: nat)
    requires Inv(s) && k !in s.closers && sid in s.streams && !s.streams[sid].dead && Unlocked(s)
    ensures
      var t := Run(s, [Close(k, sid), Kill(k), Forget(k), CallHook(k)]);
      && t.table == s.table - {sid} && sid in t.streams && t.streams[sid].dead && !t.streams[sid].hookSet
      && t.streams[sid].calls == if s.streams[sid].hookSet then 1 else 0
  {
    FreshCalls(s, sid);
    hide Inv;
    var s1 := Do(s, Close(k, sid));
    var s2 := Do(s1, Kill(k));
    var s3 := Do(s2, Forget(k));
    RunFour(s, s1, s2, s3, Close(k, sid), Kill(k), Forget(k), CallHook(k));
    hide Run;
  }

  lemma RunFour(s: State, s1: State, s2: State, s3: State, a: Step, b: Step, c: Step, d: Step)
    requires Enabled(s, a) && s1 == Do(s, a) && Enabled(s1, b) && s2 == Do(s1, b)
    requires Enabled(s2, c) && s3 == Do(s2, c) && Enabled(s3, d)
    ensures Run(s, [a, b, c, d]) == Do(s3, d)
  {
    hide Enabled, Do;
    RunOne(s, a, [b, c, d]);
    RunOne(s1, b, [c, d]);
    RunOne(s2, c, [d]);
    RunOne(s3, d, []);
    assert [a] + [b, c, d] == [a, b, c, d] && [b] + [c, d] == [b, c, d] && [c] + [d] == [c, d] && [d] + [] == [d];
  }
}
