/** The WireGuard reconnect loop: which endpoint is run next, how many times in a row it may close, how
    long it is then left alone, and what is remembered of it all. Time, the probes of endpoints and the
    scan are inputs of each turn. */
module Supervisor {
  import opened Wrappers
  import LastConn

  const MAX_CONSECUTIVE_FAILS := 2
  const CARRIER_WIREGUARD := "wireguard"

  datatype Pick = Pick(peer: string, profile: string)

  datatype Run = Run(pick: Pick, start: int, end: int)

  datatype State = State(
    quick: Option<Pick>,
    lastGood: Option<Pick>,
    fails: nat,
    cooldowns: map<string, int>,
    clock: int,
    runs: seq<Run>,
    file: Option<LastConn.Record>)

  /** What never changes while the loop runs. */
  datatype Setup = Setup(forced: Option<string>, cooldown: nat)

  /** What the world answers in one turn: the time at the top, whether the last good endpoint still
      responds, the profile a forced peer passed with, what the scan found, and when the tunnel ran. */
  datatype Turn = Turn(
    now: int,
    responds: bool,
    forcedProfile: Option<string>,
    found: Option<Pick>,
    start: int,
    end: int)

  // ---- one turn ----

  function Retained(cooldowns: map<string, int>, now: int): (kept: map<string, int>) {
    map p | p in cooldowns && cooldowns[p] > now :: cooldowns[p]
  }

  /** The top of the turn: cooldowns that are over go, and an endpoint that closed twice in a row is left
      alone from now on. */
  function AtTop(setup: Setup, s: State, now: int): (s': State) {
    s.(clock := now,
       cooldowns :=
         var kept := Retained(s.cooldowns, now);
         if s.fails >= MAX_CONSECUTIVE_FAILS && s.lastGood != None then kept[s.lastGood.value.peer := now + setup.cooldown] else kept,
       lastGood := if s.fails >= MAX_CONSECUTIVE_FAILS then None else s.lastGood,
       fails := if s.fails >= MAX_CONSECUTIVE_FAILS then 0 else s.fails)
  }

  function Chosen(setup: Setup, s: State, t: Turn): (pick: Option<Pick>) {
    if s.quick != None then s.quick
    else if s.lastGood != None && t.responds then s.lastGood
    else if setup.forced != None then
      if t.forcedProfile != None then Some(Pick(setup.forced.value, t.forcedProfile.value)) else None
    else t.found
  }

  function Entry(pick: Pick): (e: LastConn.Entry) {
    LastConn.Entry(pick.peer, pick.profile, CARRIER_WIREGUARD)
  }

  /** The tunnel to the chosen endpoint ran, and however it ended that counts against the endpoint. */
  function AfterRun(setup: Setup, s: State, pick: Pick, start: int, end: int): (s': State) {
    s.(quick := None,
       file := if setup.forced == None then Some(LastConn.Saved(s.file, Entry(pick))) else s.file,
       fails := (if s.lastGood != None && s.lastGood.value.peer == pick.peer then s.fails else 0) + 1,
       lastGood := Some(pick),
       runs := s.runs + [Run(pick, start, end)],
       clock := end)
  }

  function Next(setup: Setup, s: State, t: Turn): (s': State) {
    var top := AtTop(setup, s, t.now);
    var pick := Chosen(setup, top, t);
    if pick == None then top else AfterRun(setup, top, pick.value, t.start, t.end)
  }

  /** Time does not run backwards, and the scan does not return an endpoint that is being left alone. */
  predicate Possible(setup: Setup, s: State, t: Turn) {
    && s.clock <= t.now <= t.start <= t.end
    && (t.found != None ==> t.found.value.peer !in AtTop(setup, s, t.now).cooldowns)
  }

  class Loop {
    const setup: Setup
    var quick: Option<Pick>
    var lastGood: Option<Pick>
    var fails: nat
    var cooldowns: map<string, int>
    var clock: int
    var runs: seq<Run>
    var file: Option<LastConn.Record>

    function Snapshot(): (s: State)
      reads this
    {
      State(quick, lastGood, fails, cooldowns, clock, runs, file)
    }

    constructor (setup: Setup, quick: Option<Pick>, file: Option<LastConn.Record>, clock: int)
      ensures this.setup == setup && Snapshot() == Start(quick, file, clock)
    {
      this.setup, this.quick, this.file, this.clock := setup, quick, file, clock;
      lastGood, fails, cooldowns, runs := None, 0, map[], [];
    }

    /** The top of the turn. */
    method Retire(now: int)
      modifies this
      ensures Snapshot() == AtTop(setup, old(Snapshot()), now)
    {
      hide Retained;
      clock := now;
      cooldowns := Retained(cooldowns, now);
      if fails >= MAX_CONSECUTIVE_FAILS {
        if lastGood != None {
          cooldowns := cooldowns[lastGood.value.peer := now + setup.cooldown];
          lastGood := None;
        }
        fails := 0;
      }
    }

    method Choose(t: Turn) returns (pick: Option<Pick>)
      modifies this`quick
      ensures pick == Chosen(setup, old(Snapshot()), t) && quick == None
    {
      pick, quick := quick, None;
      if pick == None {
        if lastGood != None && t.responds {
          pick := lastGood;
        } else if setup.forced == None {
          pick := t.found;
        } else if t.forcedProfile != None {
          pick := Some(Pick(setup.forced.value, t.forcedProfile.value));
        }
      }
    }

    /** The tunnel to the chosen endpoint, remembered and run until it closes. */
    method RunTunnel(pick: Pick, start: int, end: int)
      requires quick == None
      modifies this
      ensures Snapshot() == AfterRun(setup, old(Snapshot()), pick, start, end)
    {
      hide LastConn.Saved;
      if setup.forced == None {
        var record := LastConn.Save(file, Entry(pick));
        file := Some(record);
      }
      if lastGood == None || lastGood.value.peer != pick.peer {
        fails := 0;
      }
      lastGood := Some(pick);
      runs := runs + [Run(pick, start, end)];
      clock := end;
      fails := fails + 1;
    }

    method TakeTurn(t: Turn)
      modifies this
      ensures Snapshot() == Next(setup, old(Snapshot()), t)
    {
      hide AtTop, LastConn.Saved;
      Retire(t.now);
      var pick := Choose(t);
      if pick != None {
        RunTunnel(pick.value, t.start, t.end);
      }
    }
  }

  // ---- invariant ----

  /** The endpoint of the last run is left alone until its cooldown is over, or it is over. */
  predicate Resting(setup: Setup, s: State)
    requires s.runs != []
  {
    var last := s.runs[|s.runs| - 1];
    s.clock >= last.end + setup.cooldown || (last.pick.peer in s.cooldowns && s.cooldowns[last.pick.peer] >= last.end + setup.cooldown)
  }

  predicate Recent(setup: Setup, s: State) {
    && s.fails <= MAX_CONSECUTIVE_FAILS
    && (s.lastGood != None <==> s.fails > 0)
    && (s.runs == [] ==> s.lastGood == None)
    && (s.runs != [] ==>
      var last := s.runs[|s.runs| - 1];
      && s.quick == None && last.start <= last.end <= s.clock
      && (s.lastGood != None ==> s.lastGood.value.peer == last.pick.peer)
      && (s.lastGood == None ==> Resting(setup, s)))
    && (|s.runs| > 1 ==>
      var last, previous := s.runs[|s.runs| - 1], s.runs[|s.runs| - 2];
      && previous.end <= last.start
      && (s.fails == 1 && previous.pick.peer == last.pick.peer ==> last.start >= previous.end + setup.cooldown))
  }

  /** Of three runs of one endpoint in a row, its cooldown lies between two that follow each other: between
      the end of the one and the start of the next the endpoint was left alone. */
  predicate Spaced(cooldown: nat, runs: seq<Run>, k: nat)
    requires k + 2 < |runs|
  {
    runs[k].pick.peer == runs[k + 1].pick.peer == runs[k + 2].pick.peer ==>
      || runs[k + 1].start >= runs[k].end + cooldown
      || runs[k + 2].start >= runs[k + 1].end + cooldown
  }

  predicate AllSpaced(cooldown: nat, runs: seq<Run>) {
    forall k: nat :: k + 2 < |runs| ==> Spaced(cooldown, runs, k)
  }

  ghost predicate Inv(setup: Setup, s: State) {
    Recent(setup, s) && AllSpaced(setup.cooldown, s.runs)
  }

  lemma TopKeeps(setup: Setup, s: State, now: int)
    requires Recent(setup, s) && s.clock <= now
    ensures Recent(setup, AtTop(setup, s, now))
    ensures AtTop(setup, s, now).fails < MAX_CONSECUTIVE_FAILS
  {}

  lemma RunKeeps(setup: Setup, s: State, pick: Pick, start: int, end: int)
    requires Inv(setup, s) && s.clock <= start <= end && s.fails < MAX_CONSECUTIVE_FAILS
    requires (s.lastGood != None && s.lastGood.value.peer == pick.peer) || s.runs == [] || pick.peer !in s.cooldowns
    ensures Inv(setup, AfterRun(setup, s, pick, start, end))
  {
    var runs := s.runs + [Run(pick, start, end)];
    forall k: nat | k + 2 < |runs| ensures Spaced(setup.cooldown, runs, k) {
      if k + 2 < |s.runs| {
        assert Spaced(setup.cooldown, s.runs, k);
      }
    }
  }

  lemma NextKeeps(setup: Setup, s: State, t: Turn)
    requires setup.forced == None && Inv(setup, s) && Possible(setup, s, t)
    ensures Inv(setup, Next(setup, s, t))
  {
    TopKeeps(setup, s, t.now);
    var top := AtTop(setup, s, t.now);
    var pick := Chosen(setup, top, t);
    if pick != None {
      RunKeeps(setup, top, pick.value, t.start, t.end);
    }
  }

  // ---- every run of the loop ----

  function Start(quick: Option<Pick>, file: Option<LastConn.Record>, clock: int): (s: State) {
    State(quick, None, 0, map[], clock, [], file)
  }

  /** The turns one after the other; a turn that cannot be is passed over. */
  function Play(setup: Setup, s: State, turns: seq<Turn>): (s': State)
    decreases |turns|
  {
    if turns == [] then s
    else if Possible(setup, s, turns[0]) then Play(setup, Next(setup, s, turns[0]), turns[1..])
    else Play(setup, s, turns[1..])
  }

  /** With a forced peer nothing is remembered. */
  lemma {:induction false} ForcedIsNotSaved(setup: Setup, s: State, turns: seq<Turn>)
    requires setup.forced != None
    ensures Play(setup, s, turns).file == s.file
    decreases |turns|
  {
    hide Possible;
    if turns != [] {
      ForcedIsNotSaved(setup, if Possible(setup, s, turns[0]) then Next(setup, s, turns[0]) else s, turns[1..]);
    }
  }

  lemma {:induction false} PlayKeeps(setup: Setup, s: State, turns: seq<Turn>)
    requires setup.forced == None && Inv(setup, s)
    ensures Inv(setup, Play(setup, s, turns))
    decreases |turns|
  {
    hide Inv, Next, Possible;
    if turns != [] {
      if Possible(setup, s, turns[0]) {
        NextKeeps(setup, s, turns[0]);
        PlayKeeps(setup, Next(setup, s, turns[0]), turns[1..]);
      } else {
        PlayKeeps(setup, s, turns[1..]);
      }
    }
  }

  /** With no forced peer, in every run of the loop, no endpoint is run a third time in a row before its
      cooldown has passed. */
  lemma NoThirdRunTooSoon(setup: Setup, quick: Option<Pick>, file: Option<LastConn.Record>, clock: int, turns: seq<Turn>, k: nat)
    requires setup.forced == None
    requires k + 2 < |Play(setup, Start(quick, file, clock), turns).runs|
    ensures Spaced(setup.cooldown, Play(setup, Start(quick, file, clock), turns).runs, k)
  {
    PlayKeeps(setup, Start(quick, file, clock), turns);
  }

  /** A forced peer is never left alone: it runs a third time at once. */
  lemma ForcedPeerRunsOn(peer: string, cooldown: nat)
    requires cooldown > 0
    ensures
      var t := Turn(0, false, Some(""), None, 0, 0);
      var runs := Play(Setup(Some(peer), cooldown), Start(None, None, 0), [t, t, t]).runs;
      |runs| == 3 && !Spaced(cooldown, runs, 0)
  {
    var setup, t := Setup(Some(peer), cooldown), Turn(0, false, Some(""), None, 0, 0);
    var s0 := Start(None, None, 0);
    var s1 := Next(setup, s0, t);
    var s2 := Next(setup, s1, t);
    var s3 := Next(setup, s2, t);
    assert [t, t, t][1..] == [t, t] && [t, t][1..] == [t];
    assert Play(setup, s2, [t]) == s3;
    assert Play(setup, s1, [t, t]) == s3;
    assert Play(setup, s0, [t, t, t]) == s3;
  }

  /** A cooldown is kept in every run of the loop exactly when no peer is forced. */
  lemma KeptUnlessForced(setup: Setup)
    requires setup.cooldown > 0
    ensures setup.forced == None <==>
      forall turns :: AllSpaced(setup.cooldown, Play(setup, Start(None, None, 0), turns).runs)
  {
    var s := Start(None, None, 0);
    if setup.forced == None {
      forall turns ensures AllSpaced(setup.cooldown, Play(setup, s, turns).runs) {
        PlayKeeps(setup, s, turns);
      }
    } else {
      var t := Turn(0, false, Some(""), None, 0, 0);
      ForcedPeerRunsOn(setup.forced.value, setup.cooldown);
      assert setup == Setup(Some(setup.forced.value), setup.cooldown);
      assert !AllSpaced(setup.cooldown, Play(setup, s, [t, t, t]).runs);
    }
  }

  /** No cooldown lasts longer than the setup says. */
  predicate Bounded(setup: Setup, s: State) {
    forall p :: p in s.cooldowns ==> s.cooldowns[p] <= s.clock + setup.cooldown
  }

  lemma {:induction false} PlayBounded(setup: Setup, s: State, turns: seq<Turn>)
    requires Bounded(setup, s)
    ensures Bounded(setup, Play(setup, s, turns))
    decreases |turns|
  {
    if turns != [] {
      if Possible(setup, s, turns[0]) {
        assert Bounded(setup, Next(setup, s, turns[0]));
        hide Next, Possible, Bounded;
        PlayBounded(setup, Next(setup, s, turns[0]), turns[1..]);
      } else {
        hide Possible, Bounded;
        PlayBounded(setup, s, turns[1..]);
      }
    }
  }

  /** Once the cooldown has passed since the last turn, no endpoint is left alone any more, but for one that
      has just closed for the second time. */
  lemma CooldownsEnd(setup: Setup, quick: Option<Pick>, file: Option<LastConn.Record>, clock: int, turns: seq<Turn>, now: int, peer: string)
    requires now >= Play(setup, Start(quick, file, clock), turns).clock + setup.cooldown
    requires peer in AtTop(setup, Play(setup, Start(quick, file, clock), turns), now).cooldowns
    ensures
      var s := Play(setup, Start(quick, file, clock), turns);
      s.fails >= MAX_CONSECUTIVE_FAILS && s.lastGood != None && s.lastGood.value.peer == peer
  {
    PlayBounded(setup, Start(quick, file, clock), turns);
    hide Play;
  }

  // ---- which endpoint runs next ----

  /** How many runs of one endpoint in a row the history ends with. */
  function InARow(runs: seq<Run>): (n: nat)
    ensures n <= |runs|
  {
    if runs == [] then 0
    else if |runs| > 1 && runs[|runs| - 2].pick.peer == runs[|runs| - 1].pick.peer then 1 + InARow(runs[..|runs| - 1])
    else 1
  }

  /** The next run, from the runs so far and what the world answers: first the quick pick, if there is one;
      then the endpoint that ran last, if it has closed once since it was last left alone and responds; else
      the forced peer, with the profile it passed with; else what the scan found. */
  function NextPick(setup: Setup, quick: Option<Pick>, runs: seq<Run>, t: Turn): (pick: Option<Pick>) {
    if runs == [] && quick != None then quick
    else if InARow(runs) % 2 == 1 && t.responds then Some(runs[|runs| - 1].pick)
    else if setup.forced != None then
      if t.forcedProfile == None then None else Some(Pick(setup.forced.value, t.forcedProfile.value))
    else t.found
  }

  /** What the loop remembers is what the history of its runs says. */
  predicate Recalls(s: State, quick: Option<Pick>) {
    && (s.runs == [] ==> s.quick == quick && s.lastGood == None && s.fails == 0)
    && (s.runs != [] ==>
      && s.quick == None
      && (s.lastGood != None ==> s.lastGood == Some(s.runs[|s.runs| - 1].pick) && s.fails == 2 - InARow(s.runs) % 2)
      && (s.lastGood == None ==> s.fails == 0 && InARow(s.runs) % 2 == 0))
  }

  lemma TopRecalls(setup: Setup, s: State, quick: Option<Pick>, t: Turn)
    requires Recalls(s, quick)
    ensures
      var top := AtTop(setup, s, t.now);
      && Recalls(top, quick) && top.runs == s.runs && top.fails < 2
      && Chosen(setup, top, t) == NextPick(setup, quick, s.runs, t)
  {
    hide Retained;
  }

  lemma InARowNext(runs: seq<Run>, run: Run)
    ensures InARow(runs + [run]) ==
      if runs != [] && runs[|runs| - 1].pick.peer == run.pick.peer then 1 + InARow(runs) else 1
  {
    assert (runs + [run])[..|runs|] == runs;
  }

  lemma RunRecalls(setup: Setup, s: State, quick: Option<Pick>, pick: Pick, start: int, end: int)
    requires Recalls(s, quick) && s.fails < 2
    ensures Recalls(AfterRun(setup, s, pick, start, end), quick)
  {
    hide InARow, LastConn.Saved;
    InARowNext(s.runs, Run(pick, start, end));
  }

  lemma NextRecalls(setup: Setup, s: State, quick: Option<Pick>, t: Turn)
    requires Recalls(s, quick)
    ensures Recalls(Next(setup, s, t), quick)
    ensures
      var pick := NextPick(setup, quick, s.runs, t);
      Next(setup, s, t).runs == s.runs + if pick == None then [] else [Run(pick.value, t.start, t.end)]
  {
    hide AtTop, Chosen, Recalls, NextPick;
    TopRecalls(setup, s, quick, t);
    var top := AtTop(setup, s, t.now);
    var pick := Chosen(setup, top, t);
    if pick == None {
      assert s.runs + [] == s.runs;
    } else {
      RunRecalls(setup, top, quick, pick.value, t.start, t.end);
    }
  }

  lemma {:induction false} PlayRecalls(setup: Setup, s: State, quick: Option<Pick>, turns: seq<Turn>)
    requires Recalls(s, quick)
    ensures Recalls(Play(setup, s, turns), quick)
    decreases |turns|
  {
    hide Recalls, Next, Possible, NextPick;
    if turns != [] {
      if Possible(setup, s, turns[0]) {
        NextRecalls(setup, s, quick, turns[0]);
        PlayRecalls(setup, Next(setup, s, turns[0]), quick, turns[1..]);
      } else {
        PlayRecalls(setup, s, quick, turns[1..]);
      }
    }
  }

  lemma {:induction false} PlayMore(setup: Setup, s: State, turns: seq<Turn>, t: Turn)
    ensures Play(setup, s, turns + [t]) ==
      var s' := Play(setup, s, turns); if Possible(setup, s', t) then Next(setup, s', t) else s'
    decreases |turns|
  {
    hide Next, Possible;
    var all := turns + [t];
    if turns == [] {
      assert all == [t] && all[1..] == [];
    } else {
      assert all[0] == turns[0] && all[1..] == turns[1..] + [t];
      PlayMore(setup, if Possible(setup, s, turns[0]) then Next(setup, s, turns[0]) else s, turns[1..], t);
    }
  }

  /** In every run of the loop, a further turn adds exactly the run that the history and the turn call for,
      or none. */
  lemma RunsAreChosen(setup: Setup, quick: Option<Pick>, file: Option<LastConn.Record>, clock: int, turns: seq<Turn>, t: Turn)
    requires Possible(setup, Play(setup, Start(quick, file, clock), turns), t)
    ensures
      var runs := Play(setup, Start(quick, file, clock), turns).runs;
      var pick := NextPick(setup, quick, runs, t);
      Play(setup, Start(quick, file, clock), turns + [t]).runs == runs + if pick == None then [] else [Run(pick.value, t.start, t.end)]
  {
    var s := Start(quick, file, clock);
    assert Recalls(s, quick);
    hide Recalls, Next, Possible, NextPick, Play;
    PlayRecalls(setup, s, quick, turns);
    PlayMore(setup, s, turns, t);
    NextRecalls(setup, Play(setup, s, turns), quick, t);
  }

  // ---- what is remembered ----

  function Entries(runs: seq<Run>): (saves: seq<LastConn.Entry>)
    ensures |saves| == |runs|
  {
    if runs == [] then [] else Entries(runs[..|runs| - 1]) + [Entry(runs[|runs| - 1].pick)]
  }

  /** The endpoints of the runs, the newest first. */
  function Peers(runs: seq<Run>): (peers: seq<string>) {
    if runs == [] then [] else [runs[|runs| - 1].pick.peer] + Peers(runs[..|runs| - 1])
  }

  predicate Remembered(s: State) {
    s.file == LastConn.File(Entries(s.runs))
  }

  lemma NextRemembers(setup: Setup, s: State, t: Turn)
    requires setup.forced == None && Remembered(s)
    ensures Remembered(Next(setup, s, t))
  {
    var top := AtTop(setup, s, t.now);
    var pick := Chosen(setup, top, t);
    if pick != None {
      var runs := top.runs + [Run(pick.value, t.start, t.end)];
      assert runs[..|runs| - 1] == s.runs;
      var saves := Entries(runs);
      assert saves[..|saves| - 1] == Entries(s.runs);
    }
  }

  lemma {:induction false} PlayRemembers(setup: Setup, s: State, turns: seq<Turn>)
    requires setup.forced == None && Remembered(s)
    ensures Remembered(Play(setup, s, turns))
    decreases |turns|
  {
    hide Remembered, Next, Possible;
    if turns != [] {
      if Possible(setup, s, turns[0]) {
        NextRemembers(setup, s, turns[0]);
        PlayRemembers(setup, Next(setup, s, turns[0]), turns[1..]);
      } else {
        PlayRemembers(setup, s, turns[1..]);
      }
    }
  }

  lemma {:induction false} OneCarrier(runs: seq<Run>)
    ensures LastConn.SinceChange(Entries(runs)) == Peers(runs)
    ensures forall i :: 0 <= i < |runs| ==> Entries(runs)[i].carrier == CARRIER_WIREGUARD
  {
    if runs != [] {
      OneCarrier(runs[..|runs| - 1]);
      var saves := Entries(runs);
      assert saves[..|saves| - 1] == Entries(runs[..|runs| - 1]);
    }
  }

  /** After any run of the loop from no file, the ring on disk is the last eight distinct endpoints that
      were run, the newest first. */
  lemma RingIsTheRuns(setup: Setup, quick: Option<Pick>, clock: int, turns: seq<Turn>)
    requires setup.forced == None
    ensures
      var s := Play(setup, Start(quick, None, clock), turns);
      if s.runs == [] then s.file == None
      else s.file != None && s.file.value.recent == LastConn.Take(LastConn.Distinct(Peers(s.runs)), LastConn.RECENT_CAP)
  {
    PlayRemembers(setup, Start(quick, None, clock), turns);
    var s := Play(setup, Start(quick, None, clock), turns);
    if s.runs != [] {
      LastConn.RingIsRecentHistory(Entries(s.runs));
      OneCarrier(s.runs);
    }
  }
}
