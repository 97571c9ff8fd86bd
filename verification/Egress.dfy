/** Connecting to a name: the order its addresses are tried in (section 4 of RFC 8305) and the race
    between the attempts (section 5 of RFC 8305). */
module Egress {
  import opened Wrappers

  datatype Address = Address(v4: bool, id: nat)

  // ---- the order to try them in ----

  function Family(addresses: seq<Address>, v4: bool): (own: seq<Address>) {
    if addresses == [] then []
    else
      var own := Family(addresses[..|addresses| - 1], v4);
      if addresses[|addresses| - 1].v4 == v4 then own + [addresses[|addresses| - 1]] else own
  }

  /** One of each by turns, and what is left of the longer one. */
  function Alternate(lead: seq<Address>, other: seq<Address>): (order: seq<Address>)
    decreases |lead| + |other|
  {
    if lead == [] then other
    else if other == [] then lead
    else [lead[0], other[0]] + Alternate(lead[1..], other[1..])
  }

  /** Both families of the addresses, each in its own order. */
  method Partition(addresses: seq<Address>, v4: bool) returns (own: seq<Address>, other: seq<Address>)
    ensures own == Family(addresses, v4)
    ensures other == Family(addresses, !v4)
  {
    own, other := [], [];
    assert addresses[..0] == [];
    for i := 0 to |addresses|
      invariant own == Family(addresses[..i], v4)
      invariant other == Family(addresses[..i], !v4)
    {
      assert addresses[..i + 1][..i] == addresses[..i];
      if addresses[i].v4 == v4 {
        own := own + [addresses[i]];
      } else {
        other := other + [addresses[i]];
      }
    }
    assert addresses[..|addresses|] == addresses;
  }

  function Front(queue: seq<Address>): (front: seq<Address>) {
    if queue == [] then [] else [queue[0]]
  }

  function Rest(queue: seq<Address>): (rest: seq<Address>) {
    if queue == [] then [] else queue[1..]
  }

  /** One turn of the loop, also when one side has run out. */
  lemma AlternateOne(order: seq<Address>, lead: seq<Address>, other: seq<Address>)
    ensures order + Alternate(lead, other) == order + Front(lead) + Front(other) + Alternate(Rest(lead), Rest(other))
  {
    hide Alternate, Front, Rest;
    AlternateStep(lead, other);
    var a, b, rest := Front(lead), Front(other), Alternate(Rest(lead), Rest(other));
    assert order + (a + b + rest) == order + a + b + rest;
  }

  lemma AlternateStep(lead: seq<Address>, other: seq<Address>)
    ensures Alternate(lead, other) == Front(lead) + Front(other) + Alternate(Rest(lead), Rest(other))
  {
    if lead == [] && other == [] {
      assert Alternate(lead, other) == [];
    } else if lead == [] {
      assert other == [other[0]] + other[1..];
    } else if other == [] {
      assert lead == [lead[0]] + lead[1..];
    }
  }

  method Interleaved(addresses: seq<Address>) returns (order: seq<Address>)
    ensures addresses == [] ==> order == []
    ensures addresses != [] ==> order == Alternate(Family(addresses, addresses[0].v4), Family(addresses, !addresses[0].v4))
  {
    if addresses == [] {
      return addresses;
    }
    var lead, other := Partition(addresses, addresses[0].v4);
    hide Family;
    order := [];
    ghost var whole := Alternate(lead, other);
    while lead != [] || other != []
      invariant order + Alternate(lead, other) == whole
      decreases |lead| + |other|
    {
      AlternateOne(order, lead, other);
      order := order + Front(lead);
      order := order + Front(other);
      lead, other := Rest(lead), Rest(other);
    }
  }

  lemma {:induction false} FamilyIsUniform(addresses: seq<Address>, v4: bool)
    ensures forall a :: a in Family(addresses, v4) ==> a.v4 == v4
  {
    if addresses != [] {
      FamilyIsUniform(addresses[..|addresses| - 1], v4);
    }
  }

  lemma {:induction false} FamiliesCover(addresses: seq<Address>)
    ensures multiset(addresses) == multiset(Family(addresses, true)) + multiset(Family(addresses, false))
  {
    if addresses != [] {
      FamiliesCover(addresses[..|addresses| - 1]);
      assert addresses == addresses[..|addresses| - 1] + [addresses[|addresses| - 1]];
    }
  }

  lemma {:induction false} FamilyAppend(a: seq<Address>, b: seq<Address>, v4: bool)
    ensures Family(a + b, v4) == Family(a, v4) + Family(b, v4)
  {
    if b == [] {
      assert a + b == a;
    } else {
      FamilyAppend(a, b[..|b| - 1], v4);
      assert (a + b)[..|a + b| - 1] == a + b[..|b| - 1];
    }
  }

  lemma {:induction false} FamilyOfOne(addresses: seq<Address>, v4: bool, asked: bool)
    requires forall i :: 0 <= i < |addresses| ==> addresses[i].v4 == v4
    ensures Family(addresses, asked) == if asked == v4 then addresses else []
  {
    if addresses != [] {
      FamilyOfOne(addresses[..|addresses| - 1], v4, asked);
    }
  }

  /** Both families come out in their own order. */
  lemma {:induction false} AlternateKeepsFamilies(lead: seq<Address>, other: seq<Address>, v4: bool)
    requires forall i :: 0 <= i < |lead| ==> lead[i].v4 == v4
    requires forall i :: 0 <= i < |other| ==> other[i].v4 != v4
    ensures Family(Alternate(lead, other), v4) == lead
    ensures Family(Alternate(lead, other), !v4) == other
    decreases |lead| + |other|
  {
    hide Family;
    if lead == [] || other == [] {
      FamilyOfOne(Alternate(lead, other), if other == [] then v4 else !v4, v4);
      FamilyOfOne(Alternate(lead, other), if other == [] then v4 else !v4, !v4);
    } else {
      var pair, rest := [lead[0], other[0]], Alternate(lead[1..], other[1..]);
      AlternateKeepsFamilies(lead[1..], other[1..], v4);
      FamilyAppend(pair, rest, v4);
      FamilyAppend(pair, rest, !v4);
      PairFamilies(lead[0], other[0]);
      assert lead == [lead[0]] + lead[1..] && other == [other[0]] + other[1..];
    }
  }

  lemma Counted(a: Address, rest: seq<Address>)
    ensures multiset([a] + rest) == multiset{a} + multiset(rest)
  {}

  lemma {:induction false} AlternatePermutes(lead: seq<Address>, other: seq<Address>)
    ensures multiset(Alternate(lead, other)) == multiset(lead) + multiset(other)
    decreases |lead| + |other|
  {
    if lead != [] && other != [] {
      var rest := Alternate(lead[1..], other[1..]);
      AlternatePermutes(lead[1..], other[1..]);
      assert Alternate(lead, other) == [lead[0]] + ([other[0]] + rest);
      hide *;
      Uncounted(lead);
      Uncounted(other);
      Counted(other[0], rest);
      Counted(lead[0], [other[0]] + rest);
      Regrouped(lead[0], other[0], multiset(lead[1..]), multiset(other[1..]));
    }
  }

  lemma Uncounted(s: seq<Address>)
    requires s != []
    ensures multiset(s) == multiset{s[0]} + multiset(s[1..])
  {
    assert s == [s[0]] + s[1..];
  }

  lemma Regrouped(a: Address, b: Address, m: multiset<Address>, n: multiset<Address>)
    ensures multiset{a} + (multiset{b} + (m + n)) == (multiset{a} + m) + (multiset{b} + n)
  {}

  lemma PairFamilies(a: Address, b: Address)
    requires a.v4 != b.v4
    ensures Family([a, b], a.v4) == [a] && Family([a, b], b.v4) == [b]
  {
    assert [a, b][..1] == [a] && [a][..0] == [];
    assert Family([a], a.v4) == [a] && Family([a], b.v4) == [];
  }

  /** While both remain the families take turns; after that one family is all there is. */
  lemma {:induction false} AlternateTakesTurns(lead: seq<Address>, other: seq<Address>, v4: bool, i: nat)
    requires forall k :: 0 <= k < |lead| ==> lead[k].v4 == v4
    requires forall k :: 0 <= k < |other| ==> other[k].v4 != v4
    requires i < |lead| + |other|
    ensures |Alternate(lead, other)| == |lead| + |other|
    ensures i < 2 * |lead| && i < 2 * |other| ==> Alternate(lead, other)[i].v4 == (if i % 2 == 0 then v4 else !v4)
    ensures i >= 2 * |lead| ==> Alternate(lead, other)[i].v4 != v4
    ensures i >= 2 * |other| ==> Alternate(lead, other)[i].v4 == v4
    decreases |lead| + |other|
  {
    if lead != [] && other != [] && |lead| + |other| > 2 {
      AlternateTakesTurns(lead[1..], other[1..], v4, if i >= 2 then i - 2 else 0);
    }
  }

  /** The order tried is a permutation that starts with the first address, keeps the order within each
      family and lets the families take turns while both remain. */
  lemma InterleavedIsFair(addresses: seq<Address>, i: nat)
    requires i < |addresses|
    ensures
      var v4 := addresses[0].v4;
      var lead, other := Family(addresses, v4), Family(addresses, !v4);
      var order := Alternate(lead, other);
      && multiset(order) == multiset(addresses) && |order| == |addresses|
      && Family(order, true) == Family(addresses, true) && Family(order, false) == Family(addresses, false)
      && order[0] == addresses[0]
      && (i < 2 * |lead| && i < 2 * |other| ==> order[i].v4 == (if i % 2 == 0 then v4 else !v4))
      && (i >= 2 * |lead| ==> order[i].v4 != v4)
      && (i >= 2 * |other| ==> order[i].v4 == v4)
  {
    var v4 := addresses[0].v4;
    var lead, other := Family(addresses, v4), Family(addresses, !v4);
    FamilyIsUniform(addresses, v4);
    FamilyIsUniform(addresses, !v4);
    FamiliesCover(addresses);
    AlternateKeepsFamilies(lead, other, v4);
    AlternatePermutes(lead, other);
    assert |lead| + |other| == |addresses| by {
      assert |multiset(addresses)| == |multiset(lead) + multiset(other)|;
    }
    AlternateTakesTurns(lead, other, v4, i);
    FirstLeads(addresses);
  }

  lemma {:induction false} FirstLeads(addresses: seq<Address>)
    requires addresses != []
    ensures Family(addresses, addresses[0].v4) != [] && Family(addresses, addresses[0].v4)[0] == addresses[0]
  {
    if |addresses| > 1 {
      FirstLeads(addresses[..|addresses| - 1]);
    }
  }

  // ---- the race ----

  datatype Error = NotFound | Failed(code: nat)

  /** What the loop can wake up to: an attempt, by the place of its address, ends; the delay passes. */
  datatype Event =
    | Connects(i: nat, stream: nat)
    | Fails(i: nat, code: nat)
    | DelayPasses

  datatype Race = Race(
    waiting: seq<Address>,
    started: seq<Address>,
    attempts: set<nat>,
    failed: set<nat>,
    lastError: Option<nat>,
    result: Option<Result<nat, Error>>)

  /** The next address, if there is one, is tried beside the others. */
  function StartNext(r: Race): (r': Race) {
    if r.waiting == [] then r
    else r.(waiting := r.waiting[1..], started := r.started + [r.waiting[0]], attempts := r.attempts + {|r.started|})
  }

  /** The top of the loop: with nothing running the next address starts, or the race is lost. */
  function Top(r: Race): (r': Race) {
    if r.attempts != {} then r
    else if r.waiting != [] then StartNext(r)
    else r.(result := Some(Err(if r.lastError == None then NotFound else Failed(r.lastError.value))))
  }

  /** One turn of the loop; an event of an attempt that is not running does not happen. */
  function See(r: Race, e: Event): (r': Race) {
    if r.result != None then r
    else
      match e
      case Connects(i, stream) => if i in r.attempts then r.(result := Some(Ok(stream))) else r
      case Fails(i, code) =>
        if i !in r.attempts then r
        else Top(StartNext(r.(attempts := r.attempts - {i}, failed := r.failed + {i}, lastError := Some(code))))
      case DelayPasses => Top(StartNext(r))
  }

  function Begin(addresses: seq<Address>): (r: Race) {
    Top(Race(addresses, [], {}, {}, None, None))
  }

  function Play(addresses: seq<Address>, events: seq<Event>): (r: Race) {
    if events == [] then Begin(addresses) else See(Play(addresses, events[..|events| - 1]), events[|events| - 1])
  }

  /** Every address is waiting, running or failed; the started ones are the first, each started once; the
      race is lost exactly when all have failed. */
  ghost predicate RaceOk(r: Race, addresses: seq<Address>) {
    && r.started + r.waiting == addresses
    && r.attempts !! r.failed
    && (forall i :: i in r.attempts + r.failed <==> 0 <= i < |r.started|)
    && (r.lastError == None <==> r.failed == {})
    && (r.attempts == {} <==> r.result != None && r.result.value.Err?)
    && (r.attempts == {} ==> r.waiting == [])
    && (r.attempts == {} ==> r.result.value.error == if r.lastError == None then NotFound else Failed(r.lastError.value))
  }

  lemma StartNextOk(r: Race, addresses: seq<Address>)
    requires r.started + r.waiting == addresses && r.attempts !! r.failed
    requires forall i :: i in r.attempts + r.failed <==> 0 <= i < |r.started|
    ensures var r' := StartNext(r);
      && r'.started + r'.waiting == addresses && r'.attempts !! r'.failed
      && (forall i :: i in r'.attempts + r'.failed <==> 0 <= i < |r'.started|)
  {
    if r.waiting != [] {
      assert r.started + r.waiting == r.started + [r.waiting[0]] + r.waiting[1..];
      assert |r.started| !in r.attempts + r.failed;
      forall i ensures i in r.attempts + {|r.started|} + r.failed <==> 0 <= i < |r.started| + 1 {
        assert i in r.attempts + r.failed <==> 0 <= i < |r.started|;
      }
    }
  }

  lemma SeeKeeps(r: Race, addresses: seq<Address>, e: Event)
    requires RaceOk(r, addresses)
    ensures RaceOk(See(r, e), addresses)
  {
    if r.result == None {
      match e
      case Connects(_, _) =>
      case Fails(i, code) =>
        if i in r.attempts {
          var r1 := r.(attempts := r.attempts - {i}, failed := r.failed + {i}, lastError := Some(code));
          assert i in r1.failed;
          assert r1.attempts + r1.failed == r.attempts + r.failed;
          StartNextOk(r1, addresses);
          StartNextOk(StartNext(r1), addresses);
        }
      case DelayPasses =>
        StartNextOk(r, addresses);
    }
  }

  lemma {:induction false} PlayKeeps(addresses: seq<Address>, events: seq<Event>)
    ensures RaceOk(Play(addresses, events), addresses)
  {
    if events == [] {
      StartNextOk(Race(addresses, [], {}, {}, None, None), addresses);
    } else {
      PlayKeeps(addresses, events[..|events| - 1]);
      SeeKeeps(Play(addresses, events[..|events| - 1]), addresses, events[|events| - 1]);
    }
  }

  /** In every race the started addresses are the first ones, each started once, and it is lost exactly
      when every address was tried and failed. */
  lemma RaceTriesAll(addresses: seq<Address>, events: seq<Event>)
    ensures
      var r := Play(addresses, events);
      && r.started <= addresses && |r.started| + |r.waiting| == |addresses|
      && (r.result != None && r.result.value.Err? <==> forall i :: 0 <= i < |addresses| ==> i in r.failed)
      && (r.result == Some(Err(NotFound)) <==> addresses == [])
  {
    PlayKeeps(addresses, events);
    var r := Play(addresses, events);
    hide Play;
    if r.attempts != {} {
      var i :| i in r.attempts;
      assert i in r.attempts + r.failed;
      assert i < |addresses| && i !in r.failed;
    } else {
      assert r.started == addresses;
      forall i | 0 <= i < |addresses| ensures i in r.failed {
        assert i in r.attempts + r.failed;
      }
      assert addresses != [] ==> 0 in r.failed;
      if r.failed != {} {
        var i :| i in r.failed;
        assert i in r.attempts + r.failed;
        assert i < |addresses|;
      }
    }
  }

  /** The event that decided the race: the first connection seen wins; otherwise the last attempt of all
      failed, and its error is the one returned. */
  ghost predicate Decided(addresses: seq<Address>, events: seq<Event>, k: nat) {
    && k < |events|
    && var before, result := Play(addresses, events[..k]), Play(addresses, events).result;
      && before.result == None && result != None
      && match events[k] {
        case Connects(i, stream) => i in before.attempts && result.value == Ok(stream)
        case Fails(i, code) => before.attempts == {i} && before.waiting == [] && result.value == Err(Failed(code))
        case DelayPasses => false
      }
  }

  lemma {:induction false} RaceIsDecided(addresses: seq<Address>, events: seq<Event>)
    requires addresses != []
    ensures Play(addresses, events).result != None ==> exists k: nat :: Decided(addresses, events, k)
  {
    if events != [] && Play(addresses, events).result != None {
      var last := |events| - 1;
      var before := events[..last];
      if Play(addresses, before).result == None {
        DecidedLast(addresses, events);
      } else {
        RaceIsDecided(addresses, before);
        var k: nat :| Decided(addresses, before, k);
        assert before[..k] == events[..k];
        assert Decided(addresses, events, k);
      }
    }
  }

  lemma DecidedLast(addresses: seq<Address>, events: seq<Event>)
    requires events != [] && Play(addresses, events).result != None
    requires Play(addresses, events[..|events| - 1]).result == None
    ensures Decided(addresses, events, |events| - 1)
  {
    var r, e := Play(addresses, events[..|events| - 1]), events[|events| - 1];
    PlayKeeps(addresses, events[..|events| - 1]);
    assert Play(addresses, events) == See(r, e);
    hide Play;
    match e
    case Connects(_, _) =>
    case Fails(i, code) =>
      assert r.attempts - {i} == {};
      assert r.attempts == {i};
    case DelayPasses =>
  }

  /** Nothing that is seen after a connection changes who won. */
  lemma {:induction false} FirstConnectionWins(addresses: seq<Address>, events: seq<Event>, k: nat)
    requires k < |events| && events[k].Connects?
    requires Play(addresses, events[..k]).result == None && events[k].i in Play(addresses, events[..k]).attempts
    ensures Play(addresses, events).result == Some(Ok(events[k].stream))
  {
    var last := |events| - 1;
    if k < last {
      assert events[..last][..k] == events[..k];
      FirstConnectionWins(addresses, events[..last], k);
    }
  }

  /** The race as the loop runs it, over the events it wakes up to; no result while it is still on. */
  method RunRace(addresses: seq<Address>, events: seq<Event>) returns (result: Option<Result<nat, Error>>, started: seq<Address>)
    ensures result == Play(addresses, events).result
    ensures started == Play(addresses, events).started
  {
    var waiting, attempts: set<nat>, lastError: Option<nat> := addresses, {}, None;
    started := [];
    ghost var failed: set<nat> := {};
    var seen := 0;
    while true
      invariant seen <= |events|
      invariant Top(Race(waiting, started, attempts, failed, lastError, None)) == Play(addresses, events[..seen])
      decreases |events| - seen
    {
      if attempts == {} {
        if waiting == [] {
          result := Some(Err(if lastError == None then NotFound else Failed(lastError.value)));
          Settled(addresses, events, seen);
          return;
        }
        attempts := attempts + {|started|};
        started, waiting := started + [waiting[0]], waiting[1..];
      }
      if seen == |events| {
        assert events[..seen] == events;
        return None, started;
      }
      assert events[..seen + 1][..seen] == events[..seen];
      match events[seen] {
        case Connects(i, stream) =>
          if i in attempts {
            result := Some(Ok(stream));
            Settled(addresses, events, seen + 1);
            return;
          }
        case Fails(i, code) =>
          if i in attempts {
            attempts, failed, lastError := attempts - {i}, failed + {i}, Some(code);
            if waiting != [] {
              attempts := attempts + {|started|};
              started, waiting := started + [waiting[0]], waiting[1..];
            }
          }
        case DelayPasses =>
          if waiting != [] {
            attempts := attempts + {|started|};
            started, waiting := started + [waiting[0]], waiting[1..];
          }
      }
      seen := seen + 1;
    }
  }

  lemma {:induction false} Settled(addresses: seq<Address>, events: seq<Event>, seen: nat)
    requires seen <= |events| && Play(addresses, events[..seen]).result != None
    ensures Play(addresses, events) == Play(addresses, events[..seen])
  {
    if seen == |events| {
      assert events[..seen] == events;
    } else {
      assert events[..|events| - 1][..seen] == events[..seen];
      Settled(addresses, events[..|events| - 1], seen);
    }
  }

  // ---- when attempts start ----

  function Least(a: nat, b: nat): (m: nat) {
    if a < b then a else b
  }

  /** Of `n` addresses, how many have been tried after these events: one at once, and one more for each time
      the delay passed or a running attempt failed. */
  function StartedBy(n: nat, events: seq<Event>): (k: nat)
    decreases |events|, 1
  {
    Least(n, 1 + Wakes(n, events))
  }

  function Wakes(n: nat, events: seq<Event>): (k: nat)
    decreases |events|, 0
  {
    if events == [] then 0
    else
      var before, e := events[..|events| - 1], events[|events| - 1];
      Wakes(n, before) + if e.DelayPasses? || (e.Fails? && Running(n, before, e.i)) then 1 else 0
  }

  /** The attempt has started and has not failed. */
  predicate Running(n: nat, events: seq<Event>, i: nat)
    decreases |events|, 2
  {
    i < StartedBy(n, events) && !HasFailed(n, events, i)
  }

  predicate HasFailed(n: nat, events: seq<Event>, i: nat)
    decreases |events|, 0
  {
    events != [] &&
    var before, e := events[..|events| - 1], events[|events| - 1];
    HasFailed(n, before, i) || (e.Fails? && e.i == i && Running(n, before, i))
  }

  /** The race tries what the events say: while it is on, exactly that many addresses have been tried, and
      exactly those of them that have not failed are running. */
  ghost predicate OnSchedule(r: Race, n: nat, events: seq<Event>) {
    && |r.started| == StartedBy(n, events)
    && (forall i: nat :: i in r.attempts <==> Running(n, events, i))
    && (forall i: nat :: i in r.failed <==> HasFailed(n, events, i))
  }

  lemma StartsOnSchedule(addresses: seq<Address>)
    requires addresses != []
    ensures OnSchedule(Begin(addresses), |addresses|, [])
  {}

  /** A delay, or the failure of a running attempt, starts the next address at once; nothing else does. */
  lemma SeeOnSchedule(addresses: seq<Address>, r: Race, events: seq<Event>)
    requires events != [] && RaceOk(r, addresses) && r.result == None && See(r, events[|events| - 1]).result == None
    requires OnSchedule(r, |addresses|, events[..|events| - 1])
    ensures OnSchedule(See(r, events[|events| - 1]), |addresses|, events)
  {
    var n, before, e := |addresses|, events[..|events| - 1], events[|events| - 1];
    var r' := See(r, e);
    assert |r.started| + |r.waiting| == n;
    assert e.Fails? ==> (e.i in r.attempts <==> Running(n, before, e.i));
    var wakes := e.DelayPasses? || (e.Fails? && e.i in r.attempts);
    assert r' == (if wakes then StartNext(if e.Fails? then r.(attempts := r.attempts - {e.i}, failed := r.failed + {e.i}, lastError := Some(e.code)) else r) else r);
    assert Wakes(n, events) == Wakes(n, before) + if wakes then 1 else 0;
    assert |r'.started| == StartedBy(n, events);
    forall i: nat
      ensures i in r'.attempts <==> Running(n, events, i)
      ensures i in r'.failed <==> HasFailed(n, events, i)
    {
      assert i in r.attempts + r.failed <==> 0 <= i < |r.started|;
      assert i in r.attempts <==> Running(n, before, i);
      assert i in r.failed <==> HasFailed(n, before, i);
    }
  }

  lemma {:induction false} StartsInTime(addresses: seq<Address>, events: seq<Event>)
    requires Play(addresses, events).result == None
    ensures OnSchedule(Play(addresses, events), |addresses|, events)
  {
    if events == [] {
      StartsOnSchedule(addresses);
    } else {
      var before := events[..|events| - 1];
      StartsInTime(addresses, before);
      PlayKeeps(addresses, before);
      SeeOnSchedule(addresses, Play(addresses, before), events);
    }
  }
}
