/** The remembered gateways: what saving one does to the ring on disk, and which of them are tried
    again. */
module LastConn {
  import opened Wrappers

  const RECENT_CAP := 8

  datatype Record = Record(peer: string, profile: string, carrier: string, recent: seq<string>)

  datatype Entry = Entry(peer: string, profile: string, carrier: string)

  // ---- distinct entries ----

  function Without<T(==,!new)>(s: seq<T>, x: T): (r: seq<T>)
    ensures x !in r && |r| <= |s|
    ensures forall y :: y in r <==> y in s && y != x
  {
    if s == [] then []
    else if s[0] == x then Without(s[1..], x)
    else [s[0]] + Without(s[1..], x)
  }

  /** Every entry once, where it first stands. */
  function Distinct<T(==,!new)>(s: seq<T>): (r: seq<T>)
    ensures forall y :: y in r <==> y in s
  {
    if s == [] then [] else [s[0]] + Without(Distinct(s[1..]), s[0])
  }

  function Take<T>(s: seq<T>, n: nat): (r: seq<T>)
    ensures |r| == (if |s| < n then |s| else n) && r <= s
  {
    if |s| < n then s else s[..n]
  }

  predicate NoRepeats<T(==,!new)>(s: seq<T>) {
    forall i, j :: 0 <= i < j < |s| ==> s[i] != s[j]
  }

  lemma {:induction false} WithoutKeepsNoRepeats<T(!new)>(s: seq<T>, x: T)
    requires NoRepeats(s)
    ensures NoRepeats(Without(s, x))
  {
    if s != [] {
      WithoutKeepsNoRepeats(s[1..], x);
      assert s[0] !in s[1..];
    }
  }

  lemma {:induction false} DistinctHasNoRepeats<T(!new)>(s: seq<T>)
    ensures NoRepeats(Distinct(s))
  {
    if s != [] {
      DistinctHasNoRepeats(s[1..]);
      WithoutKeepsNoRepeats(Distinct(s[1..]), s[0]);
    }
  }

  function FirstAt<T(==,!new)>(s: seq<T>, x: T): (i: nat)
    requires x in s
    ensures i < |s| && s[i] == x && x !in s[..i]
  {
    if s[0] == x then 0
    else
      assert s == [s[0]] + s[1..];
      var i := FirstAt(s[1..], x);
      assert s[..i + 1] == [s[0]] + s[1..][..i];
      i + 1
  }

  /** Distinct entries stand in the order they first stood in. */
  lemma {:induction false} DistinctKeepsOrder<T(!new)>(s: seq<T>, i: nat, j: nat)
    requires i < j < |Distinct(s)|
    ensures Distinct(s)[i] in s && Distinct(s)[j] in s
    ensures FirstAt(s, Distinct(s)[i]) < FirstAt(s, Distinct(s)[j])
  {
    hide *;
    var d, left := Distinct(s), Without(Distinct(s[1..]), s[0]);
    DistinctCons(s, d[i]);
    assert d[i] in d && d[j] in d;
    assert d[j] == left[j - 1] && left[j - 1] in left;
    FirstAtTail(s, d[j]);
    if i > 0 {
      assert d[i] == left[i - 1] && left[i - 1] in left;
      FirstAtTail(s, d[i]);
      var a, b := WithoutAt(Distinct(s[1..]), s[0], i - 1, j - 1);
      DistinctKeepsOrder(s[1..], a, b);
    }
  }

  lemma DistinctCons<T(!new)>(s: seq<T>, x: T)
    requires x in Distinct(s)
    ensures s != [] && Distinct(s) == [s[0]] + Without(Distinct(s[1..]), s[0])
    ensures x in s && FirstAt(s, s[0]) == 0
  {}

  lemma FirstAtTail<T(!new)>(s: seq<T>, x: T)
    requires s != [] && x in s && x != s[0]
    ensures x in s[1..] && FirstAt(s, x) == FirstAt(s[1..], x) + 1
  {
    assert s == [s[0]] + s[1..];
  }

  /** Two entries that are left stood in the same order before. */
  lemma {:induction false} WithoutAt<T(!new)>(s: seq<T>, x: T, i: nat, j: nat) returns (a: nat, b: nat)
    requires i < j < |Without(s, x)|
    ensures a < b < |s| && s[a] == Without(s, x)[i] && s[b] == Without(s, x)[j]
  {
    if s[0] == x {
      a, b := WithoutAt(s[1..], x, i, j);
      a, b := a + 1, b + 1;
    } else if i == 0 {
      a := 0;
      b := WithoutAtOne(s[1..], x, j - 1);
      b := b + 1;
    } else {
      a, b := WithoutAt(s[1..], x, i - 1, j - 1);
      a, b := a + 1, b + 1;
    }
  }

  lemma {:induction false} WithoutAtOne<T(!new)>(s: seq<T>, x: T, i: nat) returns (a: nat)
    requires i < |Without(s, x)|
    ensures a < |s| && s[a] == Without(s, x)[i]
  {
    if s[0] == x {
      a := WithoutAtOne(s[1..], x, i);
      a := a + 1;
    } else if i == 0 {
      a := 0;
    } else {
      a := WithoutAtOne(s[1..], x, i - 1);
      a := a + 1;
    }
  }

  // ---- saving ----

  function CarriedOver(previous: Option<Record>, carrier: string): (recent: seq<string>) {
    if previous != None && (previous.value.carrier == "" || previous.value.carrier == carrier) then previous.value.recent else []
  }

  function Saved(previous: Option<Record>, e: Entry): (r: Record) {
    Record(e.peer, e.profile, e.carrier, [e.peer] + Take(Without(CarriedOver(previous, e.carrier), e.peer), RECENT_CAP - 1))
  }

  method Save(previous: Option<Record>, e: Entry) returns (r: Record)
    ensures r == Saved(previous, e)
  {
    var carried := CarriedOver(previous, e.carrier);
    var recent := [e.peer];
    assert carried[..0] == [];
    for i := 0 to |carried|
      invariant recent == [e.peer] + Take(Without(carried[..i], e.peer), RECENT_CAP - 1)
    {
      WithoutMore(carried, e.peer, i);
      if carried[i] != e.peer && |recent| < RECENT_CAP {
        recent := recent + [carried[i]];
      }
    }
    assert carried[..|carried|] == carried;
    r := Record(e.peer, e.profile, e.carrier, recent);
  }

  lemma WithoutMore<T(!new)>(s: seq<T>, x: T, i: nat)
    requires i < |s|
    ensures Without(s[..i + 1], x) == if s[i] == x then Without(s[..i], x) else Without(s[..i], x) + [s[i]]
  {
    assert s[..i + 1] == s[..i] + [s[i]];
    WithoutAppend(s[..i], s[i], x);
  }

  lemma {:induction false} WithoutAppend<T(!new)>(s: seq<T>, y: T, x: T)
    ensures Without(s + [y], x) == if y == x then Without(s, x) else Without(s, x) + [y]
  {
    if s == [] {
      assert s + [y] == [y];
    } else {
      assert (s + [y])[1..] == s[1..] + [y];
      WithoutAppend(s[1..], y, x);
    }
  }

  /** The file after these saves, the oldest first. */
  function File(saves: seq<Entry>): (r: Option<Record>) {
    if saves == [] then None else Some(Saved(File(saves[..|saves| - 1]), saves[|saves| - 1]))
  }

  /** The peers saved since the carrier last changed, the newest first. */
  function SinceChange(saves: seq<Entry>): (peers: seq<string>) {
    if saves == [] then []
    else
      var last := saves[|saves| - 1];
      var before := saves[..|saves| - 1];
      if before != [] && (before[|before| - 1].carrier == "" || before[|before| - 1].carrier == last.carrier)
      then [last.peer] + SinceChange(before)
      else [last.peer]
  }

  lemma {:induction false} TakeThenWithout<T(!new)>(s: seq<T>, x: T, n: nat)
    requires NoRepeats(s)
    ensures Take(Without(Take(s, n + 1), x), n) == Take(Without(s, x), n)
    decreases |s|, n
  {
    if |s| > n + 1 {
      assert s == [s[0]] + s[1..];
      assert Take(s, n + 1) == [s[0]] + Take(s[1..], n);
      if s[0] == x {
        assert x !in s[1..];
        WithoutAbsent(s[1..], x);
        WithoutAbsent(Take(s[1..], n), x);
      } else if n > 0 {
        TakeThenWithout(s[1..], x, n - 1);
      }
    } else {
      assert Take(s, n + 1) == s;
    }
  }

  lemma {:induction false} WithoutAbsent<T(!new)>(s: seq<T>, x: T)
    requires x !in s
    ensures Without(s, x) == s
  {
    if s != [] {
      WithoutAbsent(s[1..], x);
    }
  }

  /** After any saves from no file, the ring is the first eight of the distinct peers saved since the last
      change of carrier, the newest first. */
  lemma {:induction false} RingIsRecentHistory(saves: seq<Entry>)
    requires saves != []
    ensures File(saves).value.recent == Take(Distinct(SinceChange(saves)), RECENT_CAP)
    ensures File(saves).value.peer == saves[|saves| - 1].peer && File(saves).value.carrier == saves[|saves| - 1].carrier
  {
    var before, last := saves[..|saves| - 1], saves[|saves| - 1];
    if before != [] {
      RingIsRecentHistory(before);
      if before[|before| - 1].carrier == "" || before[|before| - 1].carrier == last.carrier {
        var history := SinceChange(before);
        DistinctHasNoRepeats(history);
        TakeThenWithout(Distinct(history), last.peer, RECENT_CAP - 1);
        assert SinceChange(saves)[1..] == history;
        assert Distinct(SinceChange(saves)) == [last.peer] + Without(Distinct(history), last.peer);
      }
    }
  }

  // ---- what is tried again ----

  function Parsed(raw: seq<string>, parse: string -> Option<nat>): (addresses: seq<nat>) {
    if raw == [] then []
    else
      var before := Parsed(raw[..|raw| - 1], parse);
      var last := parse(raw[|raw| - 1]);
      if last == None then before else before + [last.value]
  }

  lemma {:induction false} DistinctMore<T(!new)>(s: seq<T>, y: T)
    ensures Distinct(s + [y]) == if y in s then Distinct(s) else Distinct(s) + [y]
  {
    if s == [] {
      assert s + [y] == [y];
    } else {
      assert (s + [y])[1..] == s[1..] + [y];
      DistinctMore(s[1..], y);
      WithoutAppend(Distinct(s[1..]), y, s[0]);
    }
  }

  /** The addresses of the record that can be read as one, each once, the saved peer first; none when the
      record is of another carrier. */
  method UsablePeers(cached: Record, carrier: string, parse: string -> Option<nat>) returns (out: seq<nat>)
    ensures cached.carrier != "" && cached.carrier != carrier ==> out == []
    ensures cached.carrier == "" || cached.carrier == carrier ==> out == Distinct(Parsed([cached.peer] + cached.recent, parse))
  {
    out := [];
    if cached.carrier != "" && cached.carrier != carrier {
      return;
    }
    var all := [cached.peer] + cached.recent;
    var seen: set<nat> := {};
    assert all[..0] == [];
    for i := 0 to |all|
      invariant out == Distinct(Parsed(all[..i], parse))
      invariant forall a :: a in seen <==> a in out
    {
      assert all[..i + 1][..i] == all[..i];
      var address := parse(all[i]);
      if address != None {
        DistinctMore(Parsed(all[..i], parse), address.value);
        if address.value !in seen {
          seen := seen + {address.value};
          out := out + [address.value];
        }
      }
    }
    assert all[..|all|] == all;
  }

  /** What was saved is what is tried again, in the order of the history, on the carrier it was saved for
      and on no other. */
  lemma {:induction false} UsableAfterSaves(saves: seq<Entry>, parse: string -> Option<nat>)
    requires saves != []
    ensures
      var r := File(saves).value;
      Distinct(Parsed([r.peer] + r.recent, parse)) == Distinct(Parsed(Take(Distinct(SinceChange(saves)), RECENT_CAP), parse))
  {
    RingIsRecentHistory(saves);
    var r := File(saves).value;
    assert r.recent[0] == r.peer;
    RepeatedPeer(r.peer, r.recent, parse);
  }

  lemma RepeatedPeer(peer: string, recent: seq<string>, parse: string -> Option<nat>)
    requires recent != [] && recent[0] == peer
    ensures Distinct(Parsed([peer] + recent, parse)) == Distinct(Parsed(recent, parse))
  {
    var one, rest := Parsed([peer], parse), Parsed(recent[1..], parse);
    ParsedAppend([peer], recent, parse);
    ParsedAppend([peer], recent[1..], parse);
    assert recent == [peer] + recent[1..];
    ParsedOne(peer, parse);
    assert Parsed([peer] + recent, parse) == one + (one + rest);
    if parse(peer) == None {
      assert one + (one + rest) == one + rest;
    } else {
      DistinctTwice(rest, parse(peer).value);
    }
  }

  lemma ParsedOne(peer: string, parse: string -> Option<nat>)
    ensures Parsed([peer], parse) == if parse(peer) == None then [] else [parse(peer).value]
  {
    assert [peer][..0] == [];
  }

  lemma {:induction false} ParsedAppend(a: seq<string>, b: seq<string>, parse: string -> Option<nat>)
    ensures Parsed(a + b, parse) == Parsed(a, parse) + Parsed(b, parse)
  {
    if b == [] {
      assert a + b == a;
    } else {
      assert (a + b)[..|a + b| - 1] == a + b[..|b| - 1];
      ParsedAppend(a, b[..|b| - 1], parse);
    }
  }

  lemma DistinctTwice<T(!new)>(s: seq<T>, x: T)
    ensures Distinct([x] + ([x] + s)) == Distinct([x] + s)
  {
    var once := [x] + s;
    assert once[1..] == s && ([x] + once)[1..] == once;
    var rest := Without(Distinct(s), x);
    assert Distinct(once) == [x] + rest;
    WithoutAbsent(rest, x);
    assert ([x] + rest)[1..] == rest;
  }
}
