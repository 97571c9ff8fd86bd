/** The receiving side of a session: the loop that reads frames off the connection, hands payload to
    the streams and answers control frames. */
module Receiver {
  import opened Bytes
  import opened Wrappers
  import opened Frames
  import Padding
  import Numbers = Text

  const ALERT_NO_SETTINGS := "client did not send its settings"

  /** What the loop works on. `room` is how many replies the connection will still take, `dead` the streams
      closed by their users or with the session, and `hooks` how often the session's die hook was called. */
  datatype State = State(
    isClient: bool,
    md5: string,
    scheme: seq<byte>,
    room: nat,
    streams: set<nat>,
    dead: set<nat>,
    receivedSettings: bool,
    peerVersion: byte,
    handed: map<nat, seq<byte>>,
    replies: seq<Frame>,
    alerted: bool,
    stopped: bool,
    hooks: nat)

  predicate Open(s: State, sid: nat) {
    sid in s.streams && sid !in s.dead
  }

  function Handed(s: State, sid: nat): (b: seq<byte>)
  {
    if sid in s.handed then s.handed[sid] else []
  }

  // ---- settings ----

  function Text(b: seq<byte>): (s: string)
  {
    seq(|b|, i requires 0 <= i < |b| => b[i] as char)
  }

  function Octets(s: string): (b: seq<byte>)
  {
    seq(|s|, i requires 0 <= i < |s| => s[i] as int % 256)
  }

  function FirstIndex(s: string, c: char): (i: nat)
    ensures i <= |s|
  {
    if s == [] || s[0] == c then 0 else 1 + FirstIndex(s[1..], c)
  }

  /** Lines of the form key=value, split at the first '='; of two lines with one key the last counts. */
  function StringMap(lines: seq<string>): (m: map<string, string>)
  {
    if lines == [] then map[]
    else
      var init := StringMap(lines[..|lines| - 1]);
      var line := lines[|lines| - 1];
      var i := FirstIndex(line, '=');
      if i < |line| then init[line[..i] := line[i + 1..]] else init
  }

  function Lookup(m: map<string, string>, key: string): (value: string)
  {
    if key in m then m[key] else ""
  }

  function Settings(data: seq<byte>): (m: map<string, string>)
  {
    StringMap(Padding.Split(Text(data), '\n'))
  }

  /** A setting, as it is written into a settings frame. */
  datatype Setting = Setting(key: string, value: string)

  function Line(p: Setting): (s: string)
  {
    p.key + "=" + p.value
  }

  function SettingLines(ps: seq<Setting>): (ls: seq<string>)
    ensures |ls| == |ps|
  {
    if ps == [] then [] else SettingLines(ps[..|ps| - 1]) + [Line(ps[|ps| - 1])]
  }

  function SettingMap(ps: seq<Setting>): (m: map<string, string>)
  {
    if ps == [] then map[] else SettingMap(ps[..|ps| - 1])[ps[|ps| - 1].key := ps[|ps| - 1].value]
  }

  predicate Plain(s: string) {
    forall i :: 0 <= i < |s| ==> (s[i] as int) < 256 && s[i] != '\n'
  }

  predicate GoodSetting(p: Setting) {
    Plain(p.key) && Plain(p.value) && '=' !in p.key
  }

  /** The bytes of a settings frame. */
  function WriteSettings(ps: seq<Setting>): (b: seq<byte>)
    requires ps != []
  {
    Octets(Padding.Join(SettingLines(ps), '\n'))
  }

  lemma {:induction false} FirstEquals(key: string, value: string)
    requires '=' !in key
    ensures FirstIndex(key + "=" + value, '=') == |key|
  {
    var line := key + "=" + value;
    if key != [] {
      FirstEquals(key[1..], value);
      assert line[1..] == key[1..] + "=" + value;
    }
  }

  lemma {:induction false} LinesAreRead(ps: seq<Setting>)
    requires forall i :: 0 <= i < |ps| ==> GoodSetting(ps[i])
    ensures StringMap(SettingLines(ps)) == SettingMap(ps)
    ensures forall i :: 0 <= i < |ps| ==> Plain(SettingLines(ps)[i])
  {
    if ps != [] {
      var init, last := ps[..|ps| - 1], ps[|ps| - 1];
      LinesAreRead(init);
      FirstEquals(last.key, last.value);
      var ls := SettingLines(ps);
      assert ls[..|ls| - 1] == SettingLines(init);
      assert Line(last)[..|last.key|] == last.key && Line(last)[|last.key| + 1..] == last.value;
    }
  }

  predicate Narrow(s: string) {
    forall i :: 0 <= i < |s| ==> (s[i] as int) < 256
  }

  lemma OctetsRoundTrip(s: string)
    requires Narrow(s)
    ensures Text(Octets(s)) == s
  {
  }

  lemma {:induction false} JoinedIsNarrow(ls: seq<string>)
    requires ls != [] && forall i :: 0 <= i < |ls| ==> Plain(ls[i])
    ensures Narrow(Padding.Join(ls, '\n'))
    decreases |ls|
  {
    if |ls| > 1 {
      JoinedIsNarrow(ls[1..]);
    }
  }

  /** The settings read from a settings frame are those it was written from. */
  lemma SettingsRoundTrip(ps: seq<Setting>)
    requires ps != [] && forall i :: 0 <= i < |ps| ==> GoodSetting(ps[i])
    ensures Settings(WriteSettings(ps)) == SettingMap(ps)
  {
    var ls := SettingLines(ps);
    LinesAreRead(ps);
    hide GoodSetting, Octets, Text, StringMap, SettingLines;
    JoinedIsNarrow(ls);
    OctetsRoundTrip(Padding.Join(ls, '\n'));
    NoNewline(ls);
    Padding.SplitJoined(ls, '\n');
  }

  lemma NoNewline(ls: seq<string>)
    requires forall i :: 0 <= i < |ls| ==> Plain(ls[i])
    ensures forall i :: 0 <= i < |ls| ==> '\n' !in ls[i]
  {
    forall i | 0 <= i < |ls| ensures '\n' !in ls[i] {
      assert Plain(ls[i]);
    }
  }

  /** The value of the first setting with this key, or nothing. */
  function ValueOf(ps: seq<Setting>, key: string): (value: string)
  {
    if ps == [] then "" else if ps[0].key == key then ps[0].value else ValueOf(ps[1..], key)
  }

  predicate DistinctKeys(ps: seq<Setting>) {
    forall i, j :: 0 <= i < j < |ps| ==> ps[i].key != ps[j].key
  }

  /** With one value for each key, a key is looked up as that value, and any other as nothing. */
  lemma LookedUp(ps: seq<Setting>, key: string)
    requires DistinctKeys(ps)
    ensures Lookup(SettingMap(ps), key) == ValueOf(ps, key)
  {
    if i :| 0 <= i < |ps| && ps[i].key == key {
      InMap(ps, i);
      ValueIs(ps, i);
    } else {
      NotInMap(ps, key);
      NoValue(ps, key);
    }
  }

  lemma {:induction false} InMap(ps: seq<Setting>, i: nat)
    requires DistinctKeys(ps) && i < |ps|
    ensures ps[i].key in SettingMap(ps) && SettingMap(ps)[ps[i].key] == ps[i].value
  {
    if i < |ps| - 1 {
      InMap(ps[..|ps| - 1], i);
    }
  }

  lemma {:induction false} NotInMap(ps: seq<Setting>, key: string)
    requires forall i :: 0 <= i < |ps| ==> ps[i].key != key
    ensures key !in SettingMap(ps)
  {
    if ps != [] {
      NotInMap(ps[..|ps| - 1], key);
    }
  }

  lemma {:induction false} ValueIs(ps: seq<Setting>, i: nat)
    requires DistinctKeys(ps) && i < |ps|
    ensures ValueOf(ps, ps[i].key) == ps[i].value
    decreases i
  {
    if i > 0 {
      ValueIs(ps[1..], i - 1);
    }
  }

  lemma {:induction false} NoValue(ps: seq<Setting>, key: string)
    requires forall i :: 0 <= i < |ps| ==> ps[i].key != key
    ensures ValueOf(ps, key) == ""
    decreases |ps|
  {
    if ps != [] {
      NoValue(ps[1..], key);
    }
  }

  // ---- one frame ----

  /** The session ends once: its hook is called, and the streams in its table die and leave it. */
  function Stop(s: State): (t: State)
  {
    s.(stopped := true,
       hooks := if s.stopped then s.hooks else s.hooks + 1,
       dead := if s.stopped then s.dead else s.dead + s.streams,
       streams := if s.stopped then s.streams else {})
  }

  /** A control frame in answer; one that does not go out ends the session. */
  function Reply(s: State, f: Frame): (t: State)
  {
    if s.stopped then s
    else if s.room == 0 then Stop(s)
    else s.(room := s.room - 1, replies := s.replies + [f])
  }

  function OnPush(s: State, f: Frame): (t: State)
  {
    if f.data != [] && Open(s, f.sid)
    then s.(handed := s.handed[f.sid := Handed(s, f.sid) + f.data])
    else s
  }

  function OnSyn(s: State, f: Frame): (t: State)
  {
    if !s.isClient && !s.receivedSettings
    then Stop(Reply(s, Frame(CMD_ALERT, 0, Octets(ALERT_NO_SETTINGS))).(alerted := true))
    else s.(streams := s.streams + {f.sid}, dead := if f.sid in s.streams then s.dead else s.dead - {f.sid})
  }

  function OnSynAck(s: State, f: Frame): (t: State)
  {
    if f.data != [] && Open(s, f.sid)
    then var t := Reply(s, Frame(CMD_FIN, f.sid, [])); t.(streams := t.streams - {f.sid})
    else s
  }

  function OnSettings(s: State, f: Frame): (t: State)
  {
    if f.data == [] || s.isClient then s
    else
      var m := Settings(f.data);
      var s1 := s.(receivedSettings := true);
      var s2 := if Lookup(m, "padding-md5") == s.md5 then s1
                else Reply(s1, Frame(CMD_UPDATE_PADDING_SCHEME, 0, s.scheme));
      match Padding.ParseInt(Lookup(m, "v"))
      case Some(v) =>
        if s2.stopped || v < 2 then s2
        else Reply(s2.(peerVersion := v % 256), Frame(CMD_SERVER_SETTINGS, 0, Octets("v=2")))
      case None => s2
  }

  function OnServerSettings(s: State, f: Frame): (t: State)
  {
    if f.data == [] || !s.isClient then s
    else
      match Padding.ParseInt(Lookup(Settings(f.data), "v"))
      case Some(v) => s.(peerVersion := v % 256)
      case None => s
  }

  /** What the loop does with one frame. */
  function Handle(s: State, f: Frame): (t: State)
  {
    if f.cmd == CMD_PSH then OnPush(s, f)
    else if f.cmd == CMD_SYN then OnSyn(s, f)
    else if f.cmd == CMD_SYNACK then OnSynAck(s, f)
    else if f.cmd == CMD_FIN then s.(streams := s.streams - {f.sid})
    else if f.cmd == CMD_SETTINGS then OnSettings(s, f)
    else if f.cmd == CMD_ALERT then (if f.data == [] then s else Stop(s))
    else if f.cmd == CMD_HEART_REQUEST then Reply(s, Frame(CMD_HEART_RESPONSE, f.sid, []))
    else if f.cmd == CMD_SERVER_SETTINGS then OnServerSettings(s, f)
    else s
  }

  function HandleAll(s: State, fs: seq<Frame>): (t: State)
    decreases |fs|
  {
    if fs == [] || s.stopped then s else HandleAll(Handle(s, fs[0]), fs[1..])
  }

  // ---- what is answered ----

  /** What a server answers to settings with this md5 and version: its padding scheme to a client that has
      another one, and then its own settings to a client of version two or more. */
  function SettingsAnswer(s: State, md5: string, version: Option<int>): (fs: seq<Frame>)
  {
    (if md5 != s.md5 then [Frame(CMD_UPDATE_PADDING_SCHEME, 0, s.scheme)] else [])
    + (if version.Some? && version.value >= 2 then [Frame(CMD_SERVER_SETTINGS, 0, Octets("v=2"))] else [])
  }

  lemma SettingsAreAnswered(s: State, f: Frame)
    requires !s.isClient && !s.stopped && s.room >= 2 && f.cmd == CMD_SETTINGS && f.data != []
    ensures
      var md5, version := Lookup(Settings(f.data), "padding-md5"), Padding.ParseInt(Lookup(Settings(f.data), "v"));
      var t := Handle(s, f);
      && t.replies == s.replies + SettingsAnswer(s, md5, version)
      && t.receivedSettings && !t.stopped && t.streams == s.streams
      && t.peerVersion == if version.Some? && version.value >= 2 then version.value % 256 else s.peerVersion
  {
    hide Settings, Lookup, Padding.ParseInt, Octets;
  }

  /** A server that reads the settings a client wrote, in whatever order its map gave them: it answers with
      its padding scheme exactly when the client's is another one, and then with its own settings exactly
      when the client's version is at least two, and notes that version. */
  lemma ServerAnswersSettings(s: State, ps: seq<Setting>)
    requires !s.isClient && !s.stopped && s.room >= 2
    requires ps != [] && DistinctKeys(ps) && forall i :: 0 <= i < |ps| ==> GoodSetting(ps[i])
    requires 0 < |WriteSettings(ps)| <= MAX_PAYLOAD
    ensures
      var t := HandleAll(s, Parse(Encode(Frame(CMD_SETTINGS, 0, WriteSettings(ps)))).frames);
      var version := Padding.ParseInt(ValueOf(ps, "v"));
      && t.replies == s.replies
        + (if ValueOf(ps, "padding-md5") != s.md5 then [Frame(CMD_UPDATE_PADDING_SCHEME, 0, s.scheme)] else [])
        + (if version.Some? && version.value >= 2 then [Frame(CMD_SERVER_SETTINGS, 0, Octets("v=2"))] else [])
      && t.peerVersion == (if version.Some? && version.value >= 2 then version.value % 256 else s.peerVersion)
      && t.receivedSettings && !t.stopped
  {
    hide Handle, Settings, WriteSettings, SettingMap, Lookup, ValueOf, Padding.ParseInt, Encode, Parse, Octets, GoodSetting;
    var f := Frame(CMD_SETTINGS, 0, WriteSettings(ps));
    OneFrame(f);
    SettingsRoundTrip(ps);
    LookedUp(ps, "padding-md5");
    LookedUp(ps, "v");
    SettingsAreAnswered(s, f);
    HandledOne(s, f);
  }

  lemma OneFrame(f: Frame)
    requires Sendable(f)
    ensures Parse(Encode(f)).frames == [f]
  {
    StreamRoundTrip([f], []);
    assert EncodeAll([f]) == Encode(f) + EncodeAll([]);
    assert EncodeAll([f]) + [] == Encode(f);
    assert Parse([]) == Stream([], []);
    assert [f] + [] == [f];
  }

  lemma HandledOne(s: State, f: Frame)
    requires !s.stopped
    ensures HandleAll(s, [f]) == Handle(s, f)
  {
    hide Handle;
    assert [f][1..] == [];
  }

  /** The client notes the version of the server that answered it. */
  lemma ClientNotesVersion(s: State, version: nat)
    requires s.isClient && !s.stopped && version < Padding.INT64_LIMIT
    ensures
      var f := Frame(CMD_SERVER_SETTINGS, 0, WriteSettings([Setting("v", Numbers.Decimal(version))]));
      Handle(s, f) == s.(peerVersion := version % 256)
  {
    hide Settings, WriteSettings, SettingMap, Lookup, Padding.ParseInt, Numbers.Decimal;
    var ps := [Setting("v", Numbers.Decimal(version))];
    Numbers.DecimalIsDigits(version);
    DigitsArePlain(Numbers.Decimal(version));
    assert Plain("v");
    SettingsRoundTrip(ps);
    LookedUp(ps, "v");
    OneIsWritten(ps[0]);
    Padding.IntRoundTrip(version);
  }

  lemma OneIsWritten(p: Setting)
    ensures WriteSettings([p]) != []
  {
    assert [p][1..] == [];
    assert SettingLines([p]) == [Line(p)];
    assert |Line(p)| >= 1;
  }

  lemma DigitsArePlain(s: string)
    requires Numbers.AllDigits(s)
    ensures Plain(s)
  {
  }

  function Heartbeats(sids: seq<nat>, cmd: byte): (fs: seq<Frame>)
    ensures |fs| == |sids|
  {
    if sids == [] then [] else [Frame(cmd, sids[0], [])] + Heartbeats(sids[1..], cmd)
  }

  /** Every heartbeat is answered, in order and under its own number, while the connection takes replies. */
  lemma {:induction false} HeartbeatsAreAnswered(s: State, sids: seq<nat>)
    requires !s.stopped && s.room >= |sids|
    ensures HandleAll(s, Heartbeats(sids, CMD_HEART_REQUEST)) ==
      s.(replies := s.replies + Heartbeats(sids, CMD_HEART_RESPONSE), room := s.room - |sids|)
    decreases |sids|
  {
    hide Handle;
    if sids == [] {
      assert s.replies + [] == s.replies;
    } else {
      var t := Handle(s, Frame(CMD_HEART_REQUEST, sids[0], []));
      OneHeartbeat(s, sids[0]);
      HeartbeatsAreAnswered(t, sids[1..]);
      assert Heartbeats(sids, CMD_HEART_REQUEST)[1..] == Heartbeats(sids[1..], CMD_HEART_REQUEST);
      assert t.replies + Heartbeats(sids[1..], CMD_HEART_RESPONSE) == s.replies + Heartbeats(sids, CMD_HEART_RESPONSE);
    }
  }

  /** The first answer the connection does not take ends the session; those before it have gone out. */
  lemma {:induction false} FailedAnswerEndsSession(s: State, sids: seq<nat>)
    requires !s.stopped && s.room < |sids|
    ensures
      var t := HandleAll(s, Heartbeats(sids, CMD_HEART_REQUEST));
      t.stopped && t.replies == s.replies + Heartbeats(sids[..s.room], CMD_HEART_RESPONSE)
    decreases |sids|
  {
    hide Handle;
    var fs := Heartbeats(sids, CMD_HEART_REQUEST);
    var t := Handle(s, fs[0]);
    OneHeartbeat(s, sids[0]);
    if s.room == 0 {
      assert HandleAll(t, fs[1..]) == t;
      assert s.replies + Heartbeats(sids[..0], CMD_HEART_RESPONSE) == s.replies;
    } else {
      assert fs[1..] == Heartbeats(sids[1..], CMD_HEART_REQUEST);
      FailedAnswerEndsSession(t, sids[1..]);
      assert sids[..s.room][1..] == sids[1..][..t.room];
      assert t.replies + Heartbeats(sids[1..][..t.room], CMD_HEART_RESPONSE) == s.replies + Heartbeats(sids[..s.room], CMD_HEART_RESPONSE);
    }
  }

  lemma OneHeartbeat(s: State, sid: nat)
    requires !s.stopped
    ensures
      var t := Handle(s, Frame(CMD_HEART_REQUEST, sid, []));
      if s.room == 0 then t.stopped && t.replies == s.replies
      else t == s.(replies := s.replies + [Frame(CMD_HEART_RESPONSE, sid, [])], room := s.room - 1)
  {
  }

  // ---- which streams are open ----

  predicate Opens(f: Frame, sid: nat) {
    f.cmd == CMD_SYN && f.sid == sid
  }

  /** The peer's FIN, or the news that it could not open the stream. */
  predicate Ends(f: Frame, sid: nat) {
    f.sid == sid && (f.cmd == CMD_FIN || (f.cmd == CMD_SYNACK && f.data != []))
  }

  predicate NeverEnds(fs: seq<Frame>, sid: nat) {
    forall j :: 0 <= j < |fs| ==> !Ends(fs[j], sid)
  }

  /** Opened, or open before, and not ended since. */
  predicate OpenSince(fs: seq<Frame>, sid: nat, before: bool) {
    (before && NeverEnds(fs, sid)) || exists i :: 0 <= i < |fs| && Opens(fs[i], sid) && NeverEnds(fs[i + 1..], sid)
  }

  lemma OpenNext(fs: seq<Frame>, sid: nat, before: bool)
    requires fs != []
    ensures OpenSince(fs, sid, before) <==> OpenSince(fs[1..], sid, Opens(fs[0], sid) || (before && !Ends(fs[0], sid)))
  {
    var f, rest := fs[0], fs[1..];
    assert NeverEnds(fs, sid) <==> !Ends(f, sid) && NeverEnds(rest, sid) by {
      if !Ends(f, sid) && NeverEnds(rest, sid) {
        forall j | 0 <= j < |fs| ensures !Ends(fs[j], sid) {
          if j > 0 { assert fs[j] == rest[j - 1]; }
        }
      }
    }
    forall i | 1 <= i < |fs| ensures fs[i] == rest[i - 1] && fs[i + 1..] == rest[i..] {}
    hide Opens, Ends;
    if i :| 0 <= i < |fs| && Opens(fs[i], sid) && NeverEnds(fs[i + 1..], sid) {
      if i > 0 { assert Opens(rest[i - 1], sid) && NeverEnds(rest[i - 1 + 1..], sid); }
    }
    if i :| 0 <= i < |rest| && Opens(rest[i], sid) && NeverEnds(rest[i + 1..], sid) {
      assert Opens(fs[i + 1], sid) && NeverEnds(fs[i + 1 + 1..], sid);
    }
    if Opens(f, sid) && NeverEnds(rest, sid) {
      assert Opens(fs[0], sid) && NeverEnds(fs[0 + 1..], sid);
    }
  }

  lemma OpenAfterOne(s: State, f: Frame, sid: nat)
    requires !s.stopped && !Handle(s, f).stopped && (sid in s.dead ==> sid !in s.streams)
    ensures sid in Handle(s, f).dead ==> sid !in Handle(s, f).streams
    ensures Open(Handle(s, f), sid) <==> Opens(f, sid) || (Open(s, sid) && !Ends(f, sid))
  {
    if f.cmd == CMD_SYN || f.cmd == CMD_SYNACK || f.cmd == CMD_FIN {
      OpenAfterOwn(s, f, sid);
    } else {
      OpenAfterOther(s, f, sid);
    }
    hide Handle, Opens, Ends, Open;
  }

  lemma OpenAfterOwn(s: State, f: Frame, sid: nat)
    requires f.cmd == CMD_SYN || f.cmd == CMD_SYNACK || f.cmd == CMD_FIN
    requires !s.stopped && !Handle(s, f).stopped && (sid in s.dead ==> sid !in s.streams)
    ensures sid in Handle(s, f).dead ==> sid !in Handle(s, f).streams
    ensures Open(Handle(s, f), sid) <==> Opens(f, sid) || (Open(s, sid) && !Ends(f, sid))
  {
    hide OnSettings, OnServerSettings, OnPush, Octets, Reply;
    AnsweredTable(s, Frame(CMD_FIN, f.sid, []));
  }

  lemma OpenAfterOther(s: State, f: Frame, sid: nat)
    requires f.cmd != CMD_SYN && f.cmd != CMD_SYNACK && f.cmd != CMD_FIN && !s.stopped && !Handle(s, f).stopped
    ensures Handle(s, f).dead == s.dead && Handle(s, f).streams == s.streams && !Opens(f, sid) && !Ends(f, sid)
  {
    hide OnSettings, OnServerSettings, OnSyn, OnSynAck, Octets;
    SettingsKeepTable(s, f);
  }

  lemma AnsweredTable(s: State, f: Frame)
    ensures !Reply(s, f).stopped ==> Reply(s, f).streams == s.streams && Reply(s, f).dead == s.dead
  {
  }

  /** While a session goes on, a stream is open exactly when it was opened, or was open before, and neither a FIN
      nor an error from the peer has ended it since. */
  lemma {:induction false} OpenIs(s: State, fs: seq<Frame>, sid: nat)
    requires !s.stopped && !HandleAll(s, fs).stopped && (sid in s.dead ==> sid !in s.streams)
    ensures Open(HandleAll(s, fs), sid) <==> OpenSince(fs, sid, Open(s, sid))
    decreases |fs|
  {
    hide Handle, Opens, Ends;
    if fs != [] {
      OpenNext(fs, sid, Open(s, sid));
      OpenAfterOne(s, fs[0], sid);
      OpenIs(Handle(s, fs[0]), fs[1..], sid);
      hide OpenSince, Open;
    }
  }

  /** A stream the peer could not open is ended towards the peer as well. */
  lemma ErrorIsAnswered(s: State, f: Frame)
    requires !s.stopped && s.room >= 1 && f.cmd == CMD_SYNACK && f.data != [] && Open(s, f.sid)
    ensures
      var t := Handle(s, f);
      !t.stopped && t.replies == s.replies + [Frame(CMD_FIN, f.sid, [])] && !Open(t, f.sid)
  {
  }

  /** An alert ends the session, and nothing behind it is handled. */
  lemma {:induction false} AlertEndsSession(s: State, fs: seq<Frame>, i: nat)
    requires i < |fs| && fs[i].cmd == CMD_ALERT && fs[i].data != []
    ensures HandleAll(s, fs).stopped && HandleAll(s, fs) == HandleAll(s, fs[..i + 1])
    decreases |fs|
  {
    var part := fs[..i + 1];
    assert part[0] == fs[0];
    if !s.stopped {
      if i == 0 {
        assert part[1..] == [];
        assert HandleAll(Handle(s, fs[0]), fs[1..]) == Handle(s, fs[0]);
      } else {
        hide Handle;
        assert part[1..] == fs[1..][..i];
        AlertEndsSession(Handle(s, fs[0]), fs[1..], i - 1);
      }
    }
  }

  /** A stream opened before any settings is refused with an alert, and the session ends. */
  lemma SynNeedsSettings(s: State, f: Frame)
    requires !s.isClient && !s.stopped && s.room >= 1 && !s.receivedSettings && f.cmd == CMD_SYN
    ensures
      var t := Handle(s, f);
      t.stopped && t.streams == {} && t.replies == s.replies + [Frame(CMD_ALERT, 0, Octets("client did not send its settings"))]
  {
  }

  /** A session that has ended has no stream left in its table and called its hook just once. */
  predicate Ending(s: State) {
    s.hooks == (if s.stopped then 1 else 0) && (s.stopped ==> s.streams == {})
  }

  lemma HandleKeepsEnding(s: State, f: Frame)
    requires Ending(s) && !s.stopped
    ensures Ending(Handle(s, f)) && s.streams - {f.sid} <= Handle(s, f).streams + Handle(s, f).dead
  {
    hide Settings, Octets, Lookup, Padding.ParseInt;
  }

  /** Whatever frames come, the loop closes its session once: the hook is called once, the table is empty,
      and every stream that was in it is dead unless a frame of its own has ended it. */
  lemma {:induction false} ClosedOnce(s: State, fs: seq<Frame>, sid: nat)
    requires Ending(s) && !s.stopped && sid in s.streams && forall i :: 0 <= i < |fs| ==> fs[i].sid != sid
    ensures
      var t := Stop(HandleAll(s, fs));
      t.stopped && t.hooks == 1 && t.streams == {} && sid in t.dead
    decreases |fs|
  {
    hide Handle;
    if fs != [] {
      HandleKeepsEnding(s, fs[0]);
      var next := Handle(s, fs[0]);
      if next.stopped {
        assert HandleAll(next, fs[1..]) == next;
        assert sid in s.streams - {fs[0].sid};
      } else {
        assert sid in s.streams - {fs[0].sid};
        Unclosed(s, fs[0], sid);
        ClosedOnce(next, fs[1..], sid);
      }
    }
  }

  /** A frame for another stream that does not end the session leaves this one in the table. */
  lemma Unclosed(s: State, f: Frame, sid: nat)
    requires !s.stopped && sid in s.streams && f.sid != sid && !Handle(s, f).stopped
    ensures sid in Handle(s, f).streams
  {
    hide OnSettings, OnServerSettings, Octets;
    SettingsKeepTable(s, f);
  }

  lemma SettingsKeepTable(s: State, f: Frame)
    ensures !OnSettings(s, f).stopped ==> OnSettings(s, f).streams == s.streams && OnSettings(s, f).dead == s.dead
    ensures OnServerSettings(s, f).streams == s.streams && OnServerSettings(s, f).dead == s.dead
    ensures OnServerSettings(s, f).stopped == s.stopped
  {
    hide Settings, Octets, Lookup, Padding.ParseInt;
  }

  // ---- the loop ----

  class Session {
    const isClient: bool
    const md5: string
    const scheme: seq<byte>
    var room: nat
    var streams: set<nat>
    var dead: set<nat>
    var receivedSettings: bool
    var peerVersion: byte
    var handed: map<nat, seq<byte>>
    var replies: seq<Frame>
    var alerted: bool
    var stopped: bool
    var hooks: nat

    function Snapshot(): (s: State)
      reads this
    {
      State(isClient, md5, scheme, room, streams, dead, receivedSettings, peerVersion,
            handed, replies, alerted, stopped, hooks)
    }

    constructor (isClient: bool, md5: string, scheme: seq<byte>, room: nat)
      ensures Snapshot() == State(isClient, md5, scheme, room, {}, {}, false, 0, map[], [], false, false, 0)
    {
      this.isClient, this.md5, this.scheme, this.room := isClient, md5, scheme, room;
      streams, dead, receivedSettings, peerVersion := {}, {}, false, 0;
      handed, replies, alerted, stopped, hooks := map[], [], false, false, 0;
    }

    method Close()
      modifies this
      ensures Snapshot() == Stop(old(Snapshot()))
    {
      if !stopped {
        stopped := true;
        hooks := hooks + 1;
        dead := dead + streams;
        streams := {};
      }
    }

    /** `writeControlFrame`: a frame that cannot be written closes the session. */
    method Send(f: Frame) returns (ok: bool)
      requires !stopped
      modifies this
      ensures Snapshot() == Reply(old(Snapshot()), f)
      ensures ok == !stopped
    {
      if room == 0 {
        Close();
        return false;
      }
      room := room - 1;
      replies := replies + [f];
      ok := true;
    }

    method HandleSettings(f: Frame)
      requires !stopped
      modifies this
      ensures Snapshot() == OnSettings(old(Snapshot()), f)
    {
      if f.data == [] || isClient {
        return;
      }
      receivedSettings := true;
      var m := Settings(f.data);
      if Lookup(m, "padding-md5") != md5 {
        var ok := Send(Frame(CMD_UPDATE_PADDING_SCHEME, 0, scheme));
        if !ok {
          return;
        }
      }
      match Padding.ParseInt(Lookup(m, "v")) {
        case Some(v) =>
          if v >= 2 {
            peerVersion := v % 256;
            var _ := Send(Frame(CMD_SERVER_SETTINGS, 0, Octets("v=2")));
          }
        case None =>
      }
    }

    method HandleFrame(f: Frame)
      requires !stopped
      modifies this
      ensures Snapshot() == Handle(old(Snapshot()), f)
    {
      if f.cmd == CMD_PSH {
        if f.data != [] && f.sid in streams && f.sid !in dead {
          handed := handed[f.sid := (if f.sid in handed then handed[f.sid] else []) + f.data];
        }
      } else if f.cmd == CMD_SYN {
        if !isClient && !receivedSettings {
          var _ := Send(Frame(CMD_ALERT, 0, Octets(ALERT_NO_SETTINGS)));
          alerted := true;
          Close();
        } else if f.sid !in streams {
          streams, dead := streams + {f.sid}, dead - {f.sid};
        }
      } else if f.cmd == CMD_SYNACK {
        if f.data != [] && f.sid in streams && f.sid !in dead {
          var _ := Send(Frame(CMD_FIN, f.sid, []));
          streams := streams - {f.sid};
        }
      } else if f.cmd == CMD_FIN {
        streams := streams - {f.sid};
      } else if f.cmd == CMD_SETTINGS {
        HandleSettings(f);
      } else if f.cmd == CMD_ALERT {
        if f.data != [] {
          Close();
        }
      } else if f.cmd == CMD_HEART_REQUEST {
        var _ := Send(Frame(CMD_HEART_RESPONSE, f.sid, []));
      } else if f.cmd == CMD_SERVER_SETTINGS {
        if f.data != [] && isClient {
          match Padding.ParseInt(Lookup(Settings(f.data), "v")) {
            case Some(v) => peerVersion := v % 256;
            case None =>
          }
        }
      }
    }

    /** `recvLoop` on a connection that delivers `input` and then ends. Reading header by header with
        a read that waits for whole units comes to handling, in order, the frames that `input` parses
        to; whatever ends the loop closes the session. */
    method RecvLoop(input: seq<byte>)
      requires !stopped
      modifies this
      ensures Snapshot() == Stop(HandleAll(old(Snapshot()), Parse(input).frames))
    {
      hide Handle, Next;
      assert input[0..] == input;
      var pos := 0;
      while !stopped
        invariant 0 <= pos <= |input|
        invariant HandleAll(Snapshot(), Parse(input[pos..]).frames) == HandleAll(old(Snapshot()), Parse(input).frames)
        decreases |input| - pos, !stopped
      {
        var f, next := ReadFrame(input, pos);
        if f.None? {
          break;
        }
        HandleFrame(f.value);
        pos := next;
      }
      Close();
    }
  }

  /** A header and then its payload, each read whole from `input` at `pos`, or nothing. */
  method ReadFrame(input: seq<byte>, pos: nat) returns (f: Option<Frame>, next: nat)
    requires pos <= |input|
    ensures f.None? <==> Next(input[pos..]).None?
    ensures f.Some? ==> pos < next <= |input| && Next(input[pos..]) == Some(Parsed(f.value, input[next..]))
  {
    ghost var rest := input[pos..];
    if |input| - pos < HEADER_SIZE {
      return None, pos;
    }
    var cmd, sid, len := input[pos], U32At(input, pos + 1), U16At(input, pos + 5);
    assert U32At(rest, 1) == sid && U16At(rest, 5) == len;
    if !CarriesData(cmd) {
      len := 0;
    }
    var at := pos + HEADER_SIZE;
    if |input| - at < len {
      return None, pos;
    }
    f, next := Some(Frame(cmd, sid, input[at..at + len])), at + len;
    assert rest[HEADER_SIZE..HEADER_SIZE + len] == input[at..at + len];
    assert rest[HEADER_SIZE + len..] == input[next..];
  }
}
