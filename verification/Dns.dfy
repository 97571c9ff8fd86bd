/** Looking up a domain's ech parameter: the question asked, which reply answers it, and reading the
    HTTPS records of the answer (section 4.1 of RFC 1035, section 2.2 of RFC 9460). */
module Dns {
  import opened Bytes
  import opened Wrappers

  const RR_HTTPS := 65
  const SVCPARAM_ECH := 5
  const HEADER := 12
  const DOT: byte := 46

  /** The bytes `piece` stand in the message at this place. */
  predicate Holds(msg: seq<byte>, at: nat, piece: seq<byte>) {
    at + |piece| <= |msg| && msg[at..at + |piece|] == piece
  }

  lemma HoldsBoth(msg: seq<byte>, at: nat, a: seq<byte>, b: seq<byte>)
    ensures Holds(msg, at, a + b) <==> Holds(msg, at, a) && Holds(msg, at + |a|, b)
  {
    if at + |a| + |b| <= |msg| {
      var whole := msg[at..at + |a| + |b|];
      assert whole[..|a|] == msg[at..at + |a|];
      assert whole[|a|..] == msg[at + |a|..at + |a| + |b|];
      assert whole == whole[..|a|] + whole[|a|..];
    }
  }

  lemma HoldsWithin(msg: seq<byte>, at: nat, piece: seq<byte>)
    requires Holds(msg, at, piece)
    ensures at + |piece| <= |msg|
  {
  }

  lemma HoldsU16(msg: seq<byte>, at: nat, n: nat)
    requires at + 2 <= |msg| && n < U16_LIMIT
    ensures Holds(msg, at, Be16(n)) <==> U16At(msg, at) == n
  {
    var slice := msg[at..at + 2];
    assert slice[0] == msg[at] && slice[1] == msg[at + 1];
  }

  // ---- the name asked for ----

  /** A name cut at its dots. */
  function Parts(name: seq<byte>): (parts: seq<seq<byte>>)
    ensures parts != []
  {
    if name == [] then [[]]
    else
      var rest := Parts(name[1..]);
      if name[0] == DOT then [[]] + rest else [[name[0]] + rest[0]] + rest[1..]
  }

  function Dotted(parts: seq<seq<byte>>): (name: seq<byte>)
    requires parts != []
  {
    if |parts| == 1 then parts[0] else parts[0] + [DOT] + Dotted(parts[1..])
  }

  /** Cutting at the dots and joining with dots are inverse, and no part has a dot left. */
  lemma {:induction false} PartsRejoin(name: seq<byte>)
    ensures Dotted(Parts(name)) == name
    ensures forall i :: 0 <= i < |Parts(name)| ==> DOT !in Parts(name)[i]
  {
    if name != [] {
      PartsRejoin(name[1..]);
      var rest := Parts(name[1..]);
      assert name == [name[0]] + name[1..];
      hide Parts;
      if name[0] == DOT {
        PartsAtDot(name);
        DottedMore([], rest);
      } else {
        PartsInside(name);
        DottedLonger(name[0], rest);
      }
    }
  }

  lemma PartsAtDot(name: seq<byte>)
    requires name != [] && name[0] == DOT
    ensures Parts(name) == [[]] + Parts(name[1..])
  {
  }

  lemma PartsInside(name: seq<byte>)
    requires name != [] && name[0] != DOT
    ensures Parts(name) == [[name[0]] + Parts(name[1..])[0]] + Parts(name[1..])[1..]
  {
  }

  lemma DottedMore(first: seq<byte>, rest: seq<seq<byte>>)
    requires rest != []
    ensures Dotted([first] + rest) == first + [DOT] + Dotted(rest)
  {
    assert ([first] + rest)[1..] == rest;
  }

  lemma DottedLonger(b: byte, parts: seq<seq<byte>>)
    requires parts != []
    ensures Dotted([[b] + parts[0]] + parts[1..]) == [b] + Dotted(parts)
  {
    if |parts| == 1 {
      assert [[b] + parts[0]] + parts[1..] == [[b] + parts[0]];
    } else {
      hide Dotted;
      DottedMore([b] + parts[0], parts[1..]);
      DottedMore(parts[0], parts[1..]);
      assert parts == [parts[0]] + parts[1..];
      Prefixed(b, parts[0], Dotted(parts[1..]));
    }
  }

  lemma Prefixed(b: byte, first: seq<byte>, rest: seq<byte>)
    ensures ([b] + first) + [DOT] + rest == [b] + (first + [DOT] + rest)
  {
  }

  function NonEmpty(parts: seq<seq<byte>>): (labels: seq<seq<byte>>)
    ensures forall l :: l in labels ==> l != []
  {
    if parts == [] then []
    else if parts[0] == [] then NonEmpty(parts[1..])
    else [parts[0]] + NonEmpty(parts[1..])
  }

  function Labels(name: seq<byte>): (labels: seq<seq<byte>>) {
    NonEmpty(Parts(name))
  }

  /** A label behind its length, which is cut to a byte. */
  function Sized(part: seq<byte>): (b: seq<byte>)
    ensures |b| == 1 + |part|
  {
    [|part| % 256] + part
  }

  function EncodeLabels(labels: seq<seq<byte>>): (b: seq<byte>) {
    if labels == [] then [] else Sized(labels[0]) + EncodeLabels(labels[1..])
  }

  lemma HoldsSized(msg: seq<byte>, pos: nat, part: seq<byte>)
    requires |part| < 256
    ensures Holds(msg, pos, Sized(part)) <==>
      && pos + 1 + |part| <= |msg|
      && msg[pos] as int == |part|
      && msg[pos + 1..pos + 1 + |part|] == part
  {
    HoldsBoth(msg, pos, [|part|], part);
    if pos < |msg| {
      assert msg[pos..pos + 1] == [msg[pos]];
    }
  }

  function Question(labels: seq<seq<byte>>, qtype: nat): (b: seq<byte>) {
    EncodeLabels(labels) + ([0] + Be16(qtype))
  }

  function Query(id: nat, name: seq<byte>, qtype: nat): (q: seq<byte>) {
    Be16(id) + [1, 0, 0, 1, 0, 0, 0, 0, 0, 0] + Question(Labels(name), qtype) + [0, 1]
  }

  method AppendName(head: seq<byte>, name: seq<byte>) returns (q: seq<byte>)
    ensures q == head + EncodeLabels(Labels(name))
  {
    hide Parts;
    q := head;
    var parts := Parts(name);
    assert parts[0..] == parts;
    for i := 0 to |parts|
      invariant head + EncodeLabels(Labels(name)) == q + EncodeLabels(NonEmpty(parts[i..]))
    {
      var part := parts[i];
      assert parts[i..][1..] == parts[i + 1..];
      if part != [] {
        OneMore(q, part, NonEmpty(parts[i + 1..]));
        q := q + [|part| % 256];
        q := q + part;
      }
    }
  }

  method BuildQuery(id: nat, name: seq<byte>, qtype: nat) returns (q: seq<byte>)
    ensures q == Query(id, name, qtype)
  {
    hide Be16, EncodeLabels, Labels;
    q := Be16(id) + [1, 0];
    q := q + [0, 1];
    q := q + [0, 0, 0, 0, 0, 0];
    q := AppendName(q, name);
    q := q + [0];
    q := q + Be16(qtype);
    q := q + [0, 1];
  }

  lemma OneMore(q: seq<byte>, first: seq<byte>, rest: seq<seq<byte>>)
    ensures q + EncodeLabels([first] + rest) == q + [|first| % 256] + first + EncodeLabels(rest)
  {
    assert ([first] + rest)[1..] == rest;
  }

  // ---- which reply answers it ----

  function Fold(b: byte): (c: byte) {
    if 65 <= b <= 90 then b + 32 else b
  }

  predicate SameFold(a: seq<byte>, b: seq<byte>) {
    |a| == |b| && forall i :: 0 <= i < |a| ==> Fold(a[i]) == Fold(b[i])
  }

  /** Where the labels end in the message, when they stand there in some letter case. */
  function MatchLabels(msg: seq<byte>, pos: nat, labels: seq<seq<byte>>): (end: Option<nat>)
    decreases |labels|
  {
    if labels == [] then Some(pos)
    else if pos >= |msg| || msg[pos] as int != |labels[0]| then None
    else
      var end := pos + 1 + |labels[0]|;
      if end > |msg| || !SameFold(msg[pos + 1..end], labels[0]) then None
      else MatchLabels(msg, end, labels[1..])
  }

  /** A reply to the query with this id, about one question. */
  predicate ReplyHeader(msg: seq<byte>, id: nat) {
    |msg| >= HEADER && U16At(msg, 0) == id && msg[2] >= 0x80 && U16At(msg, 4) == 1
  }

  predicate Accepts(msg: seq<byte>, id: nat, labels: seq<seq<byte>>, qtype: nat) {
    && ReplyHeader(msg, id)
    && var end := MatchLabels(msg, HEADER, labels);
      && end != None && end.value < |msg| && msg[end.value] == 0
      && end.value + 5 <= |msg| && U16At(msg, end.value + 1) == qtype
  }

  method MatchName(msg: seq<byte>, name: seq<byte>) returns (end: Option<nat>)
    ensures end == MatchLabels(msg, HEADER, Labels(name))
  {
    hide Parts, SameFold;
    var pos: nat := HEADER;
    var parts := Parts(name);
    assert parts[0..] == parts;
    for i := 0 to |parts|
      invariant MatchLabels(msg, HEADER, Labels(name)) == MatchLabels(msg, pos, NonEmpty(parts[i..]))
    {
      var part := parts[i];
      assert parts[i..][1..] == parts[i + 1..];
      if part != [] {
        if pos >= |msg| || msg[pos] as int != |part| {
          return None;
        }
        pos := pos + 1;
        var next := pos + |part|;
        if next > |msg| || !SameFold(msg[pos..next], part) {
          return None;
        }
        pos := next;
      }
    }
    return Some(pos);
  }

  method ResponseMatches(msg: seq<byte>, id: nat, name: seq<byte>, qtype: nat) returns (ok: bool)
    ensures ok == Accepts(msg, id, Labels(name), qtype)
  {
    hide MatchLabels, Labels, U16At;
    if |msg| < HEADER || U16At(msg, 0) != id || msg[2] < 0x80 || U16At(msg, 4) != 1 {
      return false;
    }
    var end := MatchName(msg, name);
    if end == None || end.value >= |msg| || msg[end.value] != 0 {
      return false;
    }
    var pos := end.value + 1;
    if pos + 4 > |msg| {
      return false;
    }
    return U16At(msg, pos) == qtype;
  }

  /** The same labels up to letter case, each short enough for its length byte. */
  predicate Echo(echoed: seq<seq<byte>>, labels: seq<seq<byte>>) {
    && |echoed| == |labels|
    && forall i :: 0 <= i < |labels| ==> |echoed[i]| < 256 && SameFold(echoed[i], labels[i])
  }

  lemma EchoNothing(msg: seq<byte>, pos: nat)
    requires pos <= |msg|
    ensures Echo([], []) && Holds(msg, pos, [])
  {}

  lemma EchoMore(first: seq<byte>, rest: seq<seq<byte>>, labels: seq<seq<byte>>)
    requires labels != [] && |first| < 256 && SameFold(first, labels[0]) && Echo(rest, labels[1..])
    ensures Echo([first] + rest, labels)
  {
    hide SameFold;
    var echoed := [first] + rest;
    forall i | 0 <= i < |labels| ensures |echoed[i]| < 256 && SameFold(echoed[i], labels[i]) {
      if i > 0 {
        assert echoed[i] == rest[i - 1] && labels[i] == labels[1..][i - 1];
      }
    }
  }

  lemma {:induction false} MatchedIsEchoed(msg: seq<byte>, pos: nat, labels: seq<seq<byte>>) returns (echoed: seq<seq<byte>>)
    requires pos <= |msg| && MatchLabels(msg, pos, labels) != None
    ensures Echo(echoed, labels) && Holds(msg, pos, EncodeLabels(echoed))
    ensures MatchLabels(msg, pos, labels) == Some(pos + |EncodeLabels(echoed)|)
    decreases |labels|
  {
    hide Sized, SameFold, Echo, Holds;
    if labels == [] {
      echoed := [];
      EchoNothing(msg, pos);
    } else {
      var end := pos + 1 + |labels[0]|;
      var first := msg[pos + 1..end];
      var rest := MatchedIsEchoed(msg, end, labels[1..]);
      echoed := [first] + rest;
      assert echoed[1..] == rest;
      HoldsSized(msg, pos, first);
      HoldsBoth(msg, pos, Sized(first), EncodeLabels(rest));
      EchoMore(first, rest, labels);
    }
  }

  lemma {:induction false} EchoedIsMatched(msg: seq<byte>, pos: nat, labels: seq<seq<byte>>, echoed: seq<seq<byte>>)
    requires Echo(echoed, labels) && Holds(msg, pos, EncodeLabels(echoed))
    ensures MatchLabels(msg, pos, labels) == Some(pos + |EncodeLabels(echoed)|)
    decreases |labels|
  {
    if labels != [] {
      HoldsBoth(msg, pos, Sized(echoed[0]), EncodeLabels(echoed[1..]));
      HoldsSized(msg, pos, echoed[0]);
      EchoedIsMatched(msg, pos + 1 + |echoed[0]|, labels[1..], echoed[1..]);
    }
  }

  lemma TailMatches(msg: seq<byte>, end: nat, qtype: nat)
    requires qtype < U16_LIMIT && end + 5 <= |msg|
    ensures Holds(msg, end, [0] + Be16(qtype)) <==> msg[end] == 0 && U16At(msg, end + 1) == qtype
  {
    HoldsBoth(msg, end, [0], Be16(qtype));
    HoldsU16(msg, end + 1, qtype);
    assert msg[end..end + 1] == [msg[end]];
  }

  /** A message is accepted exactly when it is a reply with our id whose one question is the one asked, in
      any letter case. */
  lemma AcceptedIsEchoed(msg: seq<byte>, id: nat, name: seq<byte>, qtype: nat)
    requires qtype < U16_LIMIT
    ensures Accepts(msg, id, Labels(name), qtype) <==>
      && |msg| >= HEADER && U16At(msg, 0) == id && msg[2] >= 0x80 && Holds(msg, 4, [0, 1])
      && exists echoed :: Echo(echoed, Labels(name)) && Holds(msg, HEADER, Question(echoed, qtype)) && HEADER + |Question(echoed, qtype)| + 2 <= |msg|
  {
    hide EncodeLabels, MatchLabels, Echo, SameFold, Labels;
    var labels := Labels(name);
    if Accepts(msg, id, labels, qtype) {
      var echoed := MatchedIsEchoed(msg, HEADER, labels);
      var end := HEADER + |EncodeLabels(echoed)|;
      TailMatches(msg, end, qtype);
      HoldsBoth(msg, HEADER, EncodeLabels(echoed), [0] + Be16(qtype));
      assert Holds(msg, HEADER, Question(echoed, qtype));
    }
    if echoed :| ReplyHeader(msg, id) && Echo(echoed, labels) && Holds(msg, HEADER, Question(echoed, qtype)) && HEADER + |Question(echoed, qtype)| + 2 <= |msg| {
      HoldsBoth(msg, HEADER, EncodeLabels(echoed), [0] + Be16(qtype));
      EchoedIsMatched(msg, HEADER, labels, echoed);
      TailMatches(msg, HEADER + |EncodeLabels(echoed)|, qtype);
    }
  }

  lemma QueryShape(id: nat, name: seq<byte>, qtype: nat, flags: byte, tail: seq<byte>)
    requires id < U16_LIMIT
    ensures
      var q := Query(id, name, qtype);
      var msg := q[2 := flags] + tail;
      && |q| == HEADER + |Question(Labels(name), qtype)| + 2
      && U16At(msg, 0) == id && msg[2] == flags && U16At(msg, 4) == 1
      && Holds(msg, HEADER, Question(Labels(name), qtype))
  {
    var question := Question(Labels(name), qtype);
    hide Question, Labels;
    var q := Query(id, name, qtype);
    var msg := q[2 := flags] + tail;
    assert msg[HEADER..HEADER + |question|] == question;
  }

  lemma SameLabelsEcho(labels: seq<seq<byte>>)
    requires forall i :: 0 <= i < |labels| ==> |labels[i]| < 256
    ensures Echo(labels, labels)
  {}

  /** The query sent back as a reply, with anything behind it, is accepted exactly when every label fits its
      length byte; sent back as it is, it is not a reply. */
  lemma OwnQuestionIsAccepted(id: nat, name: seq<byte>, qtype: nat, flags: byte, tail: seq<byte>)
    requires id < U16_LIMIT && qtype < U16_LIMIT
    ensures
      var msg := Query(id, name, qtype)[2 := flags] + tail;
      Accepts(msg, id, Labels(name), qtype) <==> flags >= 0x80 && forall i :: 0 <= i < |Labels(name)| ==> |Labels(name)[i]| < 256
  {
    var labels := Labels(name);
    QueryShape(id, name, qtype, flags, tail);
    var msg := Query(id, name, qtype)[2 := flags] + tail;
    AcceptedIsEchoed(msg, id, name, qtype);
    hide Query, Question, Labels, Accepts, Holds, SameFold;
    if flags >= 0x80 && forall i :: 0 <= i < |labels| ==> |labels[i]| < 256 {
      SameLabelsEcho(labels);
    }
  }

  /** A message cannot answer two different questions. */
  lemma {:induction false} OneQuestion(msg: seq<byte>, pos: nat, a: seq<seq<byte>>, b: seq<seq<byte>>)
    requires forall i :: 0 <= i < |a| ==> a[i] != []
    requires forall i :: 0 <= i < |b| ==> b[i] != []
    requires MatchLabels(msg, pos, a) != None && MatchLabels(msg, pos, b) != None
    requires MatchLabels(msg, pos, a).value < |msg| && msg[MatchLabels(msg, pos, a).value] == 0
    requires MatchLabels(msg, pos, b).value < |msg| && msg[MatchLabels(msg, pos, b).value] == 0
    ensures |a| == |b| && forall i :: 0 <= i < |a| ==> SameFold(a[i], b[i])
    decreases |a|
  {
    if a != [] && b != [] {
      OneQuestion(msg, pos + 1 + |a[0]|, a[1..], b[1..]);
    }
  }

  /** Names with equal labels are asked for alike, so acceptance fixes the labels up to letter case. */
  lemma AcceptedForOneName(msg: seq<byte>, id: nat, name: seq<byte>, qtype: nat, id': nat, name': seq<byte>, qtype': nat)
    requires Accepts(msg, id, Labels(name), qtype) && Accepts(msg, id', Labels(name'), qtype')
    ensures id == id' && qtype == qtype' && |Labels(name)| == |Labels(name')|
    ensures forall i :: 0 <= i < |Labels(name)| ==> SameFold(Labels(name)[i], Labels(name')[i])
  {
    hide MatchLabels, Parts;
    var a, b := Labels(name), Labels(name');
    forall i | 0 <= i < |a| ensures a[i] != [] { assert a[i] in a; }
    forall i | 0 <= i < |b| ensures b[i] != [] { assert b[i] in b; }
    OneQuestion(msg, HEADER, a, b);
    SameEnd(msg, HEADER, a, b);
  }

  lemma {:induction false} SameEnd(msg: seq<byte>, pos: nat, a: seq<seq<byte>>, b: seq<seq<byte>>)
    requires |a| == |b| && forall i :: 0 <= i < |a| ==> SameFold(a[i], b[i])
    requires MatchLabels(msg, pos, a) != None && MatchLabels(msg, pos, b) != None
    ensures MatchLabels(msg, pos, a) == MatchLabels(msg, pos, b)
    decreases |a|
  {
    if a != [] {
      assert SameFold(a[0], b[0]);
      SameEnd(msg, pos + 1 + |a[0]|, a[1..], b[1..]);
    }
  }

  // ---- reading the answer ----

  /** Past a name: labels up to the empty one or a pointer; a pointer's second byte is not looked at. */
  function SkipName(buf: seq<byte>, pos: nat): (end: Option<nat>)
    ensures end != None ==> pos < end.value <= |buf| + 1
    decreases |buf| - pos
  {
    if pos >= |buf| then None
    else if buf[pos] >= 0xC0 then Some(pos + 2)
    else if buf[pos] == 0 then Some(pos + 1)
    else SkipName(buf, pos + 1 + buf[pos])
  }

  method SkipNameAt(buf: seq<byte>, start: nat) returns (end: Option<nat>)
    ensures end == SkipName(buf, start)
  {
    var pos := start;
    while true
      invariant SkipName(buf, start) == SkipName(buf, pos)
      decreases |buf| - pos
    {
      if pos >= |buf| {
        return None;
      }
      var len := buf[pos];
      if len >= 0xC0 {
        return Some(pos + 2);
      }
      if len == 0 {
        return Some(pos + 1);
      }
      pos := pos + 1 + len;
    }
  }

  /** The first ech parameter among those from `p` to `end`. */
  function FindEch(msg: seq<byte>, p: nat, end: nat): (ech: Option<seq<byte>>)
    requires end <= |msg|
    decreases end - p
  {
    if p + 4 > end then None
    else
      var key, len := U16At(msg, p), U16At(msg, p + 2);
      if p + 4 + len > end then None
      else if key == SVCPARAM_ECH then Some(msg[p + 4..p + 4 + len])
      else FindEch(msg, p + 4 + len, end)
  }

  function RecordEch(msg: seq<byte>, start: nat, len: nat): (ech: Option<seq<byte>>)
    requires start + len <= |msg|
  {
    if len < 2 then None
    else
      var p := SkipName(msg, start + 2);
      if p == None then None else FindEch(msg, p.value, start + len)
  }

  method ParseSvcParamsEch(msg: seq<byte>, start: nat, len: nat) returns (ech: Option<seq<byte>>)
    requires start + len <= |msg|
    ensures ech == RecordEch(msg, start, len)
  {
    var end := start + len;
    if start + 2 > end {
      return None;
    }
    var skipped := SkipNameAt(msg, start + 2);
    if skipped == None {
      return None;
    }
    var p := skipped.value;
    while p + 4 <= end
      invariant FindEch(msg, skipped.value, end) == FindEch(msg, p, end)
      decreases end - p
    {
      var key, size := U16At(msg, p), U16At(msg, p + 2);
      p := p + 4;
      if p + size > end {
        return None;
      }
      if key == SVCPARAM_ECH {
        return Some(msg[p..p + size]);
      }
      p := p + size;
    }
    return None;
  }

  function PastQuestions(msg: seq<byte>, pos: nat, n: nat): (end: Option<nat>)
    decreases n
  {
    if n == 0 then Some(pos)
    else
      var end := SkipName(msg, pos);
      if end == None then None else PastQuestions(msg, end.value + 4, n - 1)
  }

  function AnswersEch(msg: seq<byte>, pos: nat, n: nat): (ech: Option<seq<byte>>)
    decreases n
  {
    if n == 0 then None
    else
      var end := SkipName(msg, pos);
      if end == None || end.value + 10 > |msg| then None
      else
        var rtype, len := U16At(msg, end.value), U16At(msg, end.value + 8);
        var data := end.value + 10;
        if data + len > |msg| then None
        else if rtype == RR_HTTPS && RecordEch(msg, data, len) != None then RecordEch(msg, data, len)
        else AnswersEch(msg, data + len, n - 1)
  }

  function MessageEch(msg: seq<byte>): (ech: Option<seq<byte>>) {
    if |msg| < HEADER then None
    else
      var pos := PastQuestions(msg, HEADER, U16At(msg, 4));
      if pos == None then None else AnswersEch(msg, pos.value, U16At(msg, 6))
  }

  method ParseHttpsEch(msg: seq<byte>) returns (ech: Option<seq<byte>>)
    ensures ech == MessageEch(msg)
  {
    if |msg| < HEADER {
      return None;
    }
    var qd, an := U16At(msg, 4), U16At(msg, 6);
    var pos: nat := HEADER;
    for i := 0 to qd
      invariant PastQuestions(msg, HEADER, qd) == PastQuestions(msg, pos, qd - i)
    {
      var end := SkipNameAt(msg, pos);
      if end == None {
        return None;
      }
      pos := end.value + 4;
    }
    ghost var first := pos;
    for i := 0 to an
      invariant AnswersEch(msg, first, an) == AnswersEch(msg, pos, an - i)
    {
      var end := SkipNameAt(msg, pos);
      if end == None {
        return None;
      }
      pos := end.value;
      if pos + 10 > |msg| {
        return None;
      }
      var rtype, len := U16At(msg, pos), U16At(msg, pos + 8);
      pos := pos + 10;
      if pos + len > |msg| {
        return None;
      }
      if rtype == RR_HTTPS {
        var found := ParseSvcParamsEch(msg, pos, len);
        if found != None {
          return found;
        }
      }
      pos := pos + len;
    }
    return None;
  }

  /** Where a value that was read stands, behind the key of ech and its length. */
  predicate StandsAt(msg: seq<byte>, p: nat, ech: seq<byte>) {
    && p + 4 + |ech| <= |msg|
    && U16At(msg, p) == SVCPARAM_ECH && U16At(msg, p + 2) == |ech|
    && msg[p + 4..p + 4 + |ech|] == ech
  }

  lemma {:induction false} FoundStands(msg: seq<byte>, p: nat, end: nat) returns (at: nat)
    requires end <= |msg| && FindEch(msg, p, end) != None
    ensures p <= at && at + 4 + |FindEch(msg, p, end).value| <= end && StandsAt(msg, at, FindEch(msg, p, end).value)
    decreases end - p
  {
    at := p;
    if U16At(msg, p) != SVCPARAM_ECH {
      at := FoundStands(msg, p + 4 + U16At(msg, p + 2), end);
    }
  }

  /** Whatever the message, a value that is read stands in it as an ech parameter. */
  lemma {:induction false} EchStands(msg: seq<byte>, pos: nat, n: nat) returns (at: nat)
    requires AnswersEch(msg, pos, n) != None
    ensures pos < at && StandsAt(msg, at, AnswersEch(msg, pos, n).value)
    decreases n
  {
    hide FindEch, StandsAt;
    var end := SkipName(msg, pos).value;
    var len := U16At(msg, end + 8);
    if U16At(msg, end) == RR_HTTPS && RecordEch(msg, end + 10, len) != None {
      at := FoundStands(msg, SkipName(msg, end + 12).value, end + 10 + len);
    } else {
      at := EchStands(msg, end + 10 + len, n - 1);
    }
  }

  // ---- answers as they are written ----

  /** A name: labels, then the empty one or a pointer to where it goes on. */
  datatype Name = Name(labels: seq<seq<byte>>, pointer: Option<nat>)

  datatype Param = Param(key: nat, value: seq<byte>)

  datatype Data =
    | Https(priority: nat, target: Name, params: seq<Param>)
    | Other(rtype: nat, bytes: seq<byte>)

  datatype Answer = Answer(name: Name, cls: nat, ttl: nat, data: Data)

  predicate WellNamed(n: Name) {
    && (forall i :: 0 <= i < |n.labels| ==> 0 < |n.labels[i]| < 0xC0)
    && (n.pointer != None ==> n.pointer.value < 0x4000)
  }

  predicate WellKeyed(p: Param) {
    p.key < U16_LIMIT && |p.value| < U16_LIMIT
  }

  predicate WellFormed(a: Answer) {
    && WellNamed(a.name)
    && |EncodeData(a.data)| < U16_LIMIT
    && match a.data {
      case Https(_, target, params) => WellNamed(target) && forall i :: 0 <= i < |params| ==> WellKeyed(params[i])
      case Other(rtype, _) => rtype < U16_LIMIT && rtype != RR_HTTPS
    }
  }

  function Tail(n: Name): (b: seq<byte>) {
    if n.pointer == None then [0] else Be16(0xC000 + n.pointer.value)
  }

  function EncodeName(n: Name): (b: seq<byte>) {
    EncodeLabels(n.labels) + Tail(n)
  }

  function EncodeParam(p: Param): (b: seq<byte>) {
    Be16(p.key) + Be16(|p.value|) + p.value
  }

  function EncodeParams(ps: seq<Param>): (b: seq<byte>) {
    if ps == [] then [] else EncodeParam(ps[0]) + EncodeParams(ps[1..])
  }

  function EncodeData(d: Data): (b: seq<byte>) {
    match d
    case Https(priority, target, params) => Be16(priority) + (EncodeName(target) + EncodeParams(params))
    case Other(_, bytes) => bytes
  }

  function Type(d: Data): (rtype: nat) {
    if d.Https? then RR_HTTPS else d.rtype
  }

  function Fixed(a: Answer): (b: seq<byte>)
    ensures |b| == 10
  {
    Be16(Type(a.data)) + Be16(a.cls) + Be32(a.ttl) + Be16(|EncodeData(a.data)|)
  }

  function EncodeAnswer(a: Answer): (b: seq<byte>) {
    EncodeName(a.name) + (Fixed(a) + EncodeData(a.data))
  }

  function EncodeAnswers(answers: seq<Answer>): (b: seq<byte>) {
    if answers == [] then [] else EncodeAnswer(answers[0]) + EncodeAnswers(answers[1..])
  }

  /** A question: its name, type and class. */
  function EncodeQuestions(names: seq<Name>, asked: seq<seq<byte>>): (b: seq<byte>)
    requires |names| == |asked|
  {
    if names == [] then [] else (EncodeName(names[0]) + asked[0]) + EncodeQuestions(names[1..], asked[1..])
  }

  /** The value of the first ech parameter. */
  function Ech(ps: seq<Param>): (ech: Option<seq<byte>>) {
    if ps == [] then None else if ps[0].key == SVCPARAM_ECH then Some(ps[0].value) else Ech(ps[1..])
  }

  /** The first one among the HTTPS records. */
  function FirstEch(answers: seq<Answer>): (ech: Option<seq<byte>>) {
    if answers == [] then None
    else if answers[0].data.Https? && Ech(answers[0].data.params) != None then Ech(answers[0].data.params)
    else FirstEch(answers[1..])
  }

  // ---- reading what was written ----

  lemma TailIsSkipped(msg: seq<byte>, pos: nat, n: Name)
    requires WellNamed(n) && n.labels == [] && Holds(msg, pos, EncodeName(n))
    ensures SkipName(msg, pos) == Some(pos + |EncodeName(n)|)
  {
    assert EncodeName(n) == Tail(n);
    assert msg[pos..pos + |Tail(n)|][0] == Tail(n)[0];
  }

  lemma OneLabel(n: Name, rest: Name)
    requires n.labels != [] && rest == Name(n.labels[1..], n.pointer)
    ensures EncodeName(n) == Sized(n.labels[0]) + EncodeName(rest)
  {}

  lemma {:induction false} NameIsSkipped(msg: seq<byte>, pos: nat, n: Name)
    requires WellNamed(n) && Holds(msg, pos, EncodeName(n))
    ensures SkipName(msg, pos) == Some(pos + |EncodeName(n)|)
    decreases |n.labels|
  {
    hide EncodeName, Sized;
    if n.labels == [] {
      TailIsSkipped(msg, pos, n);
    } else {
      var first, rest := n.labels[0], Name(n.labels[1..], n.pointer);
      OneLabel(n, rest);
      HoldsBoth(msg, pos, Sized(first), EncodeName(rest));
      HoldsSized(msg, pos, first);
      NameIsSkipped(msg, pos + 1 + |first|, rest);
    }
  }

  lemma {:induction false} ParamsAreRead(msg: seq<byte>, p: nat, ps: seq<Param>)
    requires forall i :: 0 <= i < |ps| ==> WellKeyed(ps[i])
    requires Holds(msg, p, EncodeParams(ps))
    ensures FindEch(msg, p, p + |EncodeParams(ps)|) == Ech(ps)
    decreases |ps|
  {
    hide Holds, EncodeParam, U16At, WellKeyed;
    if ps != [] {
      var first := ps[0];
      HoldsBoth(msg, p, EncodeParam(first), EncodeParams(ps[1..]));
      ParamIsRead(msg, p, first);
      assert p + |EncodeParams(ps)| <= |msg| by { HoldsWithin(msg, p, EncodeParams(ps)); }
      ParamsAreRead(msg, p + |EncodeParam(first)|, ps[1..]);
    }
  }

  lemma ParamIsRead(msg: seq<byte>, p: nat, param: Param)
    requires WellKeyed(param) && Holds(msg, p, EncodeParam(param))
    ensures |EncodeParam(param)| == 4 + |param.value|
    ensures U16At(msg, p) == param.key && U16At(msg, p + 2) == |param.value|
    ensures msg[p + 4..p + 4 + |param.value|] == param.value
  {
    HoldsBoth(msg, p, Be16(param.key) + Be16(|param.value|), param.value);
    HoldsBoth(msg, p, Be16(param.key), Be16(|param.value|));
    HoldsU16(msg, p, param.key);
    HoldsU16(msg, p + 2, |param.value|);
  }

  lemma HttpsIsRead(msg: seq<byte>, at: nat, d: Data)
    requires d.Https? && WellNamed(d.target) && forall i :: 0 <= i < |d.params| ==> WellKeyed(d.params[i])
    requires Holds(msg, at, EncodeData(d))
    ensures RecordEch(msg, at, |EncodeData(d)|) == Ech(d.params)
  {
    hide EncodeName, EncodeParams, SkipName, FindEch;
    HoldsBoth(msg, at, Be16(d.priority), EncodeName(d.target) + EncodeParams(d.params));
    HoldsBoth(msg, at + 2, EncodeName(d.target), EncodeParams(d.params));
    NameIsSkipped(msg, at + 2, d.target);
    ParamsAreRead(msg, at + 2 + |EncodeName(d.target)|, d.params);
  }

  lemma FixedIsRead(msg: seq<byte>, at: nat, a: Answer)
    requires WellFormed(a) && Holds(msg, at, Fixed(a))
    ensures U16At(msg, at) == Type(a.data) && U16At(msg, at + 8) == |EncodeData(a.data)|
  {
    hide EncodeData;
    var front := Be16(Type(a.data)) + Be16(a.cls) + Be32(a.ttl);
    HoldsBoth(msg, at, front, Be16(|EncodeData(a.data)|));
    HoldsBoth(msg, at, Be16(Type(a.data)) + Be16(a.cls), Be32(a.ttl));
    HoldsBoth(msg, at, Be16(Type(a.data)), Be16(a.cls));
    HoldsU16(msg, at, Type(a.data));
    HoldsU16(msg, at + 8, |EncodeData(a.data)|);
  }

  lemma AnswerIsRead(msg: seq<byte>, at: nat, a: Answer)
    requires WellFormed(a) && Holds(msg, at, EncodeAnswer(a))
    ensures
      var end, len := at + |EncodeName(a.name)|, |EncodeData(a.data)|;
      && SkipName(msg, at) == Some(end) && end + 10 + len == at + |EncodeAnswer(a)| <= |msg|
      && U16At(msg, end) == Type(a.data) && U16At(msg, end + 8) == len
      && (a.data.Https? ==> RecordEch(msg, end + 10, len) == Ech(a.data.params))
  {
    hide EncodeName, EncodeData, Fixed, SkipName, RecordEch, Ech;
    HoldsBoth(msg, at, EncodeName(a.name), Fixed(a) + EncodeData(a.data));
    var end := at + |EncodeName(a.name)|;
    HoldsBoth(msg, end, Fixed(a), EncodeData(a.data));
    NameIsSkipped(msg, at, a.name);
    FixedIsRead(msg, end, a);
    if a.data.Https? {
      HttpsIsRead(msg, end + 10, a.data);
    }
  }

  lemma {:induction false} AnswersAreRead(msg: seq<byte>, at: nat, answers: seq<Answer>)
    requires forall i :: 0 <= i < |answers| ==> WellFormed(answers[i])
    requires Holds(msg, at, EncodeAnswers(answers))
    ensures AnswersEch(msg, at, |answers|) == FirstEch(answers)
    decreases |answers|
  {
    hide WellFormed, Holds, EncodeAnswer, EncodeName, EncodeData, U16At, SkipName, RecordEch, Ech;
    if answers != [] {
      var a := answers[0];
      HoldsBoth(msg, at, EncodeAnswer(a), EncodeAnswers(answers[1..]));
      AnswerIsRead(msg, at, a);
      OtherIsNotHttps(a);
      AnswersAreRead(msg, at + |EncodeAnswer(a)|, answers[1..]);
    }
  }

  lemma OtherIsNotHttps(a: Answer)
    requires WellFormed(a)
    ensures Type(a.data) == RR_HTTPS <==> a.data.Https?
  {}

  lemma {:induction false} QuestionsArePassed(msg: seq<byte>, at: nat, names: seq<Name>, asked: seq<seq<byte>>)
    requires |names| == |asked|
    requires forall i :: 0 <= i < |names| ==> WellNamed(names[i]) && |asked[i]| == 4
    requires Holds(msg, at, EncodeQuestions(names, asked))
    ensures PastQuestions(msg, at, |names|) == Some(at + |EncodeQuestions(names, asked)|)
    decreases |names|
  {
    hide EncodeName, SkipName;
    if names != [] {
      HoldsBoth(msg, at, EncodeName(names[0]) + asked[0], EncodeQuestions(names[1..], asked[1..]));
      HoldsBoth(msg, at, EncodeName(names[0]), asked[0]);
      NameIsSkipped(msg, at, names[0]);
      QuestionsArePassed(msg, at + |EncodeName(names[0])| + 4, names[1..], asked[1..]);
    }
  }

  /** Whatever the questions, the answers and the bytes after them: reading gives the first ech value among
      the HTTPS records, in the order they stand in. */
  lemma FirstEchIsRead(msg: seq<byte>, names: seq<Name>, asked: seq<seq<byte>>, answers: seq<Answer>)
    requires |msg| >= HEADER && U16At(msg, 4) == |names| == |asked| && U16At(msg, 6) == |answers|
    requires forall i :: 0 <= i < |names| ==> WellNamed(names[i]) && |asked[i]| == 4
    requires forall i :: 0 <= i < |answers| ==> WellFormed(answers[i])
    requires Holds(msg, HEADER, EncodeQuestions(names, asked) + EncodeAnswers(answers))
    ensures MessageEch(msg) == FirstEch(answers)
  {
    hide Holds, EncodeQuestions, EncodeAnswers, PastQuestions, AnswersEch, FirstEch, WellNamed, WellFormed;
    HoldsBoth(msg, HEADER, EncodeQuestions(names, asked), EncodeAnswers(answers));
    QuestionsArePassed(msg, HEADER, names, asked);
    AnswersAreRead(msg, HEADER + |EncodeQuestions(names, asked)|, answers);
  }
}
