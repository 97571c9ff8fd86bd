/** The first place a pattern stands in a byte string, and searches that are taken up again when more
    bytes have come. */
module Search {
  import opened Bytes
  import opened Wrappers

  const CRLF: seq<byte> := [13, 10]
  const HEAD_END: seq<byte> := [13, 10, 13, 10]

  predicate At(b: seq<byte>, pattern: seq<byte>, i: nat) {
    i + |pattern| <= |b| && b[i..i + |pattern|] == pattern
  }

  /** No place from `from` on whose pattern would end by `upTo`. */
  predicate Absent(b: seq<byte>, pattern: seq<byte>, from: nat, upTo: nat) {
    forall i: nat :: from <= i && i + |pattern| <= upTo ==> !At(b, pattern, i)
  }

  function Find(b: seq<byte>, pattern: seq<byte>, from: nat): (r: Option<nat>)
    ensures r.None? ==> Absent(b, pattern, from, |b|)
    ensures r.Some? ==> from <= r.value && At(b, pattern, r.value)
    ensures r.Some? ==> forall i: nat :: from <= i < r.value ==> !At(b, pattern, i)
    decreases |b| - from
  {
    if from + |pattern| > |b| then None
    else if At(b, pattern, from) then Some(from)
    else if from == |b| then None
    else Find(b, pattern, from + 1)
  }

  /** Looks at each place from `from` on until the pattern stands there; `looked` is how many. */
  method Look(b: seq<byte>, pattern: seq<byte>, from: nat) returns (r: Option<nat>, looked: nat)
    requires pattern != []
    ensures r == Find(b, pattern, from)
    ensures r.Some? ==> looked == r.value - from + 1
    ensures r.None? ==> looked == if from + |pattern| <= |b| then |b| - |pattern| + 1 - from else 0
  {
    var i := from;
    looked := 0;
    while i + |pattern| <= |b|
      invariant i == from + looked
      invariant i + |pattern| <= |b| + 1 || i == from
      invariant Find(b, pattern, from) == Find(b, pattern, i)
    {
      looked := looked + 1;
      if At(b, pattern, i) {
        return Some(i), looked;
      }
      i := i + 1;
    }
    return None, looked;
  }

  lemma FindIs(b: seq<byte>, pattern: seq<byte>, from: nat, i: nat)
    requires from <= i && At(b, pattern, i)
    requires forall j: nat :: from <= j < i ==> !At(b, pattern, j)
    ensures Find(b, pattern, from) == Some(i)
  {
    var _ := Find(b, pattern, from);
  }

  /** A search that starts where an earlier one has looked already, less what a pattern across the
      border needs, still finds the first place. */
  lemma ResumedFind(b: seq<byte>, pattern: seq<byte>, from: nat, searched: nat, resumed: nat)
    requires pattern != [] && from <= resumed
    requires resumed <= from || resumed + |pattern| <= searched + 1
    requires Absent(b, pattern, from, searched)
    ensures Find(b, pattern, resumed) == Find(b, pattern, from)
  {
    forall i: nat | from <= i < resumed ensures !At(b, pattern, i) {}
    var r := Find(b, pattern, resumed);
    if r.Some? {
      FindIs(b, pattern, from, r.value);
    }
  }

  /** A place counted from the start of a suffix. */
  lemma AtOfSuffix(s: seq<byte>, p: seq<byte>, start: nat, i: nat)
    requires start <= |s| && start <= i
    ensures At(s, p, i) <==> At(s[start..], p, i - start)
  {
    if i + |p| <= |s| {
      assert s[start..][i - start..i - start + |p|] == s[i..i + |p|];
    }
  }

  lemma AtOfPrefix(b: seq<byte>, more: seq<byte>, pattern: seq<byte>, i: nat)
    requires i + |pattern| <= |b|
    ensures At(b + more, pattern, i) <==> At(b, pattern, i)
  {
    assert (b + more)[i..i + |pattern|] == b[i..i + |pattern|];
  }

  /** Bytes that come later do not move a place that was found, nor bring one up before `upTo`. */
  lemma FindOfPrefix(b: seq<byte>, more: seq<byte>, pattern: seq<byte>, from: nat)
    requires Find(b, pattern, from).Some?
    ensures Find(b + more, pattern, from) == Find(b, pattern, from)
  {
    var i := Find(b, pattern, from).value;
    forall j: nat | from <= j < i ensures !At(b + more, pattern, j) {
      AtOfPrefix(b, more, pattern, j);
    }
    AtOfPrefix(b, more, pattern, i);
    FindIs(b + more, pattern, from, i);
  }

  /** A place is found as soon as its last byte is there. */
  lemma FindWithin(b: seq<byte>, pattern: seq<byte>, from: nat, n: nat)
    requires Find(b, pattern, from).Some? && Find(b, pattern, from).value + |pattern| <= n <= |b|
    ensures Find(b[..n], pattern, from) == Find(b, pattern, from)
  {
    var part, rest := b[..n], b[n..];
    assert part + rest == b;
    AtOfPrefix(part, rest, pattern, Find(b, pattern, from).value);
    assert Find(part, pattern, from).Some?;
    FindOfPrefix(part, rest, pattern, from);
  }

  lemma AbsentOfPrefix(b: seq<byte>, more: seq<byte>, pattern: seq<byte>, from: nat, upTo: nat)
    requires upTo <= |b| && Absent(b, pattern, from, upTo)
    ensures Absent(b + more, pattern, from, upTo)
  {
    forall i: nat | from <= i && i + |pattern| <= upTo ensures !At(b + more, pattern, i) {
      AtOfPrefix(b, more, pattern, i);
    }
  }
}
