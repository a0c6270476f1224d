/** What a sequence of sequential-write calls looks like in the structure
    block and the string table, and how it reads back. */
module FdtLayout {
  import opened Bytes
  import opened FdtBlob
  import opened FdtCheck

  datatype Call = BeginNode(name: seq<Byte>) | EndNode | Property(name: seq<Byte>, value: seq<Byte>)

  /** C strings have no NUL inside; lengths are ints. */
  predicate WellTyped(c: Call) {
    match c
    case BeginNode(name) => 0 !in name && |name| < INT_MAX
    case EndNode => true
    case Property(name, value) => 0 !in name && |name| < INT_MAX && |value| <= INT_MAX
  }

  function TagOf(c: Call): int {
    match c
    case BeginNode(_) => FDT_BEGIN_NODE
    case EndNode => FDT_END_NODE
    case Property(_, _) => FDT_PROP
  }

  function SizeOf(c: Call): (n: nat)
    ensures n >= 4
  {
    match c
    case BeginNode(name) => 4 + Align4(|name| + 1)
    case EndNode => 4
    case Property(_, value) => 12 + Align4(|value|)
  }

  lemma {:induction false} MultiplesOfFour(x: int, y: int)
    requires x % 4 == 0 && y % 4 == 0
    ensures (x + y) % 4 == 0
  {}

  /** Offset of call i. */
  function Pos(calls: seq<Call>, i: nat): (p: nat)
    requires i <= |calls|
  {
    if i == 0 then 0 else Pos(calls, i - 1) + SizeOf(calls[i - 1])
  }

  lemma {:induction false} PosAligned(calls: seq<Call>, i: nat)
    requires i <= |calls|
    ensures Pos(calls, i) % 4 == 0
  {
    if i > 0 {
      PosAligned(calls, i - 1);
      MultiplesOfFour(Pos(calls, i - 1), SizeOf(calls[i - 1]));
    }
  }

  lemma {:induction false} PosMonotone(calls: seq<Call>, i: nat, j: nat)
    requires i <= j <= |calls|
    ensures Pos(calls, i) <= Pos(calls, j)
  {
    if i < j { PosMonotone(calls, i, j - 1); }
  }

  lemma {:induction false} PosPrefix(calls: seq<Call>, more: seq<Call>, i: nat)
    requires i <= |calls| && calls <= more
    ensures Pos(calls, i) == Pos(more, i)
  {
    if i > 0 { PosPrefix(calls, more, i - 1); }
  }

  /** The bytes at `at` are this call; padding is not looked at. */
  predicate Matches(s: seq<Byte>, at: nat, c: Call, nameoff: int) {
    && at + SizeOf(c) <= |s| && Get32(s, at) == TagOf(c)
    && match c
       case BeginNode(name) => s[at + 4..at + 4 + |name|] == name && s[at + 4 + |name|] == 0
       case EndNode => true
       case Property(_, value) =>
         && Get32(s, at + 4) == |value| && Get32(s, at + 8) == nameoff
         && s[at + 12..at + 12 + |value|] == value
  }

  predicate CallAt(s: seq<Byte>, base: nat, calls: seq<Call>, nameoffs: seq<int>, i: nat)
    requires i < |calls| && |nameoffs| == |calls|
  {
    Matches(s, base + Pos(calls, i), calls[i], nameoffs[i])
  }

  /** The calls stand one after the other from `base` on. */
  ghost predicate Layout(s: seq<Byte>, base: nat, calls: seq<Call>, nameoffs: seq<int>) {
    |nameoffs| == |calls| && forall i | 0 <= i < |calls| :: CallAt(s, base, calls, nameoffs, i)
  }

  lemma {:induction false} SkipNameOf(s: seq<Byte>, at: nat, name: seq<Byte>)
    requires at + |name| < |s| && 0 !in name && s[at..at + |name|] == name && s[at + |name|] == 0
    ensures SkipName(s, at) == at + |name| + 1
  {
    var e := SkipName(s, at);
    forall k | at <= k < at + |name|
      ensures s[k] != 0
    {
      assert s[k] == name[k - at];
    }
  }

  lemma {:induction false} AlignShift(at: int, n: int)
    requires at % 4 == 0
    ensures Align4(at + n) == at + Align4(n)
  {}

  /** A call reads back as one tag, with its node name. */
  lemma {:induction false} TagOfCall(s: seq<Byte>, at: nat, c: Call, nameoff: int)
    requires Matches(s, at, c, nameoff) && WellTyped(c) && at % 4 == 0
    ensures NextTag(s, at) == Step(TagOf(c), at + SizeOf(c))
    ensures c.BeginNode? ==> NodeName(s, at) == c.name
  {
    match c
    case BeginNode(name) =>
      SkipNameOf(s, at + 4, name);
      AlignShift(at + 4, |name| + 1);
    case EndNode =>
      AlignShift(at, 4);
    case Property(_, value) =>
      AlignShift(at + 12, |value|);
  }

  lemma {:induction false} EndTag(s: seq<Byte>, at: nat)
    requires at % 4 == 0 && at + 4 <= |s| && Get32(s, at) == FDT_END
    ensures Stream(s, at) == Some([])
  {
    AlignShift(at, 4);
  }

  lemma {:induction false} StreamHead(s: seq<Byte>, at: nat, tag: int, next: nat, rest: seq<Entry>)
    requires NextTag(s, at) == Step(tag, next) && tag != FDT_END && Stream(s, next) == Some(rest)
    ensures Stream(s, at) == Some([Entry(tag, at, next)] + rest)
  {}

  function Entries(calls: seq<Call>, i: nat): (es: seq<Entry>)
    requires i <= |calls|
    ensures |es| == |calls| - i
    decreases |calls| - i
  {
    if i == |calls| then []
    else [Entry(TagOf(calls[i]), Pos(calls, i), Pos(calls, i + 1))] + Entries(calls, i + 1)
  }

  lemma {:induction false} EntryAt(calls: seq<Call>, i: nat, k: nat)
    requires i <= k < |calls|
    ensures Entries(calls, i)[k - i] == Entry(TagOf(calls[k]), Pos(calls, k), Pos(calls, k + 1))
    decreases k - i
  {
    if i < k { EntryAt(calls, i + 1, k); }
  }

  /** The tag stream of a laid-out block is exactly the call sequence. */
  lemma {:induction false} StreamOfCalls(s: seq<Byte>, calls: seq<Call>, nameoffs: seq<int>, i: nat)
    requires Layout(s, 0, calls, nameoffs) && (forall c | c in calls :: WellTyped(c)) && i <= |calls|
    requires Pos(calls, |calls|) + 4 == |s| && Get32(s, Pos(calls, |calls|)) == FDT_END
    ensures Stream(s, Pos(calls, i)) == Some(Entries(calls, i))
    decreases |calls| - i
  {
    PosAligned(calls, i);
    if i == |calls| {
      EndTag(s, Pos(calls, i));
    } else {
      assert CallAt(s, 0, calls, nameoffs, i) && calls[i] in calls;
      TagOfCall(s, Pos(calls, i), calls[i], nameoffs[i]);
      StreamOfCalls(s, calls, nameoffs, i + 1);
      StreamHead(s, Pos(calls, i), TagOf(calls[i]), Pos(calls, i + 1), Entries(calls, i + 1));
    }
  }

  // ---- frames ----

  /** A call depends only on its own bytes. */
  lemma {:induction false} MatchesFrame(s: seq<Byte>, s': seq<Byte>, at: nat, c: Call, nameoff: int)
    requires Matches(s, at, c, nameoff) && Agree(s, s', at, at + SizeOf(c))
    ensures Matches(s', at, c, nameoff)
  {
    Agree32(s, s', at);
    match c
    case BeginNode(name) =>
      AgreeSlice(s, s', at + 4, at + 4 + |name|);
    case EndNode =>
    case Property(_, value) =>
      Agree32(s, s', at + 4);
      Agree32(s, s', at + 8);
      AgreeSlice(s, s', at + 12, at + 12 + |value|);
  }

  /** Appending a call keeps the layout. */
  lemma {:induction false} LayoutExtend(
    b: seq<Byte>, b': seq<Byte>, base: nat, calls: seq<Call>, nameoffs: seq<int>, c: Call, nameoff: int)
    requires Layout(b, base, calls, nameoffs)
    requires Agree(b, b', base, base + Pos(calls, |calls|)) && Matches(b', base + Pos(calls, |calls|), c, nameoff)
    ensures Layout(b', base, calls + [c], nameoffs + [nameoff])
    ensures Pos(calls + [c], |calls| + 1) == Pos(calls, |calls|) + SizeOf(c)
  {
    var calls', n := calls + [c], |calls|;
    PosPrefix(calls, calls', n);
    forall i | 0 <= i < |calls'|
      ensures CallAt(b', base, calls', nameoffs + [nameoff], i)
    {
      if i < n {
        assert CallAt(b, base, calls, nameoffs, i);
        PosPrefix(calls, calls', i);
        PosMonotone(calls, i + 1, n);
        MatchesFrame(b, b', base + Pos(calls, i), calls[i], nameoffs[i]);
      }
    }
  }

  /** The layout depends on the calls' bytes only. */
  lemma {:induction false} LayoutFrame(b: seq<Byte>, b': seq<Byte>, base: nat, calls: seq<Call>, nameoffs: seq<int>)
    requires Layout(b, base, calls, nameoffs) && Agree(b, b', base, base + Pos(calls, |calls|))
    ensures Layout(b', base, calls, nameoffs)
  {
    forall i | 0 <= i < |calls|
      ensures CallAt(b', base, calls, nameoffs, i)
    {
      assert CallAt(b, base, calls, nameoffs, i);
      PosMonotone(calls, i + 1, |calls|);
      MatchesFrame(b, b', base + Pos(calls, i), calls[i], nameoffs[i]);
    }
  }

  lemma {:induction false} SubSlice(b: seq<Byte>, base: nat, end: nat, lo: nat, hi: nat)
    requires base <= end <= |b| && lo <= hi <= end - base
    ensures b[base..end][lo..hi] == b[base + lo..base + hi]
  {
    var s, t := b[base..end][lo..hi], b[base + lo..base + hi];
    assert |s| == |t| && forall k | 0 <= k < |s| :: s[k] == t[k];
  }

  lemma {:induction false} SubWord(b: seq<Byte>, base: nat, end: nat, at: nat)
    requires base <= end <= |b| && at + 4 <= end - base
    ensures Get32(b[base..end], at) == Get32(b, base + at)
  {
    SubSlice(b, base, end, at, at + 4);
    Get32Same(b[base..end], at, b, base + at);
  }

  lemma {:induction false} MatchesSlice(b: seq<Byte>, base: nat, end: nat, at: nat, c: Call, nameoff: int)
    requires base <= end <= |b| && base + at + SizeOf(c) <= end && Matches(b, base + at, c, nameoff)
    ensures Matches(b[base..end], at, c, nameoff)
  {
    SubWord(b, base, end, at);
    match c
    case BeginNode(name) =>
      SubSlice(b, base, end, at + 4, at + 4 + |name|);
    case EndNode =>
    case Property(_, value) =>
      SubWord(b, base, end, at + 4);
      SubWord(b, base, end, at + 8);
      SubSlice(b, base, end, at + 12, at + 12 + |value|);
  }

  lemma {:induction false} LayoutSlice(b: seq<Byte>, base: nat, end: nat, calls: seq<Call>, nameoffs: seq<int>)
    requires Layout(b, base, calls, nameoffs) && base + Pos(calls, |calls|) <= end <= |b|
    ensures Layout(b[base..end], 0, calls, nameoffs)
  {
    forall i | 0 <= i < |calls|
      ensures CallAt(b[base..end], 0, calls, nameoffs, i)
    {
      assert CallAt(b, base, calls, nameoffs, i);
      PosMonotone(calls, i + 1, |calls|);
      MatchesSlice(b, base, end, Pos(calls, i), calls[i], nameoffs[i]);
    }
  }

  // ---- names in the string table ----

  /** The name and its NUL stand at index p of the table. */
  predicate NameAt(t: seq<Byte>, p: int, name: seq<Byte>) {
    0 <= p && p + |name| + 1 <= |t| && t[p..p + |name| + 1] == name + [0]
  }

  /** Offsets count back from the end of the table, as 32-bit words. */
  ghost predicate NamesFromEnd(t: seq<Byte>, calls: seq<Call>, nameoffs: seq<int>) {
    && |nameoffs| == |calls| && |t| <= INT_MAX
    && forall i | 0 <= i < |calls| :: NameFromEnd(t, calls[i], nameoffs[i])
  }

  predicate NameFromEnd(t: seq<Byte>, c: Call, nameoff: int) {
    c.Property? ==> WORD / 2 < nameoff < WORD && NameAt(t, |t| - (WORD - nameoff), c.name)
  }

  /** A longer table in front of the old one moves no name. */
  lemma {:induction false} NamesInLonger(t: seq<Byte>, more: seq<Byte>, calls: seq<Call>, nameoffs: seq<int>)
    requires NamesFromEnd(t, calls, nameoffs) && |more| + |t| <= INT_MAX
    ensures NamesFromEnd(more + t, calls, nameoffs)
  {
    var t' := more + t;
    forall i | 0 <= i < |calls|
      ensures NameFromEnd(t', calls[i], nameoffs[i])
    {
      assert NameFromEnd(t, calls[i], nameoffs[i]);
      if calls[i].Property? {
        var name, p := calls[i].name, |t| - (WORD - nameoffs[i]);
        assert t'[|more| + p..|more| + p + |name| + 1] == t[p..p + |name| + 1];
      }
    }
  }
}
