/** The end of a sequential write: the string table moves below the structure
    block, the name offsets follow it, and the blob reads back. */
module FdtFinish {
  import Radix
  import opened Bytes
  import opened FdtBlob
  import opened FdtCheck
  import opened FdtLayout
  import opened FdtState

  /** Structure block, its end tag, then string table t. */
  ghost predicate Closed(b: seq<Byte>, entries: seq<Reservation>, calls: seq<Call>, offs: seq<int>, t: seq<Byte>) {
    && HasHeader(b) && |b| <= INT_MAX && (forall c | c in calls :: WellTyped(c))
    && var h := Head(b);
    && h.version == 17 && h.offReserve == RESERVE_AT && h.offStruct == RESERVE_AT + 16 * |entries|
    && h.sizeStruct == Pos(calls, |calls|) + 4 && h.offStrings == h.offStruct + h.sizeStruct
    && h.sizeStrings == |t| && h.offStrings + |t| <= |b|
    && |entries| > 0 && entries[|entries| - 1] == NO_RESERVE
    && b[RESERVE_AT..h.offStruct] == ReserveBytes(entries)
    && Layout(b, h.offStruct, calls, offs) && Get32(b, h.offStruct + Pos(calls, |calls|)) == FDT_END
    && b[h.offStrings..h.offStrings + |t|] == t
  }

  /** While fdt_finish walks: the total size is still the buffer's. */
  ghost predicate Walking(b: seq<Byte>, entries: seq<Reservation>, calls: seq<Call>, offs: seq<int>, t: seq<Byte>) {
    Closed(b, entries, calls, offs, t) && TotalSize(b) == |b|
  }

  /** After fdt_finish. */
  ghost predicate Complete(b: seq<Byte>, entries: seq<Reservation>, calls: seq<Call>, offs: seq<int>, t: seq<Byte>) {
    && Closed(b, entries, calls, offs, t) && NamesIn(t, calls, offs)
    && Magic(b) == FDT_MAGIC && LastComp(b) == 16 && TotalSize(b) == OffStrings(b) + |t|
  }

  /** Name offsets counted from the start of the table. */
  ghost predicate NamesIn(t: seq<Byte>, calls: seq<Call>, offs: seq<int>) {
    |offs| == |calls| && forall i | 0 <= i < |calls| :: NameIn(t, calls[i], offs[i])
  }

  predicate NameIn(t: seq<Byte>, c: Call, off: int) {
    c.Property? ==> NameAt(t, off, c.name)
  }

  // ---- the walk ----

  /** Offsets of the properties before i moved up by the table size. */
  function Moved(calls: seq<Call>, offs: seq<int>, size: nat, i: nat): (r: seq<int>)
    requires |offs| == |calls|
    ensures |r| == |calls|
  {
    seq(|calls|, j requires 0 <= j < |calls| =>
      if j < i && calls[j].Property? then (offs[j] + size) % WORD else offs[j])
  }

  lemma {:induction false} MovedStep(calls: seq<Call>, offs: seq<int>, size: nat, i: nat)
    requires |offs| == |calls| && i < |calls|
    ensures calls[i].Property? ==>
              Moved(calls, offs, size, i + 1) == Moved(calls, offs, size, i)[i := (offs[i] + size) % WORD]
    ensures !calls[i].Property? ==> Moved(calls, offs, size, i + 1) == Moved(calls, offs, size, i)
    ensures Moved(calls, offs, size, i)[i] == offs[i]
  {}

  lemma {:induction false} NoneMoved(calls: seq<Call>, offs: seq<int>, size: nat)
    requires |offs| == |calls|
    ensures Moved(calls, offs, size, 0) == offs
  {}

  /** Offsets from the end become offsets from the start. */
  lemma {:induction false} AllMoved(t: seq<Byte>, calls: seq<Call>, offs: seq<int>)
    requires NamesFromEnd(t, calls, offs)
    ensures NamesIn(t, calls, Moved(calls, offs, |t|, |calls|))
  {
    forall i | 0 <= i < |calls|
      ensures NameIn(t, calls[i], Moved(calls, offs, |t|, |calls|)[i])
    {
      assert NameFromEnd(t, calls[i], offs[i]);
      if calls[i].Property? { WrapSum(offs[i], |t|); }
    }
  }

  /** b' is b with the word at `at` set to v. */
  predicate Rewritten(b: seq<Byte>, b': seq<Byte>, at: nat, v: int) {
    && |b'| == |b| && at + 4 <= |b| && Agree(b, b', 0, at) && Agree(b, b', at + 4, |b|)
    && Get32(b', at) == v
  }

  /** Rewriting the name offset of a property changes nothing else. */
  lemma {:induction false} LayoutRename(
    b: seq<Byte>, b': seq<Byte>, base: nat, calls: seq<Call>, offs: seq<int>, offs': seq<int>, i: nat, v: int)
    requires Layout(b, base, calls, offs) && i < |calls| && calls[i].Property?
    requires Rewritten(b, b', base + Pos(calls, i) + 8, v) && offs' == offs[i := v]
    ensures Layout(b', base, calls, offs')
  {
    var at := base + Pos(calls, i);
    forall j | 0 <= j < |calls|
      ensures CallAt(b', base, calls, offs', j)
    {
      assert CallAt(b, base, calls, offs, j);
      if j == i {
        MatchesRename(b, b', at, calls[i], offs[i], v);
      } else {
        if j < i { PosMonotone(calls, j + 1, i); } else { PosMonotone(calls, i + 1, j); }
        MatchesFrame(b, b', base + Pos(calls, j), calls[j], offs[j]);
      }
    }
  }

  lemma {:induction false} MatchesRename(b: seq<Byte>, b': seq<Byte>, at: nat, c: Call, off: int, v: int)
    requires c.Property? && Matches(b, at, c, off) && Rewritten(b, b', at + 8, v)
    ensures Matches(b', at, c, v)
  {
    Agree32(b, b', at);
    Agree32(b, b', at + 4);
    AgreeSlice(b, b', at + 12, at + 12 + |c.value|);
  }

  lemma {:induction false} CallInside(b: seq<Byte>, base: nat, calls: seq<Call>, offs: seq<int>, i: nat)
    requires Layout(b, base, calls, offs) && i < |calls|
    ensures base + Pos(calls, i) + SizeOf(calls[i]) <= |b| && Pos(calls, i) + SizeOf(calls[i]) <= Pos(calls, |calls|)
  {
    assert CallAt(b, base, calls, offs, i);
    PosMonotone(calls, i + 1, |calls|);
  }

  /** What lies outside the structure block is as before. */
  lemma {:induction false} ClosedFrame(
    b: seq<Byte>, b': seq<Byte>, entries: seq<Reservation>, calls: seq<Call>, offs: seq<int>, offs': seq<int>,
    t: seq<Byte>)
    requires Closed(b, entries, calls, offs, t) && |b'| == |b|
    requires var h, h' := Head(b), Head(b');
             && h' == h.(total := h'.total, lastComp := h'.lastComp, magic := h'.magic)
             && Agree(b, b', HEADER_SIZE, h.offStruct) && Agree(b, b', h.offStruct + Pos(calls, |calls|), |b|)
             && Layout(b', h.offStruct, calls, offs')
    ensures Closed(b', entries, calls, offs', t)
  {
    var h := Head(b);
    AgreeSlice(b, b', RESERVE_AT, h.offStruct);
    AgreeSlice(b, b', h.offStrings, h.offStrings + |t|);
    Agree32(b, b', h.offStruct + Pos(calls, |calls|));
  }

  /** One step of the walk over a property. */
  lemma {:induction false} RenameStep(b: seq<Byte>, b': seq<Byte>, entries: seq<Reservation>, calls: seq<Call>,
                                      offs: seq<int>, offs': seq<int>, t: seq<Byte>, i: nat, v: int)
    requires Walking(b, entries, calls, offs, t) && i < |calls| && calls[i].Property? && i < |offs|
    requires Rewritten(b, b', OffStruct(b) + Pos(calls, i) + 8, v) && offs' == offs[i := v]
    ensures HasHeader(b') && Head(b') == Head(b)
    ensures Walking(b', entries, calls, offs', t)
  {
    var base := OffStruct(b);
    CallInside(b, base, calls, offs, i);
    HeadFrame(b, b');
    LayoutRename(b, b', base, calls, offs, offs', i, v);
    ClosedFrame(b, b', entries, calls, offs, offs', t);
  }

  /** The tag the walk finds at call i. */
  lemma {:induction false} ClosedTag(
    b: seq<Byte>, entries: seq<Reservation>, calls: seq<Call>, offs: seq<int>, t: seq<Byte>, i: nat)
    requires Closed(b, entries, calls, offs, t) && i <= |calls|
    requires TotalSize(b) <= |b| && OffStruct(b) + SizeStruct(b) <= TotalSize(b)
    ensures Readable(b) && Layout(StructBlock(b), 0, calls, offs)
    ensures |StructBlock(b)| == Pos(calls, |calls|) + 4 && Get32(StructBlock(b), Pos(calls, |calls|)) == FDT_END
    ensures i < |calls| ==> NextTag(StructBlock(b), Pos(calls, i)) == Step(TagOf(calls[i]), Pos(calls, i + 1))
    ensures i == |calls| ==> NextTag(StructBlock(b), Pos(calls, i)) == Step(FDT_END, Pos(calls, i) + 4)
  {
    ClosedBlock(b, entries, calls, offs, t);
    TagAt(StructBlock(b), calls, offs, i);
  }

  lemma {:induction false} ClosedBlock(
    b: seq<Byte>, entries: seq<Reservation>, calls: seq<Call>, offs: seq<int>, t: seq<Byte>)
    requires Closed(b, entries, calls, offs, t)
    requires TotalSize(b) <= |b| && OffStruct(b) + SizeStruct(b) <= TotalSize(b)
    ensures Readable(b) && Layout(StructBlock(b), 0, calls, offs)
    ensures |StructBlock(b)| == Pos(calls, |calls|) + 4 && Get32(StructBlock(b), Pos(calls, |calls|)) == FDT_END
  {
    BlockLayout(b, OffStruct(b), OffStruct(b) + SizeStruct(b), calls, offs);
  }

  lemma {:induction false} BlockLayout(b: seq<Byte>, base: nat, end: nat, calls: seq<Call>, offs: seq<int>)
    requires Readable(b) && base == OffStruct(b) && end == base + SizeStruct(b) <= TotalSize(b)
    requires Layout(b, base, calls, offs) && end == base + Pos(calls, |calls|) + 4 && Get32(b, end - 4) == FDT_END
    ensures Layout(StructBlock(b), 0, calls, offs)
    ensures |StructBlock(b)| == Pos(calls, |calls|) + 4 && Get32(StructBlock(b), Pos(calls, |calls|)) == FDT_END
  {
    assert StructBlock(b) == b[base..end];
    LayoutSlice(b, base, end, calls, offs);
    SubWord(b, base, end, Pos(calls, |calls|));
  }

  lemma {:induction false} TagAt(s: seq<Byte>, calls: seq<Call>, offs: seq<int>, i: nat)
    requires Layout(s, 0, calls, offs) && (forall c | c in calls :: WellTyped(c)) && i <= |calls|
    requires |s| == Pos(calls, |calls|) + 4 && Get32(s, Pos(calls, |calls|)) == FDT_END
    ensures i < |calls| ==> NextTag(s, Pos(calls, i)) == Step(TagOf(calls[i]), Pos(calls, i + 1))
    ensures i == |calls| ==> NextTag(s, Pos(calls, i)) == Step(FDT_END, Pos(calls, i) + 4)
  {
    PosAligned(calls, i);
    if i < |calls| {
      assert CallAt(s, 0, calls, offs, i) && calls[i] in calls;
      TagOfCall(s, Pos(calls, i), calls[i], offs[i]);
    } else {
      AlignShift(Pos(calls, i), 4);
    }
  }

  lemma {:induction false} WalkingOffset(
    b: seq<Byte>, entries: seq<Reservation>, calls: seq<Call>, offs: seq<int>, t: seq<Byte>, i: nat)
    requires Walking(b, entries, calls, offs, t) && i < |calls| && calls[i].Property?
    ensures OffStruct(b) + Pos(calls, i) + 12 <= |b| && Get32(b, OffStruct(b) + Pos(calls, i) + 8) == offs[i]
  {
    assert CallAt(b, OffStruct(b), calls, offs, i);
  }

  /** b' is b with an end tag and the string table right after it. */
  predicate Relocated(b: seq<Byte>, b': seq<Byte>)
    requires HasHeader(b) && SizeStrings(b) <= |b|
  {
    var h := Head(b);
    var end := h.offStruct + h.sizeStruct;
    && Room(h) >= 4 && |b'| == |b| && end + 4 + h.sizeStrings <= |b|
    && Head(b') == h.(sizeStruct := h.sizeStruct + 4, offStrings := end + 4)
    && Agree(b, b', HEADER_SIZE, end) && Get32(b', end) == FDT_END
    && b'[end + 4..end + 4 + h.sizeStrings] == Table(b)
  }

  /** Relocating the string table. */
  lemma {:induction false} Relocate(
    b: seq<Byte>, b': seq<Byte>, entries: seq<Reservation>, calls: seq<Call>, offs: seq<int>)
    requires Building(b, entries, calls, offs) && Relocated(b, b')
    ensures Walking(b', entries, calls, offs, Table(b))
  {
    var h := Head(b);
    LayoutFrame(b, b', h.offStruct, calls, offs);
    AgreeSlice(b, b', RESERVE_AT, h.offStruct);
  }

  /** The last header words. */
  lemma {:induction false} Completed(
    b: seq<Byte>, b': seq<Byte>, entries: seq<Reservation>, calls: seq<Call>, offs: seq<int>, t: seq<Byte>)
    requires Walking(b, entries, calls, offs, t) && NamesIn(t, calls, offs) && |b'| == |b| && HasHeader(b')
    requires Head(b') == Head(b).(total := OffStrings(b) + |t|, lastComp := 16, magic := FDT_MAGIC)
    requires Agree(b, b', HEADER_SIZE, |b|)
    ensures Complete(b', entries, calls, offs, t)
  {
    LayoutFrame(b, b', OffStruct(b), calls, offs);
    ClosedFrame(b, b', entries, calls, offs, offs, t);
  }

  // ---- reading back ----

  /** Call i reads back from structure block s of blob b. */
  ghost predicate ReadsBack(b: seq<Byte>, calls: seq<Call>, i: nat)
    requires i < |calls|
    requires Readable(b) && Magic(b) == FDT_MAGIC && OffStrings(b) <= TotalSize(b)
  {
    var s, at := StructBlock(b), Pos(calls, i);
    && NextTag(s, at) == Step(TagOf(calls[i]), Pos(calls, i + 1))
    && match calls[i]
       case BeginNode(name) => NodeName(s, at) == name
       case EndNode => true
       case Property(name, value) =>
         && at + 12 + |value| <= |s| && Get32(s, at + 4) == |value| && s[at + 12..at + 12 + |value|] == value
         && (TotalSize(b) < INT_MAX ==>
             var r := GetString(b, NameOff(s, at)); r.Str? && b[r.pos..r.pos + r.len] == name)
  }

  /** The finished blob passes the header check and its tag stream is exactly
      the sequence of calls. */
  lemma {:induction false} CompleteStream(
    b: seq<Byte>, entries: seq<Reservation>, calls: seq<Call>, offs: seq<int>, t: seq<Byte>)
    requires Complete(b, entries, calls, offs, t)
    ensures Checked(b) && Readable(b)
    ensures Stream(StructBlock(b), 0) == Some(Entries(calls, 0))
  {
    CheckedHeader(b);
    ClosedTag(b, entries, calls, offs, t, 0);
    StreamOfCalls(StructBlock(b), calls, offs, 0);
  }

  /** A NUL-terminated name is found whole. */
  lemma {:induction false} NulAfter(b: seq<Byte>, at: nat, hi: nat, name: seq<Byte>)
    requires at + |name| + 1 <= hi <= |b| && b[at..at + |name| + 1] == name + [0] && 0 !in name
    ensures FindNul(b, at, hi) == at + |name| && b[at..at + |name|] == name
  {
    var s := b[at..at + |name| + 1];
    forall k | 0 <= k <= |name|
      ensures b[at + k] == (name + [0])[k]
    {
      assert s[k] == b[at + k];
    }
    assert forall k | at <= k < at + |name| :: b[k] == name[k - at];
    assert b[at + |name|] == 0;
  }

  lemma {:induction false} GetStringAt(b: seq<Byte>, p: nat)
    requires Readable(b) && Magic(b) == FDT_MAGIC && LastComp(b) <= 17
    requires OffStrings(b) + SizeStrings(b) == TotalSize(b) < INT_MAX && p < SizeStrings(b)
    ensures var n := FindNul(b, OffStrings(b) + p, TotalSize(b));
            n != -1 ==> GetString(b, p) == Str(OffStrings(b) + p, n - OffStrings(b) - p)
  {
    assert (p + OffStrings(b)) % WORD == OffStrings(b) + p;
  }

  lemma {:induction false} StringReadsBack(b: seq<Byte>, t: seq<Byte>, p: int, name: seq<Byte>)
    requires Readable(b) && Magic(b) == FDT_MAGIC && LastComp(b) <= 17 && SizeStrings(b) == |t|
    requires OffStrings(b) + |t| == TotalSize(b) < INT_MAX && b[OffStrings(b)..TotalSize(b)] == t
    requires NameAt(t, p, name) && 0 !in name
    ensures GetString(b, p) == Str(OffStrings(b) + p, |name|)
    ensures b[OffStrings(b) + p..OffStrings(b) + p + |name|] == name
  {
    SubSlice(b, OffStrings(b), TotalSize(b), p, p + |name| + 1);
    NulAfter(b, OffStrings(b) + p, TotalSize(b), name);
    GetStringAt(b, p);
  }

  lemma {:induction false} NameOffOf(s: seq<Byte>, at: nat, c: Call, off: int)
    requires c.Property? && Matches(s, at, c, off) && 0 <= off <= INT_MAX
    ensures at + 12 <= |s| && NameOff(s, at) == off
  {}

  lemma {:induction false} PropertyReadsBack(b: seq<Byte>, t: seq<Byte>, at: nat, c: Call, off: int)
    requires Readable(b) && Magic(b) == FDT_MAGIC && LastComp(b) <= 17 && SizeStrings(b) == |t|
    requires OffStrings(b) + |t| == TotalSize(b) < INT_MAX && b[OffStrings(b)..TotalSize(b)] == t
    requires c.Property? && Matches(StructBlock(b), at, c, off) && NameAt(t, off, c.name) && 0 !in c.name
    ensures var r := GetString(b, NameOff(StructBlock(b), at)); r.Str? && b[r.pos..r.pos + r.len] == c.name
  {
    NameOffOf(StructBlock(b), at, c, off);
    StringReadsBack(b, t, off, c.name);
  }

  /** Every call reads back: names, values and name offsets. */
  lemma {:induction false} CompleteReadsBack(
    b: seq<Byte>, entries: seq<Reservation>, calls: seq<Call>, offs: seq<int>, t: seq<Byte>, i: nat)
    requires Complete(b, entries, calls, offs, t) && i < |calls|
    requires Readable(b) && OffStrings(b) <= TotalSize(b)
    ensures ReadsBack(b, calls, i)
  {
    ClosedTag(b, entries, calls, offs, t, i);
    var s, at := StructBlock(b), Pos(calls, i);
    assert CallAt(s, 0, calls, offs, i) && calls[i] in calls;
    PosAligned(calls, i);
    TagOfCall(s, at, calls[i], offs[i]);
    assert NameIn(t, calls[i], offs[i]);
    if calls[i].Property? && TotalSize(b) < INT_MAX {
      PropertyReadsBack(b, t, at, calls[i], offs[i]);
    }
  }

  ghost predicate AllReadBack(b: seq<Byte>, calls: seq<Call>) {
    && Readable(b) && Magic(b) == FDT_MAGIC && OffStrings(b) <= TotalSize(b)
    && forall i | 0 <= i < |calls| :: ReadsBack(b, calls, i)
  }

  lemma {:induction false} CompleteAll(
    b: seq<Byte>, entries: seq<Reservation>, calls: seq<Call>, offs: seq<int>, t: seq<Byte>)
    requires Complete(b, entries, calls, offs, t)
    ensures AllReadBack(b, calls)
  {
    forall i | 0 <= i < |calls|
      ensures ReadsBack(b, calls, i)
    {
      CompleteReadsBack(b, entries, calls, offs, t, i);
    }
  }

  /** The reader takes an entry for the last one exactly when its size is zero;
      so it counts all of them exactly when no earlier one has size zero. */
  lemma {:induction false} ReserveReadsBack(
    b: seq<Byte>, entries: seq<Reservation>, calls: seq<Call>, offs: seq<int>, t: seq<Byte>)
    requires Complete(b, entries, calls, offs, t) && TotalSize(b) <= |b|
    ensures forall k: nat | k < |entries| :: ReserveEnd(b, k) <==> entries[k].size == 0
    ensures forall n: nat | ReserveEnd(b, n) && (forall k: nat | k < n :: !ReserveEnd(b, k)) ::
              n == |entries| - 1 <==> forall k: nat | k < |entries| - 1 :: entries[k].size != 0
  {
    forall k: nat | k < |entries|
      ensures ReserveEnd(b, k) <==> entries[k].size == 0
    {
      EndOfSize(b, entries, k);
    }
    assert ReserveEnd(b, |entries| - 1);
  }

  lemma {:induction false} EndOfSize(b: seq<Byte>, entries: seq<Reservation>, k: nat)
    requires HasHeader(b) && TotalSize(b) <= |b| && OffReserve(b) == RESERVE_AT && k < |entries|
    requires var end := RESERVE_AT + 16 * |entries|; end <= TotalSize(b) && b[RESERVE_AT..end] == ReserveBytes(entries)
    ensures ReserveEnd(b, k) <==> entries[k].size == 0
  {
    SizeBytes(b, entries, RESERVE_AT + 16 * |entries|, k);
    ZeroBytes(entries[k].size);
  }

  lemma {:induction false} SizeBytes(b: seq<Byte>, entries: seq<Reservation>, end: nat, k: nat)
    requires k < |entries| && end == RESERVE_AT + 16 * |entries| <= |b| && b[RESERVE_AT..end] == ReserveBytes(entries)
    ensures b[RESERVE_AT + 16 * k + 8..RESERVE_AT + 16 * k + 16] == ToBytes(entries[k].size, 8)
  {
    ReserveWord(entries, k);
    SubSlice(b, RESERVE_AT, end, 16 * k + 8, 16 * k + 16);
  }

  /** Where the size of entry k stands. */
  lemma {:induction false} ReserveWord(entries: seq<Reservation>, k: nat)
    requires k < |entries|
    ensures ReserveBytes(entries)[16 * k + 8..16 * k + 16] == ToBytes(entries[k].size, 8)
  {
    var n := |entries| - 1;
    var init, s := ReserveBytes(entries[..n]), ReserveBytes(entries);
    if k < n {
      ReserveWord(entries[..n], k);
      assert s[16 * k + 8..16 * k + 16] == init[16 * k + 8..16 * k + 16];
    } else {
      assert s[16 * n + 8..16 * n + 16] == ToBytes(entries[n].size, 8);
    }
  }

  lemma {:induction false} ZeroBytes(x: int)
    requires 0 <= x < WORD * WORD
    ensures ToBytes(x, 8) == [0, 0, 0, 0, 0, 0, 0, 0] <==> x == 0
  {
    assert ToBytes(0, 4) == [0, 0, 0, 0];
    assert ToBytes(0, 8) == [0, 0, 0, 0, 0, 0, 0, 0];
    FourBytes();
    Pow256Add(4, 4);
    ValueRoundTrip(x, 8);
    ValueRoundTrip(0, 8);
    Radix.DivZero(x, WORD * WORD);
    Radix.DivZero(0, WORD * WORD);
  }

  // ---- when the validator accepts the result ----

  /** Open nodes before call i. */
  function CallDepth(calls: seq<Call>, i: nat): int
    requires i <= |calls|
  {
    if i == 0 then 0
    else CallDepth(calls, i - 1) +
         (match calls[i - 1] case BeginNode(_) => 1 case EndNode => -1 case Property(_, _) => 0)
  }

  predicate ProperCall(calls: seq<Call>, i: nat)
    requires i < |calls|
  {
    && !(i > 0 && calls[i - 1].EndNode? && CallDepth(calls, i) == 0)
    && (calls[i].EndNode? ==> CallDepth(calls, i) > 0)
    && (calls[i].BeginNode? && CallDepth(calls, i) == 0 ==> calls[i].name == [])
  }

  /** Every node closed once, and nothing after the nameless top-level node. */
  ghost predicate ProperTree(calls: seq<Call>) {
    CallDepth(calls, |calls|) == 0 && forall i | 0 <= i < |calls| :: ProperCall(calls, i)
  }

  lemma {:induction false} DepthOfEntries(calls: seq<Call>, i: nat)
    requires i <= |calls|
    ensures Depth(Entries(calls, 0)[..i]) == CallDepth(calls, i)
  {
    if i > 0 {
      var es := Entries(calls, 0)[..i];
      DepthOfEntries(calls, i - 1);
      EntryAt(calls, 0, i - 1);
      assert es[..i - 1] == Entries(calls, 0)[..i - 1];
    }
  }

  lemma {:induction false} EntryOkIsProper(b: seq<Byte>, before: seq<Entry>, e: Entry, calls: seq<Call>, i: nat)
    requires Checked(b) && RoProbe(b) >= 0 && TotalSize(b) < INT_MAX && i < |calls| && |before| == i
    requires Readable(b) && Magic(b) == FDT_MAGIC && OffStrings(b) <= TotalSize(b) && ReadsBack(b, calls, i)
    requires e == Entry(TagOf(calls[i]), Pos(calls, i), Pos(calls, i + 1)) && Depth(before) == CallDepth(calls, i)
    requires i > 0 ==> before[i - 1].tag == TagOf(calls[i - 1])
    ensures EntryOk(b, before, e) <==> ProperCall(calls, i)
  {}

  lemma {:induction false} EntryIsProper(b: seq<Byte>, calls: seq<Call>, i: nat)
    requires Checked(b) && RoProbe(b) >= 0 && TotalSize(b) < INT_MAX && AllReadBack(b, calls) && i < |calls|
    ensures EntryOk(b, Entries(calls, 0)[..i], Entries(calls, 0)[i]) <==> ProperCall(calls, i)
  {
    var es := Entries(calls, 0);
    DepthOfEntries(calls, i);
    EntryAt(calls, 0, i);
    if i > 0 { EntryAt(calls, 0, i - 1); }
    EntryOkIsProper(b, es[..i], es[i], calls, i);
  }

  lemma {:induction false} TreeOkIsProper(b: seq<Byte>, calls: seq<Call>)
    requires Checked(b) && RoProbe(b) >= 0 && TotalSize(b) < INT_MAX && AllReadBack(b, calls)
    ensures TreeOk(b, Entries(calls, 0)) <==> ProperTree(calls)
  {
    var es := Entries(calls, 0);
    DepthOfEntries(calls, |calls|);
    assert es[..|calls|] == es;
    forall i | 0 <= i < |calls|
      ensures EntryOk(b, es[..i], es[i]) <==> ProperCall(calls, i)
    {
      EntryIsProper(b, calls, i);
    }
  }

  /** At the largest size no string and no root name is found, so only the blob
      without any tag passes. */
  lemma {:induction false} LargestOk(b: seq<Byte>, calls: seq<Call>)
    requires Checked(b) && TotalSize(b) == INT_MAX
    ensures TreeOk(b, Entries(calls, 0)) <==> calls == []
  {
    var es := Entries(calls, 0);
    CheckedReadable(b);
    if |calls| > 0 {
      EntryAt(calls, 0, 0);
      assert es[..0] == [] && !EntryOk(b, es[..0], es[0]);
    } else {
      assert es == [];
    }
  }

  /** fdt_check_full accepts the finished blob exactly when the calls form one
      tree, and at the largest size only when there are none. */
  lemma {:induction false} CompleteValid(
    b: seq<Byte>, entries: seq<Reservation>, calls: seq<Call>, offs: seq<int>, t: seq<Byte>)
    requires Complete(b, entries, calls, offs, t)
    ensures Valid(b) <==> ProperTree(calls) && (TotalSize(b) == INT_MAX ==> calls == [])
  {
    CompleteStream(b, entries, calls, offs, t);
    ReserveReadsBack(b, entries, calls, offs, t);
    CompleteAll(b, entries, calls, offs, t);
    ValidIs(b, |entries| - 1, Entries(calls, 0));
    CompleteTree(b, calls);
  }

  lemma {:induction false} CompleteTree(b: seq<Byte>, calls: seq<Call>)
    requires Checked(b) && AllReadBack(b, calls)
    ensures TreeOk(b, Entries(calls, 0)) <==> ProperTree(calls) && (TotalSize(b) == INT_MAX ==> calls == [])
  {
    if TotalSize(b) < INT_MAX { TreeOkIsProper(b, calls); } else { LargestOk(b, calls); }
  }

  lemma {:induction false} ValidIs(b: seq<Byte>, n: nat, es: seq<Entry>)
    requires Checked(b) && Readable(b) && ReserveEnd(b, n) && Stream(StructBlock(b), 0) == Some(es)
    ensures Valid(b) <==> TreeOk(b, es)
  {}
}
