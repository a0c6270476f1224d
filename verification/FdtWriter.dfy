/** The sequential writer fdt_sw.c on its buffer. */
module FdtWriter {
  import opened Bytes
  import opened FdtBlob
  import opened FdtCheck
  import opened FdtLayout
  import opened FdtState
  import opened FdtFinish

  // ---- memory ----

  method Set32(buf: array<Byte>, at: nat, v: int)
    requires at + 4 <= buf.Length && 0 <= v < WORD
    modifies buf
    ensures buf[..] == Put32(old(buf[..]), at, v)
  {
    CopyIn(buf, at, Word32(v));
  }

  method CopyIn(buf: array<Byte>, at: nat, w: seq<Byte>)
    requires at + |w| <= buf.Length
    modifies buf
    ensures buf[..] == WriteAt(old(buf[..]), at, w)
  {
    forall k | 0 <= k < |w| { buf[at + k] := w[k]; }
  }

  /** memmove: the source bytes as they were before. */
  method Move(buf: array<Byte>, dst: nat, src: nat, n: nat)
    requires dst + n <= buf.Length && src + n <= buf.Length
    modifies buf
    ensures buf[..] == WriteAt(old(buf[..]), dst, old(buf[src..src + n]))
  {
    forall k | 0 <= k < n { buf[dst + k] := buf[src + k]; }
  }

  method SetHeader(buf: array<Byte>, i: nat, v: int)
    requires buf.Length >= HEADER_SIZE && i < 10 && 0 <= v < WORD
    modifies buf
    ensures Head(buf[..]) == Updated(old(Head(buf[..])), i, v)
    ensures Agree(old(buf[..]), buf[..], HEADER_SIZE, buf.Length)
  {
    HeadSet(buf[..], i, v);
    Set32(buf, 4 * i, v);
  }

  // ---- strings ----

  /** fdt_find_string_: first place where the name with its NUL stands. */
  method FindString(t: seq<Byte>, name: seq<Byte>) returns (p: int)
    ensures p == -1 || NameAt(t, p, name)
    ensures p == -1 ==> forall q :: !NameAt(t, q, name)
    ensures p != -1 ==> forall q | 0 <= q < p :: !NameAt(t, q, name)
  {
    var len := |name| + 1;
    p := 0;
    while p <= |t| - len
      invariant 0 <= p && forall q | 0 <= q < p :: !NameAt(t, q, name)
    {
      if t[p..p + len] == name + [0] {
        return p;
      }
      p := p + 1;
    }
    return -1;
  }

  datatype Phase = ReservePhase | StructPhase | DonePhase

  datatype Result = Ret(code: int) | Fault

  function Probe(b: seq<Byte>): int
    requires HasHeader(b)
  {
    if Magic(b) == FDT_MAGIC then -BADSTATE else if Magic(b) != FDT_SW_MAGIC then -BADMAGIC else 0
  }

  function ProbeReserve(b: seq<Byte>): int
    requires HasHeader(b)
  {
    if Probe(b) != 0 then Probe(b) else if OffStrings(b) != 0 then -BADSTATE else 0
  }

  function ProbeStruct(b: seq<Byte>): int
    requires HasHeader(b)
  {
    if Probe(b) != 0 then Probe(b) else if OffStrings(b) != TotalSize(b) then -BADSTATE else 0
  }

  /** Whether the name is already in the string table, where it counts. */
  ghost predicate Shared(b: seq<Byte>, name: seq<Byte>)
    requires HasHeader(b) && SizeStrings(b) <= |b|
  {
    LastComp(b) == 0 && exists p :: NameAt(Table(b), p, name)
  }

  /** Bytes the string table grows by. */
  ghost function NameSpace(b: seq<Byte>, name: seq<Byte>): nat
    requires HasHeader(b) && SizeStrings(b) <= |b|
  {
    if Shared(b, name) then 0 else |name| + 1
  }

  class Writer {
    const buf: array<Byte>
    ghost var phase: Phase
    ghost var entries: seq<Reservation>
    ghost var calls: seq<Call>
    ghost var offs: seq<int>

    ghost predicate Valid()
      reads this, buf
    {
      match phase
      case ReservePhase => Reserving(buf[..], entries) && calls == []
      case StructPhase => Building(buf[..], entries, calls, offs)
      case DonePhase => exists t :: Complete(buf[..], entries, calls, offs, t)
    }

    constructor (buf: array<Byte>)
      ensures this.buf == buf
    {
      this.buf := buf;
    }

    /** fdt_create_with_flags */
    method Create(flags: int) returns (r: int)
      requires buf.Length <= INT_MAX && 0 <= flags < WORD
      modifies this, buf
      ensures r == if buf.Length < 48 then -NOSPACE else if flags > 1 then -BADFLAGS else 0
      ensures r == 0 ==> Valid() && phase == ReservePhase && entries == [] && calls == []
      ensures r == 0 ==> LastComp(buf[..]) == flags
      ensures r != 0 ==> buf[..] == old(buf[..])
    {
      if buf.Length < 48 {
        return -NOSPACE;
      }
      if flags > 1 {
        return -BADFLAGS;
      }
      Clear(buf);
      InitHeader(buf, flags);
      phase, entries, calls, offs := ReservePhase, [], [], [];
      return 0;
    }

    /** fdt_add_reservemap_entry */
    method AddReserveEntry(address: int, size: int) returns (r: int)
      requires Valid() && IsReserve(Reserve(address, size))
      modifies this, buf
      ensures Valid() && phase == old(phase) && calls == old(calls) && offs == old(offs)
      ensures r == if phase != ReservePhase then -BADSTATE
                   else if 48 + 16 * (|old(entries)| + 1) > buf.Length then -NOSPACE else 0
      ensures entries == if r == 0 then old(entries) + [Reserve(address, size)] else old(entries)
      ensures r != 0 ==> buf[..] == old(buf[..])
    {
      ghost var b := buf[..];
      var err := ProbeReserve(buf[..]);
      if err != 0 {
        return err;
      }
      var offset := OffStruct(buf[..]);
      if (offset + 16) % WORD > TotalSize(buf[..]) {
        return -NOSPACE;
      }
      CopyIn(buf, offset, ToBytes(address, 8));
      CopyIn(buf, offset + 8, ToBytes(size, 8));
      ghost var b1 := buf[..];
      HeadFrame(b, b1);
      SetHeader(buf, 2, offset + 16);
      entries := entries + [Reserve(address, size)];
      ReserveExtend(b, b1, buf[..], entries);
      return 0;
    }

    /** fdt_finish_reservemap */
    method FinishReservemap() returns (r: int)
      requires Valid()
      modifies this, buf
      ensures Valid() && calls == old(calls)
      ensures r == if old(phase) != ReservePhase then -BADSTATE
                   else if 48 + 16 * (|old(entries)| + 1) > buf.Length then -NOSPACE else 0
      ensures r == 0 ==> phase == StructPhase && entries == old(entries) + [NO_RESERVE] && SizeStrings(buf[..]) == 0
      ensures r != 0 ==> phase == old(phase) && entries == old(entries) && buf[..] == old(buf[..])
    {
      r := AddReserveEntry(0, 0);
      if r != 0 {
        return;
      }
      ghost var b := buf[..];
      SetHeader(buf, 3, TotalSize(buf[..]));
      phase, offs := StructPhase, [];
      StartStruct(b, buf[..], entries);
    }

    /** fdt_begin_node */
    method BeginNode(name: seq<Byte>) returns (r: int)
      requires Valid() && 0 !in name && |name| < INT_MAX
      modifies this, buf
      ensures Valid() && phase == old(phase) && entries == old(entries)
      ensures r == if phase != StructPhase then -BADSTATE
                   else if SizeOf(Call.BeginNode(name)) > old(Room(Head(buf[..]))) then -NOSPACE else 0
      ensures calls == if r == 0 then old(calls) + [Call.BeginNode(name)] else old(calls)
      ensures r != 0 ==> buf[..] == old(buf[..])
    {
      var err := ProbeStruct(buf[..]);
      if err != 0 {
        return err;
      }
      r := AppendBegin(buf, name, entries, calls, offs);
      if r == 0 {
        calls, offs := calls + [Call.BeginNode(name)], offs + [0];
      }
    }

    /** fdt_end_node */
    method EndNode() returns (r: int)
      requires Valid()
      modifies this, buf
      ensures Valid() && phase == old(phase) && entries == old(entries)
      ensures r == if phase != StructPhase then -BADSTATE
                   else if 4 > old(Room(Head(buf[..]))) then -NOSPACE else 0
      ensures calls == if r == 0 then old(calls) + [Call.EndNode] else old(calls)
      ensures r != 0 ==> buf[..] == old(buf[..])
    {
      var err := ProbeStruct(buf[..]);
      if err != 0 {
        return err;
      }
      r := AppendEnd(buf, entries, calls, offs);
      if r == 0 {
        calls, offs := calls + [Call.EndNode], offs + [0];
      }
    }

    /** fdt_property */
    method Property(name: seq<Byte>, value: seq<Byte>) returns (r: Result)
      requires Valid() && WellTyped(Call.Property(name, value))
      modifies this, buf
      ensures r.Fault? <==> old(phase == StructPhase && !Shared(buf[..], name) &&
                                SizeStrings(buf[..]) + |name| + 1 > buf.Length)
      ensures r.Ret? ==> Valid() && phase == old(phase) && entries == old(entries)
      ensures r == Ret(0) <==> !r.Fault? && old(phase == StructPhase &&
                                 NameSpace(buf[..], name) + SizeOf(Call.Property(name, value)) <= Room(Head(buf[..])))
      ensures r == Ret(0) ==> calls == old(calls) + [Call.Property(name, value)]
      ensures r.Ret? && r.code != 0 ==> r.code == if phase != StructPhase then -BADSTATE else -NOSPACE
      ensures r.Ret? && r.code != 0 ==> calls == old(calls) && Head(buf[..]) == old(Head(buf[..]))
    {
      var err := ProbeStruct(buf[..]);
      if err != 0 {
        return Ret(err);
      }
      ghost var b := buf[..];
      var nameoff, added, fault := AddName(buf, name);
      if fault {
        return Fault;
      }
      if nameoff == 0 {
        return Ret(-NOSPACE);
      }
      ghost var off;
      r, off := PutNamed(buf, name, value, nameoff, added, b, entries, calls, offs);
      if r == Ret(0) {
        calls, offs := calls + [Call.Property(name, value)], offs + [off];
      }
    }

    /** fdt_finish: the blob reads back as the calls. */
    method Finish() returns (r: int)
      requires Valid()
      modifies this, buf
      ensures r == if old(phase) != StructPhase then -BADSTATE
                   else if 4 > old(Room(Head(buf[..]))) then -NOSPACE else 0
      ensures Valid() && calls == old(calls) && entries == old(entries)
      ensures r != 0 ==> phase == old(phase) && buf[..] == old(buf[..])
      ensures r == 0 ==> phase == DonePhase && Finished(buf[..], entries, calls)
    {
      var err := ProbeStruct(buf[..]);
      if err != 0 {
        return err;
      }
      ghost var moved, t;
      r, moved, t := Seal(buf, entries, calls, offs);
      if r == 0 {
        ghost var b := buf[..];
        phase, offs := DonePhase, moved;
        assert buf[..] == b && Complete(b, entries, calls, offs, t);
      }
    }
  }

  method AppendBegin(buf: array<Byte>, name: seq<Byte>, ghost entries: seq<Reservation>, ghost calls: seq<Call>,
                     ghost offs: seq<int>) returns (r: int)
    requires Building(buf[..], entries, calls, offs) && WellTyped(Call.BeginNode(name))
    modifies buf
    ensures r == if SizeOf(Call.BeginNode(name)) > old(Room(Head(buf[..]))) then -NOSPACE else 0
    ensures r == 0 ==> Building(buf[..], entries, calls + [Call.BeginNode(name)], offs + [0])
    ensures r != 0 ==> buf[..] == old(buf[..])
  {
    ghost var b := buf[..];
    var at := GrabSpace(buf, 4 + Align4(|name| + 1));
    if at == -1 {
      return -NOSPACE;
    }
    ghost var b1 := buf[..];
    PutBegin(buf, at, name);
    Appended(b, b1, buf[..], entries, calls, offs, Call.BeginNode(name), 0);
    return 0;
  }

  method AppendEnd(buf: array<Byte>, ghost entries: seq<Reservation>, ghost calls: seq<Call>, ghost offs: seq<int>)
    returns (r: int)
    requires Building(buf[..], entries, calls, offs)
    modifies buf
    ensures r == if 4 > old(Room(Head(buf[..]))) then -NOSPACE else 0
    ensures r == 0 ==> Building(buf[..], entries, calls + [Call.EndNode], offs + [0])
    ensures r != 0 ==> buf[..] == old(buf[..])
  {
    ghost var b := buf[..];
    var at := GrabSpace(buf, 4);
    if at == -1 {
      return -NOSPACE;
    }
    ghost var b1 := buf[..];
    Set32(buf, at, FDT_END_NODE);
    Appended(b, b1, buf[..], entries, calls, offs, Call.EndNode, 0);
    return 0;
  }

  /** What fdt_finish promises of blob b. */
  ghost predicate Finished(b: seq<Byte>, entries: seq<Reservation>, calls: seq<Call>) {
    && Checked(b) && Readable(b) && OffReserve(b) == RESERVE_AT && RESERVE_AT <= OffStruct(b) <= |b|
    && b[RESERVE_AT..OffStruct(b)] == ReserveBytes(entries)
    && Stream(StructBlock(b), 0) == Some(Entries(calls, 0)) && AllReadBack(b, calls)
    && (FdtCheck.Valid(b) <==> ProperTree(calls) && (TotalSize(b) == INT_MAX ==> calls == []))
  }

  lemma {:induction false} CompleteFinished(
    b: seq<Byte>, entries: seq<Reservation>, calls: seq<Call>, offs: seq<int>, t: seq<Byte>)
    requires Complete(b, entries, calls, offs, t)
    ensures Finished(b, entries, calls)
  {
    CompleteStream(b, entries, calls, offs, t);
    CompleteAll(b, entries, calls, offs, t);
    CompleteValid(b, entries, calls, offs, t);
  }

  method Seal(buf: array<Byte>, ghost entries: seq<Reservation>, ghost calls: seq<Call>, ghost offs: seq<int>)
    returns (r: int, ghost moved: seq<int>, ghost t: seq<Byte>)
    requires Building(buf[..], entries, calls, offs)
    modifies buf
    ensures r == if 4 > old(Room(Head(buf[..]))) then -NOSPACE else 0
    ensures r != 0 ==> buf[..] == old(buf[..])
    ensures r == 0 ==> Finished(buf[..], entries, calls) && Complete(buf[..], entries, calls, moved, t)
  {
    ghost var b := buf[..];
    t := Table(b);
    var at := GrabSpace(buf, 4);
    if at == -1 {
      return -NOSPACE, offs, t;
    }
    MoveTable(buf, at, b);
    Relocate(b, buf[..], entries, calls, offs);
    ghost var b1, h := buf[..], Head(buf[..]);
    StartWalk(b1, entries, calls, offs, t);
    FixedWalks(b1, h, entries, calls, offs, t, h.offStruct, |calls|);
    FixedTags(b1, h, entries, calls, offs, t, h.offStruct);
    FixNames(buf, h.offStruct, calls, |t|);
    AllMoved(t, calls, offs);
    moved := Moved(calls, offs, |t|, |calls|);
    SealHeader(buf, entries, calls, moved, t);
    CompleteFinished(buf[..], entries, calls, moved, t);
    return 0, moved, t;
  }

  /** A call written over grabbed space extends the layout. */
  lemma {:induction false} Appended(b: seq<Byte>, b1: seq<Byte>, b2: seq<Byte>, entries: seq<Reservation>,
                                    calls: seq<Call>, offs: seq<int>, c: Call, off: int)
    requires Building(b, entries, calls, offs) && WellTyped(c)
    requires Grabbed(b, b1, SizeOf(c)) && NameFromEnd(Table(b), c, off)
    requires Written(b1, b2, OffStruct(b) + SizeStruct(b), SizeOf(c))
    requires Matches(b2, OffStruct(b) + SizeStruct(b), c, off)
    ensures Building(b2, entries, calls + [c], offs + [off])
  {
    HeadFrame(b1, b2);
    BuildingExtend(b, b2, entries, calls, offs, c, off);
  }

  /** b1 is b with n bytes more in the structure block. */
  predicate Grabbed(b: seq<Byte>, b1: seq<Byte>, n: nat) {
    && HasHeader(b) && HasHeader(b1) && |b1| == |b| && n <= Room(Head(b))
    && Head(b1) == Head(b).(sizeStruct := SizeStruct(b) + n) && Agree(b, b1, HEADER_SIZE, |b|)
  }

  /** b2 is b1 but for n bytes. */
  predicate Written(b1: seq<Byte>, b2: seq<Byte>, at: nat, n: nat) {
    |b2| == |b1| && at + n <= |b1| && Agree(b1, b2, 0, at) && Agree(b1, b2, at + n, |b1|)
  }

  /** The header words the writer relies on. */
  predicate Roomy(b: seq<Byte>) {
    HasHeader(b) && TotalSize(b) == |b| <= INT_MAX && Room(Head(b)) >= 0
  }

  /** fdt_grab_space_: position of the new space in the buffer, or -1. */
  method GrabSpace(buf: array<Byte>, len: nat) returns (at: int)
    requires Roomy(buf[..]) && len < WORD
    modifies buf
    ensures at == -1 <==> len > old(Room(Head(buf[..])))
    ensures at == -1 ==> buf[..] == old(buf[..])
    ensures at != -1 ==> at == old(OffStruct(buf[..]) + SizeStruct(buf[..])) && Grabbed(old(buf[..]), buf[..], len)
  {
    var h := Head(buf[..]);
    var offset := h.sizeStruct;
    var spaceleft := (h.total - h.offStruct - h.sizeStrings) % WORD;
    WrapSum(offset, len);
    if (offset + len) % WORD < offset || (offset + len) % WORD > spaceleft {
      return -1;
    }
    SetHeader(buf, 9, offset + len);
    at := h.offStruct + offset;
  }

  lemma {:induction false} StartStruct(b: seq<Byte>, b': seq<Byte>, entries: seq<Reservation>)
    requires Reserving(b, entries) && |entries| > 0 && entries[|entries| - 1] == NO_RESERVE
    requires |b'| == |b| && Head(b') == Head(b).(offStrings := |b|) && Agree(b, b', HEADER_SIZE, |b|)
    ensures Building(b', entries, [], [])
  {
    CommonFrame(b, b', entries);
  }

  /** Terminator and relocation of the string table. */
  method MoveTable(buf: array<Byte>, at: nat, ghost b: seq<Byte>)
    requires Roomy(b) && OffStruct(b) >= HEADER_SIZE && Grabbed(b, buf[..], 4) && at == OffStruct(b) + SizeStruct(b)
    modifies buf
    ensures Relocated(b, buf[..])
  {
    MoveDown(buf, at, b);
    ghost var b3 := buf[..];
    SetHeader(buf, 3, OffStruct(buf[..]) + SizeStruct(buf[..]));
    TableStays(b, b3, buf[..]);
  }

  method MoveDown(buf: array<Byte>, at: nat, ghost b: seq<Byte>)
    requires Roomy(b) && OffStruct(b) >= HEADER_SIZE && Grabbed(b, buf[..], 4) && at == OffStruct(b) + SizeStruct(b)
    modifies buf
    ensures MovedDown(b, buf[..])
  {
    TableMoved(b, buf[..]);
    Set32(buf, at, FDT_END);
    var h := Head(buf[..]);
    var oldstroffset, newstroffset := h.total - h.sizeStrings, h.offStruct + h.sizeStruct;
    Move(buf, newstroffset, oldstroffset, h.sizeStrings);
  }

  /** b' is b with the terminator and the table behind it, the header apart. */
  predicate MovedDown(b: seq<Byte>, b': seq<Byte>) {
    && Roomy(b) && Room(Head(b)) >= 4 && |b'| == |b| && HasHeader(b') && OffStruct(b) >= HEADER_SIZE
    && Head(b') == Head(b).(sizeStruct := SizeStruct(b) + 4)
    && var end := OffStruct(b) + SizeStruct(b);
       && Agree(b, b', HEADER_SIZE, end) && Get32(b', end) == FDT_END
       && b'[end + 4..end + 4 + SizeStrings(b)] == Table(b)
  }

  lemma {:induction false} TableStays(b: seq<Byte>, b3: seq<Byte>, b4: seq<Byte>)
    requires MovedDown(b, b3) && |b4| == |b|
    requires Head(b4) == Head(b3).(offStrings := OffStruct(b3) + SizeStruct(b3)) && Agree(b3, b4, HEADER_SIZE, |b|)
    ensures Relocated(b, b4)
  {
    var end := OffStruct(b) + SizeStruct(b);
    AgreeSlice(b3, b4, end + 4, end + 4 + SizeStrings(b));
    Agree32(b3, b4, end);
  }

  lemma {:induction false} TableMoved(b: seq<Byte>, b1: seq<Byte>)
    requires Roomy(b) && OffStruct(b) >= HEADER_SIZE && Grabbed(b, b1, 4)
    ensures var at, size := OffStruct(b) + SizeStruct(b), SizeStrings(b);
            var b2 := Put32(b1, at, FDT_END);
            Head(b2) == Head(b1) && MovedDown(b, WriteAt(b2, at + 4, b2[|b2| - size..|b2| - size + size]))
  {
    var at, size := OffStruct(b) + SizeStruct(b), SizeStrings(b);
    var b2 := Put32(b1, at, FDT_END);
    var t := b2[|b2| - size..|b2| - size + size];
    var b3 := WriteAt(b2, at + 4, t);
    HeadFrame(b1, b2);
    HeadFrame(b2, b3);
    Agree32(b2, b3, at);
    AgreeSlice(b, b2, |b| - size, |b|);
    assert b3[at + 4..at + 4 + size] == t;
  }

  method SealHeader(buf: array<Byte>, ghost entries: seq<Reservation>, ghost calls: seq<Call>, ghost offs: seq<int>,
                    ghost t: seq<Byte>)
    requires Walking(buf[..], entries, calls, offs, t) && NamesIn(t, calls, offs)
    modifies buf
    ensures Complete(buf[..], entries, calls, offs, t)
  {
    ghost var b := buf[..];
    SetHeader(buf, 1, OffStrings(buf[..]) + SizeStrings(buf[..]));
    SetHeader(buf, 6, 16);
    SetHeader(buf, 0, FDT_MAGIC);
    Completed(b, buf[..], entries, calls, offs, t);
  }

  /** The second half of fdt_property, the name being in the table: buf was b
      before the name was added. */
  method PutNamed(buf: array<Byte>, name: seq<Byte>, value: seq<Byte>, nameoff: int, added: bool, ghost b: seq<Byte>,
                  ghost entries: seq<Reservation>, ghost calls: seq<Call>, ghost offs: seq<int>)
    returns (r: Result, ghost off: int)
    requires Building(b, entries, calls, offs) && WellTyped(Call.Property(name, value))
    requires Tabled(b, buf[..], if added then |name| + 1 else 0) && -SizeStrings(buf[..]) <= nameoff < 0
    requires NameAt(Table(buf[..]), SizeStrings(buf[..]) + nameoff, name)
    modifies buf
    ensures r == if SizeOf(Call.Property(name, value)) <= old(Room(Head(buf[..]))) then Ret(0) else Ret(-NOSPACE)
    ensures r == Ret(0) ==> Building(buf[..], entries, calls + [Call.Property(name, value)], offs + [off])
    ensures r != Ret(0) ==> Building(buf[..], entries, calls, offs) && Head(buf[..]) == Head(b)
  {
    off := nameoff % WORD;
    WrapNegative(nameoff);
    ghost var b1 := buf[..];
    var at := GrabSpace(buf, 12 + Align4(|value|));
    if at == -1 {
      TakeBack(buf, name, added, b, entries, calls, offs);
      return Ret(-NOSPACE), off;
    }
    FillNamed(buf, at, name, value, nameoff % WORD, b, b1, if added then |name| + 1 else 0, entries, calls, offs);
    return Ret(0), off;
  }

  /** The name is dropped again when the property does not fit. */
  method TakeBack(buf: array<Byte>, name: seq<Byte>, added: bool, ghost b: seq<Byte>, ghost entries: seq<Reservation>,
                  ghost calls: seq<Call>, ghost offs: seq<int>)
    requires Building(b, entries, calls, offs) && Tabled(b, buf[..], if added then |name| + 1 else 0)
    modifies buf
    ensures Building(buf[..], entries, calls, offs) && Head(buf[..]) == Head(b)
  {
    ghost var b1 := buf[..];
    if added {
      SetHeader(buf, 8, SizeStrings(buf[..]) - (|name| + 1));
    }
    RolledBack(b, b1, if added then |name| + 1 else 0, buf[..], entries, calls, offs);
  }

  /** The property goes into the space it was given; b1 is the buffer before the
      space was taken, b the one before the name was added. */
  method FillNamed(buf: array<Byte>, at: nat, name: seq<Byte>, value: seq<Byte>, off: int, ghost b: seq<Byte>,
                   ghost b1: seq<Byte>, ghost n: nat, ghost entries: seq<Reservation>, ghost calls: seq<Call>,
                   ghost offs: seq<int>)
    requires Building(b, entries, calls, offs) && Tabled(b, b1, n) && WellTyped(Call.Property(name, value))
    requires 0 <= off < WORD && NameFromEnd(Table(b1), Call.Property(name, value), off)
    requires Grabbed(b1, buf[..], SizeOf(Call.Property(name, value))) && at == OffStruct(b) + SizeStruct(b)
    requires at + SizeOf(Call.Property(name, value)) <= buf.Length
    modifies buf
    ensures Building(buf[..], entries, calls + [Call.Property(name, value)], offs + [off])
  {
    ghost var b2 := buf[..];
    PutProperty(buf, at, name, value, off);
    Accepted(b, b1, n, b2, buf[..], entries, calls, offs, Call.Property(name, value), off);
  }

  lemma {:induction false} Accepted(
    b: seq<Byte>, b1: seq<Byte>, n: nat, b2: seq<Byte>, b3: seq<Byte>, entries: seq<Reservation>, calls: seq<Call>,
    offs: seq<int>, c: Call, off: int)
    requires Building(b, entries, calls, offs) && Tabled(b, b1, n) && WellTyped(c) && c.Property?
    requires NameFromEnd(Table(b1), c, off)
    requires Grabbed(b1, b2, SizeOf(c)) && Written(b2, b3, OffStruct(b) + SizeStruct(b), SizeOf(c))
    requires Matches(b3, OffStruct(b) + SizeStruct(b), c, off)
    ensures Building(b3, entries, calls + [c], offs + [off])
  {
    BuildingTable(b, b1, entries, calls, offs, SizeStrings(b1));
    Appended(b1, b2, b3, entries, calls, offs, c, off);
  }

  lemma {:induction false} WrapNegative(x: int)
    requires -WORD / 2 < x < 0
    ensures x % WORD == x + WORD
  {}

  /** A refused property leaves the state as it was. */
  lemma {:induction false} RolledBack(b: seq<Byte>, b1: seq<Byte>, n: nat, b2: seq<Byte>, entries: seq<Reservation>,
                                      calls: seq<Call>, offs: seq<int>)
    requires Building(b, entries, calls, offs) && Tabled(b, b1, n)
    requires |b2| == |b1| && Agree(b1, b2, HEADER_SIZE, |b1|) && Head(b2) == Head(b)
    ensures Building(b2, entries, calls, offs)
  {
    BuildingTable(b, b2, entries, calls, offs, SizeStrings(b));
  }

  method PutBegin(buf: array<Byte>, at: nat, name: seq<Byte>)
    requires at + SizeOf(Call.BeginNode(name)) <= buf.Length
    modifies buf
    ensures Matches(buf[..], at, Call.BeginNode(name), 0)
    ensures Written(old(buf[..]), buf[..], at, SizeOf(Call.BeginNode(name)))
  {
    ghost var b := buf[..];
    Set32(buf, at, FDT_BEGIN_NODE);
    CopyIn(buf, at + 4, name + [0]);
    WroteBegin(b, at, name);
  }

  lemma {:induction false} WroteBegin(b: seq<Byte>, at: nat, name: seq<Byte>)
    requires at + SizeOf(Call.BeginNode(name)) <= |b|
    ensures var b2 := WriteAt(Put32(b, at, FDT_BEGIN_NODE), at + 4, name + [0]);
            Matches(b2, at, Call.BeginNode(name), 0) && Written(b, b2, at, SizeOf(Call.BeginNode(name)))
  {
    var b1 := Put32(b, at, FDT_BEGIN_NODE);
    var b2 := WriteAt(b1, at + 4, name + [0]);
    Agree32(b1, b2, at);
    assert b2[at + 4..at + 4 + |name|] == name;
  }

  method PutProperty(buf: array<Byte>, at: nat, name: seq<Byte>, value: seq<Byte>, nameoff: int)
    requires at + SizeOf(Call.Property(name, value)) <= buf.Length && 0 <= nameoff < WORD && |value| <= INT_MAX
    modifies buf
    ensures Matches(buf[..], at, Call.Property(name, value), nameoff)
    ensures Written(old(buf[..]), buf[..], at, SizeOf(Call.Property(name, value)))
  {
    Set32(buf, at, FDT_PROP);
    ghost var b1 := buf[..];
    Set32(buf, at + 8, nameoff);
    ghost var b2 := buf[..];
    Agree32(b1, b2, at);
    Set32(buf, at + 4, |value|);
    ghost var b3 := buf[..];
    Agree32(b2, b3, at);
    Agree32(b2, b3, at + 8);
    CopyIn(buf, at + 12, value);
    Agree32(b3, buf[..], at);
    Agree32(b3, buf[..], at + 4);
    Agree32(b3, buf[..], at + 8);
    assert buf[..][at + 12..at + 12 + |value|] == value;
  }

  /** b1 is b with n bytes more in the string table. */
  predicate Tabled(b: seq<Byte>, b1: seq<Byte>, n: nat) {
    && Roomy(b) && HasHeader(b1) && |b1| == |b| && n <= Room(Head(b))
    && Head(b1) == Head(b).(sizeStrings := SizeStrings(b) + n)
    && Agree(b, b1, HEADER_SIZE, OffStruct(b) + SizeStruct(b)) && Agree(b, b1, |b| - SizeStrings(b), |b|)
  }

  /** fdt_add_string_: minus the offset from the end of the table, or 0. The
      32-bit subtraction of the room test lets a name through that does not
      fit below the total size; the copy then leaves the buffer. */
  method AddString(buf: array<Byte>, name: seq<Byte>) returns (nameoff: int, fault: bool)
    requires Roomy(buf[..]) && OffStruct(buf[..]) >= HEADER_SIZE && |name| < INT_MAX
    modifies buf
    ensures fault <==> old(SizeStrings(buf[..])) + |name| + 1 > buf.Length
    ensures !fault ==> (nameoff == 0 <==> |name| + 1 > old(Room(Head(buf[..]))))
    ensures fault || nameoff == 0 ==> buf[..] == old(buf[..])
    ensures !fault && nameoff != 0 ==> Tabled(old(buf[..]), buf[..], |name| + 1)
    ensures !fault && nameoff != 0 ==> nameoff == -SizeStrings(buf[..]) && NameAt(Table(buf[..]), 0, name)
  {
    var h := Head(buf[..]);
    var len := |name| + 1;
    var offset := (h.sizeStrings + len) % WORD;
    var structTop := h.offStruct + h.sizeStruct;
    StringRoom(h.total, h.sizeStrings, len, structTop);
    if (h.total - offset) % WORD < structTop {
      return 0, false;
    }
    fault := offset > h.total;
    if fault {
      return 0, true;
    }
    PutString(buf, offset, name);
    nameoff := -offset;
  }

  method PutString(buf: array<Byte>, offset: nat, name: seq<Byte>)
    requires Roomy(buf[..]) && offset == SizeStrings(buf[..]) + |name| + 1 && |name| + 1 <= Room(Head(buf[..]))
    requires OffStruct(buf[..]) >= HEADER_SIZE
    modifies buf
    ensures Tabled(old(buf[..]), buf[..], |name| + 1) && NameAt(Table(buf[..]), 0, name)
  {
    ghost var b := buf[..];
    CopyIn(buf, buf.Length - offset, name + [0]);
    ghost var b1 := buf[..];
    HeadFrame(b, b1);
    SetHeader(buf, 8, offset);
    TableWithName(b1, buf[..], buf.Length - offset, name);
  }

  /** What the 32-bit room test lets through. */
  lemma {:induction false} StringRoom(total: int, size: int, len: int, top: int)
    requires 0 <= size <= total <= INT_MAX && 0 < len <= INT_MAX && 0 <= top && top + size <= total
    ensures (size + len) % WORD == size + len
    ensures (total - (size + len)) % WORD < top <==> total - top - size < len && size + len <= total
  {}

  /** A name shorter than the buffer that the room test lets through although it
      does not fit: a property with a name of 39 bytes and a value of 4 is written
      into 128 bytes, and the copy of a name of 99 bytes then leaves the buffer. */
  method ShortNameSlips(flags: int, first: seq<Byte>, second: seq<Byte>, value: seq<Byte>)
    returns (r: Result, r': Result)
    requires 0 <= flags <= 1 && |first| == 39 && |second| == 99 && |value| == 4 && 0 !in first && 0 !in second
    ensures r == Ret(0) && r' == Fault
  {
    var buf := new Byte[128];
    var w := new Writer(buf);
    var err := w.Create(flags);
    err := w.FinishReservemap();
    assert Pos(w.calls, 0) == 0;
    r := w.Property(first, value);
    OneProperty(w.buf[..], w.entries, w.calls, w.offs, first, value);
    r' := w.Property(second, value);
  }

  lemma {:induction false} OneProperty(b: seq<Byte>, entries: seq<Reservation>, calls: seq<Call>, offs: seq<int>,
                                       name: seq<Byte>, value: seq<Byte>)
    requires Building(b, entries, calls, offs) && calls == [Call.Property(name, value)] && |value| == 4
    ensures |name| < SizeStrings(b) <= |b| - RESERVE_AT - 16 * |entries| - 16
    ensures forall n: seq<Byte> | |n| >= SizeStrings(b) :: !Shared(b, n)
  {
    assert NameFromEnd(Table(b), calls[0], offs[0]);
    assert Pos(calls, 1) == Pos(calls, 0) + SizeOf(calls[0]);
  }

  lemma {:induction false} TableWithName(b1: seq<Byte>, b2: seq<Byte>, at: nat, name: seq<Byte>)
    requires at + |name| + 1 <= |b1| == |b2| && HasHeader(b2) && SizeStrings(b2) == |b2| - at && at >= HEADER_SIZE
    requires Agree(b1, b2, HEADER_SIZE, |b1|)
    requires forall k | 0 <= k <= |name| :: b1[at + k] == (name + [0])[k]
    ensures NameAt(Table(b2), 0, name)
  {
    var s := Table(b2)[..|name| + 1];
    assert forall k | 0 <= k <= |name| :: s[k] == b1[at + k];
  }

  /** The name's offset by fdt_find_add_string_, or by fdt_add_string_ alone
      when de-duplication is off. */
  method AddName(buf: array<Byte>, name: seq<Byte>) returns (nameoff: int, added: bool, fault: bool)
    requires Roomy(buf[..]) && OffStruct(buf[..]) >= HEADER_SIZE && |name| < INT_MAX && LastComp(buf[..]) <= 1
    modifies buf
    ensures added == !old(Shared(buf[..], name))
    ensures fault <==> added && old(SizeStrings(buf[..])) + |name| + 1 > buf.Length
    ensures !fault ==> (nameoff == 0 <==> old(NameSpace(buf[..], name) > Room(Head(buf[..]))))
    ensures fault || nameoff == 0 ==> buf[..] == old(buf[..])
    ensures !fault && nameoff != 0 ==> Tabled(old(buf[..]), buf[..], old(NameSpace(buf[..], name)))
    ensures !fault && nameoff != 0 ==> -SizeStrings(buf[..]) <= nameoff < 0
    ensures !fault && nameoff != 0 ==> NameAt(Table(buf[..]), SizeStrings(buf[..]) + nameoff, name)
  {
    if LastComp(buf[..]) == 1 {
      added := true;
      nameoff, fault := AddString(buf, name);
      return;
    }
    added := false;
    var p := FindString(Table(buf[..]), name);
    if p != -1 {
      return p - SizeStrings(buf[..]), false, false;
    }
    added := true;
    nameoff, fault := AddString(buf, name);
  }

  /** The buffer after the first i steps of the walk of fdt_finish. */
  function Fixed(b: seq<Byte>, base: nat, calls: seq<Call>, size: nat, i: nat): (r: seq<Byte>)
    requires i <= |calls|
    ensures |r| == |b|
  {
    if i == 0 then b
    else
      var c := Fixed(b, base, calls, size, i - 1);
      if calls[i - 1].Property? then FixAt(c, base + Pos(calls, i - 1) + 8, size) else c
  }

  /** The word at `at` moved up by size. */
  function FixAt(b: seq<Byte>, at: nat, size: nat): (r: seq<Byte>)
    ensures |r| == |b|
  {
    if at + 4 <= |b| then Put32(b, at, (Get32(b, at) + size) % WORD) else b
  }

  lemma {:induction false} FixedNext(b: seq<Byte>, base: nat, calls: seq<Call>, size: nat, i: nat)
    requires i < |calls|
    ensures Fixed(b, base, calls, size, i + 1) ==
            if calls[i].Property? then FixAt(Fixed(b, base, calls, size, i), base + Pos(calls, i) + 8, size)
            else Fixed(b, base, calls, size, i)
  {}

  /** The walk keeps the layout with the offsets moved so far. */
  lemma {:induction false} FixedWalks(b: seq<Byte>, h: Header, entries: seq<Reservation>, calls: seq<Call>,
                                      offs: seq<int>, t: seq<Byte>, base: nat, i: nat)
    requires WalkingTo(b, h, entries, calls, offs, t, 0) && base == h.offStruct && i <= |calls|
    ensures WalkingTo(Fixed(b, base, calls, |t|, i), h, entries, calls, offs, t, i)
  {
    if i > 0 {
      FixedWalks(b, h, entries, calls, offs, t, base, i - 1);
      FixedStep(b, Fixed(b, base, calls, |t|, i - 1), Fixed(b, base, calls, |t|, i), h, entries, calls, offs, t, base,
                i - 1);
    }
  }

  lemma {:induction false} FixedStep(b: seq<Byte>, c: seq<Byte>, d: seq<Byte>, h: Header, entries: seq<Reservation>,
                                     calls: seq<Call>, offs: seq<int>, t: seq<Byte>, base: nat, i: nat)
    requires i < |calls| && c == Fixed(b, base, calls, |t|, i) && d == Fixed(b, base, calls, |t|, i + 1)
    requires WalkingTo(c, h, entries, calls, offs, t, i) && base == h.offStruct
    ensures WalkingTo(d, h, entries, calls, offs, t, i + 1)
  {
    FixedNext(b, base, calls, |t|, i);
    if calls[i].Property? {
      FixStep(c, h, entries, calls, offs, t, base, i);
    } else {
      SkipStep(c, h, entries, calls, offs, t, i);
    }
  }

  lemma {:induction false} StartWalk(
    b: seq<Byte>, entries: seq<Reservation>, calls: seq<Call>, offs: seq<int>, t: seq<Byte>)
    requires Walking(b, entries, calls, offs, t)
    ensures WalkingTo(b, Head(b), entries, calls, offs, t, 0)
  {
    NoneMoved(calls, offs, |t|);
  }

  /** What the walk reads at call i. */
  ghost predicate TagFacts(c: seq<Byte>, calls: seq<Call>, i: nat)
    requires i <= |calls|
  {
    && Readable(c) && NextTag(StructBlock(c), Pos(calls, i)) == StepAt(calls, i) && Pos(calls, i) < WORD / 2
  }

  /** What the walk reads to move a name offset. */
  ghost predicate WordFacts(c: seq<Byte>, base: nat, calls: seq<Call>, size: nat, i: nat)
    requires i <= |calls|
  {
    && HasHeader(c) && OffStruct(c) == base && SizeStrings(c) == size
    && (i < |calls| && calls[i].Property? ==> base + Pos(calls, i) + 12 <= |c|)
  }

  ghost predicate FixFacts(b: seq<Byte>, base: nat, calls: seq<Call>, size: nat, i: nat)
    requires i <= |calls|
  {
    TagFacts(Fixed(b, base, calls, size, i), calls, i)
  }

  ghost predicate FixWords(b: seq<Byte>, base: nat, calls: seq<Call>, size: nat, i: nat)
    requires i <= |calls|
  {
    WordFacts(Fixed(b, base, calls, size, i), base, calls, size, i)
  }

  lemma {:induction false} FixedTags(
    b: seq<Byte>, h: Header, entries: seq<Reservation>, calls: seq<Call>, offs: seq<int>, t: seq<Byte>, base: nat)
    requires WalkingTo(b, h, entries, calls, offs, t, 0) && base == h.offStruct
    ensures forall i: nat | i <= |calls| :: FixFacts(b, base, calls, |t|, i)
    ensures forall i: nat | i <= |calls| :: FixWords(b, base, calls, |t|, i)
  {
    forall i: nat | i <= |calls|
      ensures FixFacts(b, base, calls, |t|, i) && FixWords(b, base, calls, |t|, i)
    {
      FixedWalks(b, h, entries, calls, offs, t, base, i);
      TagsOfWalk(Fixed(b, base, calls, |t|, i), h, entries, calls, offs, t, i);
    }
  }

  lemma {:induction false} TagsOfWalk(
    c: seq<Byte>, h: Header, entries: seq<Reservation>, calls: seq<Call>, offs: seq<int>, t: seq<Byte>, i: nat)
    requires WalkingTo(c, h, entries, calls, offs, t, i) && i <= |calls|
    ensures h.offStruct >= 0 && TagFacts(c, calls, i) && WordFacts(c, h.offStruct, calls, |t|, i)
  {
    ClosedTag(c, entries, calls, Moved(calls, offs, |t|, i), t, i);
    if i < |calls| { CallInside(c, OffStruct(c), calls, Moved(calls, offs, |t|, i), i); }
  }

  method MoveWord(buf: array<Byte>, at: nat, size: nat)
    requires at + 4 <= buf.Length
    modifies buf
    ensures buf[..] == FixAt(old(buf[..]), at, size)
  {
    Set32(buf, at, (Get32(buf[..], at) + size) % WORD);
  }

  /** The walk itself: every property's name offset moves up by the table size. */
  method FixNames(buf: array<Byte>, ghost base: nat, ghost calls: seq<Call>, ghost size: nat)
    requires forall i: nat | i <= |calls| :: FixFacts(buf[..], base, calls, size, i)
    requires forall i: nat | i <= |calls| :: FixWords(buf[..], base, calls, size, i)
    modifies buf
    ensures buf[..] == Fixed(old(buf[..]), base, calls, size, |calls|)
  {
    ghost var b, i := buf[..], 0;
    var offset := 0;
    var step := ReadTag(buf, 0, b, base, calls, size, 0);
    while step.tag != FDT_END
      invariant i <= |calls| && offset == Pos(calls, i) && step == StepAt(calls, i)
      invariant buf[..] == Fixed(b, base, calls, size, i)
      decreases |calls| - i
    {
      assert FixWords(b, base, calls, size, i);
      FixedNext(b, base, calls, size, i);
      if step.tag == FDT_PROP {
        MoveWord(buf, OffStruct(buf[..]) + offset + 8, SizeStrings(buf[..]));
      }
      i := i + 1;
      offset := step.next;
      step := ReadTag(buf, offset, b, base, calls, size, i);
    }
  }

  method ReadTag(buf: array<Byte>, offset: nat, ghost b: seq<Byte>, ghost base: nat, ghost calls: seq<Call>,
                 ghost size: nat, ghost i: nat)
    returns (step: Step)
    requires i <= |calls| && buf[..] == Fixed(b, base, calls, size, i)
    requires forall j: nat | j <= |calls| :: FixFacts(b, base, calls, size, j)
    requires offset == Pos(calls, i)
    ensures step == StepAt(calls, i)
  {
    assert FixFacts(b, base, calls, size, i);
    step := FdtNextTag(buf[..], offset);
  }

  lemma {:induction false} SkipStep(
    b: seq<Byte>, h: Header, entries: seq<Reservation>, calls: seq<Call>, offs: seq<int>, t: seq<Byte>, i: nat)
    requires WalkingTo(b, h, entries, calls, offs, t, i) && i < |calls| && !calls[i].Property?
    ensures WalkingTo(b, h, entries, calls, offs, t, i + 1)
  {
    MovedStep(calls, offs, |t|, i);
  }

  function StepAt(calls: seq<Call>, i: nat): Step
    requires i <= |calls|
  {
    if i < |calls| then Step(TagOf(calls[i]), Pos(calls, i + 1)) else Step(FDT_END, Pos(calls, i) + 4)
  }

  ghost predicate WalkingTo(
    b: seq<Byte>, h: Header, entries: seq<Reservation>, calls: seq<Call>, offs: seq<int>, t: seq<Byte>, i: nat)
  {
    |offs| == |calls| && Walking(b, entries, calls, Moved(calls, offs, |t|, i), t) && Head(b) == h
  }

  lemma {:induction false} FixStep(
    b: seq<Byte>, h: Header, entries: seq<Reservation>, calls: seq<Call>, offs: seq<int>, t: seq<Byte>, base: nat,
    i: nat)
    requires WalkingTo(b, h, entries, calls, offs, t, i) && base == h.offStruct && i < |calls| && calls[i].Property?
    ensures WalkingTo(FixAt(b, base + Pos(calls, i) + 8, |t|), h, entries, calls, offs, t, i + 1)
  {
    var cur, next := Moved(calls, offs, |t|, i), Moved(calls, offs, |t|, i + 1);
    MovedStep(calls, offs, |t|, i);
    FixRename(b, FixAt(b, base + Pos(calls, i) + 8, |t|), entries, calls, cur, next, t, i, next[i]);
  }

  lemma {:induction false} FixRename(b: seq<Byte>, d: seq<Byte>, entries: seq<Reservation>, calls: seq<Call>,
                                     offs: seq<int>, offs': seq<int>, t: seq<Byte>, i: nat, v: int)
    requires Walking(b, entries, calls, offs, t) && i < |calls| == |offs| && calls[i].Property?
    requires v == (offs[i] + |t|) % WORD && offs' == offs[i := v]
    requires d == FixAt(b, OffStruct(b) + Pos(calls, i) + 8, |t|)
    ensures HasHeader(d) && Head(d) == Head(b) && Walking(d, entries, calls, offs', t)
  {
    WalkingOffset(b, entries, calls, offs, t, i);
    FixWord(b, OffStruct(b) + Pos(calls, i) + 8, |t|, offs[i], v);
    RenameStep(b, d, entries, calls, offs, offs', t, i, v);
  }

  lemma {:induction false} FixWord(b: seq<Byte>, at: nat, size: nat, x: int, v: int)
    requires at + 4 <= |b| && Get32(b, at) == x && v == (x + size) % WORD
    ensures Rewritten(b, FixAt(b, at, size), at, v)
  {}

  method InitHeader(buf: array<Byte>, flags: int)
    requires HEADER_SIZE <= buf.Length <= INT_MAX && 0 <= flags < WORD
    modifies buf
    ensures Head(buf[..]) == Header(FDT_SW_MAGIC, buf.Length, 48, 0, 48, 17, flags,
                                    old(SizeStrings(buf[..])), old(SizeStruct(buf[..])))
  {
    SetHeader(buf, 0, FDT_SW_MAGIC);
    SetHeader(buf, 5, 17);
    SetHeader(buf, 6, flags);
    SetHeader(buf, 1, buf.Length);
    SetHeader(buf, 4, 48);
    SetHeader(buf, 2, 48);
    SetHeader(buf, 3, 0);
  }

  method Clear(buf: array<Byte>)
    requires buf.Length >= HEADER_SIZE
    modifies buf
    ensures forall k | 0 <= k < buf.Length :: buf[k] == 0
    ensures SizeStrings(buf[..]) == 0 && SizeStruct(buf[..]) == 0
  {
    forall k | 0 <= k < buf.Length { buf[k] := 0; }
    ZeroWord(buf[..], 32);
    ZeroWord(buf[..], 36);
  }

  lemma {:induction false} ZeroWord(b: seq<Byte>, at: nat)
    requires at + 4 <= |b| && forall k | at <= k < at + 4 :: b[k] == 0
    ensures Get32(b, at) == 0
  {
    assert b[at..at + 4] == [0, 0, 0, 0];
    assert ToBytes(0, 4) == [0, 0, 0, 0];
    ValueRoundTrip(0, 4);
    DecodeValue(b[at..at + 4], 4);
  }

  /** One more reservation. */
  lemma {:induction false} ReserveExtend(b: seq<Byte>, b1: seq<Byte>, b': seq<Byte>, entries: seq<Reservation>)
    requires |entries| > 0 && Reserving(b, entries[..|entries| - 1]) && OffStruct(b) + 16 <= |b| == |b1| == |b'|
    requires Agree(b, b1, HEADER_SIZE, OffStruct(b)) && Agree(b1, b', HEADER_SIZE, |b|)
    requires Head(b') == Head(b).(offStruct := OffStruct(b) + 16)
    requires var e := entries[|entries| - 1]; var at := OffStruct(b);
             b1[at..at + 8] == ToBytes(e.address, 8) && b1[at + 8..at + 16] == ToBytes(e.size, 8)
    ensures Reserving(b', entries)
  {
    var at := OffStruct(b);
    AgreeSlice(b, b1, RESERVE_AT, at);
    AgreeSlice(b1, b', RESERVE_AT, at + 16);
    assert b1[RESERVE_AT..at + 16] == b1[RESERVE_AT..at] + b1[at..at + 8] + b1[at + 8..at + 16];
  }
}
