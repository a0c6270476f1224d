/** The buffer of the sequential writer between calls: header words, the
    structure block growing up and the string table growing down. */
module FdtState {
  import opened Bytes
  import opened FdtBlob
  import opened FdtCheck
  import opened FdtLayout

  // ---- the header as a record ----

  datatype Header = Header(magic: int, total: int, offStruct: int, offStrings: int, offReserve: int,
                           version: int, lastComp: int, sizeStrings: int, sizeStruct: int)

  function Head(b: seq<Byte>): Header
    requires HasHeader(b)
  {
    Header(Magic(b), TotalSize(b), OffStruct(b), OffStrings(b), OffReserve(b), Version(b), LastComp(b),
           SizeStrings(b), SizeStruct(b))
  }

  /** Word i of the header. */
  function Field(b: seq<Byte>, i: nat): int
    requires HasHeader(b) && i < 10
  {
    Get32(b, 4 * i)
  }

  /** Setting one header word changes that word alone. */
  lemma {:induction false} SetField(b: seq<Byte>, i: nat, v: int)
    requires HasHeader(b) && i < 10 && 0 <= v < WORD
    ensures Field(Put32(b, 4 * i, v), i) == v
    ensures forall j: nat | j < 10 && j != i :: Field(Put32(b, 4 * i, v), j) == Field(b, j)
  {
    forall j: nat | j < 10 && j != i
      ensures Field(Put32(b, 4 * i, v), j) == Field(b, j)
    {
      Agree32(b, Put32(b, 4 * i, v), 4 * j);
    }
  }

  lemma {:induction false} HeadFields(b: seq<Byte>)
    requires HasHeader(b)
    ensures Head(b) == Header(Field(b, 0), Field(b, 1), Field(b, 2), Field(b, 3), Field(b, 4), Field(b, 5),
                              Field(b, 6), Field(b, 8), Field(b, 9))
  {}

  function Updated(h: Header, i: nat, v: int): Header
    requires i < 10
  {
    match i
    case 0 => h.(magic := v)
    case 1 => h.(total := v)
    case 2 => h.(offStruct := v)
    case 3 => h.(offStrings := v)
    case 4 => h.(offReserve := v)
    case 5 => h.(version := v)
    case 6 => h.(lastComp := v)
    case 8 => h.(sizeStrings := v)
    case 9 => h.(sizeStruct := v)
    case _ => h
  }

  lemma {:induction false} HeadSet(b: seq<Byte>, i: nat, v: int)
    requires HasHeader(b) && i < 10 && 0 <= v < WORD
    ensures Head(Put32(b, 4 * i, v)) == Updated(Head(b), i, v)
  {
    SetField(b, i, v);
    HeadFields(b);
    HeadFields(Put32(b, 4 * i, v));
  }

  lemma {:induction false} HeadFrame(b: seq<Byte>, b': seq<Byte>)
    requires HasHeader(b) && Agree(b, b', 0, HEADER_SIZE)
    ensures HasHeader(b') && Head(b') == Head(b)
  {
    HeadFields(b);
    HeadFields(b');
    forall j: nat | j < 10
      ensures Field(b', j) == Field(b, j)
    {
      Agree32(b, b', 4 * j);
    }
  }

  // ---- the reservation block ----

  datatype Reserve = Reserve(address: int, size: int)

  predicate IsReserve(e: Reserve) { 0 <= e.address < WORD * WORD && 0 <= e.size < WORD * WORD }

  type Reservation = e: Reserve | IsReserve(e) witness Reserve(0, 0)

  function ReserveBytes(es: seq<Reservation>): (s: seq<Byte>)
    ensures |s| == 16 * |es|
  {
    if |es| == 0 then []
    else ReserveBytes(es[..|es| - 1]) + ToBytes(es[|es| - 1].address, 8) + ToBytes(es[|es| - 1].size, 8)
  }

  // ---- the two building phases ----

  const RESERVE_AT: nat := 48

  predicate Common(b: seq<Byte>, entries: seq<Reservation>) {
    && HasHeader(b) && |b| <= INT_MAX
    && var h := Head(b);
    && h.magic == FDT_SW_MAGIC && h.total == |b| && h.version == 17 && 0 <= h.lastComp <= 1
    && h.offReserve == RESERVE_AT && h.offStruct == RESERVE_AT + 16 * |entries| <= |b|
    && b[RESERVE_AT..h.offStruct] == ReserveBytes(entries)
  }

  /** After fdt_create. */
  predicate Reserving(b: seq<Byte>, entries: seq<Reservation>) {
    Common(b, entries) && Head(b).offStrings == 0 && Head(b).sizeStrings == 0 && Head(b).sizeStruct == 0
  }

  const NO_RESERVE: Reservation := Reserve(0, 0)

  /** The string table while it stands at the end of the buffer. */
  function Table(b: seq<Byte>): seq<Byte>
    requires HasHeader(b) && SizeStrings(b) <= |b|
  {
    b[|b| - SizeStrings(b)..]
  }

  /** Bytes between the structure block and the string table. */
  function Room(h: Header): int {
    h.total - h.offStruct - h.sizeStruct - h.sizeStrings
  }

  /** After fdt_finish_reservemap: the calls so far are laid out. */
  ghost predicate Building(b: seq<Byte>, entries: seq<Reservation>, calls: seq<Call>, offs: seq<int>) {
    && Common(b, entries) && |entries| > 0 && entries[|entries| - 1] == NO_RESERVE
    && var h := Head(b);
    && h.offStrings == |b| && h.sizeStruct == Pos(calls, |calls|) && Room(h) >= 0
    && (forall c | c in calls :: WellTyped(c))
    && Layout(b, h.offStruct, calls, offs) && NamesFromEnd(Table(b), calls, offs)
  }

  lemma {:induction false} CommonFrame(b: seq<Byte>, b': seq<Byte>, entries: seq<Reservation>)
    requires Common(b, entries) && |b'| == |b|
    requires var h, h' := Head(b), Head(b');
             && h' == h.(sizeStruct := h'.sizeStruct, sizeStrings := h'.sizeStrings, offStrings := h'.offStrings)
             && Agree(b, b', HEADER_SIZE, h.offStruct)
    ensures Common(b', entries)
  {
    AgreeSlice(b, b', RESERVE_AT, OffStruct(b));
  }

  lemma {:induction false} TableFrame(b: seq<Byte>, b': seq<Byte>)
    requires HasHeader(b) && HasHeader(b') && |b'| == |b| && SizeStrings(b') == SizeStrings(b) <= |b|
    requires Agree(b, b', |b| - SizeStrings(b), |b|)
    ensures Table(b') == Table(b)
  {
    AgreeSlice(b, b', |b| - SizeStrings(b), |b|);
  }

  /** One more call in the free room, the rest as before. */
  lemma {:induction false} BuildingExtend(
    b: seq<Byte>, b': seq<Byte>, entries: seq<Reservation>, calls: seq<Call>, offs: seq<int>, c: Call, off: int)
    requires Building(b, entries, calls, offs) && WellTyped(c)
    requires var h := Head(b); var end := h.offStruct + h.sizeStruct;
             && |b'| == |b| && SizeOf(c) <= Room(h) && HasHeader(b')
             && Head(b') == h.(sizeStruct := h.sizeStruct + SizeOf(c))
             && Agree(b, b', HEADER_SIZE, end) && Agree(b, b', |b| - h.sizeStrings, |b|)
             && Matches(b', end, c, off)
    requires NameFromEnd(Table(b), c, off)
    ensures Building(b', entries, calls + [c], offs + [off])
  {
    var h := Head(b);
    LayoutExtend(b, b', h.offStruct, calls, offs, c, off);
    CommonFrame(b, b', entries);
    TableFrame(b, b');
    NamesExtend(Table(b), calls, offs, c, off);
  }

  lemma {:induction false} NamesExtend(t: seq<Byte>, calls: seq<Call>, offs: seq<int>, c: Call, off: int)
    requires NamesFromEnd(t, calls, offs) && NameFromEnd(t, c, off)
    ensures NamesFromEnd(t, calls + [c], offs + [off])
  {
    forall i | 0 <= i < |calls| + 1
      ensures NameFromEnd(t, (calls + [c])[i], (offs + [off])[i])
    {
      if i < |calls| { assert NameFromEnd(t, calls[i], offs[i]); }
    }
  }

  /** Only the free room and the size of the string table change; the old
      table stays where it was. */
  lemma {:induction false} BuildingTable(
    b: seq<Byte>, b': seq<Byte>, entries: seq<Reservation>, calls: seq<Call>, offs: seq<int>, size: nat)
    requires Building(b, entries, calls, offs)
    requires var h := Head(b);
             && |b'| == |b| && h.sizeStrings <= size <= h.sizeStrings + Room(h) && HasHeader(b')
             && Head(b') == h.(sizeStrings := size)
             && Agree(b, b', HEADER_SIZE, h.offStruct + h.sizeStruct) && Agree(b, b', |b| - h.sizeStrings, |b|)
    ensures Building(b', entries, calls, offs)
  {
    var h := Head(b);
    LayoutFrame(b, b', h.offStruct, calls, offs);
    CommonFrame(b, b', entries);
    AgreeSlice(b, b', |b| - h.sizeStrings, |b|);
    var more := b'[|b| - size..|b| - h.sizeStrings];
    assert Table(b') == more + Table(b);
    NamesInLonger(Table(b), more, calls, offs);
  }
}
