/** The three environment areas of the bootloader on one flash chip. */
module EnvFlash {
  import opened Bytes
  import opened EnvIo
  import S = SpiNor

  // ---- images and cells ----

  function ToCells(s: seq<Byte>): (r: seq<bv8>)
    ensures |r| == |s|
  {
    seq(|s|, i requires 0 <= i < |s| => s[i] as bv8)
  }

  function CellByte(x: bv8): Byte { x as int }

  function FromCells(s: seq<bv8>): (r: seq<Byte>)
    ensures |r| == |s|
  {
    seq(|s|, i requires 0 <= i < |s| => CellByte(s[i]))
  }

  lemma {:induction false} ByteCell(b: Byte)
    ensures CellByte(b as bv8) == b
  {}

  lemma {:induction false} CellsRoundTrip(s: seq<Byte>)
    ensures FromCells(ToCells(s)) == s
  {
    forall i | 0 <= i < |s|
      ensures FromCells(ToCells(s))[i] == s[i]
    {
      ByteCell(s[i]);
    }
  }

  /** The checksum word, low byte first. */
  function CheckBytes(v: Check): (s: seq<Byte>)
    ensures |s| == 4
  {
    [v % 0x100, v / 0x100 % 0x100, v / 0x100 / 0x100 % 0x100, v / 0x100 / 0x100 / 0x100]
  }

  function CheckValue(s: seq<Byte>): Check
    requires |s| == 4
  {
    s[0] as int + 0x100 * (s[1] as int + 0x100 * (s[2] as int + 0x100 * s[3] as int))
  }

  lemma {:induction false} CheckRoundTrip(v: Check)
    ensures CheckValue(CheckBytes(v)) == v
  {}

  /** env_io_t in flash: checksum, then data. */
  function Encode(img: Image): (s: seq<bv8>)
    ensures |s| == 4 + |img.data|
  {
    ToCells(CheckBytes(img.crc) + img.data)
  }

  function Decode(s: seq<bv8>): (img: Image)
    requires |s| >= 4
    ensures |img.data| == |s| - 4
  {
    var b := FromCells(s);
    Image(CheckValue(b[..4]), b[4..])
  }

  lemma {:induction false} DecodeEncode(img: Image)
    ensures Decode(Encode(img)) == img
  {
    var b := CheckBytes(img.crc) + img.data;
    CellsRoundTrip(b);
    assert b[..4] == CheckBytes(img.crc) && b[4..] == img.data;
    CheckRoundTrip(img.crc);
  }

  /** An erased area. */
  function Erased(size: nat): Image { Image(0xFFFF_FFFF, seq(size, _ => 255)) }

  lemma {:induction false} DecodeBlank(s: seq<bv8>)
    requires |s| >= 4 && forall i | 0 <= i < |s| :: s[i] == S.BLANK
    ensures Decode(s) == Erased(|s| - 4)
  {
    var b := FromCells(s);
    BlankByte();
    assert forall i | 0 <= i < |b| :: b[i] == 255;
    assert b[4..] == Erased(|s| - 4).data;
  }

  lemma {:induction false} BlankByte()
    ensures CellByte(S.BLANK) == 255
  {}

  // ---- areas ----

  /** SBL environment, U-Boot environment and its saved copy. */
  datatype Area = Sbl | Uboot | Saved

  datatype Storage = Storage(sbl: Image, uboot: Image, saved: Image)

  datatype Offsets = Offsets(sbl: nat, uboot: nat, saved: nat)

  function Off(o: Offsets, a: Area): nat { match a case Sbl => o.sbl case Uboot => o.uboot case Saved => o.saved }

  function With(st: Storage, a: Area, img: Image): Storage {
    match a
    case Sbl => st.(sbl := img)
    case Uboot => st.(uboot := img)
    case Saved => st.(saved := img)
  }

  /** Where the areas start, the bytes of data in each, and the bytes of the
      whole sectors each takes. */
  datatype Layout = Layout(o: Offsets, size: nat, span: nat)

  /** Areas start at sectors, lie inside the chip, and do not overlap. */
  ghost predicate Placed(l: Layout, sector: nat, cells: nat) {
    && sector > 0 && l.span == S.SectorCount(4 + l.size, sector) * sector
    && (forall a: Area :: Off(l.o, a) % sector == 0 && Off(l.o, a) + l.span <= cells)
    && forall a: Area, a': Area | a != a' ::
         Off(l.o, a) + l.span <= Off(l.o, a') || Off(l.o, a') + l.span <= Off(l.o, a)
  }

  /** The layout of sbl-s2/platform-def.h: 64 KiB each, two of them counted from
      the end of the chip. */
  function PlatformLayout(cells: nat): Layout
    requires cells >= 0x4_0000
  {
    Layout(Offsets(cells - 0x3_0000, 0xFE_0000, cells - 0x4_0000), 0xFFFC, 0x1_0000)
  }

  /** On chips of 16 or 32 MiB with sectors of 4 or 64 KiB it is sound. */
  lemma {:induction false} PlatformPlaced(cells: nat, sector: nat)
    requires cells in {0x100_0000, 0x200_0000} && sector in {0x1000, 0x1_0000}
    ensures Placed(PlatformLayout(cells), sector, cells)
  {
    var l := PlatformLayout(cells);
    PlatformSpan(sector);
    forall a: Area
      ensures Off(l.o, a) % sector == 0 && Off(l.o, a) + l.span <= cells
    {
      PlatformOffset(cells, sector, a);
    }
  }

  lemma {:induction false} PlatformSpan(sector: nat)
    requires sector in {0x1000, 0x1_0000}
    ensures S.SectorCount(0x1_0000, sector) * sector == 0x1_0000
  {}

  lemma {:induction false} PlatformOffset(cells: nat, sector: nat, a: Area)
    requires cells in {0x100_0000, 0x200_0000} && sector in {0x1000, 0x1_0000}
    ensures var off := Off(PlatformLayout(cells).o, a); off % sector == 0 && off + 0x1_0000 <= cells
  {}

  /** Cell j belongs to area a. */
  predicate Inside(l: Layout, a: Area, j: nat) { Off(l.o, a) <= j < Off(l.o, a) + l.span }

  /** Nothing but area a is changed. */
  ghost predicate Only(l: Layout, a: Area, c: seq<bv8>, c': seq<bv8>) {
    |c'| == |c| && forall j | 0 <= j < |c| && !Inside(l, a, j) :: c'[j] == c[j]
  }

  /** Nothing outside the three areas is changed. */
  ghost predicate Untouched(l: Layout, c: seq<bv8>, c': seq<bv8>) {
    |c'| == |c| && forall j: nat | j < |c| && (forall a: Area :: !Inside(l, a, j)) :: c'[j] == c[j]
  }

  lemma {:induction false} UntouchedTwice(l: Layout, c: seq<bv8>, c': seq<bv8>, c'': seq<bv8>)
    requires Untouched(l, c, c') && Untouched(l, c', c'')
    ensures Untouched(l, c, c'')
  {}

  function ImageAt(l: Layout, c: seq<bv8>, a: Area): (img: Image)
    requires Off(l.o, a) + 4 + l.size <= |c|
    ensures |img.data| == l.size
  {
    Decode(c[Off(l.o, a)..Off(l.o, a) + 4 + l.size])
  }

  lemma {:induction false} SpanCovers(l: Layout, sector: nat, cells: nat)
    requires Placed(l, sector, cells)
    ensures 4 + l.size <= l.span && forall a: Area :: Off(l.o, a) + 4 + l.size <= cells
  {
    S.CountCovers(4 + l.size, sector);
  }

  /** The other areas hold what they held. */
  lemma {:induction false} OthersKept(l: Layout, sector: nat, a: Area, a': Area, c: seq<bv8>, c': seq<bv8>)
    requires Placed(l, sector, |c|) && 4 + l.size <= l.span && Only(l, a, c, c') && a != a'
    ensures Off(l.o, a') + 4 + l.size <= |c|
    ensures ImageAt(l, c', a') == ImageAt(l, c, a')
  {
    var lo, hi := Off(l.o, a'), Off(l.o, a') + 4 + l.size;
    assert hi <= lo + l.span <= |c|;
    forall j | lo <= j < hi ensures c'[j] == c[j] { assert !Inside(l, a, j); }
    SameSlice(c, c', lo, hi);
  }

  lemma {:induction false} SameSlice(c: seq<bv8>, c': seq<bv8>, lo: nat, hi: nat)
    requires lo <= hi <= |c| == |c'| && forall j | lo <= j < hi :: c'[j] == c[j]
    ensures c'[lo..hi] == c[lo..hi]
  {}

  /** Blanking an area erases its image and nothing else. */
  lemma {:induction false} BlankArea(l: Layout, a: Area, c: seq<bv8>, c': seq<bv8>)
    requires 4 + l.size <= l.span && Off(l.o, a) + l.span <= |c|
    requires c' == S.Blanked(c, Off(l.o, a), Off(l.o, a) + l.span)
    ensures Only(l, a, c, c') && ImageAt(l, c', a) == Erased(l.size)
  {
    DecodeBlank(c'[Off(l.o, a)..Off(l.o, a) + 4 + l.size]);
  }

  class Flash {
    const chip: S.Chip
    const l: Layout

    ghost predicate Valid()
      reads chip
    {
      chip.Valid() && Placed(l, chip.g.sector, |chip.cells|)
    }

    /** The image in an area. */
    ghost function At(a: Area): Image
      reads chip
      requires Valid()
    {
      SpanCovers(l, chip.g.sector, |chip.cells|);
      ImageAt(l, chip.cells, a)
    }

    ghost function Contents(): Storage
      reads chip
      requires Valid()
    {
      Storage(At(Sbl), At(Uboot), At(Saved))
    }

    constructor (chip: S.Chip, l: Layout)
      requires chip.Valid() && Placed(l, chip.g.sector, |chip.cells|)
      ensures this.chip == chip && this.l == l && Valid()
    {
      this.chip, this.l := chip, l;
    }

    /** env_io_read of a whole area. */
    method Read(a: Area) returns (img: Image)
      requires Valid()
      ensures img == At(a) && |img.data| == l.size
    {
      SpanCovers(l, chip.g.sector, |chip.cells|);
      img := ImageAt(l, chip.cells, a);
    }

    /** env_io_clear, then env_io_write with its read-back. */
    method Write(a: Area, img: Image)
      requires Valid() && |img.data| == l.size
      modifies chip
      ensures Valid() && Contents() == With(old(Contents()), a, img) && Untouched(l, old(chip.cells), chip.cells)
    {
      ghost var c := chip.cells;
      SpanCovers(l, chip.g.sector, |c|);
      var r := S.Store(chip, Off(l.o, a), Encode(img));
      DecodeEncode(img);
      assert ImageAt(l, chip.cells, a) == img;
      OneChanged(a, c, img);
    }

    /** env_io_invalidate: the area is erased. */
    method Clear(a: Area)
      requires Valid()
      modifies chip
      ensures Valid() && Contents() == With(old(Contents()), a, Erased(l.size))
      ensures Untouched(l, old(chip.cells), chip.cells)
    {
      ghost var c := chip.cells;
      SpanCovers(l, chip.g.sector, |c|);
      S.Clear(chip, Off(l.o, a), 4 + l.size);
      BlankArea(l, a, c, chip.cells);
      OneChanged(a, c, Erased(l.size));
    }

    lemma {:induction false} OneChanged(a: Area, c: seq<bv8>, img: Image)
      requires Valid() && 4 + l.size <= l.span && Only(l, a, c, chip.cells) && ImageAt(l, chip.cells, a) == img
      ensures Contents() == With(Storage(ImageAt(l, c, Sbl), ImageAt(l, c, Uboot), ImageAt(l, c, Saved)), a, img)
      ensures Untouched(l, c, chip.cells)
    {
      forall a': Area | a' != a
        ensures ImageAt(l, chip.cells, a') == ImageAt(l, c, a')
      {
        OthersKept(l, chip.g.sector, a, a', c, chip.cells);
      }
    }
  }
}
