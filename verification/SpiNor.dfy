/** The SPI NOR driver over a chip whose page program wraps inside the page and
    can only clear bits. */
module SpiNor {
  import opened Radix
  import opened Bytes

  const EINVALIDPARAM: int := 1003
  const EINVALIDDATA: int := 1007

  const BLANK: bv8 := 0xFF

  // ---- the chip ----

  /** Where byte k of a page program at addr goes. */
  function Cell(page: nat, addr: nat, k: nat): nat
    requires page > 0
  {
    addr / page * page + (addr % page + k) % page
  }

  /** Cells after a page program. */
  function Programmed(cells: seq<bv8>, page: nat, addr: nat, data: seq<bv8>): (r: seq<bv8>)
    requires page > 0 && |cells| % page == 0 && addr < |cells|
    ensures |r| == |cells|
  {
    if |data| == 0 then cells
    else
      var c, n := Programmed(cells, page, addr, data[..|data| - 1]), |data| - 1;
      CellInChip(|cells|, page, addr, n);
      c[Cell(page, addr, n) := c[Cell(page, addr, n)] & data[n]]
  }

  lemma {:induction false} CellInChip(size: nat, page: nat, addr: nat, k: nat)
    requires page > 0 && size % page == 0 && addr < size
    ensures Cell(page, addr, k) < size
  {
    var q, n := addr / page, size / page;
    assert size == n * page;
    assert addr == q * page + addr % page;
    if q >= n { MultipleOrder(n, q, page); } else { MultipleOrder(q + 1, n, page); }
  }

  lemma {:induction false} MultipleOrder(a: nat, b: nat, page: nat)
    requires a <= b
    ensures a * page <= b * page
  {
    assert b * page == a * page + (b - a) * page;
  }

  /** Each byte of the range anded with its data byte; the rest as before. */
  function AndAt(cells: seq<bv8>, addr: nat, data: seq<bv8>): (r: seq<bv8>)
    requires addr + |data| <= |cells|
    ensures |r| == |cells|
  {
    seq(|cells|, j requires 0 <= j < |cells| =>
      if addr <= j < addr + |data| then cells[j] & data[j - addr] else cells[j])
  }

  lemma {:induction false} CellStraight(page: nat, addr: nat, k: nat)
    requires page > 0 && addr % page + k < page
    ensures Cell(page, addr, k) == addr + k
  {
    DivisionUnique(addr % page + k, page, 0, addr % page + k);
  }

  /** A program that stays in its page is a plain range. */
  lemma {:induction false} ProgramInPage(cells: seq<bv8>, page: nat, addr: nat, data: seq<bv8>)
    requires page > 0 && |cells| % page == 0 && addr < |cells|
    requires addr % page + |data| <= page && addr + |data| <= |cells|
    ensures Programmed(cells, page, addr, data) == AndAt(cells, addr, data)
  {
    if |data| > 0 {
      var n := |data| - 1;
      ProgramInPage(cells, page, addr, data[..n]);
      CellStraight(page, addr, n);
    }
  }

  lemma {:induction false} AndAtJoin(cells: seq<bv8>, addr: nat, d: seq<bv8>, e: seq<bv8>)
    requires addr + |d| + |e| <= |cells|
    ensures AndAt(AndAt(cells, addr, d), addr + |d|, e) == AndAt(cells, addr, d + e)
  {}

  datatype Geometry = Geometry(page: nat, sector: nat)

  predicate Sound(g: Geometry, size: nat) {
    g.page > 0 && g.sector > 0 && size % g.page == 0 && size % g.sector == 0 && size < WORD
  }

  /** Cells with a range blank. */
  function Blanked(cells: seq<bv8>, lo: nat, hi: nat): (r: seq<bv8>)
    ensures |r| == |cells|
  {
    seq(|cells|, j requires 0 <= j < |cells| => if lo <= j < hi then BLANK else cells[j])
  }

  class Chip {
    const g: Geometry
    var cells: seq<bv8>

    ghost predicate Valid()
      reads this
    {
      Sound(g, |cells|)
    }

    constructor (g: Geometry, cells: seq<bv8>)
      requires Sound(g, |cells|)
      ensures Valid() && this.g == g && this.cells == cells
    {
      this.g, this.cells := g, cells;
    }

    /** The page program command. */
    method PageProgram(addr: nat, data: seq<bv8>)
      requires Valid() && addr < |cells|
      modifies this
      ensures Valid() && cells == Programmed(old(cells), g.page, addr, data)
    {
      cells := Programmed(cells, g.page, addr, data);
    }

    /** The sector erase command: the sector that contains addr. */
    method SectorErase(addr: nat)
      requires Valid()
      modifies this
      ensures Valid() && cells == Blanked(old(cells), addr / g.sector * g.sector, addr / g.sector * g.sector + g.sector)
    {
      cells := Blanked(cells, addr / g.sector * g.sector, addr / g.sector * g.sector + g.sector);
    }
  }

  // ---- the driver ----

  /** A page program as issued. */
  datatype Command = Command(addr: nat, len: nat)

  /** Inside one page. */
  predicate InPage(page: nat, c: Command)
    requires page > 0
  {
    c.len > 0 && c.addr % page + c.len <= page
  }

  /** One after the other from lo to hi, none across a page boundary. */
  ghost predicate Covers(page: nat, cs: seq<Command>, lo: nat, hi: nat)
    requires page > 0
    decreases |cs|
  {
    if |cs| == 0 then lo == hi
    else
      var c := cs[|cs| - 1];
      InPage(page, c) && c.addr + c.len == hi && lo <= c.addr && Covers(page, cs[..|cs| - 1], lo, c.addr)
  }

  lemma {:induction false} CoversNext(page: nat, cs: seq<Command>, lo: nat, hi: nat, n: nat)
    requires page > 0 && Covers(page, cs, lo, hi) && n > 0 && hi % page + n <= page && lo <= hi
    ensures Covers(page, cs + [Command(hi, n)], lo, hi + n)
  {
    assert (cs + [Command(hi, n)])[..|cs|] == cs;
  }

  lemma {:induction false} NextPage(page: nat, addr: nat)
    requires page > 0
    ensures (addr + (page - addr % page)) % page == 0
  {
    var q := addr / page;
    assert addr + (page - addr % page) == (q + 1) * page;
    Multiple(q + 1, page);
  }

  lemma {:induction false} Multiple(q: nat, page: nat)
    requires page > 0
    ensures (q * page) % page == 0
  {
    if q > 0 {
      Multiple(q - 1, page);
      AddPage((q - 1) * page, page);
    }
  }

  lemma {:induction false} AddPage(x: nat, page: nat)
    requires page > 0
    ensures (x + page) % page == x % page
  {
    var q, r := x / page, x % page;
    assert x + page == (q + 1) * page + r;
    DivisionUnique(x + page, page, q + 1, r);
  }

  lemma {:induction false} DivisionUnique(x: nat, page: nat, q: nat, r: nat)
    requires page > 0 && x == q * page + r && r < page
    ensures x / page == q && x % page == r
  {
    var q', r' := x / page, x % page;
    assert x == q' * page + r';
    if q < q' { MultipleOrder(q + 1, q', page); } else if q' < q { MultipleOrder(q' + 1, q, page); }
  }

  /** The result of a write, or commands outside the chip. */
  datatype Status = Ret(code: int) | Fault

  /** spi_nor_write, on a chip that accepts every command. The size check is in
      32-bit arithmetic: a range that wraps past 2^32 can pass it. */
  method Write(chip: Chip, buffer: seq<bv8>, address: nat) returns (r: Status, ghost cs: seq<Command>)
    requires chip.Valid() && address < WORD && |buffer| < WORD
    modifies chip
    ensures chip.Valid() && |chip.cells| == |old(chip.cells)|
    ensures r.Fault? <==> |buffer| > 0 && WORD <= address + |buffer| <= WORD + |chip.cells|
    ensures r == Ret(0) <==> |buffer| == 0 || address + |buffer| <= |chip.cells|
    ensures r.Ret? && r.code != 0 ==> r.code == -EINVALIDPARAM
    ensures r == Ret(0) && |buffer| > 0 ==>
              && Covers(chip.g.page, cs, address, address + |buffer|)
              && chip.cells == AndAt(old(chip.cells), address, buffer)
    ensures r != Ret(0) || |buffer| == 0 ==> chip.cells == old(chip.cells) && cs == []
  {
    cs := [];
    if |buffer| == 0 {
      return Ret(0), cs;
    }
    if (address + |buffer|) % WORD > |chip.cells| {
      return Ret(-EINVALIDPARAM), cs;
    }
    if address + |buffer| > |chip.cells| {
      return Fault, cs;
    }
    cs := WriteRange(chip, buffer, address);
    return Ret(0), cs;
  }

  /** The rest of the first page, whole pages, and the start of the last. */
  method WriteRange(chip: Chip, buffer: seq<bv8>, address: nat) returns (ghost cs: seq<Command>)
    requires chip.Valid() && |buffer| > 0 && address + |buffer| <= |chip.cells|
    modifies chip
    ensures chip.Valid() && |chip.cells| == |old(chip.cells)|
    ensures Covers(chip.g.page, cs, address, address + |buffer|)
    ensures chip.cells == AndAt(old(chip.cells), address, buffer)
  {
    cs := [];
    ghost var before, page := chip.cells, chip.g.page;
    assert before == AndAt(before, address, buffer[..0]);
    var done, pageOffset := 0, address % chip.g.page;
    if pageOffset != 0 {
      var n := chip.g.page - pageOffset;
      if n > |buffer| {
        n := |buffer|;
      }
      cs := WritePage(chip, buffer, address, done, n, before, cs);
      NextPage(page, address);
      done := n;
    }
    while |buffer| - done >= chip.g.page
      invariant 0 <= done <= |buffer| && Written(chip, before, buffer, address, done, cs)
      invariant done < |buffer| ==> (address + done) % page == 0
    {
      cs := WritePage(chip, buffer, address, done, chip.g.page, before, cs);
      AddPage(address + done, page);
      done := done + chip.g.page;
    }
    if |buffer| - done > 0 {
      cs := WritePage(chip, buffer, address, done, |buffer| - done, before, cs);
      done := |buffer|;
    }
    assert buffer[..done] == buffer;
  }

  /** The first `done` bytes have been programmed. */
  ghost predicate Written(chip: Chip, before: seq<bv8>, buffer: seq<bv8>, address: nat, done: nat, cs: seq<Command>)
    reads chip
  {
    && chip.Valid() && |chip.cells| == |before| && done <= |buffer| && address + |buffer| <= |before|
    && chip.cells == AndAt(before, address, buffer[..done]) && Covers(chip.g.page, cs, address, address + done)
  }

  /** One page program of the write loop. */
  method WritePage(chip: Chip, buffer: seq<bv8>, address: nat, done: nat, n: nat, ghost before: seq<bv8>,
                   ghost cs: seq<Command>)
    returns (ghost cs': seq<Command>)
    requires Written(chip, before, buffer, address, done, cs) && 0 < n <= |buffer| - done
    requires (address + done) % chip.g.page + n <= chip.g.page
    modifies chip
    ensures Written(chip, before, buffer, address, done + n, cs')
  {
    var addr, data := address + done, buffer[done..done + n];
    ProgramInPage(chip.cells, chip.g.page, addr, data);
    AndAtJoin(before, address, buffer[..done], data);
    CoversNext(chip.g.page, cs, address, addr, n);
    chip.PageProgram(addr, data);
    assert buffer[..done] + data == buffer[..done + n];
    cs' := cs + [Command(addr, n)];
  }

  // ---- erasing ----

  lemma {:induction false} BlankedJoin(cells: seq<bv8>, lo: nat, mid: nat, hi: nat)
    requires lo <= mid <= hi
    ensures Blanked(Blanked(cells, lo, mid), mid, hi) == Blanked(cells, lo, hi)
  {}

  lemma {:induction false} SectorBase(addr: nat, sector: nat, i: nat)
    requires sector > 0
    ensures (addr + i * sector) / sector * sector == addr / sector * sector + i * sector
  {
    var q, r := addr / sector, addr % sector;
    assert addr + i * sector == (q + i) * sector + r;
    DivisionUnique(addr + i * sector, sector, q + i, r);
  }

  /** spi_nor_erase: whole sectors from the one that contains addr; a count of
      zero erases the chip. */
  method Erase(chip: Chip, addr: nat, count: nat)
    requires chip.Valid()
    modifies chip
    ensures count == 0 ==> chip.cells == Blanked(old(chip.cells), 0, |old(chip.cells)|)
    ensures var base := addr / chip.g.sector * chip.g.sector;
            count > 0 ==> chip.cells == Blanked(old(chip.cells), base, base + count * chip.g.sector)
    ensures chip.Valid() && |chip.cells| == |old(chip.cells)|
  {
    if count == 0 {
      chip.cells := Blanked(chip.cells, 0, |chip.cells|);
      return;
    }
    ghost var before, sector := chip.cells, chip.g.sector;
    ghost var base := addr / sector * sector;
    var at := addr;
    assert before == Blanked(before, base, base);
    for i := 0 to count
      invariant chip.Valid() && at == addr + i * sector && |chip.cells| == |before|
      invariant chip.cells == Blanked(before, base, base + i * sector)
    {
      SectorBase(addr, sector, i);
      BlankedJoin(before, base, base + i * sector, base + i * sector + sector);
      chip.SectorErase(at);
      assert (i + 1) * sector == i * sector + sector;
      at := at + chip.g.sector;
    }
  }

  lemma {:induction false} BlankAnd(x: bv8)
    ensures BLANK & x == x
  {}

  /** Programming blank cells stores the data. */
  lemma {:induction false} AndOnBlank(cells: seq<bv8>, lo: nat, hi: nat, data: seq<bv8>)
    requires lo + |data| <= hi <= |cells|
    ensures var r := AndAt(Blanked(cells, lo, hi), lo, data);
            && r[lo..lo + |data|] == data
            && (forall j | lo + |data| <= j < hi :: r[j] == BLANK)
            && forall j | 0 <= j < |cells| && !(lo <= j < hi) :: r[j] == cells[j]
  {
    var r := AndAt(Blanked(cells, lo, hi), lo, data);
    forall k | 0 <= k < |data|
      ensures r[lo + k] == data[k]
    {
      BlankAnd(data[k]);
    }
  }

  /** Sectors an area of this size takes. */
  function SectorCount(size: nat, sector: nat): nat
    requires sector > 0
  {
    (size + (sector - 1)) / sector
  }

  lemma {:induction false} CountCovers(size: nat, sector: nat)
    requires sector > 0 && size > 0
    ensures SectorCount(size, sector) > 0 && size <= SectorCount(size, sector) * sector
  {
    var x := size + (sector - 1);
    var q, r := x / sector, x % sector;
    assert x == q * sector + r;
    QuotientAtLeast(x, sector, 1);
  }

  /** env_io_spi_clear of an area that starts at a sector. */
  method Clear(chip: Chip, offset: nat, size: nat)
    requires chip.Valid() && size > 0 && offset % chip.g.sector == 0
    modifies chip
    ensures chip.Valid() && |chip.cells| == |old(chip.cells)|
    ensures var end := offset + SectorCount(size, chip.g.sector) * chip.g.sector;
            chip.cells == Blanked(old(chip.cells), offset, end)
  {
    var count := SectorCount(size, chip.g.sector);
    CountCovers(size, chip.g.sector);
    AlignedBase(offset, chip.g.sector);
    Erase(chip, offset, count);
  }

  /** env_io_spi_clear, env_io_spi_write and its read-back, as env_export uses
      them, on an area that starts at a sector. */
  method Store(chip: Chip, offset: nat, data: seq<bv8>) returns (r: int)
    requires chip.Valid() && |data| > 0 && offset % chip.g.sector == 0
    requires offset + SectorCount(|data|, chip.g.sector) * chip.g.sector <= |chip.cells|
    modifies chip
    ensures chip.Valid() && |chip.cells| == |old(chip.cells)| && r == 0
    ensures offset + |data| <= |chip.cells| && chip.cells[offset..offset + |data|] == data
    ensures var end := offset + SectorCount(|data|, chip.g.sector) * chip.g.sector;
            && (forall j | offset + |data| <= j < end :: chip.cells[j] == BLANK)
            && forall j | 0 <= j < |chip.cells| && !(offset <= j < end) :: chip.cells[j] == old(chip.cells)[j]
  {
    ghost var before, sector := chip.cells, chip.g.sector;
    CountCovers(|data|, sector);
    ghost var end := offset + SectorCount(|data|, sector) * sector;
    Clear(chip, offset, |data|);
    AndOnBlank(before, offset, end, data);
    var status;
    ghost var cs;
    status, cs := Write(chip, data, offset);
    r := ReadBack(chip, offset, data);
  }

  lemma {:induction false} AlignedBase(offset: nat, sector: nat)
    requires sector > 0 && offset % sector == 0
    ensures offset / sector * sector == offset
  {}

  lemma {:induction false} SliceOfSlice(s: seq<bv8>, at: nat, len: nat, i: nat, n: nat)
    requires at + len <= |s| && i + n <= len
    ensures s[at..at + len][i..i + n] == s[at + i..at + i + n]
  {
    var t, u := s[at..at + len][i..i + n], s[at + i..at + i + n];
    assert |t| == |u| && forall k | 0 <= k < |t| :: t[k] == u[k];
  }

  /** env_io_read_after_write: in portions of sixteen bytes. */
  method ReadBack(chip: Chip, offset: nat, data: seq<bv8>) returns (r: int)
    requires offset + |data| <= |chip.cells|
    ensures r == if chip.cells[offset..offset + |data|] == data then 0 else -EINVALIDDATA
  {
    var i := 0;
    while i < |data|
      invariant 0 <= i <= |data| && chip.cells[offset..offset + i] == data[..i]
    {
      var n := if |data| - i < 16 then |data| - i else 16;
      var scratch := chip.cells[offset + i..offset + i + n];
      if scratch != data[i..i + n] {
        SliceOfSlice(chip.cells, offset, |data|, i, n);
        return -EINVALIDDATA;
      }
      assert chip.cells[offset..offset + i + n] == chip.cells[offset..offset + i] + scratch;
      assert data[..i + n] == data[..i] + data[i..i + n];
      i := i + n;
    }
    assert data[..i] == data;
    return 0;
  }
}
