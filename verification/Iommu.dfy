/** iommu.c: three levels of page tables and an allocator of 2 MiB windows whose
    marks live in the entries. */
module Iommu {
  import opened Radix
  import opened Bytes

  const PAGE: nat := 0x1000
  const MIB2: nat := 0x20_0000
  const GIB: nat := 0x4000_0000
  const VIRT: nat := 0xC000_0000
  const SLOTS: nat := 256
  const ENTRIES: nat := 512
  const LIMIT64: nat := 0x1_0000_0000_0000_0000

  const EINVALIDPARAM: int := 1003
  const EDATASIZE: int := 1008
  const EBUSY: int := 16

  const REF: nat := 1
  const RWX: nat := 7

  // ---- entries: V in bit 0, type in bits 1 to 4, user mark in bits 7 to 9,
  //      page number from bit 10 on ----

  /** The fields do not overlap, so setting them with | is adding them. */
  lemma {:induction false} OrIsPlus(kind: bv64, user: bv64, ppn: bv64)
    requires kind < 16 && user < 8 && ppn < 0x40_0000_0000_0000
    ensures 1 | (kind << 1) | (user << 7) | (ppn << 10) == 1 + (kind << 1) + (user << 7) + (ppn << 10)
  {}

  function Entry(kind: nat, user: nat, ppn: nat): nat { 1 + 2 * kind + 128 * user + 1024 * ppn }

  function IsValid(e: nat): bool { e % 2 == 1 }
  function KindOf(e: nat): nat { e / 2 % 16 }
  function UserOf(e: nat): nat { e / 128 % 8 }
  function PpnOf(e: nat): nat { e / 1024 }

  lemma {:induction false} EntryFields(kind: nat, user: nat, ppn: nat)
    requires kind < 16 && user < 8
    ensures var e := Entry(kind, user, ppn);
            IsValid(e) && KindOf(e) == kind && UserOf(e) == user && PpnOf(e) == ppn
  {
    var e := Entry(kind, user, ppn);
    DivUnique(e, 2, kind + 64 * user + 512 * ppn, 1);
    DivUnique(e / 2, 16, 4 * user + 32 * ppn, kind);
    DivUnique(e, 128, user + 8 * ppn, 1 + 2 * kind);
    DivUnique(e / 128, 8, ppn, user);
    DivUnique(e, 1024, ppn, 1 + 2 * kind + 128 * user);
  }

  function Leaf(addr: nat, user: nat): nat { Entry(RWX, user, addr / PAGE) }
  function Ref(addr: nat): nat { Entry(REF, 0, addr / PAGE) }

  // ---- the walk ----

  /** The tables in memory: at the base, one and two pages after it. */
  datatype Tables = Tables(base: nat, top: seq<nat>, mid: seq<nat>, low: seq<nat>)

  function TableAt(t: Tables, addr: nat): Option<seq<nat>> {
    if addr == t.base then Some(t.top)
    else if addr == t.base + PAGE then Some(t.mid)
    else if addr == t.base + 2 * PAGE then Some(t.low)
    else None
  }

  /** Bytes an entry covers. */
  function Span(level: nat): nat { if level == 2 then 512 * GIB else if level == 1 then GIB else MIB2 }

  /** The walk from a table of this level: a leaf adds the offset inside its
      window to its page address. */
  function Walk(t: Tables, table: nat, v: nat, level: nat): Option<nat>
    decreases level
  {
    var entries := TableAt(t, table);
    var i := v / Span(level) % ENTRIES;
    if entries.None? || i >= |entries.value| then None
    else
      var e := entries.value[i];
      if !IsValid(e) then None
      else if KindOf(e) == RWX then Some(PpnOf(e) * PAGE + v % Span(level))
      else if KindOf(e) == REF && level > 0 then Walk(t, PpnOf(e) * PAGE, v, level - 1)
      else None
  }

  /** Translation of a 32-bit address. */
  function Translate(t: Tables, v: nat): Option<nat> { Walk(t, t.base, v, 2) }

  // ---- what the tables hold ----

  function Home(i: nat): nat { VIRT + i * MIB2 }

  function MidEntry(base: nat, i: nat): nat {
    if i == 3 then Ref(base + 2 * PAGE) else Leaf(i * GIB, 0)
  }

  function LowEntry(live: map<nat, nat>, i: nat): nat {
    if i in live then Leaf(live[i], 1) else Leaf(Home(i), 0)
  }

  predicate LiveOk(live: map<nat, nat>) {
    forall i | i in live :: i < SLOTS && live[i] < LIMIT64 && live[i] % PAGE == 0
  }

  /** The tables are the default ones but for the live windows. */
  ghost predicate Holds(t: Tables, live: map<nat, nat>) {
    && t.base % PAGE == 0 && |t.top| == |t.mid| == |t.low| == ENTRIES && LiveOk(live)
    && t.top[0] == Ref(t.base + PAGE)
    && (forall i | 0 <= i < 4 :: t.mid[i] == MidEntry(t.base, i))
    && forall i | 0 <= i < ENTRIES :: t.low[i] == LowEntry(live, i)
  }

  /** Where an address leads under the live windows. */
  function Target(live: map<nat, nat>, v: nat): nat {
    var i := (v - VIRT) / MIB2;
    if v >= VIRT && i in live then live[i] + v % MIB2 else v
  }

  lemma {:induction false} PageAddress(a: nat)
    requires a % PAGE == 0
    ensures a / PAGE * PAGE == a
  {}

  lemma {:induction false} Indices(v: nat)
    requires v < WORD
    ensures v / (512 * GIB) % ENTRIES == 0
    ensures v / GIB % ENTRIES == v / GIB < 4
    ensures v >= VIRT ==> v / MIB2 % ENTRIES == (v - VIRT) / MIB2 < ENTRIES
    ensures v >= VIRT <==> v / GIB == 3
  {
    if v >= VIRT {
      assert v == 1536 * MIB2 + (v - VIRT);
    }
  }

  lemma {:induction false} HomeOffset(v: nat)
    requires VIRT <= v < WORD
    ensures Home((v - VIRT) / MIB2) + v % MIB2 == v && Home((v - VIRT) / MIB2) % PAGE == 0
  {
    assert v % MIB2 == (v - VIRT) % MIB2;
    assert Home((v - VIRT) / MIB2) == PAGE * (786432 + 512 * ((v - VIRT) / MIB2));
  }

  lemma {:induction false} GibOffset(v: nat)
    ensures v / GIB * GIB + v % GIB == v && (v / GIB * GIB) % PAGE == 0
  {
    assert v / GIB * GIB == PAGE * (0x4_0000 * (v / GIB));
  }

  lemma {:induction false} WalkLeaf(t: Tables, table: nat, entries: seq<nat>, v: nat, level: nat, addr: nat, user: nat)
    requires TableAt(t, table) == Some(entries) && |entries| == ENTRIES && addr % PAGE == 0 && user < 8
    requires entries[v / Span(level) % ENTRIES] == Leaf(addr, user)
    ensures Walk(t, table, v, level) == Some(addr + v % Span(level))
  {
    EntryFields(RWX, user, addr / PAGE);
    PageAddress(addr);
  }

  lemma {:induction false} WalkRef(t: Tables, table: nat, entries: seq<nat>, v: nat, level: nat, addr: nat)
    requires TableAt(t, table) == Some(entries) && |entries| == ENTRIES && addr % PAGE == 0 && level > 0
    requires entries[v / Span(level) % ENTRIES] == Ref(addr)
    ensures Walk(t, table, v, level) == Walk(t, addr, v, level - 1)
  {
    EntryFields(REF, 0, addr / PAGE);
    PageAddress(addr);
  }

  lemma {:induction false} LowWalk(t: Tables, live: map<nat, nat>, v: nat)
    requires Holds(t, live) && VIRT <= v < WORD
    ensures Walk(t, t.base + 2 * PAGE, v, 0) == Some(Target(live, v))
  {
    var i := (v - VIRT) / MIB2;
    Indices(v);
    HomeOffset(v);
    assert t.low[i] == LowEntry(live, i);
    if i in live {
      WalkLeaf(t, t.base + 2 * PAGE, t.low, v, 0, live[i], 1);
    } else {
      WalkLeaf(t, t.base + 2 * PAGE, t.low, v, 0, Home(i), 0);
    }
  }

  lemma {:induction false} MidWalk(t: Tables, live: map<nat, nat>, v: nat)
    requires Holds(t, live) && v < WORD
    ensures Walk(t, t.base + PAGE, v, 1) == Some(Target(live, v))
  {
    var i := v / GIB;
    Indices(v);
    assert t.mid[i] == MidEntry(t.base, i);
    if i == 3 {
      WalkRef(t, t.base + PAGE, t.mid, v, 1, t.base + 2 * PAGE);
      LowWalk(t, live, v);
    } else {
      GibOffset(v);
      WalkLeaf(t, t.base + PAGE, t.mid, v, 1, i * GIB, 0);
    }
  }

  /** Every 32-bit address leads to itself, or into its live window. */
  lemma {:induction false} Translation(t: Tables, live: map<nat, nat>, v: nat)
    requires Holds(t, live) && v < WORD
    ensures Translate(t, v) == Some(Target(live, v))
  {
    Indices(v);
    WalkRef(t, t.base, t.top, v, 2, t.base + PAGE);
    MidWalk(t, live, v);
  }

  /** With no live window the translation is the identity. */
  lemma {:induction false} Identity(t: Tables, v: nat)
    requires Holds(t, map[]) && v < WORD
    ensures Translate(t, v) == Some(v)
  {
    Translation(t, map[], v);
  }

  lemma {:induction false} SlotOfHome(i: nat, off: nat)
    requires i < SLOTS && off < MIB2
    ensures (Home(i) + off - VIRT) / MIB2 == i && (Home(i) + off) % MIB2 == off && Home(i) + off < WORD
  {
    assert Home(i) + off - VIRT == MIB2 * i + off;
    assert Home(i) + off == MIB2 * (1536 + i) + off;
  }

  /** The address map returns leads to the requested one, and so does the rest
      of its window. */
  lemma {:induction false} MappedWindow(t: Tables, live: map<nat, nat>, slot: nat, off: nat)
    requires Holds(t, live) && slot in live && off < MIB2
    ensures Translate(t, Home(slot) + off) == Some(live[slot] + off)
  {
    SlotOfHome(slot, off);
    Translation(t, live, Home(slot) + off);
  }

  /** The byte `more` behind the requested address, inside its window. */
  lemma {:induction false} Reaches(t: Tables, live: map<nat, nat>, slot: nat, addr64: nat, more: nat)
    requires Holds(t, live) && slot in live && live[slot] == addr64 - addr64 % PAGE && more < MIB2 - PAGE
    ensures Translate(t, Home(slot) + addr64 % PAGE + more) == Some(addr64 + more)
  {
    MappedWindow(t, live, slot, addr64 % PAGE + more);
  }

  /** Taking a window and giving it back. */
  lemma {:induction false} Restored(live: map<nat, nat>, slot: nat, page: nat)
    requires slot !in live
    ensures live[slot := page] - {slot} == live
  {}

  class Device {
    const base: nat
    const top: array<nat>
    const mid: array<nat>
    const low: array<nat>
    ghost var live: map<nat, nat>

    function Memory(): Tables
      reads top, mid, low
    {
      Tables(base, top[..], mid[..], low[..])
    }

    ghost predicate Valid()
      reads this, top, mid, low
    {
      top != mid && mid != low && top != low && Holds(Memory(), live)
    }

    constructor (base: nat)
      requires base % PAGE == 0
      ensures Valid() && live == map[] && fresh(top) && fresh(mid) && fresh(low)
    {
      this.base := base;
      top, mid, low := new nat[ENTRIES], new nat[ENTRIES], new nat[ENTRIES];
      live := map[];
      new;
      DefaultTables();
    }

    /** iommu_gen_default_tables */
    method DefaultTables()
      requires base % PAGE == 0 && top.Length == mid.Length == low.Length == ENTRIES
      requires top != mid && mid != low && top != low
      modifies this, top, mid, low
      ensures Valid() && live == map[]
    {
      live := map[];
      forall i | 0 <= i < ENTRIES { top[i] := 0; }
      forall i | 0 <= i < ENTRIES { mid[i] := 0; }
      top[0] := Ref(base + PAGE);
      for i := 0 to 4
        invariant top[0] == Ref(base + PAGE) && live == map[]
        invariant forall j | 0 <= j < i :: mid[j] == MidEntry(base, j)
      {
        if i != 3 {
          mid[i] := Leaf(i * GIB, 0);
        } else {
          mid[i] := Ref(base + 2 * PAGE);
        }
      }
      for i := 0 to ENTRIES
        invariant top[0] == Ref(base + PAGE) && live == map[]
        invariant forall j | 0 <= j < 4 :: mid[j] == MidEntry(base, j)
        invariant forall j | 0 <= j < i :: low[j] == LowEntry(live, j)
      {
        low[i] := Leaf(3 * GIB + i * MIB2, 0);
      }
    }

    /** A slot is marked exactly when its window is live. */
    lemma Marked(i: nat)
      requires Valid() && i < ENTRIES
      ensures UserOf(low[i]) != 0 <==> i in live
    {
      if i in live { EntryFields(RWX, 1, live[i] / PAGE); } else { EntryFields(RWX, 0, Home(i) / PAGE); }
    }

    /** iommu_find_free_slot; SLOTS is "none". */
    method FindFreeSlot() returns (slot: nat)
      requires Valid()
      ensures slot <= SLOTS && slot !in live
      ensures forall i | 0 <= i < slot :: i in live
    {
      slot := 0;
      while slot < SLOTS
        invariant slot <= SLOTS && forall i | 0 <= i < slot :: i in live
      {
        Marked(slot);
        if UserOf(low[slot]) == 0 {
          return;
        }
        slot := slot + 1;
      }
    }

    /** Writing an entry of a slot. */
    method SetLow(slot: nat, e: nat, ghost live': map<nat, nat>)
      requires Valid() && slot < SLOTS && LiveOk(live') && e == LowEntry(live', slot)
      requires forall i | i != slot :: (i in live' <==> i in live) && (i in live' ==> live'[i] == live[i])
      modifies this`live, low
      ensures Valid() && live == live'
    {
      low[slot] := 0;
      low[slot] := e;
      live := live';
    }

    /** iommu_map; None is a panic. */
    method Map(addr64: nat) returns (r: Option<nat>)
      requires Valid() && addr64 < LIMIT64
      modifies this`live, low
      ensures Valid()
      ensures r.None? <==> forall i | 0 <= i < SLOTS :: i in old(live)
      ensures r.None? ==> live == old(live)
      ensures r.Some? ==>
                var slot := (r.value - VIRT) / MIB2;
                && 0 <= slot < SLOTS && slot !in old(live) && r.value == Home(slot) + addr64 % PAGE
                && live == old(live)[slot := addr64 - addr64 % PAGE] && Translate(Memory(), r.value) == Some(addr64)
    {
      var slot := FindFreeSlot();
      if slot == SLOTS {
        return None;
      }
      MapAt(slot, addr64);
      SlotOfHome(slot, addr64 % PAGE);
      return Some(Home(slot) + addr64 % PAGE);
    }

    /** The entry of a free slot is marked and leads to the page. */
    method MapAt(slot: nat, addr64: nat)
      requires Valid() && addr64 < LIMIT64 && slot < SLOTS && slot !in live
      modifies this`live, low
      ensures Valid() && live == old(live)[slot := addr64 - addr64 % PAGE]
      ensures Translate(Memory(), Home(slot) + addr64 % PAGE) == Some(addr64)
    {
      var page := addr64 - addr64 % PAGE;
      SetLow(slot, Leaf(page, 1), live[slot := page]);
      Reaches(Memory(), live, slot, addr64, 0);
    }

    /** iommu_unmap; false is a panic. */
    method Unmap(addr32: nat) returns (ok: bool)
      requires Valid() && addr32 < WORD
      modifies this`live, low
      ensures Valid()
      ensures ok <==> VIRT <= addr32 < Home(SLOTS)
      ensures ok ==> live == old(live) - {(addr32 - VIRT) / MIB2}
      ensures !ok ==> live == old(live)
    {
      var base32 := addr32 - addr32 % MIB2;
      if base32 == 0 {
        return false;
      }
      var slot := (base32 - VIRT) % WORD / MIB2;
      SlotRange(addr32);
      if slot >= SLOTS {
        return false;
      }
      SetLow(slot, Leaf(3 * GIB + slot * MIB2, 0), live - {slot});
      return true;
    }

    /** __iommu_map_slot */
    method MapSlot(base32: nat, page: nat) returns (r: int)
      requires Valid() && base32 < WORD && page < LIMIT64 && page % PAGE == 0
      modifies this`live, low
      ensures Valid()
      ensures r == if base32 == 0 || base32 % MIB2 != 0 then -EINVALIDPARAM
                   else if !(VIRT <= base32 < Home(SLOTS)) then -EDATASIZE
                   else if (base32 - VIRT) / MIB2 in old(live) then -EBUSY else 0
      ensures live == if r == 0 then old(live)[(base32 - VIRT) / MIB2 := page] else old(live)
    {
      if base32 == 0 || base32 % MIB2 != 0 {
        return -EINVALIDPARAM;
      }
      var slot := (base32 - VIRT) % WORD / MIB2;
      SlotRange(base32);
      if slot >= SLOTS {
        return -EDATASIZE;
      }
      Marked(slot);
      if UserOf(low[slot]) != 0 {
        return -EBUSY;
      }
      SetLow(slot, Leaf(page, 1), live[slot := page]);
      return 0;
    }

    /** iommu_map_range. The first window is the one that contains the address, so
        an address off the 2 MiB boundary leads to the requested page plus its
        offset in the window. On failure the windows before the one that failed
        stay mapped. */
    method MapRange(base32: nat, size: nat, base64: nat) returns (r: int, ghost n: nat)
      requires Valid() && base32 + size < WORD && base64 < LIMIT64
      modifies this`live, low
      ensures Valid()
      ensures var off := base32 % MIB2; var base := base32 - off;
              && (r == 0 ==> n == (off + size + MIB2 - 1) / MIB2)
              && (n > 0 ==> base >= VIRT)
              && live == (if n == 0 then old(live)
                          else Ranged(old(live), (base - VIRT) / MIB2, n, base64 - base64 % PAGE))
              && (r != 0 ==> n < (off + size + MIB2 - 1) / MIB2 && var p := base + n * MIB2;
                    p == 0 || !(VIRT <= p < Home(SLOTS)) || (p - VIRT) / MIB2 in old(live))
    {
      Masked(base32);
      r, n := MapWindows(base32 - base32 % MIB2, base32 % MIB2 + size, base64);
    }

    /** The loop of iommu_map_range, from a 2 MiB boundary. */
    method MapWindows(base32: nat, size: nat, base64: nat) returns (r: int, ghost n: nat)
      requires Valid() && base32 % MIB2 == 0 && base32 + size < WORD && base64 < LIMIT64
      modifies this`live, low
      ensures Valid()
      ensures r == 0 ==> n == (size + MIB2 - 1) / MIB2
      ensures n > 0 ==> base32 >= VIRT
      ensures n > 0 ==> live == Ranged(old(live), (base32 - VIRT) / MIB2, n, base64 - base64 % PAGE)
      ensures n == 0 ==> live == old(live)
      ensures r != 0 ==> n < (size + MIB2 - 1) / MIB2 && var p := base32 + n * MIB2;
                p == 0 || !(VIRT <= p < Home(SLOTS)) || (p - VIRT) / MIB2 in old(live)
    {
      var p32, p64 := base32, base64 - base64 % PAGE;
      ghost var page := p64;
      n := 0;
      while p32 < base32 + size
        invariant Valid() && p32 == base32 + n * MIB2 && p64 == (page + n * MIB2) % LIMIT64 && p64 % PAGE == 0
        invariant n * MIB2 < size + MIB2 && (n > 0 ==> base32 >= VIRT)
        invariant n > 0 ==> live == Ranged(old(live), (base32 - VIRT) / MIB2, n, page)
        invariant n == 0 ==> live == old(live)
        decreases base32 + size - p32
      {
        r := MapSlot(p32, p64);
        NextSlot(base32, n);
        if n > 0 { RangedKeys(old(live), (base32 - VIRT) / MIB2, n, page, (base32 - VIRT) / MIB2 + n); }
        if r != 0 {
          return;
        }
        NextPage64(page, n);
        p32, p64 := p32 + MIB2, (p64 + MIB2) % LIMIT64;
        n := n + 1;
      }
      r := 0;
    }
  }

  lemma {:induction false} Masked(addr: nat)
    ensures (addr - addr % MIB2) % MIB2 == 0
  {}

  /** The live windows after n slots from `first` on were mapped. */
  function Ranged(live: map<nat, nat>, first: nat, n: nat, page: nat): map<nat, nat> {
    if n == 0 then live else Ranged(live, first, n - 1, page)[first + n - 1 := (page + (n - 1) * MIB2) % LIMIT64]
  }

  lemma {:induction false} RangedKeys(live: map<nat, nat>, first: nat, n: nat, page: nat, i: nat)
    ensures i in Ranged(live, first, n, page) <==> i in live || first <= i < first + n
    ensures first <= i < first + n ==> Ranged(live, first, n, page)[i] == (page + (i - first) * MIB2) % LIMIT64
    ensures i in live && !(first <= i < first + n) ==> Ranged(live, first, n, page)[i] == live[i]
  {
    if n > 0 { RangedKeys(live, first, n - 1, page, i); }
  }

  /** The slot computed in 32 bits is in range exactly for the window addresses. */
  lemma {:induction false} SlotRange(addr32: nat)
    requires addr32 < WORD
    ensures var slot := (addr32 - addr32 % MIB2 - VIRT) % WORD / MIB2;
            && (slot < SLOTS <==> VIRT <= addr32 < Home(SLOTS))
            && (VIRT <= addr32 ==> slot == (addr32 - VIRT) / MIB2)
  {
    var q := addr32 / MIB2;
    var base32 := addr32 - addr32 % MIB2;
    assert base32 == q * MIB2;
    if addr32 >= VIRT {
      assert q >= 1536;
      assert base32 - VIRT == (q - 1536) * MIB2;
      assert (base32 - VIRT) % WORD == base32 - VIRT;
    } else {
      assert q < 1536;
      assert (base32 - VIRT) % WORD == base32 - VIRT + WORD == (q + 512) * MIB2;
    }
  }

  lemma {:induction false} NextSlot(base32: nat, n: nat)
    requires base32 % MIB2 == 0
    ensures (base32 + n * MIB2) % MIB2 == 0
    ensures base32 >= VIRT ==> (base32 + n * MIB2 - VIRT) / MIB2 == (base32 - VIRT) / MIB2 + n
    ensures base32 < VIRT && n == 0 ==> base32 + n * MIB2 < VIRT
  {
    var q := base32 / MIB2;
    assert base32 + n * MIB2 == (q + n) * MIB2;
    if base32 >= VIRT {
      assert q >= 1536 && base32 - VIRT == (q - 1536) * MIB2;
      assert base32 + n * MIB2 - VIRT == (q - 1536 + n) * MIB2;
    }
  }

  lemma {:induction false} NextPage64(page: nat, n: nat)
    requires page % PAGE == 0
    ensures ((page + n * MIB2) % LIMIT64 + MIB2) % LIMIT64 == (page + (n + 1) * MIB2) % LIMIT64
    ensures ((page + n * MIB2) % LIMIT64 + MIB2) % LIMIT64 % PAGE == 0
  {
    var x := page + n * MIB2;
    assert page + (n + 1) * MIB2 == x + MIB2;
    assert (x % LIMIT64 + MIB2) % LIMIT64 == (x + MIB2) % LIMIT64;
    var p := page / PAGE;
    assert x + MIB2 == PAGE * (p + 512 * n + 512);
    var y := x + MIB2;
    var q := y / LIMIT64;
    assert y % LIMIT64 == PAGE * (p + 512 * n + 512 - 0x10_0000_0000_0000 * q);
  }
}
