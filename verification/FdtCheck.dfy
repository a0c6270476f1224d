/** The validator fdt_check_full, and the string and name readers of fdt_ro.c
    it uses. */
module FdtCheck {
  import opened Bytes
  import opened FdtBlob

  // ---- the tag stream ----

  datatype Entry = Entry(tag: int, off: nat, next: nat)

  /** All tags from `at` up to the end tag, or None when reading fails first. */
  function Stream(s: seq<Byte>, at: nat): (r: Option<seq<Entry>>)
    decreases |s| + 4 - at
  {
    var step := NextTag(s, at);
    if step.next < 0 then None
    else if step.tag == FDT_END then Some([])
    else
      var rest := Stream(s, step.next);
      if rest.None? then None else Some([Entry(step.tag, at, step.next)] + rest.value)
  }

  /** Open nodes after the given tags. */
  function Depth(es: seq<Entry>): int {
    if |es| == 0 then 0
    else Depth(es[..|es| - 1]) +
         (if es[|es| - 1].tag == FDT_BEGIN_NODE then 1 else if es[|es| - 1].tag == FDT_END_NODE then -1 else 0)
  }

  /** Bytes of the node name at a begin tag. */
  function NodeName(s: seq<Byte>, off: nat): (name: seq<Byte>)
    requires NextTag(s, off).tag == FDT_BEGIN_NODE && NextTag(s, off).next >= 0
  {
    s[off + 4..SkipName(s, off + 4) - 1]
  }

  // ---- header checks ----

  /** fdt_ro_probe_ at an aligned address: the size, or an error code. */
  function RoProbe(b: seq<Byte>): (r: int)
    requires HasHeader(b)
  {
    if Magic(b) == FDT_MAGIC then
      if Version(b) < 2 || LastComp(b) > 17 then -BADVERSION
      else if TotalSize(b) < INT_MAX then TotalSize(b) else -TRUNCATED
    else if Magic(b) == FDT_SW_MAGIC then
      if SizeStruct(b) == 0 then -BADSTATE
      else if TotalSize(b) < INT_MAX then TotalSize(b) else -TRUNCATED
    else -BADMAGIC
  }

  predicate CheckOff(total: int, off: int) {
    HEADER_SIZE <= off <= total
  }

  /** check_block_, with its 32-bit overflow test. */
  predicate CheckBlock(total: int, base: int, size: int) {
    CheckOff(total, base) && !((base + size) % WORD < base) && CheckOff(total, (base + size) % WORD)
  }

  /** fdt_check_header for version 17: 0 or an error code. */
  function CheckHeader(b: seq<Byte>): (r: int)
    requires HasHeader(b) && Version(b) >= 17
  {
    if Magic(b) != FDT_MAGIC then -BADMAGIC
    else if LastComp(b) > 17 || Version(b) < LastComp(b) then -BADVERSION
    else if TotalSize(b) < HEADER_SIZE || TotalSize(b) > INT_MAX then -TRUNCATED
    else if !CheckOff(TotalSize(b), OffReserve(b)) then -TRUNCATED
    else if !CheckBlock(TotalSize(b), OffStruct(b), SizeStruct(b)) then -TRUNCATED
    else if !CheckBlock(TotalSize(b), OffStrings(b), SizeStrings(b)) then -TRUNCATED
    else 0
  }

  /** What a passed header check means: both blocks lie between the header and
      the end of the blob. */
  lemma {:induction false} CheckedHeader(b: seq<Byte>)
    requires HasHeader(b) && Version(b) >= 17
    ensures CheckHeader(b) == 0 <==>
              (Magic(b) == FDT_MAGIC && LastComp(b) <= 17 && TotalSize(b) <= INT_MAX &&
               HEADER_SIZE <= OffReserve(b) <= TotalSize(b) &&
               HEADER_SIZE <= OffStruct(b) && OffStruct(b) + SizeStruct(b) <= TotalSize(b) &&
               HEADER_SIZE <= OffStrings(b) && OffStrings(b) + SizeStrings(b) <= TotalSize(b))
  {
    if TotalSize(b) <= INT_MAX && OffStruct(b) <= TotalSize(b) { WrapSum(OffStruct(b), SizeStruct(b)); }
    if TotalSize(b) <= INT_MAX && OffStrings(b) <= TotalSize(b) { WrapSum(OffStrings(b), SizeStrings(b)); }
  }

  // ---- strings ----

  /** Position and length of a string, or an error code. */
  datatype Str = Str(pos: nat, len: nat) | StrErr(code: int)

  /** First NUL in b[lo..hi], as an index, or -1. */
  function FindNul(b: seq<Byte>, lo: nat, hi: nat): (r: int)
    requires lo <= hi <= |b|
    ensures r == -1 || lo <= r < hi
    ensures r != -1 ==> b[r] == 0 && forall k | lo <= k < r :: b[k] != 0
    ensures r == -1 ==> (forall k | lo <= k < hi :: b[k] != 0)
    decreases hi - lo
  {
    if lo == hi then -1 else if b[lo] == 0 then lo else FindNul(b, lo + 1, hi)
  }

  /** fdt_get_string on a finished blob. */
  function GetString(b: seq<Byte>, stroffset: int): (r: Str)
    requires Readable(b) && Magic(b) == FDT_MAGIC && OffStrings(b) <= TotalSize(b)
    requires -WORD / 2 <= stroffset < WORD / 2
    ensures r.Str? ==> r.pos == OffStrings(b) + stroffset && 0 <= stroffset
    ensures r.Str? ==> stroffset + r.len < SizeStrings(b) && r.pos + r.len < TotalSize(b) && b[r.pos + r.len] == 0
    ensures r.Str? ==> forall k | r.pos <= k < r.pos + r.len :: b[k] != 0
  {
    var total := RoProbe(b);
    var absoffset := (stroffset + OffStrings(b)) % WORD;
    if total < 0 then StrErr(total)
    else if absoffset >= total then StrErr(-BADOFFSET)
    else if stroffset < 0 then StrErr(-BADOFFSET)
    else if stroffset >= SizeStrings(b) then StrErr(-BADOFFSET)
    else
      var len := Min(total - absoffset, SizeStrings(b) - stroffset);
      var n := FindNul(b, absoffset, absoffset + len);
      if n == -1 then StrErr(-TRUNCATED) else Str(absoffset, n - absoffset)
  }

  // ---- the validator ----

  /** Name offset word of the property at `off`, as the int it is passed as. */
  function NameOff(s: seq<Byte>, off: nat): (r: int)
    requires off + 12 <= |s|
    ensures -WORD / 2 <= r < WORD / 2
  {
    I32(Get32(s, off + 8))
  }

  predicate Checked(b: seq<Byte>) {
    HasHeader(b) && Version(b) >= 17 && CheckHeader(b) == 0 && TotalSize(b) <= |b|
  }

  lemma {:induction false} CheckedReadable(b: seq<Byte>)
    requires Checked(b)
    ensures Readable(b) && Magic(b) == FDT_MAGIC && OffStrings(b) <= TotalSize(b)
    ensures |StructBlock(b)| == SizeStruct(b)
  {
    CheckedHeader(b);
  }

  /** A tag is in order after the tags before it. */
  ghost predicate EntryOk(b: seq<Byte>, before: seq<Entry>, e: Entry)
    requires Checked(b)
  {
    CheckedReadable(b);
    var s := StructBlock(b);
    && !(|before| > 0 && before[|before| - 1].tag == FDT_END_NODE && Depth(before) == 0)
    && (e.tag == FDT_END_NODE ==> Depth(before) > 0)
    && (e.tag == FDT_BEGIN_NODE && Depth(before) == 0 ==>
          RoProbe(b) >= 0 && SkipName(s, e.off + 4) == e.off + 5)
    && (e.tag == FDT_PROP ==> e.off + 12 <= |s| && GetString(b, NameOff(s, e.off)).Str?)
  }

  ghost predicate TreeOk(b: seq<Byte>, es: seq<Entry>)
    requires Checked(b)
  {
    Depth(es) == 0 && PrefixOk(b, es)
  }

  ghost predicate PrefixOk(b: seq<Byte>, es: seq<Entry>)
    requires Checked(b)
  {
    forall i | 0 <= i < |es| :: EntryOk(b, es[..i], es[i])
  }

  /** Entry i of the reservation block is inside the blob. */
  predicate ReserveInside(b: seq<Byte>, i: nat)
    requires HasHeader(b)
  {
    OffReserve(b) + 16 * i + 16 <= TotalSize(b)
  }

  predicate ReserveEnd(b: seq<Byte>, i: nat)
    requires HasHeader(b) && TotalSize(b) <= |b|
  {
    ReserveInside(b, i) && var at := OffReserve(b) + 16 * i; b[at + 8..at + 16] == [0, 0, 0, 0, 0, 0, 0, 0]
  }

  lemma {:induction false} ReserveOffset(off: int, i: nat, total: int)
    requires HEADER_SIZE <= off <= total <= INT_MAX && 16 * i <= total
    ensures (off + 16 * i) % WORD == off + 16 * i && (total - 16) % WORD == total - 16
  {}

  /** fdt_num_mem_rsv: index of the terminating entry. */
  method NumMemRsv(b: seq<Byte>) returns (n: int)
    requires Checked(b)
    ensures n >= 0 ==> ReserveEnd(b, n) && forall k: nat | k < n :: !ReserveEnd(b, k)
    ensures n < 0 ==> n == -TRUNCATED && forall k: nat :: !ReserveEnd(b, k)
  {
    CheckedHeader(b);
    var i := 0;
    while true
      invariant 0 <= i && 16 * i <= TotalSize(b) && forall k: nat | k < i :: !ReserveEnd(b, k)
      decreases TotalSize(b) - 16 * i
    {
      var absoffset := (OffReserve(b) + 16 * i) % WORD;
      ReserveOffset(OffReserve(b), i, TotalSize(b));
      if absoffset < OffReserve(b) || absoffset > (TotalSize(b) - 16) % WORD {
        return -TRUNCATED;
      }
      if b[absoffset + 8..absoffset + 16] == [0, 0, 0, 0, 0, 0, 0, 0] {
        return i;
      }
      i := i + 1;
    }
  }

  /** What the tags read so far say about the whole stream. */
  lemma {:induction false} StreamStep(s: seq<Byte>, before: seq<Entry>, at: nat)
    requires NextTag(s, at).next >= 0 && NextTag(s, at).tag != FDT_END
    requires Continues(s, before, at)
    ensures Continues(s, before + [Entry(NextTag(s, at).tag, at, NextTag(s, at).next)], NextTag(s, at).next)
  {
    var step := NextTag(s, at);
    var e, rest := Entry(step.tag, at, step.next), Stream(s, step.next);
    if rest.Some? {
      assert before + ([e] + rest.value) == (before + [e]) + rest.value;
    }
  }

  /** The stream from 0 is `before` followed by the stream from `at`. */
  ghost predicate Continues(s: seq<Byte>, before: seq<Entry>, at: nat) {
    Stream(s, 0) == if Stream(s, at).None? then None else Some(before + Stream(s, at).value)
  }

  lemma {:induction false} ExtendOk(b: seq<Byte>, before: seq<Entry>, e: Entry)
    requires Checked(b) && PrefixOk(b, before) && EntryOk(b, before, e)
    ensures PrefixOk(b, before + [e])
  {
    var es := before + [e];
    assert es[..|before|] == before;
    forall i | 0 <= i < |es|
      ensures EntryOk(b, es[..i], es[i])
    {
      if i < |before| { assert es[..i] == before[..i]; }
    }
  }

  /** A bad tag spoils every stream that starts with these tags. */
  lemma {:induction false} SpoiledBy(b: seq<Byte>, before: seq<Entry>, e: Entry, es: seq<Entry>)
    requires Checked(b) && !EntryOk(b, before, e) && before + [e] <= es
    ensures !PrefixOk(b, es)
  {
    assert es[..|before|] == before && es[|before|] == e;
  }

  ghost predicate Valid(b: seq<Byte>) {
    Checked(b) &&
    (exists i: nat :: ReserveEnd(b, i)) &&
    var stream := Stream(StructBlock(b), 0); stream.Some? && TreeOk(b, stream.value)
  }

  /** fdt_get_name at a known node: the name's length, or an error code. */
  method GetNameLength(b: seq<Byte>, off: nat) returns (len: int)
    requires Checked(b) && off % 4 == 0
    requires NextTag(StructBlock(b), off).tag == FDT_BEGIN_NODE && off + 4 <= |StructBlock(b)|
    ensures RoProbe(b) < 0 ==> len == RoProbe(b)
    ensures RoProbe(b) >= 0 ==> len == |NodeName(StructBlock(b), off)|
  {
    CheckedReadable(b);
    if RoProbe(b) < 0 {
      return RoProbe(b);
    }
    len := 0;
    ghost var s := StructBlock(b);
    ghost var end := SkipName(s, off + 4) - 1;
    while b[OffStruct(b) + off + 4 + len] != 0
      invariant 0 <= len && off + 4 + len <= end
      decreases end - len
    {
      assert s[off + 4 + len] == b[OffStruct(b) + off + 4 + len];
      len := len + 1;
    }
    assert s[off + 4 + len] == b[OffStruct(b) + off + 4 + len];
  }

  /** The checks on one tag inside the loop: 0, or an error code. */
  method CheckEntry(b: seq<Byte>, e: Entry, depth: nat, expectEnd: bool, ghost before: seq<Entry>) returns (r: int)
    requires Checked(b) && e.off % 4 == 0 && NextTag(StructBlock(b), e.off) == Step(e.tag, e.next) && e.tag != FDT_END
    requires depth == Depth(before)
    requires expectEnd <==> |before| > 0 && before[|before| - 1].tag == FDT_END_NODE && Depth(before) == 0
    ensures r == 0 <==> EntryOk(b, before, e)
  {
    CheckedReadable(b);
    ghost var s := StructBlock(b);
    if expectEnd {
      return -BADSTRUCTURE;
    }
    if e.tag == FDT_BEGIN_NODE && depth == 0 {
      var len := GetNameLength(b, e.off);
      if RoProbe(b) < 0 {
        return len;
      }
      if len != 0 {
        return -BADSTRUCTURE;
      }
    } else if e.tag == FDT_END_NODE && depth == 0 {
      return -BADSTRUCTURE;
    } else if e.tag == FDT_PROP {
      BlockWord(b, e.off + 8);
      var name := GetString(b, I32(Get32(b, OffStruct(b) + e.off + 8)));
      if name.StrErr? {
        return name.code;
      }
    }
    return 0;
  }

  /** fdt_check_full returns 0 exactly for valid blobs. */
  method CheckFull(b: seq<Byte>) returns (r: int)
    requires |b| >= 24 ==> Get32(b, 20) >= 17
    ensures r == 0 <==> Valid(b)
  {
    if |b| < 28 || |b| < HEADER_SIZE {
      return -TRUNCATED;
    }
    r := CheckHeader(b);
    if r != 0 {
      return;
    }
    if |b| < TotalSize(b) {
      return -TRUNCATED;
    }
    CheckedReadable(b);
    var n := NumMemRsv(b);
    if n < 0 {
      return n;
    }
    r := CheckTags(b);
  }

  method CheckTags(b: seq<Byte>) returns (r: int)
    requires Checked(b)
    ensures r == 0 <==> Stream(StructBlock(b), 0).Some? && TreeOk(b, Stream(StructBlock(b), 0).value)
  {
    CheckedReadable(b);
    ghost var s, before := StructBlock(b), [];
    var next, depth, expectEnd := 0, 0, false;
    if Stream(s, 0).Some? { assert [] + Stream(s, 0).value == Stream(s, 0).value; }
    while true
      invariant 0 <= next < |s| + 4 && next % 4 == 0 && Continues(s, before, next) && PrefixOk(b, before)
      invariant depth == Depth(before) && depth >= 0
      invariant expectEnd <==> |before| > 0 && before[|before| - 1].tag == FDT_END_NODE && Depth(before) == 0
      decreases |s| + 4 - next
    {
      var offset := next;
      var step := FdtNextTag(b, offset);
      if step.next < 0 {
        return step.next;
      }
      next := step.next;
      if step.tag == FDT_END {
        assert before + [] == before;
        return if depth != 0 then -BADSTRUCTURE else 0;
      }
      var e := Entry(step.tag, offset, step.next);
      r := CheckEntry(b, e, depth, expectEnd, before);
      StreamStep(s, before, offset);
      if r != 0 {
        if Stream(s, 0).Some? { SpoiledBy(b, before, e, Stream(s, 0).value); }
        return;
      }
      ExtendOk(b, before, e);
      ghost var longer := before + [e];
      assert longer[..|longer| - 1] == before;
      before := longer;
      if step.tag == FDT_BEGIN_NODE {
        depth := depth + 1;
      } else if step.tag == FDT_END_NODE {
        depth := depth - 1;
        if depth == 0 {
          expectEnd := true;
        }
      }
    }
  }
}
