/** Flattened device tree blobs: header fields, the structure block and its
    tags, as read by fdt.c (version 17, all checks on). */
module FdtBlob {
  import opened Bytes

  const INT_MAX: int := 0x7FFF_FFFF

  const FDT_MAGIC: int := 0xd00dfeed
  const FDT_SW_MAGIC: int := 0x2ff20112
  const HEADER_SIZE: nat := 40

  const FDT_BEGIN_NODE: int := 1
  const FDT_END_NODE: int := 2
  const FDT_PROP: int := 3
  const FDT_NOP: int := 4
  const FDT_END: int := 9

  const NOTFOUND: int := 1
  const NOSPACE: int := 3
  const BADOFFSET: int := 4
  const BADSTATE: int := 7
  const TRUNCATED: int := 8
  const BADMAGIC: int := 9
  const BADVERSION: int := 10
  const BADSTRUCTURE: int := 11
  const INTERNAL: int := 13
  const BADFLAGS: int := 18

  predicate HasHeader(b: seq<Byte>) { |b| >= HEADER_SIZE }

  function Magic(b: seq<Byte>): int requires HasHeader(b) { Get32(b, 0) }
  function TotalSize(b: seq<Byte>): int requires HasHeader(b) { Get32(b, 4) }
  function OffStruct(b: seq<Byte>): int requires HasHeader(b) { Get32(b, 8) }
  function OffStrings(b: seq<Byte>): int requires HasHeader(b) { Get32(b, 12) }
  function OffReserve(b: seq<Byte>): int requires HasHeader(b) { Get32(b, 16) }
  function Version(b: seq<Byte>): int requires HasHeader(b) { Get32(b, 20) }
  function LastComp(b: seq<Byte>): int requires HasHeader(b) { Get32(b, 24) }
  function SizeStrings(b: seq<Byte>): int requires HasHeader(b) { Get32(b, 32) }
  function SizeStruct(b: seq<Byte>): int requires HasHeader(b) { Get32(b, 36) }

  /** A header whose total size is within the memory it stands in. */
  predicate Readable(b: seq<Byte>) {
    HasHeader(b) && TotalSize(b) <= |b| && TotalSize(b) <= INT_MAX && Version(b) >= 17
  }

  function Min(x: int, y: int): int { if x < y then x else y }

  /** The structure block, as far as it lies inside the blob. */
  function StructBlock(b: seq<Byte>): (s: seq<Byte>)
    requires Readable(b)
    ensures |s| <= INT_MAX
  {
    if OffStruct(b) > TotalSize(b) then []
    else b[OffStruct(b)..Min(OffStruct(b) + SizeStruct(b), TotalSize(b))]
  }

  // ---- fdt_offset_ptr ----

  /** The checks of fdt_offset_ptr, in 32-bit arithmetic; true is non-NULL. */
  predicate OffsetPtr(b: seq<Byte>, offset: int, len: int)
    requires Readable(b) && -WORD / 2 <= offset < WORD / 2 && 0 < len < WORD
  {
    var uoffset := offset % WORD;
    var absoffset := (offset + OffStruct(b)) % WORD;
    && offset >= 0
    && !(absoffset < uoffset || (absoffset + len) % WORD < absoffset || (absoffset + len) % WORD > TotalSize(b))
    && !((uoffset + len) % WORD < uoffset || (uoffset + len) % WORD > SizeStruct(b))
  }

  lemma {:induction false} WrapSum(x: int, y: int)
    requires 0 <= x < WORD && 0 <= y < WORD
    ensures (x + y) % WORD == if x + y < WORD then x + y else x + y - WORD
  {}

  lemma {:induction false} RangeCheck(offset: int, len: int, off: int, total: int, size: int)
    requires 0 <= offset < WORD / 2 && 0 < len < WORD && 0 <= off < WORD && 0 <= total <= INT_MAX && 0 <= size < WORD
    ensures var a := (offset + off) % WORD;
            !(a < offset || (a + len) % WORD < a || (a + len) % WORD > total) &&
            !((offset + len) % WORD < offset || (offset + len) % WORD > size)
            <==> off + offset + len <= total && offset + len <= size
  {
    WrapSum(offset, off);
    WrapSum((offset + off) % WORD, len);
    WrapSum(offset, len);
  }

  /** The wrap-around tests amount to: the range lies in the structure block. */
  lemma {:induction false} OffsetPtrIsRange(b: seq<Byte>, offset: int, len: int)
    requires Readable(b) && -WORD / 2 <= offset < WORD / 2 && 0 < len < WORD
    ensures OffsetPtr(b, offset, len) <==> 0 <= offset && offset + len <= |StructBlock(b)|
  {
    if offset >= 0 {
      RangeCheck(offset, len, OffStruct(b), TotalSize(b), SizeStruct(b));
      assert offset % WORD == offset;
    }
  }

  // ---- tags ----

  /** A tag and the offset after it; a negative offset is an error code. */
  datatype Step = Step(tag: int, next: int)

  /** Offset after the first NUL at or after `at`, or -1. */
  function SkipName(s: seq<Byte>, at: nat): (r: int)
    ensures r == -1 || at < r <= |s|
    ensures r != -1 ==> s[r - 1] == 0 && forall k | at <= k < r - 1 :: s[k] != 0
    ensures r == -1 ==> forall k | at <= k < |s| :: s[k] != 0
    decreases |s| - at
  {
    if at >= |s| then -1 else if s[at] == 0 then at + 1 else SkipName(s, at + 1)
  }

  /** The tag at `start` of structure block s. */
  function NextTag(s: seq<Byte>, start: int): (r: Step)
    ensures r.next >= 0 ==> 0 <= start && start + 4 <= r.next < |s| + 4 && r.next % 4 == 0
    ensures r.next >= 0 ==> r.tag in {FDT_BEGIN_NODE, FDT_END_NODE, FDT_PROP, FDT_NOP, FDT_END}
    ensures r.next < 0 ==> r.tag == FDT_END && r.next in {-TRUNCATED, -BADSTRUCTURE}
  {
    if start < 0 || start + 4 > |s| then Step(FDT_END, -TRUNCATED)
    else
      var tag, bad := Get32(s, start), Step(FDT_END, -BADSTRUCTURE);
      if tag == FDT_BEGIN_NODE then
        var end := SkipName(s, start + 4);
        if end == -1 then bad else Step(tag, Align4(end))
      else if tag == FDT_PROP then
        if start + 8 > |s| || start + 12 + Get32(s, start + 4) > |s| then bad
        else Step(tag, Align4(start + 12 + Get32(s, start + 4)))
      else if tag in {FDT_END, FDT_END_NODE, FDT_NOP} then Step(tag, Align4(start + 4))
      else bad
  }

  /** Signed 32-bit value of a wrapped sum. */
  function I32(x: int): int {
    var u := x % WORD;
    if u < WORD / 2 then u else u - WORD
  }

  /** Word at an offset of the structure block. */
  lemma {:induction false} BlockWord(b: seq<Byte>, at: nat)
    requires Readable(b) && at + 4 <= |StructBlock(b)|
    ensures Get32(b, OffStruct(b) + at) == Get32(StructBlock(b), at)
  {
    Get32Same(b, OffStruct(b) + at, StructBlock(b), at);
  }

  /** The loop over the node name; -1 is a premature end. */
  method SkipNodeName(b: seq<Byte>, at: nat) returns (r: int)
    requires Readable(b) && at <= |StructBlock(b)|
    ensures r == SkipName(StructBlock(b), at)
  {
    ghost var s := StructBlock(b);
    var offset := at;
    while true
      invariant at <= offset <= |s| && SkipName(s, offset) == SkipName(s, at)
      decreases |s| - offset
    {
      OffsetPtrIsRange(b, offset, 1);
      if !OffsetPtr(b, offset, 1) {
        return -1;
      }
      offset := offset + 1;
      if b[OffStruct(b) + offset - 1] == 0 {
        return offset;
      }
    }
  }

  /** Offset after a property value, as computed in 32 bits; -1 is a
      premature end. */
  method SkipProperty(b: seq<Byte>, offset: nat) returns (r: int)
    requires Readable(b) && offset <= |StructBlock(b)|
    ensures r == -1 ==> offset + 4 > |StructBlock(b)| || offset + 8 + Get32(StructBlock(b), offset) > |StructBlock(b)|
    ensures r != -1 ==> offset + 4 <= |StructBlock(b)| && r == I32(offset + 8 + Get32(StructBlock(b), offset))
    ensures r != -1 ==> Get32(StructBlock(b), offset) + offset < INT_MAX
  {
    OffsetPtrIsRange(b, offset, 4);
    if !OffsetPtr(b, offset, 4) {
      return -1;
    }
    BlockWord(b, offset);
    var len := Get32(b, OffStruct(b) + offset);
    var sum := (len + offset) % WORD;
    WrapSum(len, offset);
    if INT_MAX <= sum || sum < offset {
      return -1;
    }
    r := I32(offset + 8 + len);
  }

  /** fdt_next_tag on the blob itself. */
  method FdtNextTag(b: seq<Byte>, start: int) returns (r: Step)
    requires Readable(b) && -WORD / 2 <= start < WORD / 2
    ensures r == NextTag(StructBlock(b), start)
  {
    OffsetPtrIsRange(b, start, 4);
    if !OffsetPtr(b, start, 4) {
      return Step(FDT_END, -TRUNCATED);
    }
    BlockWord(b, start);
    var tag := Get32(b, OffStruct(b) + start);
    var offset := start + 4;
    if tag == FDT_BEGIN_NODE {
      offset := SkipNodeName(b, offset);
      if offset == -1 {
        return Step(FDT_END, -BADSTRUCTURE);
      }
    } else if tag == FDT_PROP {
      offset := SkipProperty(b, offset);
      if offset == -1 {
        return Step(FDT_END, -BADSTRUCTURE);
      }
    } else if tag != FDT_END && tag != FDT_END_NODE && tag != FDT_NOP {
      return Step(FDT_END, -BADSTRUCTURE);
    }
    r := FinishTag(b, start, tag, offset);
  }

  lemma {:induction false} WrappedEnd(start: int, end: int)
    requires 0 <= start < end < WORD
    ensures (I32(end) - start) % WORD == end - start && (end <= INT_MAX ==> I32(end) == end)
  {}

  /** The check that the whole tag lies in the block. */
  method FinishTag(b: seq<Byte>, start: nat, tag: int, offset: int) returns (r: Step)
    requires Readable(b) && start + 4 <= |StructBlock(b)|
    requires tag in {FDT_BEGIN_NODE, FDT_END_NODE, FDT_PROP, FDT_NOP, FDT_END} && tag == Get32(StructBlock(b), start)
    requires tag == FDT_BEGIN_NODE ==> offset != -1 && offset == SkipName(StructBlock(b), start + 4)
    requires tag == FDT_PROP ==> start + 8 <= |StructBlock(b)|
    requires tag == FDT_PROP ==> offset == I32(start + 12 + Get32(StructBlock(b), start + 4))
    requires tag == FDT_PROP ==> start + 4 + Get32(StructBlock(b), start + 4) < INT_MAX
    requires tag in {FDT_END_NODE, FDT_NOP, FDT_END} ==> offset == start + 4
    ensures r == NextTag(StructBlock(b), start)
  {
    ghost var end := if tag == FDT_PROP then start + 12 + Get32(StructBlock(b), start + 4) else offset;
    WrappedEnd(start, end);
    var length := (offset - start) % WORD;
    OffsetPtrIsRange(b, start, length);
    if !OffsetPtr(b, start, length) {
      return Step(FDT_END, -BADSTRUCTURE);
    }
    return Step(tag, Align4(offset));
  }
}
