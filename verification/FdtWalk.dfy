/** Tree walking on a valid blob: fdt_next_node, fdt_supernode_atdepth_offset,
    fdt_node_depth and fdt_parent_offset. */
module FdtWalk {
  import opened Bytes
  import opened FdtBlob
  import opened FdtCheck

  /** Offset of tag j of the stream; the end tag is number |es|. */
  function OffAt(es: seq<Entry>, j: nat): nat
    requires j <= |es|
  {
    if j == 0 then 0 else es[j - 1].next
  }

  /** A valid tree whose first tag opens the root, and its tags. */
  ghost predicate Tree(b: seq<Byte>, es: seq<Entry>) {
    && Checked(b) && Readable(b) && TreeOk(b, es) && Stream(StructBlock(b), 0) == Some(es)
    && |es| > 0 && es[0].tag == FDT_BEGIN_NODE
  }

  ghost predicate IsNode(es: seq<Entry>, i: int) {
    0 <= i < |es| && es[i].tag == FDT_BEGIN_NODE
  }

  // ---- the stream, tag by tag ----

  lemma {:induction false} StreamSuffix(s: seq<Byte>, es: seq<Entry>, j: nat)
    requires Stream(s, 0) == Some(es) && j <= |es|
    ensures Stream(s, OffAt(es, j)) == Some(es[j..])
  {
    if j > 0 {
      StreamSuffix(s, es, j - 1);
      var at := OffAt(es, j - 1);
      var step := NextTag(s, at);
      assert Stream(s, at).value == [Entry(step.tag, at, step.next)] + Stream(s, step.next).value;
      assert es[j - 1..][0] == es[j - 1];
      assert es[j..] == es[j - 1..][1..];
    } else {
      assert es[0..] == es;
    }
  }

  lemma {:induction false} StreamTag(s: seq<Byte>, es: seq<Entry>, j: nat)
    requires Stream(s, 0) == Some(es) && j <= |es|
    ensures j < |es| ==> es[j].off == OffAt(es, j) && NextTag(s, es[j].off) == Step(es[j].tag, es[j].next)
    ensures j < |es| ==> es[j].tag != FDT_END && es[j].off + 4 <= es[j].next < |s| + 4
    ensures j == |es| ==> NextTag(s, OffAt(es, j)).tag == FDT_END && NextTag(s, OffAt(es, j)).next >= 0
    ensures OffAt(es, j) % 4 == 0 && OffAt(es, j) <= |s|
  {
    StreamSuffix(s, es, j);
    if j < |es| { assert es[j..][0] == es[j]; }
    if j > 0 {
      StreamSuffix(s, es, j - 1);
      assert es[j - 1..][0] == es[j - 1];
    }
  }

  lemma {:induction false} DepthStep(es: seq<Entry>, j: nat)
    requires j < |es|
    ensures Depth(es[..j + 1]) == Depth(es[..j]) +
              (if es[j].tag == FDT_BEGIN_NODE then 1 else if es[j].tag == FDT_END_NODE then -1 else 0)
  {
    assert es[..j + 1][..j] == es[..j];
  }

  /** Begin and end tags are balanced: the depth never goes below zero. */
  lemma {:induction false} DepthNonnegative(b: seq<Byte>, es: seq<Entry>, j: nat)
    requires Checked(b) && PrefixOk(b, es) && j <= |es|
    ensures Depth(es[..j]) >= 0
  {
    if j > 0 {
      DepthNonnegative(b, es, j - 1);
      DepthStep(es, j - 1);
      assert EntryOk(b, es[..j - 1], es[j - 1]);
    }
  }

  /** Once the root is open the depth stays positive up to the last tag. */
  lemma {:induction false} DepthPositive(b: seq<Byte>, es: seq<Entry>, j: nat)
    requires Tree(b, es) && 0 < j < |es|
    ensures Depth(es[..j]) > 0
  {
    if j == 1 {
      DepthStep(es, 0);
      assert es[..0] == [];
    } else {
      DepthPositive(b, es, j - 1);
      DepthStep(es, j - 1);
      assert EntryOk(b, es[..j], es[j]);
      assert es[..j][|es[..j]| - 1] == es[j - 1];
    }
  }

  /** There is one node at depth zero, and its name is empty. */
  lemma {:induction false} SingleRoot(b: seq<Byte>, es: seq<Entry>, i: int)
    requires Tree(b, es) && IsNode(es, i)
    ensures Depth(es[..i]) == 0 <==> i == 0
    ensures NodeName(StructBlock(b), 0) == []
  {
    var s := StructBlock(b);
    StreamTag(s, es, 0);
    assert EntryOk(b, es[..0], es[0]);
    if i > 0 { DepthPositive(b, es, i); }
  }

  // ---- next node ----

  /** Number of the first begin tag from j on, or |es|. */
  function NextBegin(es: seq<Entry>, j: nat): (k: nat)
    requires j <= |es|
    ensures j <= k <= |es| && (k < |es| ==> es[k].tag == FDT_BEGIN_NODE)
    ensures forall l | j <= l < k :: es[l].tag != FDT_BEGIN_NODE
    decreases |es| - j
  {
    if j == |es| || es[j].tag == FDT_BEGIN_NODE then j else NextBegin(es, j + 1)
  }

  /** fdt_check_node_offset_ */
  method CheckNodeOffset(b: seq<Byte>, offset: int) returns (r: int)
    requires Readable(b) && -WORD / 2 <= offset < WORD / 2
    ensures var step := NextTag(StructBlock(b), offset);
            r == if offset < 0 || offset % 4 != 0 || step.tag != FDT_BEGIN_NODE then -BADOFFSET else step.next
  {
    if offset < 0 || offset % 4 != 0 {
      return -BADOFFSET;
    }
    var step := FdtNextTag(b, offset);
    return if step.tag != FDT_BEGIN_NODE then -BADOFFSET else step.next;
  }

  function Change(tag: int): int {
    if tag == FDT_BEGIN_NODE then 1 else if tag == FDT_END_NODE then -1 else 0
  }

  /** What reading tag j tells a walk: its successor and the depth after it,
      which is zero after the last tag only. */
  ghost predicate TagFacts(s: seq<Byte>, es: seq<Entry>, j: nat)
    requires j <= |es|
  {
    && OffAt(es, j) <= INT_MAX && OffAt(es, j) % 4 == 0
    && if j == |es| then NextTag(s, OffAt(es, j)).tag == FDT_END
       else
         && NextTag(s, OffAt(es, j)) == Step(es[j].tag, OffAt(es, j + 1))
         && es[j].tag != FDT_END && es[j].off == OffAt(es, j) < OffAt(es, j + 1)
         && Depth(es[..j + 1]) == Depth(es[..j]) + Change(es[j].tag)
         && Depth(es[..j + 1]) >= 0 && (Depth(es[..j + 1]) > 0 <==> j + 1 < |es|)
         && (es[j].tag != FDT_END_NODE ==> j + 1 < |es|)
  }

  /** All that the walkers use of a valid tree. */
  ghost predicate Walkable(b: seq<Byte>, es: seq<Entry>) {
    && Readable(b) && |es| > 0 && es[0].tag == FDT_BEGIN_NODE
    && forall j: nat {:trigger TagFacts(StructBlock(b), es, j)} | j <= |es| :: TagFacts(StructBlock(b), es, j)
  }

  lemma {:induction false} TreeIsWalkable(b: seq<Byte>, es: seq<Entry>)
    requires Tree(b, es)
    ensures Walkable(b, es)
  {
    forall j: nat | j <= |es|
      ensures TagFacts(StructBlock(b), es, j)
    {
      StreamTag(StructBlock(b), es, j);
      if j < |es| {
        DepthStep(es, j);
        if j + 1 < |es| { DepthPositive(b, es, j + 1); } else { assert es[..|es|] == es; }
        if j > 0 { DepthPositive(b, es, j); } else { assert es[..0] == []; }
      }
    }
  }

  /** Number of the first end tag from j on that leaves the depth at `floor` or
      below, or |es|. */
  ghost function Closing(es: seq<Entry>, j: nat, floor: int): (l: nat)
    requires j <= |es|
    ensures j <= l <= |es| && (l < |es| ==> es[l].tag == FDT_END_NODE && Depth(es[..l + 1]) <= floor)
    ensures forall m | j <= m < l :: !(es[m].tag == FDT_END_NODE && Depth(es[..m + 1]) <= floor)
    decreases |es| - j
  {
    if j == |es| || (es[j].tag == FDT_END_NODE && Depth(es[..j + 1]) <= floor) then j else Closing(es, j + 1, floor)
  }

  /** fdt_next_node from node i (or from the start, i = -1). The counter is the
      depth above `floor`; with it the walk also stops when the counter drops
      below zero. */
  method NextNodeAbove(b: seq<Byte>, offset: int, counting: bool, depth: int, ghost es: seq<Entry>, ghost i: int,
                       ghost floor: int)
      returns (r: int, depth': int)
    requires Walkable(b, es) && -1 <= i <= |es| && (i == -1 ==> offset == -1)
    requires i >= 0 ==> offset == OffAt(es, i) && (i < |es| ==> IsNode(es, i))
    requires counting && i < |es| ==> 0 <= floor && depth == if i < 0 then -1 else Depth(es[..i]) - floor
    requires counting && 0 <= i < |es| ==> depth >= 0
    requires counting && i < 0 ==> floor == 0
    ensures i == |es| ==> r == -BADOFFSET
    ensures i < |es| ==>
            var k, l := NextBegin(es, i + 1), Closing(es, i + 1, floor);
            if k < |es| && (counting ==> k < l) then (r == es[k].off && (counting ==> depth' == Depth(es[..k]) - floor))
            else if counting then (l < |es| && r == OffAt(es, l + 1) && depth' == -1)
            else r == -NOTFOUND
  {
    ghost var j := i + 1;
    var next := 0;
    if offset >= 0 {
      assert TagFacts(StructBlock(b), es, i);
      next := CheckNodeOffset(b, offset);
      if next < 0 {
        return next, depth;
      }
    }
    ScanStart(b, es, i, counting, depth, floor);
    depth' := depth;
    while true
      invariant Scan(es, i, j, counting, depth', floor) && next == OffAt(es, j)
      decreases |es| - j
    {
      var at := next;
      assert TagFacts(StructBlock(b), es, j);
      var step := FdtNextTag(b, at);
      ScanStep(b, es, i, j, counting, depth', floor);
      next := step.next;
      if step.tag == FDT_END {
        return -NOTFOUND, depth';
      } else if step.tag == FDT_BEGIN_NODE {
        return at, depth' + 1;
      } else if step.tag == FDT_END_NODE && counting {
        depth' := depth' - 1;
        if depth' < 0 {
          return next, depth';
        }
      }
      j := j + 1;
    }
  }

  /** The walk from node i has come to tag j. */
  ghost predicate Scan(es: seq<Entry>, i: int, j: int, counting: bool, depth: int, floor: int) {
    && -1 <= i < j <= |es| && NextBegin(es, j) == NextBegin(es, i + 1)
    && (counting ==>
        && Closing(es, j, floor) == Closing(es, i + 1, floor)
        && depth == Depth(es[..j]) - 1 - floor && j < |es| && (j > 0 ==> depth >= 0))
  }

  lemma {:induction false} ScanStart(b: seq<Byte>, es: seq<Entry>, i: int, counting: bool, depth: int, floor: int)
    requires Walkable(b, es) && -1 <= i < |es| && (i >= 0 ==> IsNode(es, i))
    requires counting ==> depth == if i < 0 then -1 else Depth(es[..i]) - floor
    requires counting ==> if i < 0 then floor == 0 else depth >= 0
    ensures Scan(es, i, i + 1, counting, depth, floor)
  {
    assert es[..0] == [];
    if i >= 0 { assert TagFacts(StructBlock(b), es, i); }
  }

  lemma {:induction false} ScanStep(
    b: seq<Byte>, es: seq<Entry>, i: int, j: nat, counting: bool, depth: int, floor: int)
    requires Walkable(b, es) && Scan(es, i, j, counting, depth, floor) && (counting ==> floor >= 0)
    ensures j == |es| ==> !counting && NextBegin(es, i + 1) == |es|
    ensures j < |es| && es[j].tag == FDT_BEGIN_NODE ==>
              && NextBegin(es, i + 1) == j
              && (counting ==> j < Closing(es, i + 1, floor) && depth + 1 == Depth(es[..j]) - floor)
    ensures j < |es| && es[j].tag != FDT_BEGIN_NODE ==>
              var d := if es[j].tag == FDT_END_NODE && counting then depth - 1 else depth;
              if counting && d < 0 && es[j].tag == FDT_END_NODE
              then Closing(es, i + 1, floor) == j && d == -1 && j < NextBegin(es, i + 1)
              else Scan(es, i, j + 1, counting, d, floor)
  {
    assert TagFacts(StructBlock(b), es, j);
  }

  lemma {:induction false} ClosingLast(b: seq<Byte>, es: seq<Entry>, j: nat)
    requires Walkable(b, es) && j < |es|
    ensures Closing(es, j, 0) == |es| - 1 && es[|es| - 1].tag == FDT_END_NODE
    decreases |es| - j
  {
    assert TagFacts(StructBlock(b), es, j);
    if j + 1 < |es| { ClosingLast(b, es, j + 1); }
  }

  lemma {:induction false} ClosingFrom(b: seq<Byte>, es: seq<Entry>, i: int)
    requires Walkable(b, es) && -1 <= i < |es| && (i >= 0 ==> IsNode(es, i))
    ensures i + 1 < |es| && Closing(es, i + 1, 0) == |es| - 1 && es[|es| - 1].tag == FDT_END_NODE
  {
    if i >= 0 { assert TagFacts(StructBlock(b), es, i); }
    ClosingLast(b, es, i + 1);
  }

  /** The next node in the whole tree. */
  method NextNode(b: seq<Byte>, offset: int, counting: bool, depth: int, ghost es: seq<Entry>, ghost i: int)
      returns (r: int, depth': int)
    requires Walkable(b, es) && -1 <= i <= |es| && (i == -1 ==> offset == -1)
    requires i >= 0 ==> offset == OffAt(es, i) && (i < |es| ==> IsNode(es, i))
    requires counting && i < |es| ==> depth == if i < 0 then -1 else Depth(es[..i])
    ensures i == |es| ==> r == -BADOFFSET
    ensures i < |es| ==>
            var k := NextBegin(es, i + 1);
            if k < |es| then (r == es[k].off && (counting ==> depth' == Depth(es[..k])))
            else if counting then (r == OffAt(es, |es|) && depth' == -1)
            else r == -NOTFOUND
  {
    if 0 <= i < |es| { RootAncestor(b, es, i); }
    if i < |es| { ClosingFrom(b, es, i); }
    r, depth' := NextNodeAbove(b, offset, counting, depth, es, i, 0);
  }

  /** Repeating fdt_next_node from the start lists every node once, in order,
      with its nesting depth. */
  method ListNodes(b: seq<Byte>, ghost es: seq<Entry>) returns (offsets: seq<int>, depths: seq<int>)
    requires Walkable(b, es)
    ensures (offsets, depths) == NodesFrom(es, 0)
    ensures forall k, k' | 0 <= k' < k < |offsets| :: offsets[k'] < offsets[k]
    ensures forall i: nat | IsNode(es, i) :: exists k: nat :: Listed(es, (offsets, depths), k, i)
    ensures forall k: nat | k < |offsets| :: offsets[k] >= 0 && exists i: nat :: Listed(es, (offsets, depths), k, i)
  {
    offsets, depths := [], [];
    ghost var i := NextBegin(es, 0);
    var offset, depth := NextNode(b, -1, true, -1, es, -1);
    NodesNext(b, es, 0);
    assert [] + NodesFrom(es, i).0 == NodesFrom(es, i).0 && [] + NodesFrom(es, i).1 == NodesFrom(es, i).1;
    while depth >= 0
      invariant 0 <= i <= |es| && NodeCursor(es, i, offset, depth)
      invariant (offsets + NodesFrom(es, i).0, depths + NodesFrom(es, i).1) == NodesFrom(es, 0)
      decreases |es| - i
    {
      ghost var rest := NodesFrom(es, i + 1);
      assert (offsets + [offset]) + rest.0 == offsets + NodesFrom(es, i).0;
      assert (depths + [depth]) + rest.1 == depths + NodesFrom(es, i).1;
      offsets, depths := offsets + [offset], depths + [depth];
      NodesNext(b, es, i + 1);
      offset, depth := NextNode(b, offset, true, depth, es, i);
      i := NextBegin(es, i + 1);
    }
    assert offsets + [] == offsets && depths + [] == depths;
    NodesExact(b, es);
  }

  /** What fdt_next_node's result says while tag i is the cursor. */
  ghost predicate NodeCursor(es: seq<Entry>, i: nat, offset: int, depth: int)
    requires i <= |es|
  {
    if i == |es| then depth == -1
    else IsNode(es, i) && offset == es[i].off == OffAt(es, i) && depth == Depth(es[..i]) >= 0
  }

  lemma {:induction false} NodesNext(b: seq<Byte>, es: seq<Entry>, j: nat)
    requires Walkable(b, es) && j <= |es|
    ensures var k := NextBegin(es, j);
            NodesFrom(es, j) == NodesFrom(es, k) && (k < |es| ==> es[k].off == OffAt(es, k) && Depth(es[..k]) >= 0)
  {
    NodesSkip(es, j);
    var k := NextBegin(es, j);
    assert TagFacts(StructBlock(b), es, k);
    if k > 0 { assert TagFacts(StructBlock(b), es, k - 1); } else { assert es[..0] == []; }
  }

  /** Offsets and depths of the begin tags from j on. */
  function NodesFrom(es: seq<Entry>, j: nat): (r: (seq<int>, seq<int>))
    requires j <= |es|
    decreases |es| - j
  {
    if j == |es| then ([], [])
    else
      var rest := NodesFrom(es, j + 1);
      if es[j].tag == FDT_BEGIN_NODE then ([es[j].off] + rest.0, [Depth(es[..j])] + rest.1) else rest
  }

  /** Is node i listed, with its offset and its depth, at place k? */
  ghost predicate Listed(es: seq<Entry>, l: (seq<int>, seq<int>), k: nat, i: nat) {
    && k < |l.0| == |l.1| && IsNode(es, i)
    && l.0[k] == es[i].off && l.1[k] == Depth(es[..i])
  }

  /** A node listed from the next tag on is listed from this one on. */
  lemma {:induction false} ListedEarlier(es: seq<Entry>, j: nat, k: nat, i: nat)
    requires j < |es| && Listed(es, NodesFrom(es, j + 1), k, i)
    ensures Listed(es, NodesFrom(es, j), if IsNode(es, j) then k + 1 else k, i)
  {}

  lemma {:induction false} EveryNodeListed(es: seq<Entry>, j: nat, i: nat) returns (k: nat)
    requires j <= i && IsNode(es, i)
    ensures Listed(es, NodesFrom(es, j), k, i)
    decreases |es| - j
  {
    if j == i {
      k := 0;
      assert |NodesFrom(es, j + 1).0| == |NodesFrom(es, j + 1).1| by { NodesEven(es, j + 1); }
    } else {
      var k' := EveryNodeListed(es, j + 1, i);
      ListedEarlier(es, j, k', i);
      k := if IsNode(es, j) then k' + 1 else k';
    }
  }

  lemma {:induction false} NodesEven(es: seq<Entry>, j: nat)
    requires j <= |es|
    ensures |NodesFrom(es, j).0| == |NodesFrom(es, j).1|
    decreases |es| - j
  {
    if j < |es| { NodesEven(es, j + 1); }
  }

  /** The place k lists a node, and nodes before it have smaller offsets. */
  lemma {:induction false} OnlyNodesListed(b: seq<Byte>, es: seq<Entry>, j: nat, k: nat) returns (i: nat)
    requires Walkable(b, es) && j <= |es| && k < |NodesFrom(es, j).0|
    ensures Listed(es, NodesFrom(es, j), k, i) && j <= i && OffAt(es, j) <= es[i].off
    ensures forall k' | 0 <= k' < k :: NodesFrom(es, j).0[k'] < es[i].off
    decreases |es| - j
  {
    NodesEven(es, j);
    assert TagFacts(StructBlock(b), es, j);
    if IsNode(es, j) {
      if k == 0 {
        i := j;
      } else {
        i := OnlyNodesListed(b, es, j + 1, k - 1);
        forall k' | 0 <= k' < k
          ensures NodesFrom(es, j).0[k'] < es[i].off
        {
          if k' > 0 { assert NodesFrom(es, j).0[k'] == NodesFrom(es, j + 1).0[k' - 1]; }
        }
      }
    } else {
      i := OnlyNodesListed(b, es, j + 1, k);
    }
  }

  /** The list holds every node and nothing else, by increasing offset. */
  lemma {:induction false} NodesExact(b: seq<Byte>, es: seq<Entry>)
    requires Walkable(b, es)
    ensures var l := NodesFrom(es, 0);
            && (forall k, k' | 0 <= k' < k < |l.0| :: l.0[k'] < l.0[k])
            && (forall k: nat | k < |l.0| :: l.0[k] >= 0 && exists i: nat :: Listed(es, l, k, i))
            && (forall i: nat | IsNode(es, i) :: exists k: nat :: Listed(es, l, k, i))
  {
    var l := NodesFrom(es, 0);
    forall k: nat | k < |l.0|
      ensures l.0[k] >= 0 && (exists i: nat :: Listed(es, l, k, i)) && forall k' | 0 <= k' < k :: l.0[k'] < l.0[k]
    {
      var i := OnlyNodesListed(b, es, 0, k);
    }
    forall i: nat | IsNode(es, i)
      ensures exists k: nat :: Listed(es, l, k, i)
    {
      var k := EveryNodeListed(es, 0, i);
    }
  }

  lemma {:induction false} NodesSkip(es: seq<Entry>, j: nat)
    requires j <= |es|
    ensures NodesFrom(es, j) == NodesFrom(es, NextBegin(es, j))
    decreases |es| - j
  {
    if j < |es| && es[j].tag != FDT_BEGIN_NODE { NodesSkip(es, j + 1); }
  }

  // ---- ancestors ----

  /** Node p is open at tag t: the depth stays above p's in between. */
  ghost predicate Encloses(es: seq<Entry>, p: int, t: int) {
    IsNode(es, p) && p < t <= |es| && forall l | p < l <= t :: Depth(es[..l]) > Depth(es[..p])
  }

  /** The open node of depth d at tag t. */
  ghost function Ancestor(es: seq<Entry>, t: nat, d: int): (p: nat)
    requires t <= |es| && 0 <= d < Depth(es[..t])
    ensures Encloses(es, p, t) && Depth(es[..p]) == d
  {
    DepthStep(es, t - 1);
    if es[t - 1].tag == FDT_BEGIN_NODE && Depth(es[..t - 1]) == d then t - 1
    else Ancestor(es, t - 1, d)
  }

  /** The ancestor one level up is the innermost enclosing node. */
  lemma {:induction false} InnermostEnclosing(es: seq<Entry>, t: nat, q: int)
    requires t <= |es| && 0 < Depth(es[..t]) && Encloses(es, q, t)
    ensures q <= Ancestor(es, t, Depth(es[..t]) - 1)
  {}

  /** Last node at depth d up to tag t, or -1. */
  ghost function LastAtDepth(es: seq<Entry>, t: int, d: int): (k: int)
    requires -1 <= t < |es|
    ensures -1 <= k <= t && (k >= 0 ==> IsNode(es, k) && Depth(es[..k]) == d)
    ensures forall l | k < l <= t :: !(IsNode(es, l) && Depth(es[..l]) == d)
    decreases t + 1
  {
    if t < 0 then -1
    else if es[t].tag == FDT_BEGIN_NODE && Depth(es[..t]) == d then t
    else LastAtDepth(es, t - 1, d)
  }

  lemma {:induction false} LastIsAncestor(es: seq<Entry>, t: nat, d: int)
    requires IsNode(es, t) && 0 <= d <= Depth(es[..t])
    ensures LastAtDepth(es, t, d) == if d == Depth(es[..t]) then t else Ancestor(es, t, d)
  {
    if d < Depth(es[..t]) {
      var p := Ancestor(es, t, d);
    }
  }

  lemma {:induction false} LastAcross(es: seq<Entry>, i: nat, k: nat, d: int)
    requires i <= k < |es| && forall l | i < l <= k :: es[l].tag != FDT_BEGIN_NODE
    ensures LastAtDepth(es, k, d) == LastAtDepth(es, i, d)
  {
    if i < k { LastAcross(es, i, k - 1, d); }
  }

  lemma {:induction false} OffsetOrder(b: seq<Byte>, es: seq<Entry>, i: nat, j: nat)
    requires Walkable(b, es) && i < j <= |es|
    ensures OffAt(es, i) < OffAt(es, j)
  {
    assert TagFacts(StructBlock(b), es, j - 1);
    if i < j - 1 { OffsetOrder(b, es, i, j - 1); }
  }

  /** t is the node at this offset; -1 says there is none. */
  ghost predicate NodeAt(es: seq<Entry>, off: int, t: int) {
    if t < 0 then forall k | 0 <= k < |es| && es[k].tag == FDT_BEGIN_NODE :: es[k].off != off
    else IsNode(es, t) && es[t].off == off
  }

  /** Cursor of the ancestor search: at node i, past the last node, or failed. */
  ghost predicate SearchCursor(es: seq<Entry>, i: nat, offset: int, depth: int, t: int)
    requires i <= |es|
  {
    if offset < 0 then offset == -BADOFFSET && t < 0
    else
      && (t >= 0 ==> i <= t) && offset == OffAt(es, i)
      && if i < |es| then IsNode(es, i) && es[i].off == offset && depth == Depth(es[..i]) else depth == -1
  }

  /** `super` is the offset of the last node at the wanted depth so far. */
  ghost predicate SuperSoFar(es: seq<Entry>, i: int, superdepth: int, super: int) {
    -1 <= i < |es| &&
    var k := LastAtDepth(es, i, superdepth); super == if k == -1 then -INTERNAL else es[k].off
  }

  lemma {:induction false} SearchStep(
    b: seq<Byte>, es: seq<Entry>, i: nat, target: int, t: int, superdepth: int, super: int)
    requires Walkable(b, es) && NodeAt(es, target, t) && IsNode(es, i) && es[i].off < target && (t >= 0 ==> i <= t)
    requires SuperSoFar(es, i, superdepth, super)
    ensures var k := NextBegin(es, i + 1);
            (t >= 0 ==> k <= t) && (k < |es| ==> es[k].off == OffAt(es, k)) && SuperSoFar(es, k - 1, superdepth, super)
  {
    var k := NextBegin(es, i + 1);
    assert TagFacts(StructBlock(b), es, k);
    LastAcross(es, i, k - 1, superdepth);
  }

  /** The ancestor of the node at `nodeoffset` at a depth, and the node's own
      depth; an error for offsets that are no node. */
  method SupernodeAtDepth(b: seq<Byte>, nodeoffset: int, superdepth: int, ghost es: seq<Entry>, ghost t: int)
      returns (r: int, nodedepth: int)
    requires Walkable(b, es) && NodeAt(es, nodeoffset, t)
    ensures RoProbe(b) < 0 ==> r == RoProbe(b)
    ensures t < 0 ==> r < 0
    ensures RoProbe(b) >= 0 && t >= 0 && 0 <= superdepth ==> nodedepth == Depth(es[..t])
    ensures RoProbe(b) >= 0 && t >= 0 ==> r == SuperOffset(es, t, superdepth)
  {
    nodedepth := 0;
    if RoProbe(b) < 0 {
      return RoProbe(b), nodedepth;
    }
    if superdepth < 0 {
      return -NOTFOUND, nodedepth;
    }
    r, nodedepth := SearchNode(b, nodeoffset, superdepth, es, t);
  }

  /** The loop of fdt_supernode_atdepth_offset. */
  method SearchNode(b: seq<Byte>, nodeoffset: int, superdepth: nat, ghost es: seq<Entry>, ghost t: int)
      returns (r: int, nodedepth: int)
    requires Walkable(b, es) && NodeAt(es, nodeoffset, t)
    ensures t < 0 ==> r < 0
    ensures t >= 0 ==> nodedepth == Depth(es[..t]) && r == SuperOffset(es, t, superdepth)
  {
    nodedepth := 0;
    var offset, depth, super := 0, 0, -INTERNAL;
    ghost var i := 0;
    assert es[..0] == [] && TagFacts(StructBlock(b), es, 0);
    while offset >= 0 && offset <= nodeoffset
      invariant 0 <= i <= |es| && SearchCursor(es, i, offset, depth, t)
      invariant offset >= 0 && i < |es| ==> SuperSoFar(es, i - 1, superdepth, super)
      decreases offset >= 0, |es| + 1 - i
    {
      if depth == superdepth {
        super := offset;
      }
      assert i < |es| ==> SuperSoFar(es, i, superdepth, super);
      if offset == nodeoffset {
        FoundNode(b, es, i, nodeoffset, t, superdepth, super);
        return if superdepth > depth then -NOTFOUND else super, depth;
      }
      offset, depth, i := SearchOn(b, offset, depth, es, i, nodeoffset, t, superdepth, super);
    }
    assert t < 0 by {
      if t >= 0 { NotPassed(b, es, i, t); }
    }
    return if offset >= 0 then -BADOFFSET else -BADSTRUCTURE, nodedepth;
  }

  /** The step of the loop: the next node, with the facts the search keeps. */
  method SearchOn(b: seq<Byte>, offset: int, depth: int, ghost es: seq<Entry>, ghost i: nat,
                  ghost target: int, ghost t: int, ghost superdepth: int, ghost super: int)
      returns (r: int, depth': int, ghost i': nat)
    requires Walkable(b, es) && NodeAt(es, target, t) && i <= |es| && 0 <= offset < target
    requires SearchCursor(es, i, offset, depth, t) && (i < |es| ==> SuperSoFar(es, i, superdepth, super))
    ensures i' <= |es| && SearchCursor(es, i', r, depth', t) && (r >= 0 ==> i < i')
    ensures r >= 0 && i' < |es| ==> SuperSoFar(es, i' - 1, superdepth, super)
  {
    i' := i;
    if i < |es| {
      SearchStep(b, es, i, target, t, superdepth, super);
      i' := NextBegin(es, i + 1);
    }
    r, depth' := NextNode(b, offset, true, depth, es, i);
  }

  ghost function SuperOffset(es: seq<Entry>, t: int, superdepth: int): int
    requires IsNode(es, t)
  {
    if superdepth < 0 || superdepth > Depth(es[..t]) then -NOTFOUND
    else if superdepth == Depth(es[..t]) then es[t].off
    else es[Ancestor(es, t, superdepth)].off
  }

  lemma {:induction false} NotPassed(b: seq<Byte>, es: seq<Entry>, i: nat, t: nat)
    requires Walkable(b, es) && i <= t < |es|
    ensures OffAt(es, i) <= es[t].off
  {
    assert TagFacts(StructBlock(b), es, t);
    if i < t { OffsetOrder(b, es, i, t); }
  }

  lemma {:induction false} FoundNode(
    b: seq<Byte>, es: seq<Entry>, i: nat, off: int, t: int, superdepth: int, super: int)
    requires Walkable(b, es) && NodeAt(es, off, t) && i <= |es| && OffAt(es, i) == off && superdepth >= 0
    requires i < |es| ==> IsNode(es, i) && es[i].off == off && SuperSoFar(es, i, superdepth, super)
    ensures i < |es| ==> i == t && (superdepth <= Depth(es[..t]) ==> super == SuperOffset(es, t, superdepth))
    ensures i == |es| ==> t < 0
  {
    if i < |es| && superdepth <= Depth(es[..i]) { LastIsAncestor(es, i, superdepth); }
    if t >= 0 {
      assert TagFacts(StructBlock(b), es, t);
      if i < t { OffsetOrder(b, es, i, t); }
      if t < i { OffsetOrder(b, es, t, i); }
    }
  }

  method NodeDepth(b: seq<Byte>, nodeoffset: int, ghost es: seq<Entry>, ghost t: int) returns (r: int)
    requires Walkable(b, es) && NodeAt(es, nodeoffset, t)
    ensures RoProbe(b) >= 0 && t >= 0 ==> r == Depth(es[..t])
    ensures RoProbe(b) < 0 || t < 0 ==> r < 0
  {
    var err, depth := SupernodeAtDepth(b, nodeoffset, 0, es, t);
    RootAncestor(b, es, t);
    if err != 0 {
      return if err < 0 then err else -INTERNAL;
    }
    return depth;
  }

  lemma {:induction false} RootAncestor(b: seq<Byte>, es: seq<Entry>, t: int)
    requires Walkable(b, es) && t < |es| && (t >= 0 ==> IsNode(es, t))
    ensures t >= 0 ==> Depth(es[..t]) >= 0 && (Depth(es[..t]) == 0 ==> t == 0 && es[t].off == 0)
    ensures t > 0 ==> Depth(es[..t]) > 0 && Ancestor(es, t, 0) == 0 && es[0].off == 0
  {
    assert TagFacts(StructBlock(b), es, 0) && es[..0] == [];
    if t > 0 {
      assert TagFacts(StructBlock(b), es, t - 1);
      var p := Ancestor(es, t, 0);
      assert p > 0 ==> TagFacts(StructBlock(b), es, p - 1);
    }
  }

  /** The parent of a node is its innermost enclosing node; the root has none. */
  method ParentOffset(b: seq<Byte>, nodeoffset: int, ghost es: seq<Entry>, ghost t: int) returns (r: int)
    requires Walkable(b, es) && NodeAt(es, nodeoffset, t)
    ensures RoProbe(b) >= 0 && t > 0 ==>
              Depth(es[..t]) > 0 && r == es[Ancestor(es, t, Depth(es[..t]) - 1)].off
    ensures RoProbe(b) >= 0 && t == 0 ==> r == -NOTFOUND
    ensures RoProbe(b) < 0 || t < 0 ==> r < 0
  {
    var depth := NodeDepth(b, nodeoffset, es, t);
    RootAncestor(b, es, t);
    if t == 0 { assert es[..0] == []; }
    if depth < 0 {
      return depth;
    }
    var ignored;
    r, ignored := SupernodeAtDepth(b, nodeoffset, depth - 1, es, t);
  }

  // ---- children ----

  ghost predicate IsChild(es: seq<Entry>, p: int, k: int) {
    IsNode(es, k) && Encloses(es, p, k) && Depth(es[..k]) == Depth(es[..p]) + 1
  }

  /** Up to the next node or the closing tag, the depth stays above the floor
      and does not rise. */
  lemma {:induction false} QuietStretch(b: seq<Byte>, es: seq<Entry>, i: nat, j: nat, floor: int)
    requires Walkable(b, es) && IsNode(es, i) && floor <= Depth(es[..i])
    requires i < j <= NextBegin(es, i + 1) && j <= Closing(es, i + 1, floor)
    ensures floor < Depth(es[..j]) <= Depth(es[..i]) + 1
    decreases j
  {
    assert TagFacts(StructBlock(b), es, j - 1);
    if j > i + 1 { QuietStretch(b, es, i, j - 1, floor); }
  }

  /** A node reached without closing p is inside p. */
  lemma {:induction false} StaysInside(b: seq<Byte>, es: seq<Entry>, p: int, i: nat)
    requires Walkable(b, es) && IsNode(es, p) && IsNode(es, i) && (i == p || Encloses(es, p, i))
    requires var k := NextBegin(es, i + 1); k < |es| && k < Closing(es, i + 1, Depth(es[..p]))
    ensures Encloses(es, p, NextBegin(es, i + 1))
  {
    var k := NextBegin(es, i + 1);
    forall l | p < l <= k
      ensures Depth(es[..l]) > Depth(es[..p])
    {
      if l > i { QuietStretch(b, es, i, l, Depth(es[..p])); }
    }
  }

  lemma {:induction false} BeginBefore(es: seq<Entry>, j: nat, c: int)
    requires j <= c && IsNode(es, c)
    ensures NextBegin(es, j) <= c
  {}

  /** A node stays open as long as it encloses something. */
  lemma {:induction false} OpenUntil(es: seq<Entry>, p: int, j: nat, c: int)
    requires Encloses(es, p, c) && IsNode(es, c) && p < j <= c
    ensures c < Closing(es, j, Depth(es[..p]))
    decreases c - j
  {
    if j < c { OpenUntil(es, p, j + 1, c); }
  }

  /** Once p is closed it has no more children. */
  lemma {:induction false} NoMoreChildren(es: seq<Entry>, p: int, i: nat, c: int)
    requires IsNode(es, i) && p <= i && IsChild(es, p, c) && c > i
    ensures var k := NextBegin(es, i + 1); k <= c && k < Closing(es, i + 1, Depth(es[..p]))
  {
    BeginBefore(es, i + 1, c);
    OpenUntil(es, p, i + 1, c);
  }

  /** fdt_first_subnode: the first child of node p. */
  method FirstSubnode(b: seq<Byte>, offset: int, ghost es: seq<Entry>, ghost p: nat) returns (r: int, ghost c: int)
    requires Walkable(b, es) && IsNode(es, p) && offset == OffAt(es, p)
    ensures r == -NOTFOUND ==> forall k :: !IsChild(es, p, k)
    ensures r != -NOTFOUND ==> IsChild(es, p, c) && r == es[c].off && forall k | IsChild(es, p, k) :: c <= k
  {
    c := NextBegin(es, p + 1);
    RootAncestor(b, es, p);
    var depth;
    r, depth := NextNodeAbove(b, offset, true, 0, es, p, Depth(es[..p]));
    forall k | IsChild(es, p, k)
      ensures c <= k && c < Closing(es, p + 1, Depth(es[..p]))
    {
      NoMoreChildren(es, p, p, k);
    }
    if r < 0 || depth != 1 {
      if c < |es| && c < Closing(es, p + 1, Depth(es[..p])) { QuietStretch(b, es, p, c, Depth(es[..p])); }
      return -NOTFOUND, c;
    }
    StaysInside(b, es, p, p);
  }

  /** fdt_next_subnode: the child of p after child i. */
  method NextSubnode(b: seq<Byte>, offset: int, ghost es: seq<Entry>, ghost p: nat, ghost i: nat)
      returns (r: int, ghost c: int)
    requires Walkable(b, es) && IsChild(es, p, i) && offset == OffAt(es, i)
    ensures r == -NOTFOUND ==> forall k | k > i :: !IsChild(es, p, k)
    ensures r != -NOTFOUND ==> c > i && IsChild(es, p, c) && r == es[c].off
    ensures r != -NOTFOUND ==> forall k | i < k < c :: !IsChild(es, p, k)
  {
    ghost var floor := Depth(es[..p]);
    RootAncestor(b, es, p);
    var depth := 1;
    c := i;
    r := offset;
    while true
      invariant Inside(es, p, c) && r == OffAt(es, c) && depth == Depth(es[..c]) - floor
      invariant i <= c && NoneBetween(es, p, i, c + 1)
      decreases |es| - c
    {
      AfterNode(b, es, p, c);
      r, depth := NextNodeAbove(b, r, true, depth, es, c, floor);
      NoneUntilNext(es, p, i, c);
      if r < 0 || depth < 1 {
        return -NOTFOUND, c;
      }
      c := NextBegin(es, c + 1);
      if depth <= 1 {
        return;
      }
    }
  }

  ghost predicate Inside(es: seq<Entry>, p: int, c: int) { IsNode(es, c) && Encloses(es, p, c) }

  /** No child of p from after i to before k. */
  ghost predicate NoneBetween(es: seq<Entry>, p: int, i: int, k: int) {
    forall m | i < m < k :: !IsChild(es, p, m)
  }

  /** Up to the next node there is no further child. */
  lemma {:induction false} NoneUntilNext(es: seq<Entry>, p: int, i: nat, c: nat)
    requires i <= c < |es| && NoneBetween(es, p, i, c + 1)
    ensures NoneBetween(es, p, i, NextBegin(es, c + 1))
    ensures var k := NextBegin(es, c + 1); !IsChild(es, p, k) ==> NoneBetween(es, p, i, k + 1)
  {}

  /** The step from a node inside p: to a node inside p, or p has no more
      children. */
  lemma {:induction false} AfterNode(b: seq<Byte>, es: seq<Entry>, p: int, c: nat)
    requires Walkable(b, es) && Inside(es, p, c)
    ensures var k, l := NextBegin(es, c + 1), Closing(es, c + 1, Depth(es[..p]));
            if k < |es| && k < l then Inside(es, p, k) && es[k].off == OffAt(es, k) && Depth(es[..k]) > Depth(es[..p])
            else forall m | m > c :: !IsChild(es, p, m)
  {
    var k, l := NextBegin(es, c + 1), Closing(es, c + 1, Depth(es[..p]));
    if k < |es| && k < l {
      StaysInside(b, es, p, c);
      assert TagFacts(StructBlock(b), es, k);
    } else {
      forall m | m > c
        ensures !IsChild(es, p, m)
      {
        if IsChild(es, p, m) { NoMoreChildren(es, p, c, m); }
      }
    }
  }
}
