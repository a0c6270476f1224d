/** regular_multiply: schoolbook multiplication that may skip low columns
    (outer partial) or stop at a column (inner partial). */
module Multiply {
  import opened Radix
  import opened BigInts

  /** First component of `a` used in row i. */
  function RowStart(n: nat, i: nat, outer: nat): (st: nat)
    ensures n > 0 ==> st < n
  {
    if 0 < outer && i < outer < n then outer - i - 1 else 0
  }

  /** Contribution of row i: component i of b times the used part of a. */
  function Row(a: seq<Comp>, b: seq<Comp>, outer: nat, i: nat): int
    requires i < |b| && |a| > 0
  {
    var st := RowStart(|a|, i, outer);
    b[i] as int * (Pow(i + st) * Val(a[st..]))
  }

  /** What the first i rows add up to. */
  function Rows(a: seq<Comp>, b: seq<Comp>, outer: nat, i: nat): int
    requires i <= |b| && |a| > 0
  {
    if i == 0 then 0 else Rows(a, b, outer, i - 1) + Row(a, b, outer, i - 1)
  }

  // ---- what the rows mean ----

  /** Row i of the columns lo and up: the terms a[j] * b[i] * B^(i+j) with
      i + j >= lo, for j below the bound. */
  function ColumnsOfRow(a: seq<Comp>, bi: Comp, i: nat, lo: nat, j: nat): int
    requires j <= |a|
  {
    if j == 0 then 0
    else ColumnsOfRow(a, bi, i, lo, j - 1) +
         (if i + (j - 1) >= lo then bi as int * (Pow(i + (j - 1)) * a[j - 1] as int) else 0)
  }

  function Columns(a: seq<Comp>, b: seq<Comp>, lo: nat, i: nat): int
    requires i <= |b|
  {
    if i == 0 then 0 else Columns(a, b, lo, i - 1) + ColumnsOfRow(a, b[i - 1], i - 1, lo, |a|)
  }

  lemma {:induction false} ColumnsOfRowVal(a: seq<Comp>, bi: Comp, i: nat, lo: nat, st: nat, j: nat)
    requires st <= j <= |a| && st == (if lo > i then lo - i else 0)
    ensures ColumnsOfRow(a, bi, i, lo, j) == bi as int * (Pow(i + st) * Val(a[st..j]))
  {
    if j == st {
      ColumnsSkipped(a, bi, i, lo, st, j);
      assert a[st..j] == [];
    } else {
      ColumnsOfRowVal(a, bi, i, lo, st, j - 1);
      SliceVal(a, st, j - 1, i);
      Expand(bi, Pow(i + st) * Val(a[st..j]), Pow(i + st) * Val(a[st..j - 1]), Pow(i + (j - 1)) * a[j - 1] as int);
    }
  }

  lemma {:induction false} ColumnsSkipped(a: seq<Comp>, bi: Comp, i: nat, lo: nat, st: nat, j: nat)
    requires j <= st && j <= |a| && st == (if lo > i then lo - i else 0)
    ensures ColumnsOfRow(a, bi, i, lo, j) == 0
  {
    if j > 0 { ColumnsSkipped(a, bi, i, lo, st, j - 1); }
  }

  /** Next component of a shifted slice. */
  lemma {:induction false} SliceVal(a: seq<Comp>, st: nat, j: nat, i: nat)
    requires st <= j < |a|
    ensures Pow(i + st) * Val(a[st..j + 1]) == Pow(i + st) * Val(a[st..j]) + Pow(i + j) * a[j]
  {
    assert a[st..j + 1] == a[st..j] + [a[j]];
    ValSnoc(a[st..j], a[j]);
    PowAdd(i + st, j - st);
    Distribute(Pow(i + st), Val(a[st..j]), Pow(j - st), a[j]);
  }

  lemma {:induction false} Expand(p: int, z: int, x: int, y: int)
    requires z == x + y
    ensures p * z == p * x + p * y
  {}

  lemma {:induction false} Distribute(p: int, x: int, q: int, y: int)
    ensures p * (x + q * y) == p * x + (p * q) * y
  {}

  /** The outer partial product is the sum of exactly the columns from
      outer - 1 on. */
  lemma {:induction false} RowsAreColumns(a: seq<Comp>, b: seq<Comp>, outer: nat, i: nat)
    requires i <= |b| && 0 < outer < |a|
    ensures Rows(a, b, outer, i) == Columns(a, b, outer - 1, i)
  {
    if i > 0 {
      RowsAreColumns(a, b, outer, i - 1);
      var st := RowStart(|a|, i - 1, outer);
      ColumnsOfRowVal(a, b[i - 1], i - 1, outer - 1, st, |a|);
      assert a[st..|a|] == a[st..];
    }
  }

  /** What row i leaves out. */
  function RowLoss(a: seq<Comp>, b: seq<Comp>, outer: nat, i: nat): int
    requires i < |b| && |a| > 0
  {
    b[i] as int * (Pow(i) * Val(a[..RowStart(|a|, i, outer)]))
  }

  function Loss(a: seq<Comp>, b: seq<Comp>, outer: nat, i: nat): int
    requires i <= |b| && |a| > 0
  {
    if i == 0 then 0 else Loss(a, b, outer, i - 1) + RowLoss(a, b, outer, i - 1)
  }

  /** The full product is what the rows keep plus what they leave out. */
  lemma {:induction false} KeptPlusLoss(a: seq<Comp>, b: seq<Comp>, outer: nat, i: nat)
    requires i <= |b| && |a| > 0
    ensures Val(a) * Val(b[..i]) == Rows(a, b, outer, i) + Loss(a, b, outer, i)
  {
    if i == 0 {
      assert b[..0] == [];
      assert Val(a) * Val(b[..0]) == 0;
    } else {
      KeptPlusLoss(a, b, outer, i - 1);
      ValTake(b, i - 1);
      var st := RowStart(|a|, i - 1, outer);
      ValSplit(a, st);
      PowAdd(i - 1, st);
      LossAlgebra(Val(a), Val(b[..i - 1]), Pow(i - 1), b[i - 1], Val(a[..st]), Pow(st), Val(a[st..]), Pow(i - 1 + st));
    }
  }

  /** Nothing is lost without an outer partial, and less than B^(outer+2) with
      one, for numbers of at most B^2 components. */
  lemma {:induction false} LossBound(a: seq<Comp>, b: seq<Comp>, outer: nat, i: nat, bound: int)
    requires i <= |b| && |a| > 0 && bound == (if i < outer then i else outer)
    ensures 0 <= Loss(a, b, outer, i) <= Pow(outer) * bound
    ensures outer == 0 || outer >= |a| ==> Loss(a, b, outer, i) == 0
  {
    if i > 0 {
      var previous := if i - 1 < outer then i - 1 else outer;
      LossBound(a, b, outer, i - 1, previous);
      RowLossBound(a, b, outer, i - 1);
      Expand(Pow(outer), bound, previous, bound - previous);
    }
  }

  lemma {:induction false} LossAlgebra(A: int, Bv: int, p: int, x: int, low: int, q: int, high: int, pq: int)
    requires A == low + q * high && pq == p * q
    ensures A * (Bv + p * x) == A * Bv + x * (pq * high) + x * (p * low)
  {
    assert A * (Bv + p * x) == A * Bv + (x * p) * A;
    assert (x * p) * A == (x * p) * low + (x * p) * (q * high);
    assert (x * p) * (q * high) == x * (pq * high);
  }

  lemma {:induction false} RowLossBound(a: seq<Comp>, b: seq<Comp>, outer: nat, i: nat)
    requires i < |b| && |a| > 0
    ensures 0 <= RowLoss(a, b, outer, i) <= (if i < outer then Pow(outer) else 0)
    ensures outer == 0 || outer >= |a| ==> RowLoss(a, b, outer, i) == 0
  {
    var st, x: int := RowStart(|a|, i, outer), b[i];
    var low := Val(a[..st]);
    if st == 0 {
      assert a[..0] == [];
      assert low == 0;
    } else {
      ValBound(a[..st]);
      PowAdd(i, st);
      assert Pow(outer) == B * Pow(i + st);
      RowLossRange(x, Pow(i), low, Pow(st), Pow(i + st));
    }
  }

  lemma {:induction false} RowLossRange(x: int, p: int, low: int, q: int, pq: int)
    requires 0 <= x < B && p > 0 && 0 <= low < q && pq == p * q
    ensures 0 <= x * (p * low) <= B * pq
  {
    MulMono(p, 0, low);
    MulMono(p, low, q);
    MulMono(x, 0, p * low);
    MulMono(x, p * low, pq);
    MulMono(pq, x, B);
  }

  // ---- the code ----

  lemma {:induction false} UpdateVal(s: seq<Comp>, r: nat, cap: nat, x: Comp)
    requires r < cap <= |s|
    ensures Val(s[r := x][..cap]) == Val(s[..cap]) + Pow(r) * (x as int - s[r])
  {
    var h, h' := s[..cap], s[r := x][..cap];
    ValSplit(h, r);
    ValSplit(h', r);
    assert h[..r] == h'[..r] && h[r..][1..] == h'[r..][1..];
    var rest := B * Val(h[r..][1..]);
    assert Pow(r) * (x + rest) - Pow(r) * (s[r] + rest) == Pow(r) * (x as int - s[r]);
  }

  /** Row i up to component j: the result below `cap` and the carry have grown
      by the product so far; the rest is untouched. */
  ghost predicate RowPartial(
    sr: seq<Comp>, sr0: seq<Comp>, a: seq<Comp>, bi: Comp, i: nat, st: nat, j: nat, cap: nat, c: int)
  {
    && |sr| == |sr0| && cap <= |sr| && st <= j <= |a| && i + j <= |sr| && 0 <= c < B
    && (forall k | i + j <= k < |sr| :: sr[k] == sr0[k])
    && Val(sr[..cap]) + Pow(i + j) * c == Val(sr0[..cap]) + bi as int * (Pow(i + st) * Val(a[st..j]))
  }

  lemma {:induction false} RowStep(
    sr: seq<Comp>, sr0: seq<Comp>, a: seq<Comp>, bi: Comp, i: nat, st: nat, j: nat, cap: nat, c: int, lo: Comp,
    hi: Comp)
    requires RowPartial(sr, sr0, a, bi, i, st, j, cap, c) && j < |a| && i + j < cap
    requires sr[i + j] + a[j] as int * bi as int + c == lo + B * hi
    ensures RowPartial(sr[i + j := lo], sr0, a, bi, i, st, j + 1, cap, hi)
  {
    var r := i + j;
    UpdateVal(sr, r, cap, lo);
    SliceVal(a, st, j, i);
    RowAlgebra(Pow(r), Pow(r + 1), Val(sr[..cap]), sr[r], c, lo, hi, a[j], bi,
               Val(sr0[..cap]), Pow(i + st) * Val(a[st..j]), Pow(i + st) * Val(a[st..j + 1]));
  }

  lemma {:induction false} RowStepSplit(
    sr: seq<Comp>, sr0: seq<Comp>, a: seq<Comp>, bi: Comp, i: nat, st: nat, j: nat, cap: nat, c: int, tmp: int)
    requires RowPartial(sr, sr0, a, bi, i, st, j, cap, c) && j < |a| && i + j < cap
    requires tmp == sr[i + j] as int + a[j] as int * bi as int + c
    ensures 0 <= tmp < B * B
    ensures RowPartial(sr[i + j := tmp % B], sr0, a, bi, i, st, j + 1, cap, tmp / B)
  {
    LongComp(a[j], bi, c);
    RowStep(sr, sr0, a, bi, i, st, j, cap, c, tmp % B, tmp / B);
  }

  lemma {:induction false} RowAlgebra(
    p: int, p': int, S: int, s: int, c: int, lo: int, hi: int, x: int, b: int, S0: int, R: int, R': int)
    requires p' == B * p && s + x * b + c == lo + B * hi && S + p * c == S0 + b * R && R' == R + p * x
    ensures (S + p * (lo - s)) + p' * hi == S0 + b * R'
  {
    assert p * (lo - s) + p' * hi == p * (lo + B * hi - s);
    assert p * (x * b + c) == b * (p * x) + p * c;
    assert b * R' == b * R + b * (p * x);
  }

  /** Rows done so far, up to a multiple of B^cap that fell off the end. */
  ghost predicate RowsDone(sr: seq<Comp>, a: seq<Comp>, b: seq<Comp>, outer: nat, i: nat, cap: nat, z: int) {
    && |a| > 0 && i <= |b| && |sr| == |a| + |b| && cap <= |sr|
    && (forall k | |a| + i <= k < cap :: sr[k] == 0)
    && Val(sr[..cap]) + Pow(cap) * z == Rows(a, b, outer, i)
    && (cap == |sr| ==> z == 0)
  }

  /** Storing the carry ends the row. */
  lemma {:induction false} RowEnd(
    sr: seq<Comp>, sr0: seq<Comp>, a: seq<Comp>, b: seq<Comp>, outer: nat, i: nat, j: nat, cap: nat, c: int, z: int)
      returns (z': int)
    requires RowsDone(sr0, a, b, outer, i, cap, z) && i < |b|
    requires RowPartial(sr, sr0, a, b[i], i, RowStart(|a|, i, outer), j, cap, c)
    requires j == |a| || (i + j >= cap && cap < |sr|)
    ensures i + j < |sr| && RowsDone(sr[i + j := c], a, b, outer, i + 1, cap, z')
  {
    var st, r := RowStart(|a|, i, outer), i + j;
    if r < cap {
      UpdateVal(sr, r, cap, c);
      assert a[st..|a|] == a[st..];
      z' := z;
    } else {
      z' := z + Pow(r - cap) * (b[i] as int * Val(a[j..]) + c);
      RowCut(sr, sr0, a, b[i], i, st, j, cap, c, z);
      assert sr[r := c][..cap] == sr[..cap];
    }
  }

  /** Whatever lies at or above `cap` is a multiple of B^cap. */
  lemma {:induction false} RowCut(
    sr: seq<Comp>, sr0: seq<Comp>, a: seq<Comp>, bi: Comp, i: nat, st: nat, j: nat, cap: nat, c: int, z: int)
    requires RowPartial(sr, sr0, a, bi, i, st, j, cap, c) && i + j >= cap
    ensures Val(sr[..cap]) + Pow(cap) * (z + Pow(i + j - cap) * (bi as int * Val(a[j..]) + c)) ==
            Val(sr0[..cap]) + Pow(cap) * z + bi as int * (Pow(i + st) * Val(a[st..]))
  {
    PowAdd(cap, i + j - cap);
    PowAdd(i + st, j - st);
    ValSplit(a[st..], j - st);
    assert a[st..][..j - st] == a[st..j] && a[st..][j - st..] == a[j..];
    CutAlgebra(Val(sr[..cap]), Pow(cap), Pow(i + j - cap), Pow(i + j), c, Val(sr0[..cap]), z, bi,
               Pow(i + st), Val(a[st..j]), Pow(j - st), Val(a[j..]));
  }

  lemma {:induction false} CutAlgebra(
    S: int, pc: int, pe: int, pr: int, c: int, S0: int, z: int, b: int, ps: int, low: int, pj: int, high: int)
    requires pr == pc * pe && pr == ps * pj && S + pr * c == S0 + b * (ps * low)
    ensures S + pc * (z + pe * (b * high + c)) == S0 + pc * z + b * (ps * (low + pj * high))
  {
    assert pc * (z + pe * (b * high + c)) == pc * z + pr * (b * high) + pr * c;
    assert b * (ps * (low + pj * high)) == b * (ps * low) + b * (pr * high);
  }

  /** The column at which results stop being kept. */
  function Cap(a: seq<Comp>, b: seq<Comp>, inner: nat): (cap: nat)
    ensures cap <= |a| + |b|
  {
    if 0 < inner < |a| + |b| then inner else |a| + |b|
  }

  method RegularMultiply(a: BigInt, b: BigInt, inner: nat, outer: nat) returns (r: BigInt)
    requires |a.comps| >= 1 && |b.comps| >= 1
    ensures fresh(r) && Trimmed(r.comps) && |r.comps| <= |a.comps| + |b.comps|
    ensures Val(r.comps) % Pow(Cap(a.comps, b.comps, inner)) ==
            Rows(a.comps, b.comps, outer, |b.comps|) % Pow(Cap(a.comps, b.comps, inner))
    ensures Cap(a.comps, b.comps, inner) == |a.comps| + |b.comps| ==>
              Val(r.comps) == Rows(a.comps, b.comps, outer, |b.comps|)
  {
    var n, t := |a.comps|, |b.comps|;
    r := new BigInt(Zeros(n + t));
    ghost var cap, z := Cap(a.comps, b.comps, inner), 0;
    assert Zeros(n + t)[..cap] == Zeros(cap);
    ValZeros(cap);
    var i := 0;
    while i < t
      invariant 0 <= i <= t && RowsDone(r.comps, a.comps, b.comps, outer, i, cap, z)
    {
      z := MultiplyRow(a, b, r, i, inner, outer, cap, z);
      i := i + 1;
    }
    ProductDone(r.comps, a.comps, b.comps, outer, cap, z);
    Trim(r);
  }

  method MultiplyRow(a: BigInt, b: BigInt, r: BigInt, i: nat, inner: nat, outer: nat, ghost cap: nat, ghost z: int)
      returns (ghost z': int)
    requires r != a && r != b && i < |b.comps| && RowsDone(r.comps, a.comps, b.comps, outer, i, cap, z)
    requires cap == Cap(a.comps, b.comps, inner)
    modifies r
    ensures RowsDone(r.comps, a.comps, b.comps, outer, i + 1, cap, z')
  {
    var index, j := i, 0;
    if outer > 0 && outer - i > 0 && outer < |a.comps| {
      index := outer - 1;
      j := outer - i - 1;
    }
    ghost var sr0 := r.comps;
    var end, carry := RowLoop(a, b, r, i, j, index, inner, cap);
    z' := RowEnd(r.comps, sr0, a.comps, b.comps, outer, i, end - i, cap, carry, z);
    r.comps := r.comps[end := carry];
  }

  method RowLoop(a: BigInt, b: BigInt, r: BigInt, i: nat, st: nat, start: nat, inner: nat, ghost cap: nat)
      returns (index: nat, carry: Comp)
    requires r != a && r != b && i < |b.comps| && st < |a.comps| && start == i + st
    requires |r.comps| == |a.comps| + |b.comps| && cap == Cap(a.comps, b.comps, inner)
    modifies r
    ensures st <= index - i && RowPartial(r.comps, old(r.comps), a.comps, b.comps[i], i, st, index - i, cap, carry)
    ensures index - i == |a.comps| || (index >= cap && cap < |r.comps|)
  {
    ghost var sr0 := r.comps;
    assert a.comps[st..st] == [];
    var j := st;
    index, carry := start, 0;
    while j < |a.comps|
      invariant st <= j <= |a.comps| && index == i + j
      invariant RowPartial(r.comps, sr0, a.comps, b.comps[i], i, st, j, cap, carry)
    {
      if inner > 0 && index >= inner {
        break;
      }
      var tmp := r.comps[index] as int + a.comps[j] as int * b.comps[i] as int + carry as int;
      RowStepSplit(r.comps, sr0, a.comps, b.comps[i], i, st, j, cap, carry, tmp);
      r.comps := r.comps[index := tmp % B];
      carry := tmp / B;
      index := index + 1;
      j := j + 1;
    }
  }

  lemma {:induction false} ProductDone(sr: seq<Comp>, a: seq<Comp>, b: seq<Comp>, outer: nat, cap: nat, z: int)
    requires RowsDone(sr, a, b, outer, |b|, cap, z)
    ensures Val(sr) % Pow(cap) == Rows(a, b, outer, |b|) % Pow(cap)
    ensures cap == |sr| ==> Val(sr) == Rows(a, b, outer, |b|)
  {
    ValDivMod(sr, cap);
    ValBound(sr[..cap]);
    ModShift(Val(sr[..cap]), Pow(cap), z);
    DivZero(Val(sr[..cap]), Pow(cap));
    if cap == |sr| { assert sr[..cap] == sr; }
  }

  /** bi_multiply: without partials the result is the product. */
  method Product(a: BigInt, b: BigInt) returns (r: BigInt)
    requires |a.comps| >= 1 && |b.comps| >= 1
    ensures fresh(r) && Trimmed(r.comps) && |r.comps| <= |a.comps| + |b.comps|
    ensures Val(r.comps) == Val(a.comps) * Val(b.comps)
  {
    r := RegularMultiply(a, b, 0, 0);
    KeptPlusLoss(a.comps, b.comps, 0, |b.comps|);
    LossBound(a.comps, b.comps, 0, |b.comps|, 0);
    assert b.comps[..|b.comps|] == b.comps;
  }
}
