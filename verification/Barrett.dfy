/** bi_set_mod and bi_barrett. */
module Barrett {
  import opened Radix
  import opened BigInts
  import opened QuotientDigit
  import opened Division
  import opened Multiply

  /** Component counts are C shorts. */
  const MAX_SIZE: int := 0x7FFF

  /** mu = floor(B^(2k) / m) is in place beside what division needs. */
  ghost predicate Ready(ctx: Context)
    reads ctx, ctx.biMod, ctx.normalisedMod, ctx.mu
  {
    && ctx.ModReady() && ctx.mu != null && ctx.mu != ctx.biMod && ctx.mu != ctx.normalisedMod
    && Trimmed(ctx.mu.comps)
    && Val(ctx.biMod.comps) > 0 && Val(ctx.mu.comps) == Pow(2 * |ctx.biMod.comps|) / Val(ctx.biMod.comps)
    && |ctx.biMod.comps| <= MAX_SIZE
  }

  ghost function Mod(ctx: Context): (m: int)
    requires ctx.ModReady()
    reads ctx, ctx.biMod, ctx.normalisedMod
    ensures m > 0
  {
    TrimmedLower(ctx.biMod.comps);
    Val(ctx.biMod.comps)
  }

  /** Fails exactly on a modulus with leading component 2^32 - 1, where the
      normalising factor is a division by zero. */
  method SetMod(ctx: Context, bim: BigInt) returns (ok: bool)
    requires Trimmed(bim.comps) && Val(bim.comps) > 0 && |bim.comps| <= MAX_SIZE
    modifies ctx, bim
    ensures bim.comps == old(bim.comps)
    ensures ok <==> bim.comps[|bim.comps| - 1] as int != B - 1
    ensures ok ==> Ready(ctx) && ctx.biMod == bim
    ensures ok ==> fresh(ctx.normalisedMod) && fresh(ctx.mu)
  {
    var k := |bim.comps|;
    LeadingNonzero(bim.comps);
    var divisor := Successor(bim.comps[k - 1]);
    if divisor == 0 {
      return false;
    }
    var d := B / divisor;
    NormalisingFactor(bim.comps[k - 1], d);
    ctx.biMod := bim;
    var normalised := IntMultiply(bim, d);
    ctx.normalisedMod := normalised;
    var radix := new BigInt([0, 1]);
    ValTwo(0, 1);
    CompLeftShift(radix, 2 * k - 1);
    var q := ctx.Divide(radix, bim, false);
    assert q.value != bim && q.value != normalised;
    ctx.mu := q.value;
    return true;
  }

  // ---- the quotient estimate ----

  /** Loss below B^(k+1) makes the estimate at most three short, never high. */
  lemma {:induction false} EstimateBound(x: int, m: int, k: nat, mu: int, q1: int, kept: int, loss: int)
    requires k >= 1 && Pow(k - 1) <= m < Pow(k) && 0 <= x < Pow(2 * k)
    requires mu == Pow(2 * k) / m && q1 == x / Pow(k - 1)
    requires q1 * mu == kept + loss && 0 <= loss < Pow(k + 1) && kept >= 0
    ensures 0 <= kept / Pow(k + 1) <= x / m <= kept / Pow(k + 1) + 3
  {
    var b1, b2, N := Pow(k - 1), Pow(k + 1), Pow(2 * k);
    PowAdd(k - 1, k + 1);
    QuotientAtLeast(N, m, 0);
    QuotientAtLeast(x, b1, 0);
    QuotientAtLeast(kept, b2, 0);
    EstimateNotHigh(x, m, b1, b2, N, mu, q1, kept, loss);
    EstimateNotLow(x, m, b1, b2, N, mu, q1, kept, loss);
  }

  lemma {:induction false} EstimateNotHigh(
    x: int, m: int, b1: int, b2: int, N: int, mu: int, q1: int, kept: int, loss: int)
    requires b1 > 0 && b2 > 0 && N == b1 * b2 && m > 0 && x >= 0
    requires mu == N / m && q1 == x / b1 && mu >= 0 && q1 >= 0
    requires q1 * mu == kept + loss && 0 <= loss
    ensures kept / b2 <= x / m
  {
    assert b1 * q1 <= x;
    assert m * mu <= N;
    ProductNotHigh(x, m, b1, b2, N, mu, q1);
    MulMono(m, kept, q1 * mu);
    assert b2 * (kept / b2) <= kept;
    ShiftNotHigh(x, m, b2, kept, kept / b2);
    QuotientAtLeast(x, m, kept / b2);
  }

  lemma {:induction false} ProductNotHigh(x: int, m: int, b1: int, b2: int, N: int, mu: int, q1: int)
    requires b1 > 0 && b2 > 0 && N == b1 * b2 && q1 >= 0
    requires b1 * q1 <= x && m * mu <= N
    ensures m * (q1 * mu) <= b2 * x
  {
    MulMono(q1, m * mu, N);
    assert q1 * (m * mu) == m * (q1 * mu);
    assert q1 * N == b2 * (b1 * q1);
    MulMono(b2, b1 * q1, x);
  }

  lemma {:induction false} ShiftNotHigh(x: int, m: int, b2: int, kept: int, q3: int)
    requires b2 > 0 && m > 0 && m * kept <= b2 * x && b2 * q3 <= kept
    ensures m * q3 <= x
  {
    MulMono(m, b2 * q3, kept);
    assert m * (b2 * q3) == b2 * (m * q3);
    MulCancelLe(b2, m * q3, x);
  }

  lemma {:induction false} EstimateNotLow(
    x: int, m: int, b1: int, b2: int, N: int, mu: int, q1: int, kept: int, loss: int)
    requires b1 > 0 && b2 > 0 && N == b1 * b2 && b1 <= m && 0 <= x < N
    requires mu == N / m && q1 == x / b1 && mu >= 0 && q1 >= 0
    requires q1 * mu == kept + loss && loss < b2
    ensures x / m <= kept / b2 + 3
  {
    var Q := x / m;
    ProductClose(x, m, b1, b2, N, mu, q1, Q);
    assert b2 * (Q - 3) == b2 * Q - 3 * b2;
    QuotientAtLeast(kept, b2, Q - 3);
  }

  /** Before anything is left out the estimate is at most two short. */
  lemma {:induction false} ProductClose(x: int, m: int, b1: int, b2: int, N: int, mu: int, q1: int, Q: int)
    requires b1 > 0 && b2 > 0 && N == b1 * b2 && b1 <= m && 0 <= x < N
    requires mu == N / m && q1 == x / b1 && Q == x / m && q1 >= 0
    ensures b2 * Q < q1 * mu + 2 * b2
  {
    assert N < m * mu + m;
    assert x < b1 * q1 + b1;
    assert m * Q <= x;
    QuotientBelow(x, b1, b2);
    MulMono(b2, b1, m);
    assert m * (b2 + 1) == b2 * m + m;
    QuotientBelow(N, m, b2 + 1);
    FloorProduct(x, m, b1, b2, N, mu, q1, Q);
  }

  lemma {:induction false} FloorProduct(x: int, m: int, b1: int, b2: int, N: int, mu: int, q1: int, Q: int)
    requires b1 > 0 && b2 > 0 && N == b1 * b2 && m > 0 && q1 >= 0
    requires m * Q <= x < b1 * q1 + b1 && N < m * mu + m
    ensures b2 * Q < q1 * mu + q1 + mu + 1
  {
    var s, t := q1 + 1, mu + 1;
    assert b1 * s == b1 * q1 + b1 && m * t == m * mu + m;
    MulStrict(b2, m * Q, b1 * s);
    MulStrict(s, N, m * t);
    assert b2 * (b1 * s) == s * N;
    assert s * (m * t) == m * (s * t);
    assert b2 * (m * Q) == m * (b2 * Q);
    MulCancel(m, b2 * Q, s * t);
    assert s * t == q1 * mu + q1 + mu + 1;
  }

  /** comp_right_shift as a value. */
  function DropLow(s: seq<Comp>, n: nat): (r: seq<Comp>)
    requires |s| >= 1
    ensures |r| >= 1
  {
    if n < |s| then s[n..] else [0]
  }

  /** q3 of bi_barrett: the kept columns of (x >> k-1) * mu, shifted by k+1. */
  function Estimate(x: seq<Comp>, mu: seq<Comp>, k: nat): int
    requires |x| >= 1 && |mu| >= 1 && k >= 1
  {
    Rows(DropLow(x, k - 1), mu, k - 1, |mu|) / Pow(k + 1)
  }

  lemma {:induction false} DropLowVal(s: seq<Comp>, n: nat)
    requires |s| >= 1
    ensures Val(DropLow(s, n)) == Val(s) / Pow(n)
  {
    if n < |s| {
      ValDivMod(s, n);
    } else {
      ValBound(s);
      PowMono(|s|, n);
      DivZero(Val(s), Pow(n));
      assert [0][1..] == [];
    }
  }

  lemma {:induction false} RowsNonnegative(a: seq<Comp>, b: seq<Comp>, outer: nat, i: nat)
    requires i <= |b| && |a| > 0
    ensures Rows(a, b, outer, i) >= 0
  {
    if i > 0 {
      RowsNonnegative(a, b, outer, i - 1);
      var st := RowStart(|a|, i - 1, outer);
      MulMono(Pow(i - 1 + st), 0, Val(a[st..]));
      MulMono(b[i - 1], 0, Pow(i - 1 + st) * Val(a[st..]));
    }
  }

  /** The estimate from the truncated product is never above floor(x / m) and
      at most three below it. */
  lemma {:induction false} EstimateError(x: seq<Comp>, m: seq<Comp>, mu: seq<Comp>)
    requires 1 <= |x| <= 2 * |m| && 1 <= |m| <= MAX_SIZE && m[|m| - 1] != 0 && |mu| >= 1
    requires Val(m) > 0 && Val(mu) == Pow(2 * |m|) / Val(m)
    ensures 0 <= Estimate(x, mu, |m|) <= Val(x) / Val(m) <= Estimate(x, mu, |m|) + 3
  {
    var k, outer := |m|, |m| - 1;
    var q1 := DropLow(x, outer);
    DropLowVal(x, outer);
    KeptPlusLoss(q1, mu, outer, |mu|);
    RowsNonnegative(q1, mu, outer, |mu|);
    assert mu[..|mu|] == mu;
    var bound := if |mu| < outer then |mu| else outer;
    LossBound(q1, mu, outer, |mu|, bound);
    MulStrict(Pow(outer), bound, B * B);
    assert Pow(k + 1) == B * (B * Pow(outer));
    ValBound(x);
    PowMono(|x|, 2 * k);
    TrimmedLower(m);
    ValBound(m);
    EstimateBound(Val(x), Val(m), k, Val(mu), Val(q1), Rows(q1, mu, outer, |mu|), Loss(q1, mu, outer, |mu|));
  }

  lemma {:induction false} OneLosesNothing(a: seq<Comp>, b: seq<Comp>, i: nat)
    requires i <= |b| && |a| > 0
    ensures Loss(a, b, 1, i) == 0
  {
    if i > 0 {
      OneLosesNothing(a, b, i - 1);
      assert a[..0] == [];
    }
  }

  lemma {:induction false} ValFour(a: Comp, b: Comp, c: Comp, d: Comp)
    ensures Val([a, b, c, d]) == a + B * (b + B * (c + B * d))
  {
    assert [a, b, c, d][1..] == [b, c, d];
    ValThree(b, c, d);
  }

  /** The kept columns of [0, c, d] * mu when nothing is left out. */
  lemma {:induction false} EstimateOfThree(x: seq<Comp>, q1: seq<Comp>, mu: seq<Comp>, q3: int)
    requires |x| == 4 && q1 == x[1..] && |mu| == 3
    requires q3 == Val(q1) * Val(mu) / Pow(3)
    ensures Estimate(x, mu, 2) == q3
  {
    KeptPlusLoss(q1, mu, 1, 3);
    OneLosesNothing(q1, mu, 3);
    assert mu[..3] == mu;
  }

  /** A number whose estimate is two short: one subtraction leaves it at or above
      the modulus. */
  lemma {:induction false} TwoShort()
    ensures var x, m, mu := [0xFFFF_FFFF, 0, 0xFFFF_FFFF, 0xFFFF_FFFF], [0xFF, 1], [0xFF02_FD01, 0xFE00, 0xFFFF_FF01];
            && Val(mu) == Pow(4) / Val(m) && Val(x) / Val(m) == Estimate(x, mu, 2) + 2
            && Val(x) - (Estimate(x, mu, 2) + 1) * Val(m) == 8523152895 >= Val(m)
  {
    var x, m, mu := [0xFFFF_FFFF, 0, 0xFFFF_FFFF, 0xFFFF_FFFF], [0xFF, 1], [0xFF02_FD01, 0xFE00, 0xFFFF_FF01];
    var q1: seq<Comp> := [0, 0xFFFF_FFFF, 0xFFFF_FFFF];
    ValFour(x[0], x[1], x[2], x[3]);
    ValTwo(m[0], m[1]);
    ValThree(mu[0], mu[1], mu[2]);
    ValThree(q1[0], q1[1], q1[2]);
    assert Pow(3) == B * B * B && Pow(4) == B * B * B * B by { assert Pow(1) == B && Pow(2) == B * B; }
    EstimateOfThree(x, q1, mu, 79228157810344878073545162239);
  }

  // ---- the reduction ----

  /** The wrapped difference of two residues is the true difference when that
      lies in the range. */
  lemma {:induction false} WrappedDifference(x: int, y: int, p: int, borrow: bool, r: int)
    requires p > 0 && 0 <= x - y < p && 0 <= r < p
    requires r == x % p - y % p + (if borrow then p else 0)
    ensures r == x - y
  {
    var k := y / p - x / p + (if borrow then 1 else 0);
    assert x % p == x - p * (x / p) && y % p == y - p * (y / p);
    assert r - (x - y) == p * k by {
      assert p * k == p * (y / p) - p * (x / p) + (if borrow then p else 0);
    }
    SmallMultiple(p, k);
  }

  /** One subtraction of m is a full reduction exactly when the estimate is at
      most one short of the quotient. */
  lemma {:induction false} OneSubtraction(x: int, m: int, q3: int, y: int, r: int)
    requires m > 0 && x >= 0 && q3 <= x / m <= q3 + 3
    requires y == x - q3 * m && r == (if y >= m then y - m else y)
    ensures 0 <= y < 4 * m && 0 <= r < 3 * m && r % m == x % m
    ensures x / m <= q3 + 1 <==> r == x % m
  {
    ShortBy(x, m, q3);
    var e, t := x / m - q3, x % m;
    OneOfFour(e, m);
    DivZero(t, m);
    ModShift(t, m, 1);
    ModShift(t, m, 2);
  }

  lemma {:induction false} ShortBy(x: int, m: int, q: int)
    requires m > 0
    ensures x - q * m == x % m + (x / m - q) * m
  {
    assert x == m * (x / m) + x % m;
    assert (x / m - q) * m == m * (x / m) - q * m;
  }

  lemma {:induction false} OneOfFour(e: int, m: int)
    requires 0 <= e <= 3
    ensures e * m == if e == 0 then 0 else if e == 1 then m else if e == 2 then 2 * m else 3 * m
  {}

  /** Subtracting q3 * m from x on the low components only. */
  lemma {:induction false} LowDifference(x: seq<Comp>, m: seq<Comp>, q3: int, s: nat, y: int)
    requires |x| >= 1 && |m| >= 1 && s == (if |x| < |m| + 1 then |x| else |m| + 1)
    requires Val(m) > 0 && 0 <= q3 <= Val(x) / Val(m) <= q3 + 3 && y == q3 * Val(m)
    ensures 0 <= Val(x) - y < Pow(s)
    ensures y % Pow(|m| + 1) % Pow(s) == y % Pow(s)
    ensures Val(x) % Pow(|m| + 1) == Val(x) % Pow(s)
  {
    var M, k := Val(m), |m|;
    OneSubtraction(Val(x), M, q3, Val(x) - y, if Val(x) - y >= M then Val(x) - y - M else Val(x) - y);
    ValBound(x);
    ValBound(m);
    if s < k + 1 {
      MulMono(M, 0, q3);
      PowMono(|x|, k + 1);
      DivZero(y, Pow(k + 1));
      DivZero(Val(x), Pow(k + 1));
      DivZero(Val(x), Pow(s));
    } else {
      DivZero(y % Pow(s), Pow(s));
    }
  }

  /** bi := bi - q3 * m, working modulo B^(k+1) as bi_barrett does. */
  method SubtractMultiple(bi: BigInt, q3: BigInt, bim: BigInt)
    requires bi != q3 && bi != bim && |bi.comps| >= 1 && |q3.comps| >= 1 && |bim.comps| >= 1
    requires Val(bim.comps) > 0 && Val(q3.comps) <= Val(bi.comps) / Val(bim.comps) <= Val(q3.comps) + 3
    modifies bi
    ensures Trimmed(bi.comps)
    ensures Val(bi.comps) == old(Val(bi.comps)) - Val(q3.comps) * Val(bim.comps)
  {
    var k := |bim.comps|;
    ghost var x := bi.comps;
    var multiple := RegularMultiply(q3, bim, k + 1, 0);
    InnerPartial(q3.comps, bim.comps, multiple.comps, k + 1);
    CompMod(bi, k + 1);
    CompMod(multiple, k + 1);
    ghost var low, cut := bi.comps, multiple.comps;
    var negative := Subtract(bi, multiple);
    LowSubtraction(x, bim.comps, Val(q3.comps), low, cut, negative, bi.comps);
  }

  /** The difference of the low components is the whole difference. */
  lemma {:induction false} LowSubtraction(
    x: seq<Comp>, m: seq<Comp>, q3: int, low: seq<Comp>, cut: seq<Comp>, negative: bool, r: seq<Comp>)
    requires |x| >= 1 && |m| >= 1 && Val(m) > 0 && 0 <= q3 <= Val(x) / Val(m) <= q3 + 3
    requires |low| == (if |x| < |m| + 1 then |x| else |m| + 1) && Val(low) == Val(x) % Pow(|m| + 1)
    requires Val(cut) == q3 * Val(m) % Pow(|m| + 1) && |r| <= |low|
    requires Val(r) == Val(low) - Val(Resize(cut, |low|)) + (if negative then Pow(|low|) else 0)
    ensures Val(r) == Val(x) - q3 * Val(m)
  {
    var s, y := |low|, q3 * Val(m);
    LowDifference(x, m, q3, s, y);
    ResizeMod(cut, s);
    ResizeVal(r, s);
    ValBound(Resize(r, s));
    WrappedDifference(Val(x), y, Pow(s), negative, Val(r));
  }

  /** The inner partial product agrees with the product on the kept components. */
  lemma {:induction false} InnerPartial(a: seq<Comp>, b: seq<Comp>, r: seq<Comp>, inner: nat)
    requires |a| >= 1 && |b| >= 1 && inner >= 1
    requires var cap := Cap(a, b, inner);
             Val(r) % Pow(cap) == Rows(a, b, 0, |b|) % Pow(cap) && (cap == |a| + |b| ==> Val(r) == Rows(a, b, 0, |b|))
    ensures Val(r) % Pow(inner) == (Val(a) * Val(b)) % Pow(inner)
  {
    KeptPlusLoss(a, b, 0, |b|);
    LossBound(a, b, 0, |b|, 0);
    assert b[..|b|] == b;
  }

  // ---- the value of a reduction ----

  /** q3 for x modulo m. */
  function EstimateOf(x: nat, m: nat): int
    requires m > 0
  {
    QuotientAtLeast(Pow(2 * |Comps(m)|), m, 0);
    Estimate(Comps(x), Comps(Pow(2 * |Comps(m)|) / m), |Comps(m)|)
  }

  /** Large numbers are divided, others reduced by the estimate and once by m. */
  function ReducedBy(x: seq<Comp>, m: seq<Comp>, mu: seq<Comp>): int
    requires |x| >= 1 && |m| >= 1 && |mu| >= 1 && Val(m) > 0
  {
    if |x| > 2 * |m| then Val(x) % Val(m)
    else
      var y := Val(x) - Estimate(x, mu, |m|) * Val(m);
      if y >= Val(m) then y - Val(m) else y
  }

  /** The same for numbers. */
  function Reduced(x: nat, m: nat): int
    requires m > 0
  {
    QuotientAtLeast(Pow(2 * |Comps(m)|), m, 0);
    ReducedBy(Comps(x), Comps(m), Comps(Pow(2 * |Comps(m)|) / m))
  }

  /** Reduction modulo m as a function. */
  function Reduction(m: nat): int -> int
    requires m > 0
  {
    (x: int) => if x >= 0 then Reduced(x, m) else x
  }

  /** The reduction of x is complete: it is divided, or its estimate is at most
      one short. */
  predicate Exact(x: nat, m: nat)
    requires m > 0
  {
    |Comps(x)| > 2 * |Comps(m)| || x / m <= EstimateOf(x, m) + 1
  }

  /** What a reduction gives, and when it is complete. */
  lemma {:induction false} ReducedMeans(x: nat, m: nat)
    requires m > 0 && |Comps(m)| <= MAX_SIZE
    ensures 0 <= Reduced(x, m) < 3 * m && Reduced(x, m) % m == x % m
    ensures Reduced(x, m) == x % m <==> Exact(x, m)
    ensures x < m ==> Reduced(x, m) == x
  {
    QuotientAtLeast(Pow(2 * |Comps(m)|), m, 0);
    ReducedByMeans(Comps(x), Comps(m), Comps(Pow(2 * |Comps(m)|) / m));
  }

  lemma {:induction false} ReducedByMeans(x: seq<Comp>, m: seq<Comp>, mu: seq<Comp>)
    requires |x| >= 1 && Trimmed(m) && m[|m| - 1] != 0 && |m| <= MAX_SIZE && |mu| >= 1
    requires Val(m) > 0 && Val(mu) == Pow(2 * |m|) / Val(m)
    ensures var r := ReducedBy(x, m, mu);
            && 0 <= r < 3 * Val(m) && r % Val(m) == Val(x) % Val(m)
            && (r == Val(x) % Val(m) <==> |x| > 2 * |m| || Val(x) / Val(m) <= Estimate(x, mu, |m|) + 1)
            && (Val(x) < Val(m) ==> r == Val(x))
  {
    var M := Val(m);
    if |x| > 2 * |m| {
      DivZero(Val(x) % M, M);
    } else {
      EstimateError(x, m, mu);
      var q3 := Estimate(x, mu, |m|);
      OneSubtraction(Val(x), M, q3, Val(x) - q3 * M, ReducedBy(x, m, mu));
    }
    if Val(x) < M { DivZero(Val(x), M); }
  }

  /** What the code has in place of a number and its modulus is their trimmed
      components. */
  lemma {:induction false} ReducedOf(x: seq<Comp>, m: seq<Comp>, mu: seq<Comp>)
    requires Trimmed(x) && Trimmed(m) && Trimmed(mu) && Val(m) > 0 && Val(mu) == Pow(2 * |m|) / Val(m)
    ensures Reduced(Val(x), Val(m)) == ReducedBy(x, m, mu)
  {
    TrimmedInjective(x, Comps(Val(x)));
    TrimmedInjective(m, Comps(Val(m)));
    TrimmedInjective(mu, Comps(Val(mu)));
  }

  method BarrettReduce(ctx: Context, bi: BigInt) returns (r: BigInt)
    requires Ready(ctx) && Trimmed(bi.comps)
    requires bi != ctx.biMod && bi != ctx.normalisedMod && bi != ctx.mu
    modifies bi, ctx.biMod, ctx.normalisedMod
    ensures ctx.biMod.comps == old(ctx.biMod.comps) && ctx.normalisedMod.comps == old(ctx.normalisedMod.comps)
    ensures Ready(ctx) && (r == bi || fresh(r)) && Trimmed(r.comps)
    ensures Val(r.comps) % Mod(ctx) == old(Val(bi.comps)) % Mod(ctx) && Val(r.comps) < 3 * Mod(ctx)
    ensures Val(r.comps) == ReducedBy(old(bi.comps), ctx.biMod.comps, ctx.mu.comps)
    ensures old(|bi.comps|) > 2 * |ctx.biMod.comps| ==> Val(r.comps) == old(Val(bi.comps)) % Mod(ctx)
    ensures old(|bi.comps|) <= 2 * |ctx.biMod.comps| ==>
              (old(Val(bi.comps)) / Mod(ctx) <= Estimate(old(bi.comps), ctx.mu.comps, |ctx.biMod.comps|) + 1 <==>
               Val(r.comps) == old(Val(bi.comps)) % Mod(ctx))
  {
    if |bi.comps| > 2 * |ctx.biMod.comps| {
      DivZero(Val(bi.comps) % Mod(ctx), Mod(ctx));
      var q := ctx.Divide(bi, ctx.biMod, true);
      return q.value;
    }
    BarrettStep(bi, ctx.biMod, ctx.mu);
    r := bi;
  }

  /** The reduction proper, for at most 2k components. */
  method BarrettStep(bi: BigInt, bim: BigInt, mu: BigInt)
    requires bi != bim && bi != mu && bim != mu && Trimmed(bi.comps) && Trimmed(bim.comps) && Trimmed(mu.comps)
    requires bim.comps[|bim.comps| - 1] != 0 && |bim.comps| <= MAX_SIZE && |bi.comps| <= 2 * |bim.comps|
    requires Val(bim.comps) > 0 && Val(mu.comps) == Pow(2 * |bim.comps|) / Val(bim.comps)
    modifies bi, bim
    ensures bim.comps == old(bim.comps) && Trimmed(bi.comps)
    ensures Val(bi.comps) % Val(bim.comps) == old(Val(bi.comps)) % Val(bim.comps)
    ensures Val(bi.comps) < 3 * Val(bim.comps)
    ensures Val(bi.comps) == ReducedBy(old(bi.comps), bim.comps, mu.comps)
    ensures old(Val(bi.comps)) / Val(bim.comps) <= Estimate(old(bi.comps), mu.comps, |bim.comps|) + 1 <==>
              Val(bi.comps) == old(Val(bi.comps)) % Val(bim.comps)
  {
    ghost var x := bi.comps;
    SubtractEstimate(bi, bim, mu);
    ghost var y := Val(bi.comps);
    var c := Compare(bi, bim);
    if c >= 0 {
      SubtractModulus(bi, bim);
    }
    assert Val(bi.comps) == ReducedBy(x, bim.comps, mu.comps);
    ReducedByMeans(x, bim.comps, mu.comps);
  }

  /** x - q3 * m, from the truncated products. */
  method SubtractEstimate(bi: BigInt, bim: BigInt, mu: BigInt)
    requires bi != bim && bi != mu && bim != mu && Trimmed(bi.comps) && Trimmed(bim.comps) && Trimmed(mu.comps)
    requires bim.comps[|bim.comps| - 1] != 0 && |bim.comps| <= MAX_SIZE && |bi.comps| <= 2 * |bim.comps|
    requires Val(bim.comps) > 0 && Val(mu.comps) == Pow(2 * |bim.comps|) / Val(bim.comps)
    modifies bi
    ensures Trimmed(bi.comps)
    ensures Val(bi.comps) == old(Val(bi.comps)) - Estimate(old(bi.comps), mu.comps, |bim.comps|) * Val(bim.comps)
  {
    var k := |bim.comps|;
    EstimateError(bi.comps, bim.comps, mu.comps);
    var q1 := new BigInt(bi.comps);
    CompRightShift(q1, k - 1);
    var q3 := RegularMultiply(q1, mu, 0, k - 1);
    CompRightShift(q3, k + 1);
    SubtractMultiple(bi, q3, bim);
  }

  /** r := r - m; the modulus is padded to r's size and trimmed back. */
  method SubtractModulus(bi: BigInt, bim: BigInt)
    requires bi != bim && Trimmed(bi.comps) && Trimmed(bim.comps) && Val(bi.comps) >= Val(bim.comps)
    modifies bi, bim
    ensures Trimmed(bi.comps) && Val(bi.comps) == old(Val(bi.comps)) - Val(bim.comps)
    ensures bim.comps == old(bim.comps)
  {
    if |bi.comps| < |bim.comps| { SizeOrder(bi.comps, bim.comps); }
    ResizeVal(bim.comps, |bi.comps|);
    ghost var p := Pow(|bi.comps|);
    var negative := Subtract(bi, bim);
    ResizeVal(bi.comps, old(|bi.comps|));
    ValBound(Resize(bi.comps, old(|bi.comps|)));
    TrimmedInjective(bim.comps, old(bim.comps));
  }
}
