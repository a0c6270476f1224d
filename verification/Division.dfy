/** bi_divide: Knuth's long division with one add-back, and its context. */
module Division {
  import opened Radix
  import opened BigInts
  import opened QuotientDigit

  /** A trimmed number one carry above B^n has exactly n + 1 components, and
      dropping the last one drops the carry. */
  lemma {:induction false} LopCarry(s: seq<Comp>, n: nat, r: int)
    requires Trimmed(s) && Val(s) == r + Pow(n) && 0 <= r < Pow(n)
    ensures |s| == n + 1 && Val(s[..n]) == r
  {
    ValBound(s);
    if |s| <= n { PowMono(|s|, n); }
    assert |s| > 1 ==> s[|s| - 1] != 0;
    if |s| > n + 1 {
      TrimmedLower(s);
      PowMono(n + 1, |s| - 1);
    }
    ValDivMod(s, n);
    ModShift(r, Pow(n), 1);
    DivZero(r, Pow(n));
  }

  /** What the trial subtraction tells about a guess that is right or one high. */
  lemma {:induction false} TrialSubtract(T: int, V: int, g: int, x: int, negative: bool, p: int)
    requires V > 0 && 0 <= T && T / V <= g <= T / V + 1
    requires x == T - V * g + (if negative then p else 0) && 0 <= x < p
    ensures negative ==> g == T / V + 1 && x + V == T % V + p
    ensures !negative ==> g == T / V && x == T % V
  {
    var q := T / V;
    assert T == V * q + T % V;
    assert V * (q + 1) == V * q + V;
  }

  lemma {:induction false} TopZero(s: seq<Comp>, n: nat)
    requires |s| == n + 1 && Val(s) < Pow(n)
    ensures s[n] == 0
  {
    ValTake(s, n);
    assert s[..n + 1] == s;
    if s[n] > 0 { MulMono(Pow(n), 1, s[n]); }
  }

  method MultiplySubtract(tmpU: BigInt, v: BigInt, g: Comp) returns (negative: bool)
    requires tmpU != v && |v.comps| >= 1 && |tmpU.comps| == |v.comps| + 1
    modifies tmpU
    ensures |tmpU.comps| == |v.comps| + 1
    ensures Val(tmpU.comps) == old(Val(tmpU.comps)) - Val(v.comps) * g
              + (if negative then Pow(|v.comps| + 1) else 0)
  {
    var n := |v.comps|;
    var product := IntMultiply(v, g);
    ResizeVal(product.comps, n + 1);
    negative := Subtract(tmpU, product);
    ResizeVal(tmpU.comps, n + 1);
    MoreComps(tmpU, n + 1);
  }

  /** Undo one subtraction too many; the carry out is lopped off, and so is the
      component bi_add gave to the divisor. */
  method AddBack(tmpU: BigInt, v: BigInt, ghost r: int)
    requires tmpU != v && |v.comps| >= 1 && |tmpU.comps| == |v.comps| + 1
    requires Val(tmpU.comps) + Val(v.comps) == r + Pow(|v.comps| + 1) && 0 <= r < Pow(|v.comps| + 1)
    modifies tmpU, v
    ensures v.comps == old(v.comps) && |tmpU.comps| == |v.comps| + 1 && Val(tmpU.comps) == r
  {
    var n := |v.comps|;
    Add(tmpU, v);
    LopCarry(tmpU.comps, n + 1, r);
    tmpU.comps := tmpU.comps[..|tmpU.comps| - 1];
    v.comps := v.comps[..|v.comps| - 1];
    assert v.comps == old(v.comps);
  }

  /** One quotient digit: guess, multiply and subtract, add back. */
  method DivideDigit(tmpU: BigInt, v: BigInt) returns (q: Comp)
    requires tmpU != v && |v.comps| >= 1 && |tmpU.comps| == |v.comps| + 1
    requires 2 * v.comps[|v.comps| - 1] as int >= B && Val(tmpU.comps) < B * Val(v.comps)
    modifies tmpU, v
    ensures v.comps == old(v.comps) && |tmpU.comps| == |v.comps| + 1 && Val(v.comps) > 0
    ensures q == old(Val(tmpU.comps)) / Val(v.comps)
    ensures Val(tmpU.comps) == old(Val(tmpU.comps)) % Val(v.comps)
  {
    GuessBound(tmpU.comps, v.comps);
    ghost var T, V, p := Val(tmpU.comps), Val(v.comps), Pow(|v.comps| + 1);
    var g := Guess(tmpU.comps, v.comps);
    q := g;
    if g != 0 {
      var negative := MultiplySubtract(tmpU, v, g);
      ValBound(tmpU.comps);
      TrialSubtract(T, V, g, Val(tmpU.comps), negative, p);
      if negative {
        q := q - 1;
        RemainderFits(T, v.comps);
        AddBack(tmpU, v, T % V);
      }
    } else {
      assert T == V * 0 + T % V;
    }
  }

  lemma {:induction false} RemainderFits(T: int, v: seq<Comp>)
    requires Val(v) > 0
    ensures 0 <= T % Val(v) < Pow(|v| + 1)
  {
    ValBound(v);
    PowMono(|v|, |v| + 1);
  }

  /** Long division after j digits: u0 = quotient * V * B^(m+1-j) + what is
      left of u, whose part above position m + 1 - j is below V. */
  ghost predicate LongDivision(u0: int, u: seq<Comp>, quotient: seq<Comp>, V: int, n: nat, m: nat, j: nat) {
    && j <= m + 1 && |u| == n + m + 1 && |quotient| == m + 1
    && u0 == Val(quotient[m + 1 - j..]) * (Pow(m + 1 - j) * V) + Val(u)
    && Val(u[m + 1 - j..]) < V
    && (forall k | m + 1 - j + n <= k < |u| :: u[k] == 0)
  }

  /** The window of the next digit is below B * V and carries all that is left. */
  lemma {:induction false} WindowBelow(u0: int, u: seq<Comp>, quotient: seq<Comp>, V: int, n: nat, m: nat, j: nat)
    requires LongDivision(u0, u, quotient, V, n, m, j) && j <= m
    ensures Val(u[m - j..m - j + n + 1]) < B * V
    ensures Val(u) == Val(u[..m - j]) + Pow(m - j) * Val(u[m - j..m - j + n + 1])
  {
    var s := m - j;
    ValSplit(u, s);
    assert u[s..][1..] == u[s + 1..];
    assert u[s..] == u[s..s + n + 1] + Zeros(j);
    ValExtend(u[s..s + n + 1], j);
  }

  lemma {:induction false} LongDivisionStep(
    u0: int, u: seq<Comp>, quotient: seq<Comp>, V: int, n: nat, m: nat, j: nat, t: seq<Comp>, q: Comp)
    requires LongDivision(u0, u, quotient, V, n, m, j) && j <= m
    requires |t| == n + 1 && 0 <= Val(t) < V <= Pow(n)
    requires Val(u[m - j..m - j + n + 1]) == V * q + Val(t)
    ensures LongDivision(u0, u[..m - j] + t + u[m - j + n + 1..], quotient[m - j := q], V, n, m, j + 1)
  {
    var s := m - j;
    var u', quotient' := u[..s] + t + u[s + n + 1..], quotient[s := q];
    WindowBelow(u0, u, quotient, V, n, m, j);
    TopZero(t, n);
    ValSplit(u', s);
    assert u'[..s] == u[..s];
    assert u'[s..] == t + Zeros(j);
    ValExtend(t, j);
    assert quotient'[s..][1..] == quotient[s + 1..];
    StepAlgebra(Val(quotient[s + 1..]), q, Pow(s), Pow(s + 1), V, Val(u[..s]), Val(t), u0);
  }

  /** The same with the digit and the remainder as quotient and remainder. */
  lemma {:induction false} LongDivisionRound(
    u0: int, u: seq<Comp>, quotient: seq<Comp>, V: int, n: nat, m: nat, j: nat, t: seq<Comp>, q: Comp)
    requires LongDivision(u0, u, quotient, V, n, m, j) && j <= m
    requires |t| == n + 1 && 0 < V <= Pow(n)
    requires var T := Val(u[m - j..m - j + n + 1]); q == T / V && Val(t) == T % V
    ensures LongDivision(u0, u[..m - j] + t + u[m - j + n + 1..], quotient[m - j := q], V, n, m, j + 1)
  {
    var T := Val(u[m - j..m - j + n + 1]);
    assert T == V * (T / V) + T % V;
    LongDivisionStep(u0, u, quotient, V, n, m, j, t, q);
  }

  lemma {:induction false} StepAlgebra(Q: int, q: int, p: int, p': int, V: int, low: int, r: int, u0: int)
    requires p' == B * p && u0 == Q * (p' * V) + (low + p * (V * q + r))
    ensures u0 == (q + B * Q) * (p * V) + (low + p * r)
  {
    assert Q * (p' * V) == (B * Q) * (p * V);
    assert p * (V * q + r) == q * (p * V) + p * r;
    assert (q + B * Q) * (p * V) == q * (p * V) + (B * Q) * (p * V);
  }

  /** Digit j: cut the window out of u, divide it, put the remainder back. */
  method DivideRound(u: BigInt, v: BigInt, quotient: BigInt, tmpU: BigInt, m: nat, j: nat, ghost u0: int)
    requires u != v && quotient != v && tmpU != v && u != quotient && u != tmpU && quotient != tmpU
    requires |v.comps| >= 1 && 2 * v.comps[|v.comps| - 1] as int >= B && j <= m
    requires LongDivision(u0, u.comps, quotient.comps, Val(v.comps), |v.comps|, m, j)
    modifies u, v, quotient, tmpU
    ensures v.comps == old(v.comps)
    ensures LongDivision(u0, u.comps, quotient.comps, Val(v.comps), |v.comps|, m, j + 1)
  {
    var n, s := |v.comps|, m - j;
    ghost var V := Val(v.comps);
    WindowBelow(u0, u.comps, quotient.comps, V, n, m, j);
    ValBound(v.comps);
    tmpU.comps := u.comps[s..s + n + 1];
    var q := DivideDigit(tmpU, v);
    LongDivisionRound(u0, u.comps, quotient.comps, V, n, m, j, tmpU.comps, q);
    quotient.comps := quotient.comps[s := q];
    u.comps := u.comps[..s] + tmpU.comps + u.comps[s + n + 1..];
  }

  /** The digit loop: u becomes the remainder, the quotient is returned. */
  method DivideLoop(u: BigInt, v: BigInt) returns (quotient: BigInt)
    requires u != v && 1 <= |v.comps| < |u.comps| && 2 * v.comps[|v.comps| - 1] as int >= B
    requires Val(u.comps[|u.comps| - |v.comps|..]) < Val(v.comps)
    modifies u, v
    ensures v.comps == old(v.comps) && fresh(quotient) && |u.comps| == old(|u.comps|) && Val(v.comps) > 0
    ensures |quotient.comps| == |u.comps| - |v.comps|
    ensures Val(quotient.comps) == old(Val(u.comps)) / Val(v.comps)
    ensures Val(u.comps) == old(Val(u.comps)) % Val(v.comps)
  {
    var n, m := |v.comps|, |u.comps| - |v.comps| - 1;
    quotient := new BigInt(Zeros(m + 1));
    var tmpU := new BigInt(Zeros(n + 1));
    ghost var u0, V, vc := Val(u.comps), Val(v.comps), v.comps;
    LongDivisionStart(u.comps, V, n, m);
    var j := 0;
    while j <= m
      invariant 0 <= j <= m + 1 && v.comps == vc
      invariant LongDivision(u0, u.comps, quotient.comps, V, n, m, j)
    {
      DivideRound(u, v, quotient, tmpU, m, j, u0);
      j := j + 1;
    }
    LongDivisionDone(u0, u.comps, quotient.comps, V, n, m);
  }

  lemma {:induction false} LongDivisionStart(u: seq<Comp>, V: int, n: nat, m: nat)
    requires |u| == n + m + 1 && Val(u[m + 1..]) < V
    ensures LongDivision(Val(u), u, Zeros(m + 1), V, n, m, 0)
  {
    assert Zeros(m + 1)[m + 1..] == [];
    assert Val(Zeros(m + 1)[m + 1..]) * (Pow(m + 1) * V) == 0;
  }

  lemma {:induction false} LongDivisionDone(u0: int, u: seq<Comp>, quotient: seq<Comp>, V: int, n: nat, m: nat)
    requires LongDivision(u0, u, quotient, V, n, m, m + 1)
    ensures V > 0 && Val(quotient) == u0 / V && Val(u) == u0 % V
  {
    assert quotient[0..] == quotient && u[0..] == u;
    assert Pow(0) * V == V;
    DivUnique(u0, V, Val(quotient), Val(u));
  }

  /** The divisor times B / (leading + 1): same size, leading component at
      least B/2. */
  lemma {:induction false} NormalisedDivisor(v: seq<Comp>, w: seq<Comp>, d: int)
    requires Trimmed(v) && 0 < v[|v| - 1] as int < B - 1 && d == B / (v[|v| - 1] as int + 1)
    requires Trimmed(w) && Val(w) == Val(v) * d
    ensures 1 <= d < B && |w| == |v| && 2 * w[|w| - 1] as int >= B
  {
    var n, v1 := |v|, v[|v| - 1] as int;
    var p := Pow(n - 1);
    NormalisingFactor(v1, d);
    TrimmedLower(v);
    NormalisedRange(Val(v), p, v1, d, Val(w));
    NormalisedTop(w, n);
  }

  lemma {:induction false} NormalisedRange(V: int, p: int, v1: int, d: int, W: int)
    requires p > 0 && d >= 1 && p * v1 <= V < p * (v1 + 1) && W == V * d
    requires (v1 + 1) * d <= B <= 2 * (v1 * d)
    ensures W < B * p && p * B <= 2 * W
  {
    MulStrict(d, V, p * (v1 + 1));
    MulMono(p, (v1 + 1) * d, B);
    assert d * (p * (v1 + 1)) == p * ((v1 + 1) * d);
    MulMono(d, p * v1, V);
    MulMono(p, B, 2 * (v1 * d));
    assert d * (p * v1) == p * (v1 * d);
  }

  lemma {:induction false} NormalisedTop(w: seq<Comp>, n: nat)
    requires Trimmed(w) && n >= 1 && Pow(n - 1) * B <= 2 * Val(w) && Val(w) < B * Pow(n - 1)
    ensures |w| == n && 2 * w[n - 1] as int >= B
  {
    ValBound(w);
    if |w| < n { PowMono(|w|, n - 1); }
    LeadingNonzero(w);
    TrimmedLower(w);
    if |w| > n { PowMono(n, |w| - 1); }
    LeadingHalf(Pow(n - 1), w[n - 1], Val(w));
  }

  lemma {:induction false} LeadingHalf(p: int, top: int, W: int)
    requires p > 0 && p * B <= 2 * W && W < p * (top + 1)
    ensures 2 * top >= B
  {
    assert p * (2 * (top + 1)) == 2 * (p * (top + 1));
    MulCancel(p, B, 2 * (top + 1));
  }

  /** The numerator times d, given one more component than before, starts
      below the normalised divisor. */
  lemma {:induction false} NormalisedNumerator(u: seq<Comp>, x: seq<Comp>, v: seq<Comp>, w: seq<Comp>, d: int)
    requires Trimmed(v) && v[|v| - 1] != 0 && |u| >= |v| && d >= 1
    requires |x| == |u| + 1 && Val(x) == Val(u) * d && Val(w) == Val(v) * d
    ensures Val(x[|u| + 1 - |v|..]) < Val(w)
  {
    var n, s := |v|, |u| + 1 - |v|;
    ValBound(u);
    TrimmedLower(v);
    PowAdd(s, n - 1);
    NumeratorRange(Val(u), Pow(|u|), Val(v), Pow(n - 1), Pow(s), d, Val(x), Val(w));
    ValDivMod(x, s);
    QuotientBelow(Val(x), Pow(s), Val(w));
  }

  lemma {:induction false} NumeratorRange(U: int, pu: int, V: int, pn: int, ps: int, d: int, X: int, W: int)
    requires d >= 1 && ps > 0 && U < pu == ps * pn && pn <= V && X == U * d && W == V * d
    ensures X < ps * W
  {
    MulStrict(d, U, pu);
    MulMono(ps, pn, V);
    MulMono(d, ps * pn, ps * V);
    assert d * (ps * V) == ps * W;
  }

  lemma {:induction false} ScaledDivision(U: int, V: int, d: int)
    requires V > 0 && d > 0
    ensures V * d > 0
    ensures (U * d) / (V * d) == U / V && (U * d) % (V * d) / d == U % V
  {
    var q, r := U / V, U % V;
    assert U == V * q + r;
    MulStrict(d, 0, V);
    MulStrict(d, r, V);
    MulMono(d, 0, r);
    assert U * d == q * (V * d) + r * d;
    DivUnique(U * d, V * d, q, r * d);
    DivUnique(r * d, d, r, 0);
  }

  datatype Outcome = Done(value: BigInt) | DivideByZero

  /** The leading component plus one, in 32-bit arithmetic. */
  function Successor(c: Comp): (s: int)
    ensures 0 <= s < B
    ensures s == 0 <==> c as int == B - 1
  {
    (c as int + 1) % B
  }

  class Context {
    var biMod: BigInt?
    var normalisedMod: BigInt?
    var mu: BigInt?
    var g: BigInt?

    /** Nothing prepared yet. */
    constructor ()
      ensures biMod == null && normalisedMod == null && mu == null && g == null
    {
      biMod, normalisedMod, mu, g := null, null, null, null;
    }

    /** What bi_divide relies on in mod mode. */
    ghost predicate ModReady()
      reads this, biMod, normalisedMod
    {
      && biMod != null && normalisedMod != null && biMod != normalisedMod
      && Trimmed(biMod.comps) && 0 < biMod.comps[|biMod.comps| - 1] as int < B - 1
      && Trimmed(normalisedMod.comps)
      && Val(normalisedMod.comps) == Val(biMod.comps) * (B / (biMod.comps[|biMod.comps| - 1] as int + 1))
    }

    /** The quotient, or in mod mode the remainder, of u by v. The scale factor
        B / (leading + 1) is computed in 32 bits: a divisor whose leading
        component is 2^32 - 1 makes it a division by zero. */
    method Divide(u: BigInt, v: BigInt, isMod: bool) returns (r: Outcome)
      requires u != v && u != normalisedMod && v != normalisedMod
      requires Trimmed(u.comps) && Trimmed(v.comps) && Val(v.comps) > 0
      requires isMod ==> ModReady() && v == biMod
      requires !isMod ==> |u.comps| >= |v.comps|
      modifies u, v, normalisedMod
      ensures v.comps == old(v.comps)
      ensures normalisedMod != null ==> normalisedMod.comps == old(normalisedMod.comps)
      ensures r.DivideByZero? <==>
                (!isMod || old(Val(u.comps)) >= Val(v.comps)) && v.comps[|v.comps| - 1] as int == B - 1
      ensures r.Done? ==> (r.value == u || fresh(r.value)) && Trimmed(r.value.comps)
      ensures r.Done? && isMod ==> Val(r.value.comps) == old(Val(u.comps)) % Val(v.comps)
      ensures r.Done? && !isMod ==> Val(r.value.comps) == old(Val(u.comps)) / Val(v.comps)
    {
      ghost var U, V, u0, v0 := Val(u.comps), Val(v.comps), u.comps, v.comps;
      if isMod {
        var c := Compare(v, u);
        if c > 0 {
          DivZero(U, V);
          return Done(u);
        }
        if |u.comps| < |v.comps| { SizeOrder(u.comps, v.comps); }
      }
      LeadingNonzero(v.comps);
      var divisor := Successor(v.comps[|v.comps| - 1]);
      if divisor == 0 {
        return DivideByZero;
      }
      var d := B / divisor;
      NormalisingFactor(v.comps[|v.comps| - 1], d);
      r := DivideScaled(u, v, isMod, d);
    }

    method DivideScaled(u: BigInt, v: BigInt, isMod: bool, d: Comp) returns (r: Outcome)
      requires u != v && u != normalisedMod && v != normalisedMod && |u.comps| >= |v.comps|
      requires Trimmed(u.comps) && Trimmed(v.comps) && 0 < v.comps[|v.comps| - 1] as int < B - 1
      requires d as int == B / (v.comps[|v.comps| - 1] as int + 1) >= 1
      requires isMod ==> ModReady() && v == biMod
      modifies u, v, normalisedMod
      ensures v.comps == old(v.comps) && Val(v.comps) > 0
      ensures normalisedMod != null ==> normalisedMod.comps == old(normalisedMod.comps)
      ensures r.Done? && (r.value == u || fresh(r.value)) && Trimmed(r.value.comps)
      ensures isMod ==> Val(r.value.comps) == old(Val(u.comps)) % Val(v.comps)
      ensures !isMod ==> Val(r.value.comps) == old(Val(u.comps)) / Val(v.comps)
    {
      ghost var U, V, u0 := Val(u.comps), Val(v.comps), u.comps;
      TrimmedLower(v.comps);
      var x, w := Normalise(u, v, isMod, d);
      NormalisedDivisor(v.comps, w.comps, d);
      NormalisedNumerator(u0, x.comps, v.comps, w.comps, d);
      ScaledDivision(U, V, d);
      var quotient := DivideLoop(x, w);
      if isMod {
        Trim(x);
        IntDivide(x, d);
        r := Done(x);
      } else {
        Trim(quotient);
        r := Done(quotient);
      }
    }

    /** Scaled copies of both operands; u itself when the factor is 1. The
        numerator gains exactly one component. */
    method Normalise(u: BigInt, v: BigInt, isMod: bool, d: int) returns (x: BigInt, w: BigInt)
      requires u != v && u != normalisedMod && v != normalisedMod
      requires Trimmed(u.comps) && Trimmed(v.comps) && 0 < v.comps[|v.comps| - 1] as int < B - 1
      requires d == B / (v.comps[|v.comps| - 1] as int + 1) && 1 <= d < B
      requires isMod ==> ModReady() && v == biMod
      modifies u
      ensures x == u || fresh(x)
      ensures w == v || (isMod && w == normalisedMod) || fresh(w)
      ensures x != w && |x.comps| == old(|u.comps|) + 1 && Val(x.comps) == old(Val(u.comps)) * d
      ensures Trimmed(w.comps) && Val(w.comps) == Val(v.comps) * d
    {
      x, w := u, v;
      var size := |u.comps|;
      if d > 1 {
        x := IntMultiply(u, d);
        ProductSize(u.comps, x.comps, d);
        if isMod {
          w := normalisedMod;
        } else {
          w := IntMultiply(v, d);
        }
      }
      if |x.comps| == size {
        ResizeVal(x.comps, size + 1);
        MoreComps(x, size + 1);
      }
    }
  }

  lemma {:induction false} LeadingNonzero(v: seq<Comp>)
    requires Trimmed(v) && Val(v) > 0
    ensures v[|v| - 1] != 0
  {
    if |v| == 1 { assert v[1..] == []; }
  }

  lemma {:induction false} ProductSize(u: seq<Comp>, x: seq<Comp>, d: int)
    requires Trimmed(u) && Trimmed(x) && d >= 1 && Val(x) == Val(u) * d
    ensures |x| >= |u|
  {
    MulMono(Val(u), 1, d);
    if |x| < |u| { SizeOrder(x, u); }
  }
}
