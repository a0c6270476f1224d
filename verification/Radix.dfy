/** Positional notation in base 2^32, least significant component first. */
module Radix {

  const B: int := 0x1_0000_0000

  type Comp = c: int | 0 <= c < 0x1_0000_0000

  /** B to the power n. */
  function Pow(n: nat): (p: int)
    ensures p >= 1
  {
    if n == 0 then 1 else B * Pow(n - 1)
  }

  /** The number a component sequence stands for. */
  function Val(s: seq<Comp>): (v: int)
    ensures v >= 0
  {
    if |s| == 0 then 0 else s[0] + B * Val(s[1..])
  }

  function Zeros(n: nat): (z: seq<Comp>)
    ensures |z| == n && forall i | 0 <= i < n :: z[i] == 0
  {
    seq(n, _ => 0)
  }

  /** No leading zero component, and at least one component. */
  predicate Trimmed(s: seq<Comp>) {
    |s| >= 1 && (|s| > 1 ==> s[|s| - 1] != 0)
  }

  lemma {:induction false} MulMono(a: int, x: int, y: int)
    requires 0 <= a && x <= y
    ensures a * x <= a * y
  {}

  /** Only the multiple 0 of p lies strictly between -p and p. */
  lemma {:induction false} SmallMultiple(p: int, q: int)
    requires p > 0 && -p < p * q < p
    ensures q == 0
  {
    if q > 0 { MulMono(p, 1, q); }
    if q < 0 { MulMono(p, q, -1); }
  }

  lemma {:induction false} DivUnique(x: int, d: int, q: int, r: int)
    requires d > 0 && x == q * d + r && 0 <= r < d
    ensures x / d == q && x % d == r
  {
    assert d * (x / d - q) == r - x % d;
    SmallMultiple(d, x / d - q);
  }

  /** Adding a multiple of the modulus changes the quotient only. */
  lemma {:induction false} ModShift(x: int, d: int, k: int)
    requires d > 0
    ensures (x + k * d) % d == x % d && (x + k * d) / d == x / d + k
  {
    DivUnique(x + k * d, d, x / d + k, x % d);
  }

  lemma {:induction false} PowAdd(m: nat, n: nat)
    ensures Pow(m + n) == Pow(m) * Pow(n)
  {
    if m > 0 {
      PowAdd(m - 1, n);
      assert Pow(m + n) == B * (Pow(m - 1) * Pow(n));
    }
  }

  lemma {:induction false} PowMono(m: nat, n: nat)
    requires m <= n
    ensures Pow(m) <= Pow(n)
  {
    PowAdd(m, n - m);
    MulMono(Pow(m), 1, Pow(n - m));
  }

  lemma {:induction false} ValAppend(s: seq<Comp>, t: seq<Comp>)
    ensures Val(s + t) == Val(s) + Pow(|s|) * Val(t)
  {
    if |s| == 0 {
      assert s + t == t;
    } else {
      ValAppend(s[1..], t);
      assert (s + t)[1..] == s[1..] + t;
      assert B * (Pow(|s| - 1) * Val(t)) == Pow(|s|) * Val(t);
    }
  }

  lemma {:induction false} ValSnoc(s: seq<Comp>, c: Comp)
    ensures Val(s + [c]) == Val(s) + Pow(|s|) * c
  {
    ValAppend(s, [c]);
    assert [c][1..] == [];
    assert Val([c]) == c;
  }

  lemma {:induction false} ValSplit(s: seq<Comp>, i: nat)
    requires i <= |s|
    ensures Val(s) == Val(s[..i]) + Pow(i) * Val(s[i..])
  {
    ValAppend(s[..i], s[i..]);
    assert s[..i] + s[i..] == s;
  }

  /** One more component of a prefix. */
  lemma {:induction false} ValTake(s: seq<Comp>, i: nat)
    requires i < |s|
    ensures Val(s[..i + 1]) == Val(s[..i]) + Pow(i) * s[i]
  {
    assert s[..i + 1] == s[..i] + [s[i]];
    ValSnoc(s[..i], s[i]);
  }

  lemma {:induction false} ValBound(s: seq<Comp>)
    ensures Val(s) < Pow(|s|)
  {
    if |s| > 0 { ValBound(s[1..]); }
  }

  lemma {:induction false} ValZeros(n: nat)
    ensures Val(Zeros(n)) == 0
  {
    if n > 0 {
      ValZeros(n - 1);
      assert Zeros(n)[1..] == Zeros(n - 1);
    }
  }

  lemma {:induction false} ValExtend(s: seq<Comp>, n: nat)
    ensures Val(s + Zeros(n)) == Val(s)
  {
    ValAppend(s, Zeros(n));
    ValZeros(n);
  }

  /** A trimmed number with more than one component is at least B^(size-1). */
  lemma {:induction false} TrimmedLower(s: seq<Comp>)
    requires |s| >= 1 && s[|s| - 1] != 0
    ensures Pow(|s| - 1) <= Val(s)
    ensures Pow(|s| - 1) * s[|s| - 1] <= Val(s) < Pow(|s| - 1) * (s[|s| - 1] as int + 1)
  {
    var n := |s| - 1;
    ValTake(s, n);
    assert s[..n + 1] == s;
    ValBound(s[..n]);
    MulMono(Pow(n), 1, s[n]);
  }

  /** The most significant component and the size decide the order. */
  lemma {:induction false} SizeOrder(s: seq<Comp>, t: seq<Comp>)
    requires Trimmed(s) && Trimmed(t) && |s| < |t|
    ensures Val(s) < Val(t)
  {
    ValBound(s);
    PowMono(|s|, |t| - 1);
    TrimmedLower(t);
  }

  /** Equal length and equal value mean equal components. */
  lemma {:induction false} ValInjective(s: seq<Comp>, t: seq<Comp>)
    requires |s| == |t| && Val(s) == Val(t)
    ensures s == t
  {
    if |s| > 0 {
      SmallMultiple(B, Val(t[1..]) - Val(s[1..]));
      ValInjective(s[1..], t[1..]);
      assert s == [s[0]] + s[1..] && t == [t[0]] + t[1..];
    }
  }

  /** The trimmed components of a number. */
  function Comps(v: nat): (s: seq<Comp>)
    ensures Trimmed(s) && Val(s) == v && (v > 0 ==> s[|s| - 1] != 0)
    decreases v
  {
    if v < B then
      assert [v][1..] == [];
      [v]
    else
      QuotientAtLeast(v, B, 1);
      var rest := Comps(v / B);
      assert ([v % B] + rest)[1..] == rest;
      [v % B] + rest
  }

  /** Trimmed representations are unique. */
  lemma {:induction false} TrimmedInjective(s: seq<Comp>, t: seq<Comp>)
    requires Trimmed(s) && Trimmed(t) && Val(s) == Val(t)
    ensures s == t
  {
    if |s| < |t| { SizeOrder(s, t); }
    if |t| < |s| { SizeOrder(t, s); }
    ValInjective(s, t);
  }

  /** Cutting a number at a component is division by a power of the radix. */
  lemma {:induction false} ValDivMod(s: seq<Comp>, i: nat)
    requires i <= |s|
    ensures Val(s) / Pow(i) == Val(s[i..]) && Val(s) % Pow(i) == Val(s[..i])
  {
    ValSplit(s, i);
    ValBound(s[..i]);
    DivUnique(Val(s), Pow(i), Val(s[i..]), Val(s[..i]));
  }

  lemma {:induction false} DivZero(x: int, d: int)
    requires 0 <= x < d
    ensures x / d == 0 && x % d == x
  {
    DivUnique(x, d, 0, x);
  }

  lemma {:induction false} MulCancel(p: int, x: int, y: int)
    requires p > 0 && p * x < p * y
    ensures x < y
  {
    if y <= x { MulMono(p, y, x); }
  }

  lemma {:induction false} MulCancelLe(p: int, x: int, y: int)
    requires p > 0 && p * x <= p * y
    ensures x <= y
  {
    MulCancel(p, x, y + 1) by { assert p * (y + 1) == p * y + p; }
  }

  lemma {:induction false} MulStrict(p: int, x: int, y: int)
    requires p > 0 && x < y
    ensures p * x < p * y
  {
    MulMono(p, x + 1, y);
  }

  lemma {:induction false} QuotientAtLeast(x: int, d: int, q: int)
    requires d > 0 && d * q <= x
    ensures q <= x / d
  {
    assert x < d * (x / d) + d;
    MulCancel(d, q, x / d + 1);
  }

  lemma {:induction false} QuotientBelow(x: int, d: int, q: int)
    requires d > 0 && x < d * q
    ensures x / d < q
  {
    assert d * (x / d) <= x;
    MulCancel(d, x / d, q);
  }

  lemma {:induction false} ValTwo(a: Comp, b: Comp)
    ensures Val([a, b]) == a + B * b
  {
    assert [a, b] == [a] + [b] && [a][1..] == [];
    ValSnoc([a], b);
    assert Pow(1) == B * Pow(0);
  }

  lemma {:induction false} ValThree(a: Comp, b: Comp, c: Comp)
    ensures Val([a, b, c]) == a + B * (b + B * c)
  {
    assert [a, b, c][1..] == [b, c];
    ValTwo(b, c);
  }
}
