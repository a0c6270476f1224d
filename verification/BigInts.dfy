/** The big-integer objects of bigint.c and their linear-time operations.
    An operation that works in place changes `comps` of its argument; the
    number of components is `|comps|`. */
module BigInts {
  import opened Radix

  class BigInt {
    var comps: seq<Comp>

    constructor (c: seq<Comp>)
      ensures comps == c
    {
      comps := c;
    }
  }

  /** What more_comps leaves: n components, zero-filled or cut off. */
  function Resize(s: seq<Comp>, n: nat): (r: seq<Comp>)
    ensures |r| == n
  {
    if n <= |s| then s[..n] else s + Zeros(n - |s|)
  }

  lemma {:induction false} ResizeVal(s: seq<Comp>, n: nat)
    requires |s| <= n
    ensures Val(Resize(s, n)) == Val(s)
  {
    ValExtend(s, n - |s|);
    assert s[..|s|] == s;
  }

  /** Dropping high components is reduction modulo a power of the radix. */
  lemma {:induction false} ResizeMod(s: seq<Comp>, n: nat)
    ensures Val(Resize(s, n)) == Val(s) % Pow(n)
  {
    ValBound(Resize(s, n));
    if n <= |s| {
      ValDivMod(s, n);
    } else {
      ResizeVal(s, n);
      DivZero(Val(s), Pow(n));
    }
  }

  method MoreComps(bi: BigInt, n: nat)
    modifies bi
    ensures bi.comps == Resize(old(bi.comps), n)
  {
    if n > |bi.comps| {
      bi.comps := bi.comps + Zeros(n - |bi.comps|);
    }
    bi.comps := bi.comps[..n];
  }

  method Trim(bi: BigInt)
    requires |bi.comps| >= 1
    modifies bi
    ensures Trimmed(bi.comps) && bi.comps <= old(bi.comps)
    ensures Val(bi.comps) == Val(old(bi.comps))
  {
    while bi.comps[|bi.comps| - 1] == 0 && |bi.comps| > 1
      invariant 1 <= |bi.comps| && bi.comps <= old(bi.comps)
      invariant Val(bi.comps) == Val(old(bi.comps))
      decreases |bi.comps|
    {
      ValTake(bi.comps, |bi.comps| - 1);
      assert bi.comps[..|bi.comps| - 1 + 1] == bi.comps;
      bi.comps := bi.comps[..|bi.comps| - 1];
    }
  }

  /** Overflow detection by comparing against an operand: the stored digit and
      the carry are the exact sum. */
  lemma {:induction false} CarryStep(x: Comp, y: Comp, carry: int, sl: int, rl: int)
    requires 0 <= carry <= 1
    requires sl == (x + y) % B && rl == (sl + carry) % B
    ensures x + y + carry == rl + B * (if sl < x || rl < sl then 1 else 0)
  {}

  lemma {:induction false} BorrowStep(x: Comp, y: Comp, carry: int, sl: int, rl: int)
    requires 0 <= carry <= 1
    requires sl == (x - y) % B && rl == (sl - carry) % B
    ensures x - y - carry == rl - B * (if sl > x || rl > sl then 1 else 0)
  {}

  /** Digit position p of a carry chain: the pending carry c moves into the
      stored digit and the carry c' of the next position p'. */
  lemma {:induction false} ChainStep(
    p: int, p': int, done: int, digit: int, c: int, c': int, x: int, y: int, total: int)
    requires x + y + c == digit + B * c' && p' == B * p
    requires done + p * c == total
    ensures (done + p * digit) + p' * c' == total + p * x + p * y
  {
    assert p * (x + y + c) == p * digit + (p * B) * c';
    assert p * (x + y + c) == p * x + p * y + p * c;
  }

  /** Positions below i of `a` and the carry c hold the sum of the low parts
      of a0 and b0; the rest of `a` is untouched. */
  ghost predicate SumBelow(a: seq<Comp>, a0: seq<Comp>, b0: seq<Comp>, i: nat, c: int) {
    && i <= |b0| && |a| == |a0| == |b0| + 1 && 0 <= c <= 1
    && (forall k | i <= k <= |b0| :: a[k] == a0[k])
    && Val(a[..i]) + Pow(i) * c == Val(a0[..i]) + Val(b0[..i])
  }

  ghost predicate DifferenceBelow(a: seq<Comp>, a0: seq<Comp>, b0: seq<Comp>, i: nat, c: int) {
    && i <= |b0| && |a| == |a0| == |b0| && 0 <= c <= 1
    && (forall k | i <= k < |b0| :: a[k] == a0[k])
    && Val(a[..i]) - Pow(i) * c == Val(a0[..i]) - Val(b0[..i])
  }

  /** bia := bia + bib; bib is left padded to the common size. */
  method Add(a: BigInt, b: BigInt)
    requires a != b && |a.comps| >= 1 && |b.comps| >= 1
    modifies a, b
    ensures Val(a.comps) == old(Val(a.comps)) + old(Val(b.comps))
    ensures Trimmed(a.comps)
    ensures b.comps == Resize(old(b.comps), if |old(a.comps)| > |old(b.comps)| then |old(a.comps)| else |old(b.comps)|)
  {
    var n := if |a.comps| > |b.comps| then |a.comps| else |b.comps|;
    ResizeVal(a.comps, n + 1);
    ResizeVal(b.comps, n);
    MoreComps(a, n + 1);
    MoreComps(b, n);
    ghost var a0, b0 := a.comps, b.comps;
    var i, carry: int := 0, 0;
    while i < n
      invariant 0 <= i <= n && b.comps == b0 && SumBelow(a.comps, a0, b0, i, carry)
    {
      var x: int := a.comps[i];
      var sl := (x + b.comps[i]) % B;
      var rl := (sl + carry) % B;
      AddStep(a.comps, a0, b0, i, carry, sl, rl);
      carry := if sl < x || rl < sl then 1 else 0;
      a.comps := a.comps[i := rl];
      i := i + 1;
    }
    AddDone(a.comps, a0, b0, carry);
    a.comps := a.comps[i := carry];
    Trim(a);
  }

  lemma {:induction false} AddStep(a: seq<Comp>, a0: seq<Comp>, b0: seq<Comp>, i: nat, c: int, sl: int, rl: int)
    requires i < |b0| && SumBelow(a, a0, b0, i, c)
    requires sl == (a[i] as int + b0[i]) % B && rl == (sl + c) % B
    ensures SumBelow(a[i := rl], a0, b0, i + 1, if sl < a[i] || rl < sl then 1 else 0)
  {
    var c' := if sl < a[i] || rl < sl then 1 else 0;
    CarryStep(a[i], b0[i], c, sl, rl);
    ValTake(a[i := rl], i);
    ValTake(a0, i);
    ValTake(b0, i);
    assert a[i := rl][..i] == a[..i];
    ChainStep(Pow(i), Pow(i + 1), Val(a[..i]), rl, c, c', a0[i], b0[i], Val(a0[..i]) + Val(b0[..i]));
  }

  lemma {:induction false} AddDone(a: seq<Comp>, a0: seq<Comp>, b0: seq<Comp>, c: int)
    requires SumBelow(a, a0, b0, |b0|, c) && a0[|b0|] == 0
    ensures Val(a[|b0| := c]) == Val(a0) + Val(b0)
  {
    var n := |b0|;
    var a' := a[n := c];
    ValTake(a0, n);
    ValTake(a', n);
    assert a0[..n + 1] == a0 && b0[..n] == b0 && a'[..n + 1] == a' && a'[..n] == a[..n];
  }

  /** bia := bia - bib over bia's size, wrapping; the final borrow is reported.
      bib is cut or padded to that size and trimmed again. */
  method Subtract(a: BigInt, b: BigInt) returns (negative: bool)
    requires a != b && |a.comps| >= 1 && |b.comps| >= 1
    modifies a, b
    ensures Val(a.comps) == old(Val(a.comps)) - old(Val(Resize(b.comps, |a.comps|)))
              + (if negative then Pow(old(|a.comps|)) else 0)
    ensures Trimmed(a.comps) && |a.comps| <= old(|a.comps|)
    ensures Trimmed(b.comps) && Val(b.comps) == old(Val(Resize(b.comps, |a.comps|)))
  {
    var n := |a.comps|;
    MoreComps(b, n);
    ghost var a0, b0 := a.comps, b.comps;
    var i, carry: int := 0, 0;
    while i < n
      invariant 0 <= i <= n && b.comps == b0 && DifferenceBelow(a.comps, a0, b0, i, carry)
    {
      var x: int := a.comps[i];
      var sl := (x - b.comps[i]) % B;
      var rl := (sl - carry) % B;
      SubtractStep(a.comps, a0, b0, i, carry, sl, rl);
      carry := if sl > x || rl > sl then 1 else 0;
      a.comps := a.comps[i := rl];
      i := i + 1;
    }
    assert a.comps[..n] == a.comps && a0[..n] == a0 && b0[..n] == b0;
    negative := carry == 1;
    Trim(b);
    Trim(a);
  }

  lemma {:induction false} SubtractStep(a: seq<Comp>, a0: seq<Comp>, b0: seq<Comp>, i: nat, c: int, sl: int, rl: int)
    requires i < |b0| && DifferenceBelow(a, a0, b0, i, c)
    requires sl == (a[i] as int - b0[i]) % B && rl == (sl - c) % B
    ensures DifferenceBelow(a[i := rl], a0, b0, i + 1, if sl > a[i] || rl > sl then 1 else 0)
  {
    var c' := if sl > a[i] || rl > sl then 1 else 0;
    BorrowStep(a[i], b0[i], c, sl, rl);
    ValTake(a[i := rl], i);
    ValTake(a0, i);
    ValTake(b0, i);
    assert a[i := rl][..i] == a[..i];
    BorrowChain(Pow(i), Pow(i + 1), Val(a[..i]), rl, c, c', a0[i], b0[i], Val(a0[..i]) - Val(b0[..i]));
  }

  lemma {:induction false} BorrowChain(
    p: int, p': int, done: int, digit: int, c: int, c': int, x: int, y: int, total: int)
    requires x - y - c == digit - B * c' && p' == B * p
    requires done - p * c == total
    ensures (done + p * digit) - p' * c' == total + p * x - p * y
  {
    assert p * (x - y - c) == p * digit - (p * B) * c';
    assert p * (x - y - c) == p * x - p * y - p * c;
  }

  /** A fresh bigint holding bia * b. */
  method IntMultiply(a: BigInt, b: Comp) returns (r: BigInt)
    requires |a.comps| >= 1
    ensures fresh(r) && Trimmed(r.comps) && |r.comps| <= |a.comps| + 1
    ensures Val(r.comps) == Val(a.comps) * b
  {
    var n := |a.comps|;
    r := new BigInt(Zeros(n + 1));
    var j, carry: Comp := 0, 0;
    while j < n
      invariant 0 <= j <= n && |r.comps| == n + 1
      invariant forall k | j <= k <= n :: r.comps[k] == 0
      invariant Val(r.comps[..j]) + Pow(j) * carry == Val(a.comps[..j]) * b
    {
      var tmp := r.comps[j] as int + a.comps[j] as int * b as int + carry as int;
      LongComp(a.comps[j], b, carry);
      MultiplyStep(r.comps, a.comps, b, j, carry, tmp);
      r.comps := r.comps[j := tmp % B];
      carry := tmp / B;
      j := j + 1;
    }
    assert a.comps[..n] == a.comps;
    ghost var r0 := r.comps;
    r.comps := r.comps[j := carry];
    ValTake(r.comps, n);
    assert r.comps[..n + 1] == r.comps && r.comps[..n] == r0[..n];
    Trim(r);
  }

  /** A digit product plus two digits fits a double component. */
  lemma {:induction false} LongComp(x: Comp, y: Comp, c: Comp)
    ensures 0 <= x as int * y as int + c as int + B - 1 < B * B
  {
    MulMono(x, 0, y);
    MulMono(x, y, B - 1);
    MulMono(B - 1, x, B - 1);
  }

  lemma {:induction false} MultiplyStep(r: seq<Comp>, a: seq<Comp>, b: Comp, j: nat, c: int, tmp: int)
    requires j < |a| && |r| == |a| + 1
    requires Val(r[..j]) + Pow(j) * c == Val(a[..j]) * b
    requires tmp == a[j] as int * b as int + c && 0 <= tmp < B * B
    ensures Val(r[j := tmp % B][..j + 1]) + Pow(j + 1) * (tmp / B) == Val(a[..j + 1]) * b
  {
    var r' := r[j := tmp % B];
    ValTake(r', j);
    ValTake(a, j);
    assert r'[..j] == r[..j];
    ScaleChain(Pow(j), Pow(j + 1), Val(r[..j]), tmp % B, c, tmp / B, a[j], b, Val(a[..j]));
  }

  lemma {:induction false} ScaleChain(p: int, p': int, done: int, digit: int, c: int, c': int, x: int, b: int, av: int)
    requires x * b + c == digit + B * c' && p' == B * p
    requires done + p * c == av * b
    ensures (done + p * digit) + p' * c' == (av + p * x) * b
  {
    ChainStep(p, p', done, digit, c, c', x * b, 0, av * b);
    assert (av + p * x) * b == av * b + p * (x * b);
  }

  /** biR := biR / denom, long division by one component. */
  method IntDivide(bi: BigInt, denom: Comp)
    requires |bi.comps| >= 1 && denom > 0
    modifies bi
    ensures Val(bi.comps) == old(Val(bi.comps)) / denom && Trimmed(bi.comps)
  {
    var n := |bi.comps|;
    ghost var s := bi.comps;
    var i, r: int := n - 1, 0;
    assert s[n..] == [] && bi.comps[n..] == [];
    while i >= 0
      invariant -1 <= i < n && |bi.comps| == n && 0 <= r < denom
      invariant forall k | 0 <= k <= i :: bi.comps[k] == s[k]
      invariant Val(s[i + 1..]) == Val(bi.comps[i + 1..]) * denom + r
    {
      var r' := r * B + bi.comps[i];
      DigitQuotient(r, bi.comps[i], denom);
      DivideStep(bi.comps, s, i, denom, r);
      bi.comps := bi.comps[i := r' / denom];
      r := r' % denom;
      i := i - 1;
    }
    assert s[0..] == s && bi.comps[0..] == bi.comps;
    DivUnique(Val(s), denom, Val(bi.comps), r);
    Trim(bi);
  }

  lemma {:induction false} DigitQuotient(r: int, x: Comp, d: int)
    requires 0 <= r < d
    ensures 0 <= (r * B + x) / d < B
  {
    var y := r * B + x;
    MulMono(B, r + 1, d);
    assert d * (y / d) <= y < d * B;
  }

  lemma {:induction false} DivideStep(q: seq<Comp>, s: seq<Comp>, i: nat, d: int, r: int)
    requires i < |s| == |q| && 0 <= r < d
    requires Val(s[i + 1..]) == Val(q[i + 1..]) * d + r
    requires 0 <= (r * B + s[i]) / d < B
    ensures Val(s[i..]) == Val(q[i := (r * B + s[i]) / d][i..]) * d + (r * B + s[i]) % d
  {
    var y := r * B + s[i];
    var q' := q[i := y / d];
    assert s[i..][1..] == s[i + 1..] && q'[i..][1..] == q[i + 1..];
    QuotientChain(y / d, Val(q[i + 1..]), d, r, y % d, s[i], Val(s[i + 1..]));
  }

  lemma {:induction false} QuotientChain(digit: int, qv: int, d: int, r: int, r': int, x: int, sv: int)
    requires r * B + x == d * digit + r' && sv == qv * d + r
    ensures x + B * sv == (digit + B * qv) * d + r'
  {
    assert (digit + B * qv) * d == d * digit + B * (qv * d);
  }

  /** Sign of bia - bib for numbers without leading zeros, or of equal size. */
  method Compare(a: BigInt, b: BigInt) returns (r: int)
    requires |a.comps| >= 1 && |b.comps| >= 1
    requires (Trimmed(a.comps) && Trimmed(b.comps)) || |a.comps| == |b.comps|
    ensures r == if Val(a.comps) > Val(b.comps) then 1 else if Val(a.comps) < Val(b.comps) then -1 else 0
  {
    if |a.comps| > |b.comps| {
      SizeOrder(b.comps, a.comps);
      return 1;
    } else if |a.comps| < |b.comps| {
      SizeOrder(a.comps, b.comps);
      return -1;
    }
    var i := |a.comps| - 1;
    while i >= 0
      invariant -1 <= i < |a.comps|
      invariant forall k | i < k < |a.comps| :: a.comps[k] == b.comps[k]
    {
      if a.comps[i] > b.comps[i] {
        TopDecides(b.comps, a.comps, i);
        return 1;
      } else if a.comps[i] < b.comps[i] {
        TopDecides(a.comps, b.comps, i);
        return -1;
      }
      i := i - 1;
    }
    assert a.comps == b.comps;
    return 0;
  }

  lemma {:induction false} TopDecides(s: seq<Comp>, t: seq<Comp>, i: nat)
    requires i < |s| == |t| && s[i] < t[i] && forall k | i < k < |s| :: s[k] == t[k]
    ensures Val(s) < Val(t)
  {
    ValSplit(s, i + 1);
    ValSplit(t, i + 1);
    assert s[i + 1..] == t[i + 1..];
    ValTake(s, i);
    ValTake(t, i);
    ValBound(s[..i]);
    MulMono(Pow(i), s[i] as int + 1, t[i]);
    assert Pow(i) * (s[i] as int + 1) == Pow(i) * s[i] + Pow(i);
  }

  method CompRightShift(bi: BigInt, shifts: nat)
    requires |bi.comps| >= 1
    modifies bi
    ensures Val(bi.comps) == old(Val(bi.comps)) / Pow(shifts)
    ensures bi.comps == (if shifts < old(|bi.comps|) then old(bi.comps)[shifts..] else [0])
  {
    ghost var s := bi.comps;
    if |bi.comps| <= shifts {
      bi.comps := [0];
      ValBound(s);
      PowMono(|s|, shifts);
      DivZero(Val(s), Pow(shifts));
      assert [0][1..] == [];
      return;
    }
    var i, n := 0, |bi.comps| - shifts;
    while i < n
      invariant 0 <= i <= n && |bi.comps| == |s|
      invariant forall k | 0 <= k < i :: bi.comps[k] == s[k + shifts]
      invariant forall k | i <= k < |s| :: bi.comps[k] == s[k]
    {
      bi.comps := bi.comps[i := bi.comps[i + shifts]];
      i := i + 1;
    }
    bi.comps := bi.comps[..n];
    assert bi.comps == s[shifts..];
    ValDivMod(s, shifts);
  }

  method CompLeftShift(bi: BigInt, shifts: nat)
    requires |bi.comps| >= 1
    modifies bi
    ensures bi.comps == Zeros(shifts) + old(bi.comps)
    ensures Val(bi.comps) == old(Val(bi.comps)) * Pow(shifts)
  {
    ghost var s := bi.comps;
    ValAppend(Zeros(shifts), s);
    ValZeros(shifts);
    if shifts == 0 {
      assert Zeros(0) + s == s;
      return;
    }
    var i := |bi.comps| - 1;
    MoreComps(bi, |bi.comps| + shifts);
    while i >= 0
      invariant -1 <= i < |s| && |bi.comps| == |s| + shifts
      invariant forall k | i < k < |s| :: bi.comps[k + shifts] == s[k]
      invariant forall k | 0 <= k <= i :: bi.comps[k] == s[k]
    {
      bi.comps := bi.comps[i + shifts := bi.comps[i]];
      i := i - 1;
    }
    bi.comps := Zeros(shifts) + bi.comps[shifts..];
    assert bi.comps == Zeros(shifts) + s;
  }

  /** comp_mod: keep the low components only. */
  method CompMod(bi: BigInt, size: nat)
    requires |bi.comps| >= 1 && size >= 1
    modifies bi
    ensures |bi.comps| == (if old(|bi.comps|) < size then old(|bi.comps|) else size)
    ensures bi.comps <= old(bi.comps) && Val(bi.comps) == old(Val(bi.comps)) % Pow(size)
  {
    ResizeMod(bi.comps, size);
    if |bi.comps| > size {
      bi.comps := bi.comps[..size];
    } else {
      ResizeVal(bi.comps, size);
    }
  }
}
