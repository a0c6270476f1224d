/** bi_mod_power: left-to-right exponentiation over residues that need not be
    fully reduced. */
module ModPower {
  import opened Radix
  import opened BigInts
  import opened Division
  import opened Multiply
  import opened Barrett

  function Exp(b: int, e: nat): int {
    if e == 0 then 1 else b * Exp(b, e - 1)
  }

  function Pow2(n: nat): (p: int)
    ensures p >= 1
  {
    if n == 0 then 1 else 2 * Pow2(n - 1)
  }

  // ---- congruence ----

  lemma {:induction false} ModMul(x: int, y: int, x': int, y': int, m: int)
    requires m > 0 && x % m == x' % m && y % m == y' % m
    ensures (x * y) % m == (x' * y') % m
  {
    ModMulLeft(x, x', y, m);
    ModMulLeft(y, y', x', m);
    assert x' * y == y * x' && x' * y' == y' * x';
  }

  lemma {:induction false} ModMulLeft(x: int, x': int, y: int, m: int)
    requires m > 0 && x % m == x' % m
    ensures (x * y) % m == (x' * y) % m
  {
    var k := x / m - x' / m;
    assert x == x' + k * m by {
      assert x == m * (x / m) + x % m && x' == m * (x' / m) + x' % m;
      assert k * m == m * (x / m) - m * (x' / m);
    }
    assert x * y == x' * y + (k * y) * m;
    ModShift(x' * y, m, k * y);
  }

  lemma {:induction false} ExpAdd(b: int, m: nat, n: nat)
    ensures Exp(b, m + n) == Exp(b, m) * Exp(b, n)
  {
    if m > 0 {
      ExpAdd(b, m - 1, n);
      assert b * (Exp(b, m - 1) * Exp(b, n)) == Exp(b, m) * Exp(b, n);
    }
  }

  // ---- bits of a component sequence ----

  lemma {:induction false} Pow2Add(m: nat, n: nat)
    ensures Pow2(m + n) == Pow2(m) * Pow2(n)
  {
    if m > 0 {
      Pow2Add(m - 1, n);
      assert 2 * (Pow2(m - 1) * Pow2(n)) == Pow2(m) * Pow2(n);
    }
  }

  lemma {:induction false} Pow2Radix()
    ensures 2 * Pow2(31) == B && Pow2(32) == B
  {
    assert Pow2(4) == 16;
    Pow2Add(4, 4);
    Pow2Add(8, 8);
    Pow2Add(16, 16);
  }

  lemma {:induction false} PowIsPow2(n: nat)
    ensures Pow(n) == Pow2(32 * n)
  {
    if n > 0 {
      PowIsPow2(n - 1);
      Pow2Add(32, 32 * (n - 1));
      Pow2Radix();
    }
  }

  lemma {:induction false} DivDiv(x: int, a: int, b: int)
    requires a > 0 && b > 0
    ensures a * b > 0 && x / (a * b) == x / a / b
  {
    MulStrict(a, 0, b);
    var q, r := x / a, x % a;
    var s, t := q / b, q % b;
    assert x == a * q + r && q == b * s + t;
    MulMono(a, 0, t);
    MulMono(a, t + 1, b);
    assert a * (t + 1) == a * t + a;
    assert x == s * (a * b) + (a * t + r);
    DivUnique(x, a * b, s, a * t + r);
  }

  /** Bit s of component q is bit 32q + s of the number. */
  lemma {:induction false} BitOfComponent(e: seq<Comp>, q: nat, s: nat)
    requires q < |e| && s < 32
    ensures Val(e) / Pow2(32 * q + s) % 2 == e[q] as int / Pow2(s) % 2
  {
    ValDivMod(e, q);
    PowIsPow2(q);
    Pow2Add(32 * q, s);
    DivDiv(Val(e), Pow(q), Pow2(s));
    Pow2Add(s, 32 - s);
    Pow2Radix();
    BitShift(e[q], Val(e[q..][1..]), Pow2(s), Pow2(31 - s));
  }

  /** Components above do not disturb the bits of this one. */
  lemma {:induction false} BitShift(c: int, rest: int, p: int, h: int)
    requires p > 0 && p * (2 * h) == B
    ensures (c + B * rest) / p % 2 == c / p % 2
  {
    var k := h * rest;
    assert B * rest == (2 * k) * p;
    ModShift(c, p, 2 * k);
    ModShift(c / p, 2, k);
  }

  /** exp_bit_is_one: `test & shift` with shift a power of two is the parity of
      the quotient. Offset -1, reached only for a zero exponent, reads bit 0. */
  method ExpBitIsOne(e: BigInt, offset: int) returns (bit: bool)
    requires -1 <= offset < 32 * |e.comps| && |e.comps| >= 1
    ensures bit == (if offset < 0 then e.comps[0] % 2 == 1 else Val(e.comps) / Pow2(offset) % 2 == 1)
  {
    var index, shifts := if offset < 0 then 0 else offset / 32, if offset < 0 then -1 else offset % 32;
    var i, shift := 0, 1;
    while i < shifts
      invariant 0 <= i && shift == Pow2(i)
      invariant shifts >= 0 ==> i <= shifts
      invariant shifts < 0 ==> i == 0
    {
      shift := shift * 2;
      i := i + 1;
    }
    if offset >= 0 {
      BitOfComponent(e.comps, index, shifts);
    }
    bit := e.comps[index] as int / shift % 2 == 1;
  }

  /** find_max_exp_index: position of the highest set bit, or -1 for zero. */
  method FindMaxExpIndex(e: BigInt) returns (index: int)
    requires Trimmed(e.comps)
    ensures Val(e.comps) == 0 ==> index == -1
    ensures Val(e.comps) > 0 ==> 0 <= index < 32 * |e.comps| && Pow2(index) <= Val(e.comps) < Pow2(index + 1)
  {
    var n := |e.comps| - 1;
    var test: int := e.comps[n];
    var i, shift := 31, B / 2;
    Pow2Radix();
    while i >= 0
      invariant -1 <= i <= 31 && test < Pow2(i + 1) && (i >= 0 ==> shift == Pow2(i))
    {
      DivTop(test, Pow2(i));
      if test / shift % 2 == 1 {
        TopBit(e.comps, i);
        return i + n * 32;
      }
      shift := shift / 2;
      i := i - 1;
    }
    assert test < Pow2(0);
    OnlyZero(e.comps);
    return -1;
  }

  lemma {:induction false} OnlyZero(e: seq<Comp>)
    requires Trimmed(e) && e[|e| - 1] == 0
    ensures Val(e) == 0
  {
    assert e[1..] == [];
  }

  lemma {:induction false} DivTop(x: int, p: int)
    requires 0 <= x < 2 * p && p > 0
    ensures x / p % 2 == 1 <==> x >= p
  {
    if x >= p { DivUnique(x, p, 1, x - p); } else { DivZero(x, p); }
  }

  lemma {:induction false} TopBit(e: seq<Comp>, i: nat)
    requires |e| >= 1 && i < 32 && Pow2(i) <= e[|e| - 1] as int < Pow2(i + 1)
    ensures var k := i + (|e| - 1) * 32; Pow2(k) <= Val(e) < Pow2(k + 1) && Val(e) > 0
  {
    var n := |e| - 1;
    TrimmedLower(e);
    PowIsPow2(n);
    Pow2Add(32 * n, i);
    Pow2Add(32 * n, i + 1);
    MulMono(Pow(n), Pow2(i), e[n]);
    MulMono(Pow(n), e[n] as int + 1, Pow2(i + 1));
  }

  // ---- exponentiation ----

  /** The exponent bits above i. */
  function Prefix(E: int, i: int): (p: nat)
    requires E >= 0
  {
    if i < 0 then E else QuotientAtLeast(E, Pow2(i + 1), 0); E / Pow2(i + 1)
  }

  lemma {:induction false} PrefixStep(E: int, i: int)
    requires E >= 0 && -1 <= i && (i == -1 ==> E == 0)
    ensures Prefix(E, i - 1) == 2 * Prefix(E, i) + (if i >= 0 && E / Pow2(i) % 2 == 1 then 1 else 0)
  {
    if i >= 0 {
      DivDiv(E, Pow2(i), 2);
      assert Pow2(i) * 2 == Pow2(i + 1);
      if i == 0 { assert E / Pow2(0) == E; }
    }
  }

  // ---- the value of a power, for any reduction ----

  /** One exponent bit: square, and multiply by the base when it is set. */
  function Step(red: int -> int, acc: int, base: int, bit: bool): int {
    if bit then red(red(acc * acc) * base) else red(acc * acc)
  }

  /** The accumulator when the exponent bits read so far are p. */
  function Raised(red: int -> int, base: int, p: nat): int {
    if p == 0 then 1 else Step(red, Raised(red, base, p / 2), base, p % 2 == 1)
  }

  /** The whole power. With the exponent 0 the code still squares once. */
  function PowerOf(red: int -> int, base: int, e: nat): int {
    if e == 0 then Step(red, 1, base, false) else Raised(red, base, e)
  }

  /** The number reduced last. */
  function LastOf(red: int -> int, base: int, e: nat): int {
    if e == 0 then 1
    else
      var acc := Raised(red, base, e / 2);
      if e % 2 == 0 then acc * acc else red(acc * acc) * base
  }

  /** A reduction gives a small congruent number. */
  ghost predicate Sound(red: int -> int, m: nat)
    requires m > 0
  {
    forall x | x >= 0 :: 0 <= red(x) < 3 * m && red(x) % m == x % m
  }

  /** Accumulators are congruent to the power. */
  lemma {:induction false} RaisedMeans(red: int -> int, base: nat, p: nat, m: nat)
    requires m > 0 && Sound(red, m)
    ensures Raised(red, base, p) >= 0 && Raised(red, base, p) % m == Exp(base, p) % m
  {
    if p > 0 {
      RaisedMeans(red, base, p / 2, m);
      StepMeans(red, Raised(red, base, p / 2), base, p, m);
    }
  }

  lemma {:induction false} StepMeans(red: int -> int, acc: nat, base: nat, p: nat, m: nat)
    requires m > 0 && Sound(red, m) && acc % m == Exp(base, p / 2) % m
    ensures acc * acc >= 0 && red(acc * acc) * base >= 0
    ensures var r := Step(red, acc, base, p % 2 == 1); 0 <= r < 3 * m && r % m == Exp(base, p) % m
    ensures (if p % 2 == 1 then red(acc * acc) * base else acc * acc) % m == Exp(base, p) % m
  {
    var h, square := p / 2, red(acc * acc);
    MulMono(acc, 0, acc);
    ExpAdd(base, h, h);
    ModMul(acc, acc, Exp(base, h), Exp(base, h), m);
    MulMono(square, 0, base);
    if p % 2 == 1 {
      ModMul(square, base, Exp(base, 2 * h), base, m);
      assert Exp(base, 2 * h + 1) == Exp(base, 2 * h) * base;
    }
  }

  /** The result is congruent to the power and below 3m; it is the power modulo m
      exactly when the last reduction is complete. */
  lemma {:induction false} PowerMeans(red: int -> int, base: nat, e: nat, m: nat)
    requires m > 0 && Sound(red, m)
    ensures 0 <= PowerOf(red, base, e) < 3 * m && PowerOf(red, base, e) % m == Exp(base, e) % m
    ensures var last := LastOf(red, base, e);
            && last >= 0 && PowerOf(red, base, e) == red(last)
            && (PowerOf(red, base, e) == Exp(base, e) % m <==> red(last) == last % m)
  {
    if e > 0 {
      RaisedMeans(red, base, e / 2, m);
      StepMeans(red, Raised(red, base, e / 2), base, e, m);
    }
  }

  /** Where small numbers stay, a small base to the power 1 stays. */
  lemma {:induction false} FirstPower(red: int -> int, base: nat, m: nat)
    requires m > 1 && base < m && forall x | 0 <= x < m :: red(x) == x
    ensures PowerOf(red, base, 1) == base
  {
    assert Raised(red, base, 0) == 1;
    assert red(1 * 1) == 1 && 1 * base == base;
  }

  // ---- the value of a power, for the reduction of the code ----

  /** What bi_mod_power returns. */
  function PowerValue(base: nat, e: nat, m: nat): int
    requires m > 0
  {
    PowerOf(Reduction(m), base, e)
  }

  function LastProduct(base: nat, e: nat, m: nat): int
    requires m > 0
  {
    LastOf(Reduction(m), base, e)
  }

  lemma {:induction false} ReductionSound(m: nat)
    requires m > 0 && |Comps(m)| <= MAX_SIZE
    ensures Sound(Reduction(m), m)
    ensures forall x | 0 <= x < m :: Reduction(m)(x) == x
    ensures forall x: nat {:trigger Reduction(m)(x)} :: Reduction(m)(x) == x % m <==> Exact(x, m)
  {
    forall x: nat
      ensures 0 <= Reduction(m)(x) < 3 * m && Reduction(m)(x) % m == x % m
      ensures Reduction(m)(x) == x % m <==> Exact(x, m)
      ensures x < m ==> Reduction(m)(x) == x
    {
      ReducedMeans(x, m);
    }
  }

  /** The result is congruent to the power and below 3m, and it is the power
      modulo m if and only if the last reduction is complete. */
  lemma {:induction false} PowerFacts(m: seq<Comp>, base: nat, e: nat)
    requires Trimmed(m) && |m| <= MAX_SIZE && Val(m) > 0
    ensures var v, last := PowerValue(base, e, Val(m)), LastProduct(base, e, Val(m));
            && 0 <= v < 3 * Val(m) && v % Val(m) == Exp(base, e) % Val(m) && last >= 0
            && (v == Exp(base, e) % Val(m) <==> Exact(last, Val(m)))
            && (base < Val(m) && e == 1 ==> v == base)
  {
    TrimmedInjective(m, Comps(Val(m)));
    var red := Reduction(Val(m));
    ReductionSound(Val(m));
    PowerMeans(red, base, e, Val(m));
    if base < Val(m) && e == 1 {
      if Val(m) == 1 { assert PowerOf(red, base, 1) == red(red(1 * 1) * base); } else { FirstPower(red, base, Val(m)); }
    }
  }

  // ---- the code ----

  /** red is the reduction of bi_barrett modulo m. */
  ghost predicate Reduces(red: int -> int, m: nat)
    requires m > 0
  {
    forall x: nat {:trigger Reduced(x, m)} :: red(x) == Reduced(x, m)
  }

  /** Any such function has what the value of a power needs. */
  lemma {:induction false} ReducesSound(red: int -> int, m: seq<Comp>)
    requires Trimmed(m) && |m| <= MAX_SIZE && Val(m) > 0 && Reduces(red, Val(m))
    ensures Sound(red, Val(m))
  {
    TrimmedInjective(m, Comps(Val(m)));
    forall x | x >= 0
      ensures 0 <= red(x) < 3 * Val(m) && red(x) % Val(m) == x % Val(m)
    {
      ReducedMeans(x, Val(m));
    }
  }

  /** acc * y, reduced. */
  method MultiplyResidue(ctx: Context, acc: BigInt, y: BigInt, ghost red: int -> int) returns (r: BigInt)
    requires Ready(ctx) && Trimmed(acc.comps) && Trimmed(y.comps) && Reduces(red, Mod(ctx))
    requires acc !in {ctx.biMod, ctx.normalisedMod} && y !in {ctx.biMod, ctx.normalisedMod}
    modifies ctx.biMod, ctx.normalisedMod
    ensures ctx.biMod.comps == old(ctx.biMod.comps) && ctx.normalisedMod.comps == old(ctx.normalisedMod.comps)
    ensures Ready(ctx) && fresh(r) && Trimmed(r.comps)
    ensures Val(r.comps) == red(Val(acc.comps) * Val(y.comps))
  {
    var product := Product(acc, y);
    ReducedOf(product.comps, ctx.biMod.comps, ctx.mu.comps);
    r := BarrettReduce(ctx, product);
  }

  /** The exponent bit at i. */
  predicate BitAt(E: nat, i: int) { i >= 0 && E / Pow2(i) % 2 == 1 }

  /** One exponent bit of the loop. */
  method PowerStep(ctx: Context, acc: BigInt, biexp: BigInt, i: int, ghost red: int -> int) returns (r: BigInt)
    requires Ready(ctx) && Trimmed(acc.comps) && Trimmed(biexp.comps) && ctx.g != null && Trimmed(ctx.g.comps)
    requires {acc, biexp, ctx.g} !! {ctx.biMod, ctx.normalisedMod, ctx.mu} && Reduces(red, Mod(ctx))
    requires -1 <= i < 32 * |biexp.comps| && (i == -1 ==> Val(biexp.comps) == 0)
    modifies ctx.biMod, ctx.normalisedMod
    ensures ctx.biMod.comps == old(ctx.biMod.comps) && ctx.normalisedMod.comps == old(ctx.normalisedMod.comps)
    ensures Ready(ctx) && fresh(r) && Trimmed(r.comps)
    ensures Val(r.comps) == Step(red, Val(acc.comps), Val(ctx.g.comps), BitAt(Val(biexp.comps), i))
  {
    var bit := ExpBitIsOne(biexp, i);
    if i == -1 { assert biexp.comps[0] % 2 == 0; }
    var square := MultiplyResidue(ctx, acc, acc, red);
    r := square;
    if bit {
      r := MultiplyResidue(ctx, square, ctx.g, red);
    }
  }

  /** base^exponent modulo the prepared modulus, up to a multiple of it; reduced
      if and only if the last reduction is complete. */
  method Power(ctx: Context, bi: BigInt, biexp: BigInt) returns (r: BigInt)
    requires Ready(ctx) && Trimmed(bi.comps) && Trimmed(biexp.comps)
    requires {bi, biexp} !! {ctx.biMod, ctx.normalisedMod, ctx.mu}
    modifies ctx`g, ctx.biMod, ctx.normalisedMod
    ensures ctx.biMod.comps == old(ctx.biMod.comps) && ctx.normalisedMod.comps == old(ctx.normalisedMod.comps)
    ensures Ready(ctx) && ctx.g == null && fresh(r) && Trimmed(r.comps)
    ensures Val(r.comps) == PowerValue(Val(bi.comps), Val(biexp.comps), Mod(ctx)) < 3 * Mod(ctx)
    ensures Val(r.comps) % Mod(ctx) == Exp(Val(bi.comps), Val(biexp.comps)) % Mod(ctx)
    ensures var base, e, m := Val(bi.comps), Val(biexp.comps), Mod(ctx);
            && LastProduct(base, e, m) >= 0
            && (Val(r.comps) == Exp(base, e) % m <==> Exact(LastProduct(base, e, m), m))
            && (base < m && e == 1 ==> Val(r.comps) == base)
  {
    r := RunPower(ctx, bi, biexp, Reduction(Mod(ctx)));
    PowerFacts(ctx.biMod.comps, Val(bi.comps), Val(biexp.comps));
  }

  method RunPower(ctx: Context, bi: BigInt, biexp: BigInt, ghost red: int -> int) returns (r: BigInt)
    requires Ready(ctx) && Trimmed(bi.comps) && Trimmed(biexp.comps) && Reduces(red, Mod(ctx))
    requires {bi, biexp} !! {ctx.biMod, ctx.normalisedMod, ctx.mu}
    modifies ctx`g, ctx.biMod, ctx.normalisedMod
    ensures ctx.biMod.comps == old(ctx.biMod.comps) && ctx.normalisedMod.comps == old(ctx.normalisedMod.comps)
    ensures Ready(ctx) && ctx.g == null && fresh(r) && Trimmed(r.comps)
    ensures Val(r.comps) == PowerOf(red, Val(bi.comps), Val(biexp.comps))
  {
    var base := new BigInt(bi.comps);
    ctx.g := base;
    var i;
    i, r := FirstBit(ctx, biexp, red);
    r := PowerLoop(ctx, r, biexp, i - 1, red);
    ctx.g := null;
  }

  /** The first turn of the loop, from the accumulator 1. */
  method FirstBit(ctx: Context, biexp: BigInt, ghost red: int -> int) returns (i: int, r: BigInt)
    requires Ready(ctx) && Trimmed(biexp.comps) && ctx.g != null && Trimmed(ctx.g.comps)
    requires {biexp, ctx.g} !! {ctx.biMod, ctx.normalisedMod, ctx.mu} && Reduces(red, Mod(ctx))
    modifies ctx.biMod, ctx.normalisedMod
    ensures ctx.biMod.comps == old(ctx.biMod.comps) && ctx.normalisedMod.comps == old(ctx.normalisedMod.comps)
    ensures Ready(ctx) && fresh(r) && Trimmed(r.comps) && i < 32 * |biexp.comps|
    ensures RaisedTo(red, Val(r.comps), Val(ctx.g.comps), Val(biexp.comps), i - 1)
  {
    i := FindMaxExpIndex(biexp);
    var one := new BigInt([1]);
    assert [1][1..] == [];
    r := PowerStep(ctx, one, biexp, i, red);
    FirstStep(red, Val(ctx.g.comps), Val(biexp.comps), i);
  }

  /** acc is the accumulator of the exponent bits above i, once the first of them
      is read. */
  ghost predicate RaisedTo(red: int -> int, acc: int, base: int, E: nat, i: int) {
    if E == 0 then i == -2 && acc == PowerOf(red, base, 0)
    else i >= -1 && Prefix(E, i) > 0 && acc == Raised(red, base, Prefix(E, i))
  }

  lemma {:induction false} FirstStep(red: int -> int, base: int, E: nat, i: int)
    requires if E == 0 then i == -1 else i >= 0 && Pow2(i) <= E < Pow2(i + 1)
    ensures RaisedTo(red, Step(red, 1, base, BitAt(E, i)), base, E, i - 1)
  {
    if i >= 0 {
      DivZero(E, Pow2(i + 1));
      PrefixStep(E, i);
      DivTop(E, Pow2(i));
    }
  }

  lemma {:induction false} RaisedNext(red: int -> int, acc: int, base: int, E: nat, i: nat)
    requires RaisedTo(red, acc, base, E, i)
    ensures RaisedTo(red, Step(red, acc, base, BitAt(E, i)), base, E, i - 1)
  {
    PrefixStep(E, i);
  }

  method PowerLoop(ctx: Context, acc: BigInt, biexp: BigInt, start: int, ghost red: int -> int) returns (r: BigInt)
    requires Ready(ctx) && Trimmed(acc.comps) && Trimmed(biexp.comps) && ctx.g != null && Trimmed(ctx.g.comps)
    requires {acc, biexp, ctx.g} !! {ctx.biMod, ctx.normalisedMod, ctx.mu} && Reduces(red, Mod(ctx))
    requires start < 32 * |biexp.comps|
    requires RaisedTo(red, Val(acc.comps), Val(ctx.g.comps), Val(biexp.comps), start)
    modifies ctx.biMod, ctx.normalisedMod
    ensures ctx.biMod.comps == old(ctx.biMod.comps) && ctx.normalisedMod.comps == old(ctx.normalisedMod.comps)
    ensures Ready(ctx) && (r == acc || fresh(r)) && Trimmed(r.comps)
    ensures Val(r.comps) == PowerOf(red, Val(ctx.g.comps), Val(biexp.comps))
  {
    var i := start;
    r := acc;
    while i >= 0
      invariant i < 32 * |biexp.comps|
      invariant ctx.biMod.comps == old(ctx.biMod.comps) && ctx.normalisedMod.comps == old(ctx.normalisedMod.comps)
      invariant Ready(ctx) && (r == acc || fresh(r)) && Trimmed(r.comps)
      invariant RaisedTo(red, Val(r.comps), Val(ctx.g.comps), Val(biexp.comps), i)
    {
      RaisedNext(red, Val(r.comps), Val(ctx.g.comps), Val(biexp.comps), i);
      r := PowerStep(ctx, r, biexp, i, red);
      i := i - 1;
    }
  }
}
