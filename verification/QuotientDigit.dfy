/** Why the quotient-digit guess of bi_divide is the true digit or one more.
    T is the current window of the numerator, V the normalised divisor;
    P is the weight of the digits below the ones the guess looks at. */
module QuotientDigit {
  import opened Radix

  /** q = T / V, said with products. */
  ghost predicate IsQuotient(q: int, T: int, V: int) {
    q * V <= T < (q + 1) * V
  }

  /** The leading two digits X over the leading digit v1 never guess too low. */
  lemma {:induction false} LeadingNotLow(q: int, T: int, V: int, P: int, X: int, v1: int)
    requires P > 0 && v1 > 0 && q >= 0 && IsQuotient(q, T, V)
    requires P * v1 <= V && T < P * (X + 1)
    ensures q <= X / v1
  {
    MulMono(q, P * v1, V);
    assert q * (P * v1) == P * (q * v1);
    MulCancel(P, q * v1, X + 1);
    QuotientAtLeast(X, v1, q);
  }

  /** With a normalised divisor they guess at most two too high. */
  lemma {:induction false} LeadingAtMostTwo(q: int, T: int, V: int, P: int, X: int, v1: int)
    requires P > 0 && 2 * v1 >= B && 0 <= q < B && IsQuotient(q, T, V)
    requires V < P * (v1 + 1) && P * X <= T
    ensures X / v1 <= q + 2
  {
    var g := X / v1;
    assert v1 * g <= X;
    MulMono(P, v1 * g, X);
    MulStrict(q + 1, V, P * (v1 + 1));
    assert (q + 1) * (P * (v1 + 1)) == P * ((q + 1) * (v1 + 1));
    MulCancel(P, v1 * g, (q + 1) * (v1 + 1));
    assert (q + 1) * (v1 + 1) == v1 * (q + 1) + q + 1;
    assert v1 * (q + 3) == v1 * (q + 1) + 2 * v1;
    MulCancel(v1, g, q + 3);
  }

  /** A guess that the second digit does not refute is at most one too high.
      W and Y are the leading digits of V and T the test looks at. */
  lemma {:induction false} UnrefutedAtMostOne(g: int, q: int, T: int, V: int, P: int, W: int, Y: int)
    requires P > 0 && 0 <= g <= B && IsQuotient(q, T, V)
    requires V < P * (W + 1) && P * Y <= T && P * B <= V
    requires g * W <= Y
    ensures g <= q + 1
  {
    MulMono(g, V, P * (W + 1));
    assert g * (P * (W + 1)) == P * (g * W) + P * g;
    MulMono(P, g * W, Y);
    MulMono(P, g, B);
    assert V * (q + 2) == (q + 1) * V + V;
    assert V * g == g * V;
    MulCancel(V, g, q + 2);
  }

  /** A guess the second digit refutes is too high. */
  lemma {:induction false} RefutedTooHigh(g: int, q: int, T: int, V: int, P: int, W: int, Y: int)
    requires P > 0 && 0 <= g && IsQuotient(q, T, V)
    requires P * W <= V && T < P * (Y + 1)
    requires g * W > Y
    ensures q < g
  {
    MulMono(P, Y + 1, g * W);
    MulMono(g, P * W, V);
    assert g * (P * W) == P * (g * W);
    assert V * q == q * V && V * g == g * V;
    MulCancel(V, q, g);
  }

  /** Equal leading digits: the digit is B-1 or B-2. */
  lemma {:induction false} EqualLeading(q: int, T: int, V: int, P: int, v1: int)
    requires P > 0 && 2 * v1 >= B && IsQuotient(q, T, V)
    requires V < P * (v1 + 1) && P * (B * v1) <= T < B * V
    ensures B - 2 <= q < B
  {
    if q >= B { MulMono(V, B, q); }
    if q < B - 2 {
      MulMono(V, q + 1, B - 2);
      assert (B - 2) * V < (B - 2) * (P * (v1 + 1));
      assert (B - 2) * (P * (v1 + 1)) == P * ((B - 2) * (v1 + 1));
      MulCancel(P, B * v1, (B - 2) * (v1 + 1));
    }
  }

  /** Multiplying by d = B / (v1 + 1) brings the leading digit to at least B/2
      without adding a digit. */
  lemma {:induction false} NormalisingFactor(v1: int, d: int)
    requires 1 <= v1 < B - 1 && d == B / (v1 + 1)
    ensures 1 <= d < B && 2 * (v1 * d) >= B && (v1 + 1) * d <= B
  {
    assert (v1 + 1) * d <= B < (v1 + 1) * d + (v1 + 1);
    if d < 1 { MulMono(v1 + 1, d, 0); }
    if d >= B { MulMono(d, 2, v1 + 1); }
    if 2 * v1 >= B {
      MulMono(v1, 1, d);
    } else {
      MulMono(2 * v1, B - v1, (v1 + 1) * d);
      assert (2 * v1) * ((v1 + 1) * d) == (v1 + 1) * (2 * (v1 * d));
      MulMono(v1 - 1, 0, B - 2 * v1);
      assert (2 * v1) * (B - v1) == (v1 + 1) * (B - 2) + (v1 - 1) * (B - 2 * v1) + 2;
      MulCancel(v1 + 1, B - 2, 2 * (v1 * d));
    }
  }

  /** q_dash of bi_divide for the window t (one component longer than v). */
  function Guess(t: seq<Comp>, v: seq<Comp>): (g: int)
    requires |t| == |v| + 1 && |v| >= 1 && v[|v| - 1] != 0
  {
    var n := |v|;
    var v1, u0: int := v[n - 1], t[n];
    if u0 == v1 then B - 1
    else
      var x := u0 * B + t[n - 1];
      var g := x / v1;
      if n > 1 && v[n - 2] != 0 && v[n - 2] as int * g > (x - g * v1) * B + t[n - 2] then g - 1 else g
  }

  lemma {:induction false} TopThree(t: seq<Comp>, n: nat)
    requires |t| == n + 1 && n >= 2
    ensures var Y := (t[n] as int * B + t[n - 1]) * B + t[n - 2];
            Pow(n - 2) * Y <= Val(t) < Pow(n - 2) * (Y + 1)
  {
    ValSplit(t, n - 2);
    var h := t[n - 2..];
    assert h == [t[n - 2], t[n - 1], t[n]];
    ValThree(t[n - 2], t[n - 1], t[n]);
    ValBound(t[..n - 2]);
  }

  lemma {:induction false} TopTwo(v: seq<Comp>, n: nat)
    requires |v| == n && n >= 2
    ensures var W := v[n - 1] as int * B + v[n - 2];
            Pow(n - 2) * W <= Val(v) < Pow(n - 2) * (W + 1)
  {
    ValSplit(v, n - 2);
    assert v[n - 2..] == [v[n - 2], v[n - 1]];
    ValTwo(v[n - 2], v[n - 1]);
    ValBound(v[..n - 2]);
    BetweenMultiples(Pow(n - 2), v[n - 1] as int * B + v[n - 2], Val(v[..n - 2]));
  }

  lemma {:induction false} BetweenMultiples(p: int, w: int, low: int)
    requires 0 <= low < p
    ensures p * w <= low + p * w < p * (w + 1)
  {}

  /** Leading digits only, one position further up. */
  lemma {:induction false} TopTwoOf(t: seq<Comp>, n: nat)
    requires |t| == n + 1 && n >= 1
    ensures var X := t[n] as int * B + t[n - 1];
            Pow(n - 1) * X <= Val(t) < Pow(n - 1) * (X + 1)
  {
    TopTwo(t, n + 1);
  }

  lemma {:induction false} TrueDigit(T: int, V: int)
    requires V > 0 && 0 <= T < B * V
    ensures IsQuotient(T / V, T, V) && 0 <= T / V < B
  {
    assert V * (T / V) + T % V == T;
    assert (T / V + 1) * V == V * (T / V) + V;
    QuotientAtLeast(T, V, 0);
    QuotientBelow(T, V, B);
  }

  /** The window's leading digit is below the divisor's, so the guess is a digit. */
  lemma {:induction false} DigitsOrdered(T: int, V: int, P: int, X: int, u0: int, v1: int)
    requires P > 0 && T < B * V && V < P * (v1 + 1) && P * X <= T
    requires u0 != v1 && v1 > 0 && u0 * B <= X < u0 * B + B
    ensures u0 < v1 && X / v1 < B
  {
    assert P * (B * (v1 + 1)) == B * (P * (v1 + 1));
    MulCancel(P, X, B * (v1 + 1));
    QuotientBelow(X, v1, B);
  }

  lemma {:induction false} SingleComponent(t: seq<Comp>, v: seq<Comp>, q: int)
    requires |t| == 2 && |v| == 1 && v[0] != 0 && IsQuotient(q, Val(t), Val(v))
    ensures (t[1] as int * B + t[0]) / v[0] == q
  {
    assert t == [t[0], t[1]] && v[1..] == [];
    ValTwo(t[0], t[1]);
    var V: int := v[0];
    assert Val(v) == V;
    assert (q + 1) * V == q * V + V;
    DivUnique(Val(t), V, q, Val(t) - q * V);
  }

  /** The test with the second digits v2, u2, after guessing g from the
      leading digits. */
  lemma {:induction false} SecondDigitCases(q: int, g: int, T: int, V: int, P: int, v1: int, v2: int, x: int, u2: int)
    requires P > 0 && v1 > 0 && v2 >= 0 && 0 <= g <= B && IsQuotient(q, T, V)
    requires var W := v1 * B + v2; P * W <= V < P * (W + 1)
    requires var Y := x * B + u2; P * Y <= T < P * (Y + 1)
    ensures v2 * g > (x - g * v1) * B + u2 ==> q < g
    ensures v2 * g <= (x - g * v1) * B + u2 ==> g <= q + 1
  {
    var W, Y := v1 * B + v2, x * B + u2;
    assert g * W == (g * v1) * B + v2 * g;
    if g * W > Y {
      RefutedTooHigh(g, q, T, V, P, W, Y);
    } else {
      MulMono(P, B, W);
      UnrefutedAtMostOne(g, q, T, V, P, W, Y);
    }
  }

  lemma {:induction false} SecondDigitTest(t: seq<Comp>, v: seq<Comp>, q: int, g: int)
    requires |t| == |v| + 1 && |v| >= 2 && v[|v| - 1] != 0 && t[|v|] != v[|v| - 1]
    requires IsQuotient(q, Val(t), Val(v))
    requires g == (t[|v|] as int * B + t[|v| - 1]) / v[|v| - 1] && 0 <= q <= g <= q + 2 && g < B
    ensures q <= Guess(t, v) <= q + 1
  {
    var n := |v|;
    TopThree(t, n);
    TopTwo(v, n);
    assert t[n - 2] >= 0;
    SecondDigitCases(q, g, Val(t), Val(v), Pow(n - 2), v[n - 1], v[n - 2], t[n] as int * B + t[n - 1], t[n - 2]);
    GuessCases(t, v, g);
  }

  lemma {:induction false} GuessCases(t: seq<Comp>, v: seq<Comp>, g: int)
    requires |t| == |v| + 1 && |v| >= 2 && v[|v| - 1] != 0 && t[|v|] != v[|v| - 1]
    requires g == (t[|v|] as int * B + t[|v| - 1]) / v[|v| - 1]
    ensures var x, n := t[|v|] as int * B + t[|v| - 1], |v|;
            Guess(t, v) == if v[n - 2] as int * g > (x - g * v[n - 1]) * B + t[n - 2] then g - 1 else g
  {
    var n := |v|;
    var x, v1: int := t[n] as int * B + t[n - 1], v[n - 1];
    assert v1 * g <= x;
  }

  /** The guessed digit is the true digit or one more, so one add-back is enough. */
  lemma {:induction false} GuessBound(t: seq<Comp>, v: seq<Comp>)
    requires |t| == |v| + 1 && |v| >= 1 && 2 * v[|v| - 1] as int >= B
    requires Val(t) < B * Val(v)
    ensures Val(v) > 0
    ensures var q := Val(t) / Val(v); 0 <= q < B && q <= Guess(t, v) <= q + 1 && 0 <= Guess(t, v) < B
  {
    var n := |v|;
    var T, V, q := Val(t), Val(v), 0;
    TrimmedLower(v);
    TopTwoOf(t, n);
    TrueDigit(T, V);
    q := T / V;
    var P, X, u0, v1 := Pow(n - 1), t[n] as int * B + t[n - 1], t[n] as int, v[n - 1] as int;
    if u0 == v1 {
      MulMono(P, B * v1, X);
      EqualLeading(q, T, V, P, v1);
    } else {
      LeadingNotLow(q, T, V, P, X, v1);
      LeadingAtMostTwo(q, T, V, P, X, v1);
      DigitsOrdered(T, V, P, X, u0, v1);
      if n == 1 {
        SingleComponent(t, v, q);
      } else {
        SecondDigitTest(t, v, q, X / v1);
      }
    }
  }
}
