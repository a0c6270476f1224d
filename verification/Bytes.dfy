/** Byte strings and big-endian 32-bit words in them. */
module Bytes {
  import opened Radix

  type Byte = b: int | 0 <= b < 256

  const WORD: int := 0x1_0000_0000

  /** Big-endian value of a byte string. */
  function FromBytes(s: seq<Byte>): (v: int)
    ensures v >= 0
  {
    if |s| == 0 then 0 else FromBytes(s[..|s| - 1]) * 256 + s[|s| - 1]
  }

  /** The n low bytes of v, most significant first. */
  function ToBytes(v: int, n: nat): (s: seq<Byte>)
    requires v >= 0
    ensures |s| == n
  {
    if n == 0 then [] else ToBytes(v / 256, n - 1) + [v % 256]
  }

  /** 256 to the power n. */
  function Pow256(n: nat): (p: int)
    ensures p >= 1
  {
    if n == 0 then 1 else 256 * Pow256(n - 1)
  }

  lemma {:induction false} Pow256Add(m: nat, n: nat)
    ensures Pow256(m + n) == Pow256(m) * Pow256(n)
  {
    if m > 0 {
      Pow256Add(m - 1, n);
      assert 256 * (Pow256(m - 1) * Pow256(n)) == Pow256(m) * Pow256(n);
    }
  }

  lemma {:induction false} FromBytesFront(s: seq<Byte>)
    requires |s| > 0
    ensures FromBytes(s) == s[0] * Pow256(|s| - 1) + FromBytes(s[1..])
  {
    if |s| > 1 {
      var t := s[..|s| - 1];
      FromBytesFront(t);
      assert t[1..] == s[1..][..|s| - 2];
      assert s[0] as int * (256 * Pow256(|s| - 2)) == (s[0] as int * Pow256(|s| - 2)) * 256;
    } else {
      assert s[..0] == [] && s[1..] == [];
    }
  }

  lemma {:induction false} FromBytesBound(s: seq<Byte>)
    ensures FromBytes(s) < Pow256(|s|)
  {
    if |s| > 0 {
      FromBytesBound(s[..|s| - 1]);
    }
  }

  /** Export undoes import at the same length. */
  lemma {:induction false} BytesRoundTrip(s: seq<Byte>)
    ensures ToBytes(FromBytes(s), |s|) == s
  {
    if |s| > 0 {
      BytesRoundTrip(s[..|s| - 1]);
      ModShift(s[|s| - 1], 256, FromBytes(s[..|s| - 1]));
      DivZero(s[|s| - 1], 256);
    }
  }

  /** Import undoes export up to the bytes that did not fit. */
  lemma {:induction false} ValueRoundTrip(v: int, n: nat)
    requires v >= 0
    ensures FromBytes(ToBytes(v, n)) == v % Pow256(n)
  {
    if n == 0 {
      DivUnique(v, 1, v, 0);
    } else {
      ValueRoundTrip(v / 256, n - 1);
      var s, p := ToBytes(v, n), Pow256(n - 1);
      assert s[..n - 1] == ToBytes(v / 256, n - 1);
      LowByte(v, p);
    }
  }

  lemma {:induction false} LowByte(v: int, p: int)
    requires p > 0
    ensures (v / 256 % p) * 256 + v % 256 == v % (256 * p)
  {
    var w := v / 256;
    var q, r := w / p, w % p;
    assert w == p * q + r;
    assert (256 * p) * q == 256 * (p * q);
    DivUnique(v, 256 * p, q, 256 * r + v % 256);
  }

  lemma {:induction false} FourBytes()
    ensures Pow256(4) == WORD
  {
    assert Pow256(2) == 0x1_0000;
    Pow256Add(2, 2);
  }

  /** The value of w. Counting k down first keeps the bytes of a word out of
      proofs that only compare words. */
  function Decode(w: seq<Byte>, k: nat): (v: int) {
    if k == 0 then FromBytes(w) else Decode(w, k - 1)
  }

  lemma {:induction false} DecodeValue(w: seq<Byte>, k: nat)
    ensures Decode(w, k) == FromBytes(w)
  {
    if k > 0 { DecodeValue(w, k - 1); }
  }

  function Get32(b: seq<Byte>, at: nat): (v: int)
    requires at + 4 <= |b|
    ensures 0 <= v < WORD
  {
    var w := b[at..at + 4];
    DecodeValue(w, |w|);
    FromBytesBound(w);
    FourBytes();
    Decode(w, |w|)
  }

  function Word32(v: int): (w: seq<Byte>)
    requires 0 <= v < WORD
    ensures |w| == 4
  {
    ToBytes(v, 4)
  }

  /** b with the bytes from `at` on replaced by w. */
  function WriteAt(b: seq<Byte>, at: nat, w: seq<Byte>): (r: seq<Byte>)
    requires at + |w| <= |b|
    ensures |r| == |b|
    ensures forall k {:trigger r[k]} | 0 <= k < |b| :: r[k] == if at <= k < at + |w| then w[k - at] else b[k]
  {
    b[..at] + w + b[at + |w|..]
  }

  function Put32(b: seq<Byte>, at: nat, v: int): (r: seq<Byte>)
    requires at + 4 <= |b| && 0 <= v < WORD
    ensures |r| == |b| && Get32(r, at) == v
    ensures forall k {:trigger r[k]} | 0 <= k < |b| && !(at <= k < at + 4) :: r[k] == b[k]
  {
    var r := WriteAt(b, at, Word32(v));
    assert r[at..at + 4] == Word32(v);
    DecodeValue(Word32(v), 4);
    ValueRoundTrip(v, 4);
    FourBytes();
    DivZero(v, WORD);
    r
  }

  /** Equal bytes, equal word. */
  lemma {:induction false} Get32Same(b: seq<Byte>, at: nat, c: seq<Byte>, at': nat)
    requires at + 4 <= |b| && at' + 4 <= |c| && b[at..at + 4] == c[at'..at' + 4]
    ensures Get32(b, at) == Get32(c, at')
  {
  }

  /** The same bytes from lo to hi. */
  predicate Agree(b: seq<Byte>, c: seq<Byte>, lo: nat, hi: nat) {
    hi <= |b| && hi <= |c| && forall k {:trigger b[k]} {:trigger c[k]} | lo <= k < hi :: b[k] == c[k]
  }

  lemma {:induction false} AgreeSlice(b: seq<Byte>, c: seq<Byte>, lo: nat, hi: nat)
    requires lo <= hi && Agree(b, c, lo, hi)
    ensures b[lo..hi] == c[lo..hi]
  {}

  lemma {:induction false} Agree32(b: seq<Byte>, c: seq<Byte>, at: nat)
    requires Agree(b, c, at, at + 4)
    ensures Get32(b, at) == Get32(c, at)
  {
    AgreeSlice(b, c, at, at + 4);
  }

  /** Round up to a multiple of four. */
  function Align4(x: int): (r: int)
    ensures x <= r < x + 4 && r % 4 == 0
  {
    (x + 3) / 4 * 4
  }

  datatype Option<+T> = None | Some(value: T)
}
