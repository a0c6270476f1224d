/** SHA-256 as FIPS 180-4 states it. */
module Sha256Spec {
  import opened Bytes

  // ---- section 4.1.2: functions ----

  function Rotr(x: bv32, n: bv6): bv32
    requires 0 < n < 32
  {
    (x >> n) | (x << (32 - n))
  }

  function Ch(x: bv32, y: bv32, z: bv32): bv32 { (x & y) ^ (!x & z) }
  function Maj(x: bv32, y: bv32, z: bv32): bv32 { (x & y) ^ (x & z) ^ (y & z) }
  function Xor3(x: bv32, y: bv32, z: bv32): bv32 { x ^ y ^ z }
  function BigSigma0(x: bv32): bv32 { Xor3(Rotr(x, 2), Rotr(x, 13), Rotr(x, 22)) }
  function BigSigma1(x: bv32): bv32 { Xor3(Rotr(x, 6), Rotr(x, 11), Rotr(x, 25)) }
  function SmallSigma0(x: bv32): bv32 { Xor3(Rotr(x, 7), Rotr(x, 18), x >> 3) }
  function SmallSigma1(x: bv32): bv32 { Xor3(Rotr(x, 17), Rotr(x, 19), x >> 10) }

  // ---- section 4.2.2: constants ----

  /** The constants of rounds 8j to 8j + 7. */
  function Constants(j: nat): (ks: seq<bv32>)
    requires j < 8
    ensures |ks| == 8
  {
    match j
    case 0 => [0x428A2F98, 0x71374491, 0xB5C0FBCF, 0xE9B5DBA5, 0x3956C25B, 0x59F111F1, 0x923F82A4, 0xAB1C5ED5]
    case 1 => [0xD807AA98, 0x12835B01, 0x243185BE, 0x550C7DC3, 0x72BE5D74, 0x80DEB1FE, 0x9BDC06A7, 0xC19BF174]
    case 2 => [0xE49B69C1, 0xEFBE4786, 0x0FC19DC6, 0x240CA1CC, 0x2DE92C6F, 0x4A7484AA, 0x5CB0A9DC, 0x76F988DA]
    case 3 => [0x983E5152, 0xA831C66D, 0xB00327C8, 0xBF597FC7, 0xC6E00BF3, 0xD5A79147, 0x06CA6351, 0x14292967]
    case 4 => [0x27B70A85, 0x2E1B2138, 0x4D2C6DFC, 0x53380D13, 0x650A7354, 0x766A0ABB, 0x81C2C92E, 0x92722C85]
    case 5 => [0xA2BFE8A1, 0xA81A664B, 0xC24B8B70, 0xC76C51A3, 0xD192E819, 0xD6990624, 0xF40E3585, 0x106AA070]
    case 6 => [0x19A4C116, 0x1E376C08, 0x2748774C, 0x34B0BCB5, 0x391C0CB3, 0x4ED8AA4A, 0x5B9CCA4F, 0x682E6FF3]
    case _ => [0x748F82EE, 0x78A5636F, 0x84C87814, 0x8CC70208, 0x90BEFFFA, 0xA4506CEB, 0xBEF9A3F7, 0xC67178F2]
  }

  function K(t: nat): bv32
    requires t < 64
  {
    Constants(t / 8)[t % 8]
  }

  // ---- sections 5.2.1 and 6.2.2: schedule and rounds ----

  /** The eight working variables, or the eight words of a hash value. */
  datatype Regs = Regs(a: bv32, b: bv32, c: bv32, d: bv32, e: bv32, f: bv32, g: bv32, h: bv32)

  const INITIAL: Regs :=
    Regs(0x6A09E667, 0xBB67AE85, 0x3C6EF372, 0xA54FF53A, 0x510E527F, 0x9B05688C, 0x1F83D9AB, 0x5BE0CD19)

  function Extend(b: Byte): bv32 { (b as bv8) as bv32 }

  /** Word at index i of a block, most significant byte first. */
  function BlockWord(block: seq<Byte>, i: nat): bv32
    requires |block| == 64 && i < 16
  {
    Extend(block[4 * i]) * 0x100_0000 + Extend(block[4 * i + 1]) * 0x1_0000 +
    Extend(block[4 * i + 2]) * 0x100 + Extend(block[4 * i + 3])
  }

  /** Sums of words, modulo 2^32. */
  function Sum5(v: bv32, w: bv32, x: bv32, y: bv32, z: bv32): bv32 { v + w + x + y + z }
  function Sum4(w: bv32, x: bv32, y: bv32, z: bv32): bv32 { w + x + y + z }
  function Sum2(x: bv32, y: bv32): bv32 { x + y }

  function Schedule(block: seq<Byte>, t: nat): bv32
    requires |block| == 64
  {
    if t < 16 then BlockWord(block, t)
    else Sum4(SmallSigma1(Schedule(block, t - 2)), Schedule(block, t - 7),
              SmallSigma0(Schedule(block, t - 15)), Schedule(block, t - 16))
  }

  function Round(r: Regs, k: bv32, w: bv32): Regs {
    var t1 := Sum5(r.h, BigSigma1(r.e), Ch(r.e, r.f, r.g), k, w);
    var t2 := Sum2(BigSigma0(r.a), Maj(r.a, r.b, r.c));
    Regs(Sum2(t1, t2), r.a, r.b, r.c, Sum2(r.d, t1), r.e, r.f, r.g)
  }

  function Rounds(r: Regs, block: seq<Byte>, t: nat): Regs
    requires |block| == 64 && t <= 64
  {
    if t == 0 then r else Round(Rounds(r, block, t - 1), K(t - 1), Schedule(block, t - 1))
  }

  function Plus(x: Regs, y: Regs): Regs {
    Regs(Sum2(x.a, y.a), Sum2(x.b, y.b), Sum2(x.c, y.c), Sum2(x.d, y.d),
         Sum2(x.e, y.e), Sum2(x.f, y.f), Sum2(x.g, y.g), Sum2(x.h, y.h))
  }

  function Compress(r: Regs, block: seq<Byte>): Regs
    requires |block| == 64
  {
    Plus(r, Rounds(r, block, 64))
  }

  /** Compress; counting k down first keeps the inside of a block out of proofs
      about whole blocks. */
  function Step(r: Regs, block: seq<Byte>, k: nat): Regs
    requires |block| == 64
  {
    if k == 0 then Compress(r, block) else Step(r, block, k - 1)
  }

  lemma {:induction false} StepIsCompress(r: Regs, block: seq<Byte>, k: nat)
    requires |block| == 64
    ensures Step(r, block, k) == Compress(r, block)
  {
    if k > 0 { StepIsCompress(r, block, k - 1); }
  }

  lemma {:induction false} SameStep(r: Regs, block: seq<Byte>, j: nat, k: nat)
    requires |block| == 64
    ensures Step(r, block, j) == Step(r, block, k)
  {
    StepIsCompress(r, block, j);
    StepIsCompress(r, block, k);
  }

  /** Hash value after the first n blocks of m. */
  function Blocks(m: seq<Byte>, n: nat): Regs
    requires 64 * n <= |m|
  {
    if n == 0 then INITIAL else Step(Blocks(m, n - 1), m[64 * (n - 1)..64 * n], |m|)
  }

  // ---- section 5.1.1: padding ----

  const LIMIT: int := 0x2000_0000_0000_0000

  /** Zero bytes after the 0x80 byte. */
  function ZeroCount(n: nat): (k: nat)
    ensures (n + 1 + k) % 64 == 56 && k < 64
  {
    (55 - n) % 64
  }

  function Pad(m: seq<Byte>): (p: seq<Byte>)
    requires |m| < LIMIT
    ensures |p| % 64 == 0
  {
    m + [0x80] + seq(ZeroCount(|m|), _ => 0) + LengthBytes(|m|)
  }

  /** The length in bits as a 64-bit number. */
  function LengthBytes(n: nat): (s: seq<Byte>)
    ensures |s| == 8
  {
    ToBytes(8 * n, 8)
  }

  function WordBytes(x: bv32): (s: seq<Byte>)
    ensures |s| == 4
  {
    [Low8(x >> 24), Low8(x >> 16), Low8(x >> 8), Low8(x)]
  }

  function Low8(x: bv32): Byte { ((x & 0xFF) as bv8) as int }

  function RegsBytes(r: Regs): (s: seq<Byte>)
    ensures |s| == 32
  {
    WordBytes(r.a) + WordBytes(r.b) + WordBytes(r.c) + WordBytes(r.d) +
    WordBytes(r.e) + WordBytes(r.f) + WordBytes(r.g) + WordBytes(r.h)
  }

  /** The digest of a whole message. */
  function Digest(m: seq<Byte>): (d: seq<Byte>)
    requires |m| < LIMIT
    ensures |d| == 32
  {
    var p := Pad(m);
    RegsBytes(Blocks(p, |p| / 64))
  }

  lemma {:induction false} BlockStep(m: seq<Byte>, n: nat)
    requires 64 * (n + 1) <= |m|
    ensures Blocks(m, n + 1) == Compress(Blocks(m, n), m[64 * n..64 * (n + 1)])
  {
    StepIsCompress(Blocks(m, n), m[64 * n..64 * (n + 1)], |m|);
  }

  /** Blocks depend on the bytes they cover. */
  lemma {:induction false} BlocksPrefix(m: seq<Byte>, m': seq<Byte>, n: nat)
    requires 64 * n <= |m| && 64 * n <= |m'| && m[..64 * n] == m'[..64 * n]
    ensures Blocks(m, n) == Blocks(m', n)
  {
    if n > 0 {
      PrefixOf(m, m', 64 * (n - 1), 64 * n);
      BlocksPrefix(m, m', n - 1);
      SameStep(Blocks(m, n - 1), m[64 * (n - 1)..64 * n], |m|, |m'|);
    }
  }

  lemma {:induction false} PrefixOf(m: seq<Byte>, m': seq<Byte>, i: nat, j: nat)
    requires i <= j <= |m| && j <= |m'| && m[..j] == m'[..j]
    ensures m[..i] == m'[..i] && m[i..j] == m'[i..j]
  {
    assert m[..i] == m[..j][..i] && m'[..i] == m'[..j][..i];
    assert m[i..j] == m[..j][i..] && m'[i..j] == m'[..j][i..];
  }
}
