/** sha256.c: the unrolled compression and the streaming interface. */
module Sha256 {
  import opened Bytes
  import opened Sha256Spec

  // ---- the macros ----

  function Shr(x: bv32, n: bv6): bv32
    requires n < 32
  {
    (x & 0xFFFFFFFF) >> n
  }

  function RotrMacro(x: bv32, n: bv6): bv32
    requires 0 < n < 32
  {
    Shr(x, n) | (x << (32 - n))
  }

  function S0(x: bv32): bv32 { Xor3(RotrMacro(x, 7), RotrMacro(x, 18), Shr(x, 3)) }
  function S1(x: bv32): bv32 { Xor3(RotrMacro(x, 17), RotrMacro(x, 19), Shr(x, 10)) }
  function S2(x: bv32): bv32 { Xor3(RotrMacro(x, 2), RotrMacro(x, 13), RotrMacro(x, 22)) }
  function S3(x: bv32): bv32 { Xor3(RotrMacro(x, 6), RotrMacro(x, 11), RotrMacro(x, 25)) }
  function F0(x: bv32, y: bv32, z: bv32): bv32 { (x & y) | (z & (x | y)) }
  function F1(x: bv32, y: bv32, z: bv32): bv32 { z ^ (x & (y ^ z)) }

  lemma {:induction false} MaskAll(x: bv32)
    ensures x & 0xFFFFFFFF == x
  {}

  lemma {:induction false} RotrAgrees(x: bv32, n: bv6)
    requires 0 < n < 32
    ensures RotrMacro(x, n) == Rotr(x, n) && Shr(x, n) == x >> n
  {
    MaskAll(x);
  }

  lemma {:induction false} BigSigmasAgree(x: bv32)
    ensures S2(x) == BigSigma0(x) && S3(x) == BigSigma1(x)
  {
    RotrAgrees(x, 2);
    RotrAgrees(x, 13);
    RotrAgrees(x, 22);
    RotrAgrees(x, 6);
    RotrAgrees(x, 11);
    RotrAgrees(x, 25);
  }

  lemma {:induction false} SmallSigmasAgree(x: bv32)
    ensures S0(x) == SmallSigma0(x) && S1(x) == SmallSigma1(x)
  {
    RotrAgrees(x, 7);
    RotrAgrees(x, 18);
    RotrAgrees(x, 3);
    RotrAgrees(x, 17);
    RotrAgrees(x, 19);
    RotrAgrees(x, 10);
  }

  lemma {:induction false} MajorityBits(x: bv32, y: bv32, z: bv32)
    ensures (x & y) | (z & (x | y)) == (x & y) ^ (x & z) ^ (y & z)
  {}

  lemma {:induction false} ChoiceBits(x: bv32, y: bv32, z: bv32)
    ensures z ^ (x & (y ^ z)) == (x & y) ^ (!x & z)
  {}

  /** The shorter forms of majority and choice. */
  lemma {:induction false} ChoicesAgree(x: bv32, y: bv32, z: bv32)
    ensures F0(x, y, z) == Maj(x, y, z) && F1(x, y, z) == Ch(x, y, z)
  {
    MajorityBits(x, y, z);
    ChoiceBits(x, y, z);
  }

  /** GET_UINT32 */
  function GetWord(s: seq<Byte>, i: nat): bv32
    requires i + 4 <= |s|
  {
    (Extend(s[i]) << 24) | (Extend(s[i + 1]) << 16) | (Extend(s[i + 2]) << 8) | Extend(s[i + 3])
  }

  lemma {:induction false} OrIsSum(a: bv8, b: bv8, c: bv8, d: bv8)
    ensures ((a as bv32) << 24) | ((b as bv32) << 16) | ((c as bv32) << 8) | (d as bv32) ==
            (a as bv32) * 0x100_0000 + (b as bv32) * 0x1_0000 + (c as bv32) * 0x100 + (d as bv32)
  {}

  lemma {:induction false} GetWordValue(block: seq<Byte>, i: nat)
    requires |block| == 64 && i < 16
    ensures GetWord(block, 4 * i) == BlockWord(block, i)
  {
    OrIsSum(block[4 * i] as bv8, block[4 * i + 1] as bv8, block[4 * i + 2] as bv8, block[4 * i + 3] as bv8);
  }

  /** The macro P writes its fourth and eighth register; read one place to the
      right, that is the next round. */
  method P(a: bv32, b: bv32, c: bv32, d: bv32, e: bv32, f: bv32, g: bv32, h: bv32, x: bv32, k: bv32,
           ghost r: Regs, ghost block: seq<Byte>, ghost t: nat)
    returns (d': bv32, h': bv32)
    requires |block| == 64 && t < 64 && k == K(t) && x == Schedule(block, t)
    requires Regs(a, b, c, d, e, f, g, h) == Rounds(r, block, t)
    ensures Regs(h', a, b, c, d', e, f, g) == Rounds(r, block, t + 1)
  {
    d', h' := RoundMacro(a, b, c, d, e, f, g, h, x, k);
    NextRound(r, block, t);
  }

  lemma {:induction false} NextRound(r: Regs, block: seq<Byte>, t: nat)
    requires |block| == 64 && t < 64
    ensures Rounds(r, block, t + 1) == Round(Rounds(r, block, t), K(t), Schedule(block, t))
  {}

  method RoundMacro(a: bv32, b: bv32, c: bv32, d: bv32, e: bv32, f: bv32, g: bv32, h: bv32, x: bv32, k: bv32)
    returns (d': bv32, h': bv32)
    ensures Regs(h', a, b, c, d', e, f, g) == Round(Regs(a, b, c, d, e, f, g, h), k, x)
  {
    BigSigmasAgree(e);
    BigSigmasAgree(a);
    ChoicesAgree(e, f, g);
    ChoicesAgree(a, b, c);
    var temp1 := Sum5(h, S3(e), F1(e, f, g), k, x);
    var temp2 := Sum2(S2(a), F0(a, b, c));
    d' := Sum2(d, temp1);
    h' := Sum2(temp1, temp2);
  }

  /** The first n words of the schedule are in place. */
  ghost predicate Filled(w: seq<bv32>, block: seq<Byte>, n: nat)
    requires |block| == 64
  {
    n <= |w| && forall i | 0 <= i < n :: w[i] == Schedule(block, i)
  }

  /** Registers four places on. */
  function Rotated(s: Regs): Regs { Regs(s.e, s.f, s.g, s.h, s.a, s.b, s.c, s.d) }

  /** These are the constants of the rounds from t on. */
  ghost predicate AreConstants(ks: seq<bv32>, t: nat) {
    t + |ks| <= 64 && forall i | 0 <= i < |ks| :: ks[i] == K(t + i)
  }

  lemma {:induction false} GroupConstants(j: nat)
    requires j < 8
    ensures AreConstants(Constants(j), 8 * j)
  {
    forall i | 0 <= i < 8
      ensures Constants(j)[i] == K(8 * j + i)
    {
      assert (8 * j + i) / 8 == j && (8 * j + i) % 8 == i;
    }
  }

  /** Lines 1 to 4 of a group of eight. */
  method FirstFour(w: array<bv32>, t: nat, ks: seq<bv32>, s: Regs, ghost r: Regs, ghost block: seq<Byte>)
    returns (s': Regs)
    requires |block| == 64 && t + 8 <= 64 && Filled(w[..], block, t + 8) && |ks| == 8 && AreConstants(ks, t)
    requires s == Rounds(r, block, t)
    ensures Rotated(s') == Rounds(r, block, t + 4)
  {
    var A, B, C, D, E, F, G, H := s.a, s.b, s.c, s.d, s.e, s.f, s.g, s.h;
    D, H := P(A, B, C, D, E, F, G, H, w[t], ks[0], r, block, t);
    C, G := P(H, A, B, C, D, E, F, G, w[t + 1], ks[1], r, block, t + 1);
    B, F := P(G, H, A, B, C, D, E, F, w[t + 2], ks[2], r, block, t + 2);
    A, E := P(F, G, H, A, B, C, D, E, w[t + 3], ks[3], r, block, t + 3);
    s' := Regs(A, B, C, D, E, F, G, H);
  }

  /** Lines 5 to 8: after them every register has its own name again. */
  method LastFour(w: array<bv32>, t: nat, ks: seq<bv32>, s: Regs, ghost r: Regs, ghost block: seq<Byte>)
    returns (s': Regs)
    requires |block| == 64 && t + 8 <= 64 && Filled(w[..], block, t + 8) && |ks| == 8 && AreConstants(ks, t)
    requires Rotated(s) == Rounds(r, block, t + 4)
    ensures s' == Rounds(r, block, t + 8)
  {
    var A, B, C, D, E, F, G, H := s.a, s.b, s.c, s.d, s.e, s.f, s.g, s.h;
    H, D := P(E, F, G, H, A, B, C, D, w[t + 4], ks[4], r, block, t + 4);
    G, C := P(D, E, F, G, H, A, B, C, w[t + 5], ks[5], r, block, t + 5);
    F, B := P(C, D, E, F, G, H, A, B, w[t + 6], ks[6], r, block, t + 6);
    E, A := P(B, C, D, E, F, G, H, A, w[t + 7], ks[7], r, block, t + 7);
    s' := Regs(A, B, C, D, E, F, G, H);
  }

  /** The macro R. */
  method R(w: array<bv32>, t: nat, ghost block: seq<Byte>)
    requires |block| == 64 && 16 <= t < 64 && w.Length == 64 && Filled(w[..], block, t)
    modifies w
    ensures Filled(w[..], block, t + 1)
  {
    SmallSigmasAgree(w[t - 2]);
    SmallSigmasAgree(w[t - 15]);
    w[t] := Sum4(S1(w[t - 2]), w[t - 7], S0(w[t - 15]), w[t - 16]);
  }

  /** A group of eight lines on words already in place. */
  method EightRounds(w: array<bv32>, j: nat, t: nat, s: Regs, ghost r: Regs, ghost block: seq<Byte>)
    returns (s': Regs)
    requires |block| == 64 && t + 8 <= 64 && t == 8 * j
    requires Filled(w[..], block, t + 8) && s == Rounds(r, block, t)
    ensures s' == Rounds(r, block, t + 8)
  {
    var ks := LineConstants(j);
    s' := FirstFour(w, t, ks, s, r, block);
    s' := LastFour(w, t, ks, s', r, block);
  }

  /** A group of eight lines that computes its words. */
  method EightMore(w: array<bv32>, j: nat, t: nat, s: Regs, ghost r: Regs, ghost block: seq<Byte>)
    returns (s': Regs)
    requires |block| == 64 && 16 <= t && t + 8 <= 64 && t == 8 * j
    requires w.Length == 64 && Filled(w[..], block, t) && s == Rounds(r, block, t)
    modifies w
    ensures Filled(w[..], block, t + 8) && s' == Rounds(r, block, t + 8)
  {
    R(w, t, block);
    R(w, t + 1, block);
    R(w, t + 2, block);
    R(w, t + 3, block);
    R(w, t + 4, block);
    R(w, t + 5, block);
    R(w, t + 6, block);
    R(w, t + 7, block);
    s' := EightRounds(w, j, t, s, r, block);
  }

  /** The literals in lines 8j to 8j + 7 of the rounds. */
  method LineConstants(j: nat) returns (ks: seq<bv32>)
    requires j < 8
    ensures |ks| == 8 && AreConstants(ks, 8 * j)
  {
    GroupConstants(j);
    match j {
      case 0 =>
        ks := [0x428A2F98, 0x71374491, 0xB5C0FBCF, 0xE9B5DBA5, 0x3956C25B, 0x59F111F1, 0x923F82A4, 0xAB1C5ED5];
      case 1 =>
        ks := [0xD807AA98, 0x12835B01, 0x243185BE, 0x550C7DC3, 0x72BE5D74, 0x80DEB1FE, 0x9BDC06A7, 0xC19BF174];
      case 2 =>
        ks := [0xE49B69C1, 0xEFBE4786, 0x0FC19DC6, 0x240CA1CC, 0x2DE92C6F, 0x4A7484AA, 0x5CB0A9DC, 0x76F988DA];
      case 3 =>
        ks := [0x983E5152, 0xA831C66D, 0xB00327C8, 0xBF597FC7, 0xC6E00BF3, 0xD5A79147, 0x06CA6351, 0x14292967];
      case 4 =>
        ks := [0x27B70A85, 0x2E1B2138, 0x4D2C6DFC, 0x53380D13, 0x650A7354, 0x766A0ABB, 0x81C2C92E, 0x92722C85];
      case 5 =>
        ks := [0xA2BFE8A1, 0xA81A664B, 0xC24B8B70, 0xC76C51A3, 0xD192E819, 0xD6990624, 0xF40E3585, 0x106AA070];
      case 6 =>
        ks := [0x19A4C116, 0x1E376C08, 0x2748774C, 0x34B0BCB5, 0x391C0CB3, 0x4ED8AA4A, 0x5B9CCA4F, 0x682E6FF3];
      case _ =>
        ks := [0x748F82EE, 0x78A5636F, 0x84C87814, 0x8CC70208, 0x90BEFFFA, 0xA4506CEB, 0xBEF9A3F7, 0xC67178F2];
    }
  }

  /** SHA256_Process: the unrolled rounds are the compression of section 6.2.2. */
  method Process(block: seq<Byte>, state: Regs) returns (state': Regs)
    requires |block| == 64
    ensures state' == Compress(state, block)
  {
    var w := new bv32[64];
    LoadWords(w, block);
    var t, s := 0, state;
    s := EightRounds(w, 0, t, s, state, block);
    s := EightRounds(w, 1, t + 8, s, state, block);
    s := EightMore(w, 2, t + 16, s, state, block);
    s := EightMore(w, 3, t + 24, s, state, block);
    s := SecondHalf(w, t + 32, s, state, block);
    state' := Plus(state, s);
  }

  /** The last four groups of eight lines. */
  method SecondHalf(w: array<bv32>, t: nat, s: Regs, ghost r: Regs, ghost block: seq<Byte>) returns (s': Regs)
    requires |block| == 64 && t == 32 && w.Length == 64 && Filled(w[..], block, t) && s == Rounds(r, block, t)
    modifies w
    ensures s' == Rounds(r, block, t + 32)
  {
    s' := EightMore(w, 4, t, s, r, block);
    s' := EightMore(w, 5, t + 8, s', r, block);
    s' := EightMore(w, 6, t + 16, s', r, block);
    s' := EightMore(w, 7, t + 24, s', r, block);
  }

  /** The sixteen words of the block. */
  method LoadWords(w: array<bv32>, block: seq<Byte>)
    requires |block| == 64 && w.Length == 64
    modifies w
    ensures Filled(w[..], block, 16)
  {
    forall i | 0 <= i < 16 ensures GetWord(block, 4 * i) == BlockWord(block, i) { GetWordValue(block, i); }
    forall i | 0 <= i < 16 { w[i] := GetWord(block, 4 * i); }
  }

  // ---- the streaming interface ----

  const PADDING: seq<Byte> := [0x80] + seq(63, _ => 0)

  /** What one call adds to the two counters of 32 bits. */
  lemma {:induction false} Counters(n: nat, len: nat)
    requires len < WORD
    ensures (n + len) % WORD == (n % WORD + len) % WORD
    ensures (n + len) % WORD < len <==> n % WORD + len >= WORD
    ensures (n + len) / WORD == n / WORD + (if n % WORD + len >= WORD then 1 else 0)
  {
    var q, r := n / WORD, n % WORD;
    if r + len >= WORD {
      Quotient(n + len, q + 1, r + len - WORD);
      Quotient(r + len, 1, r + len - WORD);
    } else {
      Quotient(n + len, q, r + len);
      Quotient(r + len, 0, r + len);
    }
  }

  lemma {:induction false} Quotient(x: int, q: int, r: int)
    requires x == q * WORD + r && 0 <= r < WORD
    ensures x / WORD == q && x % WORD == r
  {}

  lemma {:induction false} LowBits(n: nat)
    ensures (n % WORD) % 64 == n % 64
  {
    var q := n / WORD;
    assert n == 64 * (0x400_0000 * q) + n % WORD;
  }

  class Context {
    var total0: nat
    var total1: nat
    var state: Regs
    const buffer: array<Byte>
    ghost var msg: seq<Byte>

    /** The whole blocks of the message so far are in the state, the rest is in
        the buffer. */
    ghost predicate Valid()
      reads this, buffer
    {
      && buffer.Length == 64
      && total0 == |msg| % WORD && total1 == |msg| / WORD % WORD
      && state == Blocks(msg, |msg| / 64)
      && buffer[..|msg| % 64] == msg[64 * (|msg| / 64)..]
    }

    constructor ()
      ensures Valid() && fresh(buffer) && msg == []
    {
      buffer := new Byte[64];
      total0, total1, state, msg := 0, 0, INITIAL, [];
    }

    /** SHA256_Init on a context used before. */
    method Init()
      requires buffer.Length == 64
      modifies this
      ensures Valid() && msg == []
    {
      total0, total1, state, msg := 0, 0, INITIAL, [];
    }

    /** SHA256_Update: the message grows by the data. */
    method Update(data: seq<Byte>)
      requires Valid() && |data| < WORD / 2
      modifies this, buffer
      ensures Valid() && msg == old(msg) + data
    {
      var left := total0 % 64;
      LowBits(|msg|);
      Count(|data|);
      ghost var all, n := msg + data, |msg| / 64;
      Continued(msg, data);
      Absorb(left, data, all, n);
      msg := all;
    }

    /** The two counters. */
    method Count(len: nat)
      requires total0 == |msg| % WORD && total1 == |msg| / WORD % WORD && len < WORD / 2
      modifies this`total0, this`total1
      ensures total0 == (|msg| + len) % WORD && total1 == (|msg| + len) / WORD % WORD
    {
      Counters(|msg|, len);
      total0 := (total0 + len) % WORD;
      if total0 < len {
        Counters(|msg| / WORD, 1);
        total1 := (total1 + 1) % WORD;
      }
    }

    /** n blocks of the message are in the state, the next `left` bytes in the
        buffer. */
    ghost predicate Holds(all: seq<Byte>, n: nat, left: nat)
      reads this, buffer
    {
      && buffer.Length == 64 && left < 64 && 64 * n + left <= |all|
      && state == Blocks(all, n) && buffer[..left] == all[64 * n..64 * n + left]
    }

    /** Blocks as they become whole; the rest stays in the buffer. */
    method Absorb(left: nat, data: seq<Byte>, ghost all: seq<Byte>, ghost n: nat)
      requires Holds(all, n, left) && Remains(all, n, left, data)
      modifies this`state, buffer
      ensures Holds(all, |all| / 64, |all| % 64)
    {
      var fill := 64 - left;
      if left != 0 && |data| >= fill {
        TopUp(left, data, all, n);
        AbsorbBlocks(0, data[fill..], all, n + 1);
      } else {
        AbsorbBlocks(left, data, all, n);
      }
    }

    /** The block begun in an earlier call. */
    method TopUp(left: nat, data: seq<Byte>, ghost all: seq<Byte>, ghost n: nat)
      requires Holds(all, n, left) && Remains(all, n, left, data)
      requires |data| >= 64 - left
      modifies this`state, buffer
      ensures Holds(all, n + 1, 0) && Remains(all, n + 1, 0, data[64 - left..])
    {
      CopyIn(left, data[..64 - left]);
      WholeBlock(all, n, left, data);
      assert buffer[..] == buffer[..64];
      ProcessBlock(buffer[..], all, n);
    }

    /** The next block of the message. */
    method ProcessBlock(block: seq<Byte>, ghost all: seq<Byte>, ghost n: nat)
      requires 64 * (n + 1) <= |all| && block == all[64 * n..64 * (n + 1)] && state == Blocks(all, n)
      modifies this`state
      ensures state == Blocks(all, n + 1)
    {
      state := Process(block, state);
      BlockStep(all, n);
    }

    /** The loop over whole blocks. */
    method AbsorbBlocks(left: nat, data: seq<Byte>, ghost all: seq<Byte>, ghost n: nat)
      requires Holds(all, n, left) && Remains(all, n, left, data)
      requires left == 0 || |data| < 64 - left
      modifies this`state, buffer
      ensures Holds(all, |all| / 64, |all| % 64)
    {
      var rest := data;
      ghost var n := n;
      while |rest| >= 64
        invariant Holds(all, n, left) && Remains(all, n, left, rest)
        invariant left == 0 || |rest| < 64 - left
      {
        NextBlock(all, n, rest);
        ProcessBlock(rest[..64], all, n);
        rest, n := rest[64..], n + 1;
      }
      Keep(left, rest, all, n);
    }

    /** The copy of what is left. */
    method Keep(left: nat, rest: seq<Byte>, ghost all: seq<Byte>, ghost n: nat)
      requires Holds(all, n, left) && Remains(all, n, left, rest) && left + |rest| < 64
      modifies buffer
      ensures Holds(all, |all| / 64, |all| % 64)
    {
      LastBytes(all, n, left, rest);
      if |rest| != 0 {
        CopyIn(left, rest);
      }
    }

    /** memcpy into the buffer. */
    method CopyIn(at: nat, bytes: seq<Byte>)
      requires at + |bytes| <= buffer.Length
      modifies buffer
      ensures buffer[..at + |bytes|] == old(buffer[..at]) + bytes
    {
      forall i | 0 <= i < |bytes| { buffer[at + i] := bytes[i]; }
    }

    /** SHA256_Final: the digest of everything fed since the start. */
    method Final() returns (digest: seq<Byte>)
      requires Valid()
      modifies this, buffer
      ensures |old(msg)| < LIMIT ==> digest == Digest(old(msg))
    {
      ghost var m := msg;
      var msglen := CounterBytes(total0, total1);
      var last := total0 % 64;
      LowBits(|msg|);
      var padn := if last < 56 then 56 - last else 120 - last;
      if |m| < LIMIT { Padded(m, padn); }
      Update(PADDING[..padn]);
      Update(msglen);
      digest := RegsBytes(state);
    }
  }

  /** The array msglen: the counters times eight. The two parts of the high
      word have no bit in common. */
  function CounterBytes(total0: nat, total1: nat): (s: seq<Byte>)
    ensures |s| == 8
  {
    var high := total0 / 0x2000_0000 + (total1 * 8) % WORD;
    var low := (total0 * 8) % WORD;
    ToBytes(high, 4) + ToBytes(low, 4)
  }

  lemma {:induction false} Padded(m: seq<Byte>, padn: nat)
    requires |m| < LIMIT && padn == if |m| % 64 < 56 then 56 - |m| % 64 else 120 - |m| % 64
    ensures m + PADDING[..padn] + CounterBytes(|m| % WORD, |m| / WORD % WORD) == Pad(m)
  {
    LengthField(|m|);
    PadShape(m, padn, LengthBytes(|m|));
    ZeroCountOf(|m|, padn);
  }

  lemma {:induction false} ZeroCountOf(n: nat, padn: nat)
    requires padn == if n % 64 < 56 then 56 - n % 64 else 120 - n % 64
    ensures ZeroCount(n) == padn - 1
  {}

  lemma {:induction false} PadShape(m: seq<Byte>, padn: nat, l: seq<Byte>)
    requires 1 <= padn <= 64
    ensures m + PADDING[..padn] + l == m + [0x80] + seq(padn - 1, _ => 0) + l
  {
    PaddingBytes(padn);
    var p, z := [0x80], seq(padn - 1, _ => 0);
    assert m + (p + z) == m + p + z;
  }

  lemma {:induction false} PaddingBytes(padn: nat)
    requires 1 <= padn <= 64
    ensures PADDING[..padn] == [0x80] + seq(padn - 1, _ => 0)
  {}

  lemma {:induction false} Continued(m: seq<Byte>, data: seq<Byte>)
    ensures var n, left := |m| / 64, |m| % 64;
            && Blocks(m + data, n) == Blocks(m, n) && (m + data)[64 * n..64 * n + left] == m[64 * n..]
            && Remains(m + data, n, left, data)
  {
    var n, left := |m| / 64, |m| % 64;
    assert (m + data)[..64 * n] == m[..64 * n];
    BlocksPrefix(m, m + data, n);
  }

  /** What follows n blocks and `left` bytes. */
  predicate Remains(all: seq<Byte>, n: nat, left: nat, rest: seq<Byte>) {
    64 * n + left + |rest| == |all| && all[64 * n + left..] == rest
  }

  lemma {:induction false} WholeBlock(all: seq<Byte>, n: nat, left: nat, data: seq<Byte>)
    requires Remains(all, n, left, data) && left < 64 && |data| >= 64 - left
    ensures all[64 * n..64 * n + left] + data[..64 - left] == all[64 * n..64 * (n + 1)]
    ensures Remains(all, n + 1, 0, data[64 - left..]) && all[64 * (n + 1)..64 * (n + 1)] == []
  {}

  lemma {:induction false} NextBlock(all: seq<Byte>, n: nat, rest: seq<Byte>)
    requires Remains(all, n, 0, rest) && |rest| >= 64
    ensures rest[..64] == all[64 * n..64 * (n + 1)] && Remains(all, n + 1, 0, rest[64..])
  {}

  lemma {:induction false} LastBytes(all: seq<Byte>, n: nat, left: nat, rest: seq<Byte>)
    requires Remains(all, n, left, rest) && left + |rest| < 64
    ensures |all| / 64 == n && |all| % 64 == left + |rest|
    ensures all[64 * n..64 * n + left + |rest|] == all[64 * n..64 * n + left] + rest
  {}

  /** The length field holds the number of bits. */
  lemma {:induction false} LengthField(n: nat)
    requires n < LIMIT
    ensures CounterBytes(n % WORD, n / WORD % WORD) == LengthBytes(n)
  {
    HighAndLow(n);
    FourBytes();
    JoinBytes(8 * n / WORD, 8 * n % WORD, 4);
  }

  lemma {:induction false} HighAndLow(n: nat)
    requires n < LIMIT
    ensures n % WORD / 0x2000_0000 + (n / WORD % WORD * 8) % WORD == 8 * n / WORD
    ensures n % WORD * 8 % WORD == 8 * n % WORD && 8 * n / WORD * WORD + 8 * n % WORD == 8 * n
  {
    var q, r := n / WORD, n % WORD;
    var top, rest := r / 0x2000_0000, r % 0x2000_0000;
    Quotient(q, 0, q);
    Quotient(q * 8, 0, q * 8);
    Quotient(r * 8, top, rest * 8);
    Quotient(8 * n, top + q * 8, rest * 8);
  }

  lemma {:induction false} JoinBytes(h: nat, l: nat, k: nat)
    requires l < Pow256(k)
    ensures ToBytes(h * Pow256(k) + l, 4 + k) == ToBytes(h, 4) + ToBytes(l, k)
  {
    if k > 0 {
      var p := Pow256(k - 1);
      JoinBytes(h, l / 256, k - 1);
      assert h * Pow256(k) == 256 * (h * p);
      LastByte(h * p, l);
    }
  }

  lemma {:induction false} LastByte(x: nat, l: nat)
    ensures (256 * x + l) / 256 == x + l / 256 && (256 * x + l) % 256 == l % 256
  {}

  function Concat(pieces: seq<seq<Byte>>): seq<Byte> {
    if |pieces| == 0 then [] else Concat(pieces[..|pieces| - 1]) + pieces[|pieces| - 1]
  }

  /** Any message cut in any way: the streamed digest is the digest of the
      whole. */
  method HashPieces(pieces: seq<seq<Byte>>) returns (digest: seq<Byte>)
    requires forall p | p in pieces :: |p| < WORD / 2
    ensures |Concat(pieces)| < LIMIT ==> digest == Digest(Concat(pieces))
  {
    var ctx := new Context();
    for i := 0 to |pieces|
      invariant ctx.Valid() && fresh(ctx) && fresh(ctx.buffer) && ctx.msg == Concat(pieces[..i])
    {
      assert pieces[..i + 1][..i] == pieces[..i];
      ctx.Update(pieces[i]);
    }
    assert pieces[..|pieces|] == pieces;
    digest := ctx.Final();
  }
}
