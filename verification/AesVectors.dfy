/** AES-128 pinned to FIPS 197: the S-box as an affine map of inverses, the key
    schedule of appendix A.1 and the ciphertext of appendix B. */
module AesVectors {
  import opened AesField
  import opened AesCipher
  import opened AesModes

  // ---- the S-box ----

  /** A power of x times y, if the bit is set. */
  function Term(bit: bv8, p: bv8): bv8 { if bit == 0 then 0 else p }

  /** The product in GF(2^8), section 4.2 of FIPS 197. */
  function Product(x: bv8, y: bv8): bv8 {
    var x1 := Xtime(x);
    var x2 := Xtime(x1);
    var x3 := Xtime(x2);
    var x4 := Xtime(x3);
    var x5 := Xtime(x4);
    var x6 := Xtime(x5);
    var x7 := Xtime(x6);
    Term(y & 0x01, x) ^ Term(y & 0x02, x1) ^ Term(y & 0x04, x2) ^ Term(y & 0x08, x3) ^
    Term(y & 0x10, x4) ^ Term(y & 0x20, x5) ^ Term(y & 0x40, x6) ^ Term(y & 0x80, x7)
  }

  /** The affine map of section 5.1.1: bits i, i + 4, i + 5, i + 6 and i + 7 of y
      and of 0x63. */
  function Affine(y: bv8): bv8 {
    y ^ ((y << 1) | (y >> 7)) ^ ((y << 2) | (y >> 6)) ^ ((y << 3) | (y >> 5)) ^ ((y << 4) | (y >> 4)) ^ 0x63
  }

  function Unaffine(z: bv8): bv8 {
    ((z << 1) | (z >> 7)) ^ ((z << 3) | (z >> 5)) ^ ((z << 6) | (z >> 2)) ^ 0x05
  }

  lemma {:induction false} AffineUndo(z: bv8)
    ensures Affine(Unaffine(z)) == z
  {}

  lemma {:induction false} InverseQuarter0(x: bv8)
    requires x & 0xC0 == 0x00 && x != 0
    ensures Product(x, Unaffine(Sbox(x))) == 1
  {}

  lemma {:induction false} InverseQuarter1(x: bv8)
    requires x & 0xC0 == 0x40
    ensures Product(x, Unaffine(Sbox(x))) == 1
  {}

  lemma {:induction false} InverseQuarter2(x: bv8)
    requires x & 0xC0 == 0x80
    ensures Product(x, Unaffine(Sbox(x))) == 1
  {}

  lemma {:induction false} InverseQuarter3(x: bv8)
    requires x & 0xC0 == 0xC0
    ensures Product(x, Unaffine(Sbox(x))) == 1
  {}

  /** Section 5.1.1 of FIPS 197: every entry of the S-box is the affine map of the
      inverse, 0 having the inverse 0. */
  lemma {:induction false} SboxMeans(x: bv8) returns (y: bv8)
    ensures if x == 0 then y == 0 else Product(x, y) == 1
    ensures Sbox(x) == Affine(y)
  {
    y := Unaffine(Sbox(x));
    AffineUndo(Sbox(x));
    if x == 0 {
      ZeroEntry();
    } else if x & 0xC0 == 0x00 {
      InverseQuarter0(x);
    } else if x & 0xC0 == 0x40 {
      InverseQuarter1(x);
    } else if x & 0xC0 == 0x80 {
      InverseQuarter2(x);
    } else {
      InverseQuarter3(x);
    }
  }

  lemma {:induction false} ZeroEntry()
    ensures Unaffine(Sbox(0)) == 0
  {}

  // ---- words and blocks as records ----

  datatype Quad = Quad(a: bv8, b: bv8, c: bv8, d: bv8)

  /** Four words: a round key, or the columns of a state. */
  datatype Quads = Quads(p: Quad, q: Quad, r: Quad, s: Quad)

  function WordOf(x: Quad): Word { [x.a, x.b, x.c, x.d] }

  function BlockOf(x: Quads): Block {
    [x.p.a, x.p.b, x.p.c, x.p.d, x.q.a, x.q.b, x.q.c, x.q.d, x.r.a, x.r.b, x.r.c, x.r.d, x.s.a, x.s.b, x.s.c, x.s.d]
  }

  function AddQuad(x: Quad, y: Quad): Quad { Quad(Add(x.a, y.a), Add(x.b, y.b), Add(x.c, y.c), Add(x.d, y.d)) }

  function AddQuads(x: Quads, y: Quads): Quads {
    Quads(AddQuad(x.p, y.p), AddQuad(x.q, y.q), AddQuad(x.r, y.r), AddQuad(x.s, y.s))
  }

  lemma {:induction false} AddQuadIs(x: Quad, y: Quad)
    ensures XorWord(WordOf(x), WordOf(y)) == WordOf(AddQuad(x, y))
  {}

  // ---- the key schedule of appendix A.1 ----

  const KEY: Quads := RoundWords(0)

  /** The round keys of the key 2b7e151628aed2a6abf7158809cf4f3c. */
  function RoundWords(r: nat): Quads
    requires r <= 10
  {
    match r
    case 0 =>
      Quads(Quad(0x2b, 0x7e, 0x15, 0x16), Quad(0x28, 0xae, 0xd2, 0xa6),
            Quad(0xab, 0xf7, 0x15, 0x88), Quad(0x09, 0xcf, 0x4f, 0x3c))
    case 1 =>
      Quads(Quad(0xa0, 0xfa, 0xfe, 0x17), Quad(0x88, 0x54, 0x2c, 0xb1),
            Quad(0x23, 0xa3, 0x39, 0x39), Quad(0x2a, 0x6c, 0x76, 0x05))
    case 2 =>
      Quads(Quad(0xf2, 0xc2, 0x95, 0xf2), Quad(0x7a, 0x96, 0xb9, 0x43),
            Quad(0x59, 0x35, 0x80, 0x7a), Quad(0x73, 0x59, 0xf6, 0x7f))
    case 3 =>
      Quads(Quad(0x3d, 0x80, 0x47, 0x7d), Quad(0x47, 0x16, 0xfe, 0x3e),
            Quad(0x1e, 0x23, 0x7e, 0x44), Quad(0x6d, 0x7a, 0x88, 0x3b))
    case 4 =>
      Quads(Quad(0xef, 0x44, 0xa5, 0x41), Quad(0xa8, 0x52, 0x5b, 0x7f),
            Quad(0xb6, 0x71, 0x25, 0x3b), Quad(0xdb, 0x0b, 0xad, 0x00))
    case 5 =>
      Quads(Quad(0xd4, 0xd1, 0xc6, 0xf8), Quad(0x7c, 0x83, 0x9d, 0x87),
            Quad(0xca, 0xf2, 0xb8, 0xbc), Quad(0x11, 0xf9, 0x15, 0xbc))
    case 6 =>
      Quads(Quad(0x6d, 0x88, 0xa3, 0x7a), Quad(0x11, 0x0b, 0x3e, 0xfd),
            Quad(0xdb, 0xf9, 0x86, 0x41), Quad(0xca, 0x00, 0x93, 0xfd))
    case 7 =>
      Quads(Quad(0x4e, 0x54, 0xf7, 0x0e), Quad(0x5f, 0x5f, 0xc9, 0xf3),
            Quad(0x84, 0xa6, 0x4f, 0xb2), Quad(0x4e, 0xa6, 0xdc, 0x4f))
    case 8 =>
      Quads(Quad(0xea, 0xd2, 0x73, 0x21), Quad(0xb5, 0x8d, 0xba, 0xd2),
            Quad(0x31, 0x2b, 0xf5, 0x60), Quad(0x7f, 0x8d, 0x29, 0x2f))
    case 9 =>
      Quads(Quad(0xac, 0x77, 0x66, 0xf3), Quad(0x19, 0xfa, 0xdc, 0x21),
            Quad(0x28, 0xd1, 0x29, 0x41), Quad(0x57, 0x5c, 0x00, 0x6e))
    case _ =>
      Quads(Quad(0xd0, 0x14, 0xf9, 0xa8), Quad(0xc9, 0xee, 0x25, 0x89),
            Quad(0xe1, 0x3f, 0x0c, 0xc8), Quad(0xb6, 0x63, 0x0c, 0xa6))
  }

  /** RotWord, SubWord and the round constant of section 5.2. */
  function SubRot(x: Quad, rcon: bv8): Quad { Quad(Add(Sbox(x.b), rcon), Sbox(x.c), Sbox(x.d), Sbox(x.a)) }

  function NextKey(k: Quads, rcon: bv8): Quads {
    var p := AddQuad(k.p, SubRot(k.s, rcon));
    var q := AddQuad(k.q, p);
    var r := AddQuad(k.r, q);
    Quads(p, q, r, AddQuad(k.s, r))
  }

  lemma {:induction false} SubRotIs(x: Quad, j: nat)
    requires j >= 1
    ensures CoreWord(WordOf(x), j) == WordOf(SubRot(x, Rcon(j)))
  {
    BoxValue(true, x.a, 4);
    BoxValue(true, x.b, 4);
    BoxValue(true, x.c, 4);
    BoxValue(true, x.d, 4);
  }

  /** f gives the words of the schedule of key. */
  ghost predicate TracksKey(f: nat -> Word, key: Block) {
    forall i: nat {:trigger KeyWord(key, i)} :: f(i) == KeyWord(key, i)
  }

  lemma {:induction false} NextWordIs(f: nat -> Word, key: Block, i: nat, x: Quad, y: Quad)
    requires TracksKey(f, key) && i >= 4 && i % 4 != 0 && f(i - 4) == WordOf(x) && f(i - 1) == WordOf(y)
    ensures f(i) == WordOf(AddQuad(x, y))
  {
    assert KeyWord(key, i) == XorWord(KeyWord(key, i - 4), KeyWord(key, i - 1));
    AddQuadIs(x, y);
  }

  lemma {:induction false} FirstWordIs(f: nat -> Word, key: Block, r: nat, i: nat, x: Quad, y: Quad)
    requires TracksKey(f, key) && r >= 1 && i == 4 * r && f(i - 4) == WordOf(x) && f(i - 1) == WordOf(y)
    ensures f(i) == WordOf(AddQuad(x, SubRot(y, Rcon(r))))
  {
    assert i % 4 == 0 && i / 4 == r;
    assert KeyWord(key, i) == XorWord(KeyWord(key, i - 4), CoreWord(KeyWord(key, i - 1), r));
    SubRotIs(y, r);
    AddQuadIs(x, SubRot(y, Rcon(r)));
  }

  /** The four words from i on. */
  ghost predicate KeyAt(f: nat -> Word, i: nat, k: Quads) {
    f(i) == WordOf(k.p) && f(i + 1) == WordOf(k.q) && f(i + 2) == WordOf(k.r) && f(i + 3) == WordOf(k.s)
  }

  lemma {:induction false} NextKeyIs(f: nat -> Word, key: Block, r: nat, i: nat, k: Quads)
    requires TracksKey(f, key) && r >= 1 && i == 4 * r && KeyAt(f, i - 4, k)
    ensures KeyAt(f, i, NextKey(k, Rcon(r)))
  {
    var n := NextKey(k, Rcon(r));
    Remainders(i, r);
    FirstWordIs(f, key, r, i, k.p, k.s);
    NextWordIs(f, key, i + 1, k.q, n.p);
    NextWordIs(f, key, i + 2, k.r, n.q);
    NextWordIs(f, key, i + 3, k.s, n.r);
  }

  lemma {:induction false} Remainders(i: nat, r: nat)
    requires i == 4 * r
    ensures (i + 1) % 4 == 1 && (i + 2) % 4 == 2 && (i + 3) % 4 == 3
  {}

  function RconOf(r: nat): bv8
    requires 1 <= r <= 10
  {
    match r
    case 1 => 0x01
    case 2 => 0x02
    case 3 => 0x04
    case 4 => 0x08
    case 5 => 0x10
    case 6 => 0x20
    case 7 => 0x40
    case 8 => 0x80
    case 9 => 0x1b
    case _ => 0x36
  }

  lemma {:induction false} RconIs(r: nat)
    requires 1 <= r <= 10
    ensures Rcon(r) == RconOf(r)
  {
    if r > 1 { RconIs(r - 1); }
  }

  lemma {:induction false} KeyVector(r: nat)
    requires 1 <= r <= 10
    ensures NextKey(RoundWords(r - 1), RconOf(r)) == RoundWords(r)
  {
    match r {
      case 1 => KeyVector1();
      case 2 => KeyVector2();
      case 3 => KeyVector3();
      case 4 => KeyVector4();
      case 5 => KeyVector5();
      case 6 => KeyVector6();
      case 7 => KeyVector7();
      case 8 => KeyVector8();
      case 9 => KeyVector9();
      case _ => KeyVector10();
    }
  }

  lemma {:induction false} KeyVector1()
    ensures NextKey(Quads(Quad(0x2b, 0x7e, 0x15, 0x16), Quad(0x28, 0xae, 0xd2, 0xa6),
            Quad(0xab, 0xf7, 0x15, 0x88), Quad(0x09, 0xcf, 0x4f, 0x3c)), 0x01) ==
            Quads(Quad(0xa0, 0xfa, 0xfe, 0x17), Quad(0x88, 0x54, 0x2c, 0xb1),
            Quad(0x23, 0xa3, 0x39, 0x39), Quad(0x2a, 0x6c, 0x76, 0x05))
  {}

  lemma {:induction false} KeyVector2()
    ensures NextKey(Quads(Quad(0xa0, 0xfa, 0xfe, 0x17), Quad(0x88, 0x54, 0x2c, 0xb1),
            Quad(0x23, 0xa3, 0x39, 0x39), Quad(0x2a, 0x6c, 0x76, 0x05)), 0x02) ==
            Quads(Quad(0xf2, 0xc2, 0x95, 0xf2), Quad(0x7a, 0x96, 0xb9, 0x43),
            Quad(0x59, 0x35, 0x80, 0x7a), Quad(0x73, 0x59, 0xf6, 0x7f))
  {}

  lemma {:induction false} KeyVector3()
    ensures NextKey(Quads(Quad(0xf2, 0xc2, 0x95, 0xf2), Quad(0x7a, 0x96, 0xb9, 0x43),
            Quad(0x59, 0x35, 0x80, 0x7a), Quad(0x73, 0x59, 0xf6, 0x7f)), 0x04) ==
            Quads(Quad(0x3d, 0x80, 0x47, 0x7d), Quad(0x47, 0x16, 0xfe, 0x3e),
            Quad(0x1e, 0x23, 0x7e, 0x44), Quad(0x6d, 0x7a, 0x88, 0x3b))
  {}

  lemma {:induction false} KeyVector4()
    ensures NextKey(Quads(Quad(0x3d, 0x80, 0x47, 0x7d), Quad(0x47, 0x16, 0xfe, 0x3e),
            Quad(0x1e, 0x23, 0x7e, 0x44), Quad(0x6d, 0x7a, 0x88, 0x3b)), 0x08) ==
            Quads(Quad(0xef, 0x44, 0xa5, 0x41), Quad(0xa8, 0x52, 0x5b, 0x7f),
            Quad(0xb6, 0x71, 0x25, 0x3b), Quad(0xdb, 0x0b, 0xad, 0x00))
  {}

  lemma {:induction false} KeyVector5()
    ensures NextKey(Quads(Quad(0xef, 0x44, 0xa5, 0x41), Quad(0xa8, 0x52, 0x5b, 0x7f),
            Quad(0xb6, 0x71, 0x25, 0x3b), Quad(0xdb, 0x0b, 0xad, 0x00)), 0x10) ==
            Quads(Quad(0xd4, 0xd1, 0xc6, 0xf8), Quad(0x7c, 0x83, 0x9d, 0x87),
            Quad(0xca, 0xf2, 0xb8, 0xbc), Quad(0x11, 0xf9, 0x15, 0xbc))
  {}

  lemma {:induction false} KeyVector6()
    ensures NextKey(Quads(Quad(0xd4, 0xd1, 0xc6, 0xf8), Quad(0x7c, 0x83, 0x9d, 0x87),
            Quad(0xca, 0xf2, 0xb8, 0xbc), Quad(0x11, 0xf9, 0x15, 0xbc)), 0x20) ==
            Quads(Quad(0x6d, 0x88, 0xa3, 0x7a), Quad(0x11, 0x0b, 0x3e, 0xfd),
            Quad(0xdb, 0xf9, 0x86, 0x41), Quad(0xca, 0x00, 0x93, 0xfd))
  {}

  lemma {:induction false} KeyVector7()
    ensures NextKey(Quads(Quad(0x6d, 0x88, 0xa3, 0x7a), Quad(0x11, 0x0b, 0x3e, 0xfd),
            Quad(0xdb, 0xf9, 0x86, 0x41), Quad(0xca, 0x00, 0x93, 0xfd)), 0x40) ==
            Quads(Quad(0x4e, 0x54, 0xf7, 0x0e), Quad(0x5f, 0x5f, 0xc9, 0xf3),
            Quad(0x84, 0xa6, 0x4f, 0xb2), Quad(0x4e, 0xa6, 0xdc, 0x4f))
  {}

  lemma {:induction false} KeyVector8()
    ensures NextKey(Quads(Quad(0x4e, 0x54, 0xf7, 0x0e), Quad(0x5f, 0x5f, 0xc9, 0xf3),
            Quad(0x84, 0xa6, 0x4f, 0xb2), Quad(0x4e, 0xa6, 0xdc, 0x4f)), 0x80) ==
            Quads(Quad(0xea, 0xd2, 0x73, 0x21), Quad(0xb5, 0x8d, 0xba, 0xd2),
            Quad(0x31, 0x2b, 0xf5, 0x60), Quad(0x7f, 0x8d, 0x29, 0x2f))
  {}

  lemma {:induction false} KeyVector9()
    ensures NextKey(Quads(Quad(0xea, 0xd2, 0x73, 0x21), Quad(0xb5, 0x8d, 0xba, 0xd2),
            Quad(0x31, 0x2b, 0xf5, 0x60), Quad(0x7f, 0x8d, 0x29, 0x2f)), 0x1b) ==
            Quads(Quad(0xac, 0x77, 0x66, 0xf3), Quad(0x19, 0xfa, 0xdc, 0x21),
            Quad(0x28, 0xd1, 0x29, 0x41), Quad(0x57, 0x5c, 0x00, 0x6e))
  {}

  lemma {:induction false} KeyVector10()
    ensures NextKey(Quads(Quad(0xac, 0x77, 0x66, 0xf3), Quad(0x19, 0xfa, 0xdc, 0x21),
            Quad(0x28, 0xd1, 0x29, 0x41), Quad(0x57, 0x5c, 0x00, 0x6e)), 0x36) ==
            Quads(Quad(0xd0, 0x14, 0xf9, 0xa8), Quad(0xc9, 0xee, 0x25, 0x89),
            Quad(0xe1, 0x3f, 0x0c, 0xc8), Quad(0xb6, 0x63, 0x0c, 0xa6))
  {}

  /** Appendix A.1: the whole schedule, word 4 being a0fafe17. */
  lemma {:induction false} ScheduleVector(f: nat -> Word, r: nat, i: nat)
    requires TracksKey(f, BlockOf(KEY)) && r <= 10 && i == 4 * r
    ensures KeyAt(f, i, RoundWords(r))
  {
    if r == 0 {
      FirstKey(f, BlockOf(KEY), i);
    } else {
      ScheduleVector(f, r - 1, i - 4);
      NextKeyIs(f, BlockOf(KEY), r, i, RoundWords(r - 1));
      RconIs(r);
      KeyVector(r);
    }
  }

  lemma {:induction false} FirstKey(f: nat -> Word, key: Block, i: nat)
    requires TracksKey(f, key) && key == BlockOf(KEY) && i == 0
    ensures KeyAt(f, i, KEY)
  {
    assert KeyWord(key, i) == key[0..4] && KeyWord(key, i + 1) == key[4..8];
    assert KeyWord(key, i + 2) == key[8..12] && KeyWord(key, i + 3) == key[12..16];
  }

  // ---- the ciphertext of appendix B ----

  function SubQuad(x: Quad): Quad { Quad(Sbox(x.a), Sbox(x.b), Sbox(x.c), Sbox(x.d)) }
  function SubQuads(x: Quads): Quads { Quads(SubQuad(x.p), SubQuad(x.q), SubQuad(x.r), SubQuad(x.s)) }

  /** Row i of the columns moves i columns to the left. */
  function ShiftQuads(x: Quads): Quads {
    Quads(Quad(x.p.a, x.q.b, x.r.c, x.s.d), Quad(x.q.a, x.r.b, x.s.c, x.p.d),
          Quad(x.r.a, x.s.b, x.p.c, x.q.d), Quad(x.s.a, x.p.b, x.q.c, x.r.d))
  }

  function MixQuad(x: Quad): Quad {
    Quad(Mix(x.a, x.b, x.c, x.d), Mix(x.b, x.c, x.d, x.a), Mix(x.c, x.d, x.a, x.b), Mix(x.d, x.a, x.b, x.c))
  }

  function MixQuads(x: Quads): Quads { Quads(MixQuad(x.p), MixQuad(x.q), MixQuad(x.r), MixQuad(x.s)) }

  /** A block is given by its sixteen bytes. */
  lemma {:induction false} Sixteen(t: Block, x: Quads)
    requires t[0] == x.p.a && t[1] == x.p.b && t[2] == x.p.c && t[3] == x.p.d
    requires t[4] == x.q.a && t[5] == x.q.b && t[6] == x.q.c && t[7] == x.q.d
    requires t[8] == x.r.a && t[9] == x.r.b && t[10] == x.r.c && t[11] == x.r.d
    requires t[12] == x.s.a && t[13] == x.s.b && t[14] == x.s.c && t[15] == x.s.d
    ensures t == BlockOf(x)
  {
    BytesOf(x);
    forall i | 0 <= i < 16 ensures t[i] == BlockOf(x)[i] { Index16(i); }
  }

  lemma {:induction false} Index16(i: nat)
    requires i < 16
    ensures i in {0, 1, 2, 3} || i in {4, 5, 6, 7} || i in {8, 9, 10, 11} || i in {12, 13, 14, 15}
  {}

  lemma {:induction false} BytesOf(x: Quads)
    ensures var s := BlockOf(x);
            && s[0] == x.p.a && s[1] == x.p.b && s[2] == x.p.c && s[3] == x.p.d
            && s[4] == x.q.a && s[5] == x.q.b && s[6] == x.q.c && s[7] == x.q.d
            && s[8] == x.r.a && s[9] == x.r.b && s[10] == x.r.c && s[11] == x.r.d
            && s[12] == x.s.a && s[13] == x.s.b && s[14] == x.s.c && s[15] == x.s.d
  {}

  lemma {:induction false} SubIs(x: Quads)
    ensures Substitute(BlockOf(x), true) == BlockOf(SubQuads(x))
  {
    var s := BlockOf(x);
    var t := Substitute(s, true);
    BytesOf(x);
    forall i | 0 <= i < 16
      ensures t[i] == Sbox(s[i])
    {
      BoxValue(true, s[i], |s|);
    }
    Sixteen(t, SubQuads(x));
  }

  lemma {:induction false} ShiftIs(x: Quads)
    ensures ShiftRows(BlockOf(x)) == BlockOf(ShiftQuads(x))
  {
    var s := BlockOf(x);
    var t := ShiftRows(s);
    BytesOf(x);
    assert t[0] == s[0] && t[1] == s[5] && t[2] == s[10] && t[3] == s[15];
    assert t[4] == s[4] && t[5] == s[9] && t[6] == s[14] && t[7] == s[3];
    assert t[8] == s[8] && t[9] == s[13] && t[10] == s[2] && t[11] == s[7];
    assert t[12] == s[12] && t[13] == s[1] && t[14] == s[6] && t[15] == s[11];
    Sixteen(t, ShiftQuads(x));
  }

  lemma {:induction false} MixColumn0(s: Block)
    ensures var t := MixColumns(s);
            && t[0] == Mix(s[0], s[1], s[2], s[3])
            && t[1] == Mix(s[1], s[2], s[3], s[0])
            && t[2] == Mix(s[2], s[3], s[0], s[1])
            && t[3] == Mix(s[3], s[0], s[1], s[2])
  {
    assert MixColumns(s)[0] == MixByte(s, 0);
    assert MixColumns(s)[1] == MixByte(s, 1);
    assert MixColumns(s)[2] == MixByte(s, 2);
    assert MixColumns(s)[3] == MixByte(s, 3);
  }

  lemma {:induction false} MixColumn1(s: Block)
    ensures var t := MixColumns(s);
            && t[4] == Mix(s[4], s[5], s[6], s[7])
            && t[5] == Mix(s[5], s[6], s[7], s[4])
            && t[6] == Mix(s[6], s[7], s[4], s[5])
            && t[7] == Mix(s[7], s[4], s[5], s[6])
  {
    assert MixColumns(s)[4] == MixByte(s, 4);
    assert MixColumns(s)[5] == MixByte(s, 5);
    assert MixColumns(s)[6] == MixByte(s, 6);
    assert MixColumns(s)[7] == MixByte(s, 7);
  }

  lemma {:induction false} MixColumn2(s: Block)
    ensures var t := MixColumns(s);
            && t[8] == Mix(s[8], s[9], s[10], s[11])
            && t[9] == Mix(s[9], s[10], s[11], s[8])
            && t[10] == Mix(s[10], s[11], s[8], s[9])
            && t[11] == Mix(s[11], s[8], s[9], s[10])
  {
    assert MixColumns(s)[8] == MixByte(s, 8);
    assert MixColumns(s)[9] == MixByte(s, 9);
    assert MixColumns(s)[10] == MixByte(s, 10);
    assert MixColumns(s)[11] == MixByte(s, 11);
  }

  lemma {:induction false} MixColumn3(s: Block)
    ensures var t := MixColumns(s);
            && t[12] == Mix(s[12], s[13], s[14], s[15])
            && t[13] == Mix(s[13], s[14], s[15], s[12])
            && t[14] == Mix(s[14], s[15], s[12], s[13])
            && t[15] == Mix(s[15], s[12], s[13], s[14])
  {
    assert MixColumns(s)[12] == MixByte(s, 12);
    assert MixColumns(s)[13] == MixByte(s, 13);
    assert MixColumns(s)[14] == MixByte(s, 14);
    assert MixColumns(s)[15] == MixByte(s, 15);
  }

  lemma {:induction false} MixIs(x: Quads)
    ensures MixColumns(BlockOf(x)) == BlockOf(MixQuads(x))
  {
    var s := BlockOf(x);
    BytesOf(x);
    MixColumn0(s);
    MixColumn1(s);
    MixColumn2(s);
    MixColumn3(s);
    Sixteen(MixColumns(s), MixQuads(x));
  }

  lemma {:induction false} AddIs(x: Quads, k: Quads)
    ensures XorBlock(BlockOf(x), BlockOf(k)) == BlockOf(AddQuads(x, k))
  {
    BytesOf(x);
    BytesOf(k);
    Sixteen(XorBlock(BlockOf(x), BlockOf(k)), AddQuads(x, k));
  }

  function RoundOf(x: Quads, k: Quads): Quads { AddQuads(MixQuads(ShiftQuads(SubQuads(x))), k) }
  function FinalOf(x: Quads, k: Quads): Quads { AddQuads(ShiftQuads(SubQuads(x)), k) }

  lemma {:induction false} RunShift(ls: seq<Layer>, s: Block, w: Schedule, x: Quads)
    requires Run(ls, s, w) == BlockOf(x)
    ensures Run(ls + [Sub] + [Shift], s, w) == BlockOf(ShiftQuads(SubQuads(x)))
  {
    RunExtend(ls, Sub, s, w);
    SubIs(x);
    RunExtend(ls + [Sub], Shift, s, w);
    ShiftIs(SubQuads(x));
  }

  lemma {:induction false} RunKey(ls: seq<Layer>, s: Block, w: Schedule, x: Quads, r: nat, k: Quads)
    requires Run(ls, s, w) == BlockOf(x) && r <= Last(w) && RoundKey(w, r) == BlockOf(k)
    ensures Run(ls + [Key(r)], s, w) == BlockOf(AddQuads(x, k))
  {
    RunExtend(ls, Key(r), s, w);
    AddIs(x, k);
  }

  lemma {:induction false} RunMix(ls: seq<Layer>, s: Block, w: Schedule, x: Quads)
    requires Run(ls, s, w) == BlockOf(x)
    ensures Run(ls + [Mixing], s, w) == BlockOf(MixQuads(x))
  {
    RunExtend(ls, Mixing, s, w);
    MixIs(x);
  }

  lemma {:induction false} RunRound(ls: seq<Layer>, s: Block, w: Schedule, x: Quads, r: nat, k: Quads)
    requires Run(ls, s, w) == BlockOf(x) && r <= Last(w) && RoundKey(w, r) == BlockOf(k)
    ensures Run(ls + [Sub, Shift, Mixing, Key(r)], s, w) == BlockOf(RoundOf(x, k))
  {
    var y, ms := ShiftQuads(SubQuads(x)), ls + [Sub] + [Shift];
    RunShift(ls, s, w, x);
    RunMix(ms, s, w, y);
    RunKey(ms + [Mixing], s, w, MixQuads(y), r, k);
    JoinLayers(ls, Key(r));
  }

  lemma {:induction false} JoinLayers(ls: seq<Layer>, l: Layer)
    ensures ls + [Sub] + [Shift] + [Mixing] + [l] == ls + [Sub, Shift, Mixing, l]
    ensures ls + [Sub] + [Shift] + [l] == ls + [Sub, Shift, l]
  {}

  lemma {:induction false} RunFinal(ls: seq<Layer>, s: Block, w: Schedule, x: Quads, r: nat, k: Quads)
    requires Run(ls, s, w) == BlockOf(x) && r <= Last(w) && RoundKey(w, r) == BlockOf(k)
    ensures Run(ls + [Sub, Shift, Key(r)], s, w) == BlockOf(FinalOf(x, k))
  {
    var y, ms := ShiftQuads(SubQuads(x)), ls + [Sub] + [Shift];
    RunShift(ls, s, w, x);
    RunKey(ms, s, w, y, r, k);
    JoinLayers(ls, Key(r));
  }

  /** The plaintext, and the state after each round of appendix B. */
  const PLAIN: Quads :=
    Quads(Quad(0x32, 0x43, 0xf6, 0xa8), Quad(0x88, 0x5a, 0x30, 0x8d),
            Quad(0x31, 0x31, 0x98, 0xa2), Quad(0xe0, 0x37, 0x07, 0x34))

  function StateAfter(r: nat): Quads
    requires r <= 9
  {
    match r
    case 0 =>
      Quads(Quad(0x19, 0x3d, 0xe3, 0xbe), Quad(0xa0, 0xf4, 0xe2, 0x2b),
            Quad(0x9a, 0xc6, 0x8d, 0x2a), Quad(0xe9, 0xf8, 0x48, 0x08))
    case 1 =>
      Quads(Quad(0xa4, 0x9c, 0x7f, 0xf2), Quad(0x68, 0x9f, 0x35, 0x2b),
            Quad(0x6b, 0x5b, 0xea, 0x43), Quad(0x02, 0x6a, 0x50, 0x49))
    case 2 =>
      Quads(Quad(0xaa, 0x8f, 0x5f, 0x03), Quad(0x61, 0xdd, 0xe3, 0xef),
            Quad(0x82, 0xd2, 0x4a, 0xd2), Quad(0x68, 0x32, 0x46, 0x9a))
    case 3 =>
      Quads(Quad(0x48, 0x6c, 0x4e, 0xee), Quad(0x67, 0x1d, 0x9d, 0x0d),
            Quad(0x4d, 0xe3, 0xb1, 0x38), Quad(0xd6, 0x5f, 0x58, 0xe7))
    case 4 =>
      Quads(Quad(0xe0, 0x92, 0x7f, 0xe8), Quad(0xc8, 0x63, 0x63, 0xc0),
            Quad(0xd9, 0xb1, 0x35, 0x50), Quad(0x85, 0xb8, 0xbe, 0x01))
    case 5 =>
      Quads(Quad(0xf1, 0x00, 0x6f, 0x55), Quad(0xc1, 0x92, 0x4c, 0xef),
            Quad(0x7c, 0xc8, 0x8b, 0x32), Quad(0x5d, 0xb5, 0xd5, 0x0c))
    case 6 =>
      Quads(Quad(0x26, 0x0e, 0x2e, 0x17), Quad(0x3d, 0x41, 0xb7, 0x7d),
            Quad(0xe8, 0x64, 0x72, 0xa9), Quad(0xfd, 0xd2, 0x8b, 0x25))
    case 7 =>
      Quads(Quad(0x5a, 0x41, 0x42, 0xb1), Quad(0x19, 0x49, 0xdc, 0x1f),
            Quad(0xa3, 0xe0, 0x19, 0x65), Quad(0x7a, 0x8c, 0x04, 0x0c))
    case 8 =>
      Quads(Quad(0xea, 0x83, 0x5c, 0xf0), Quad(0x04, 0x45, 0x33, 0x2d),
            Quad(0x65, 0x5d, 0x98, 0xad), Quad(0x85, 0x96, 0xb0, 0xc5))
    case _ =>
      Quads(Quad(0xeb, 0x40, 0xf2, 0x1e), Quad(0x59, 0x2e, 0x38, 0x84),
            Quad(0x8b, 0xa1, 0x13, 0xe7), Quad(0x1b, 0xc3, 0x42, 0xd2))
  }

  const CIPHERTEXT: Quads :=
    Quads(Quad(0x39, 0x25, 0x84, 0x1d), Quad(0x02, 0xdc, 0x09, 0xfb),
            Quad(0xdc, 0x11, 0x85, 0x97), Quad(0x19, 0x6a, 0x0b, 0x32))

  lemma {:induction false} RoundVector(r: nat)
    requires 1 <= r <= 9
    ensures RoundOf(StateAfter(r - 1), RoundWords(r)) == StateAfter(r)
  {
    match r {
      case 1 => RoundVector1();
      case 2 => RoundVector2();
      case 3 => RoundVector3();
      case 4 => RoundVector4();
      case 5 => RoundVector5();
      case 6 => RoundVector6();
      case 7 => RoundVector7();
      case 8 => RoundVector8();
      case _ => RoundVector9();
    }
  }

  lemma {:induction false} RoundVector1()
    ensures RoundOf(Quads(Quad(0x19, 0x3d, 0xe3, 0xbe), Quad(0xa0, 0xf4, 0xe2, 0x2b),
            Quad(0x9a, 0xc6, 0x8d, 0x2a), Quad(0xe9, 0xf8, 0x48, 0x08)),
            Quads(Quad(0xa0, 0xfa, 0xfe, 0x17), Quad(0x88, 0x54, 0x2c, 0xb1),
            Quad(0x23, 0xa3, 0x39, 0x39), Quad(0x2a, 0x6c, 0x76, 0x05))) ==
            Quads(Quad(0xa4, 0x9c, 0x7f, 0xf2), Quad(0x68, 0x9f, 0x35, 0x2b),
            Quad(0x6b, 0x5b, 0xea, 0x43), Quad(0x02, 0x6a, 0x50, 0x49))
  {
    SubVector1();
    MixVector1();
    RoundBy(Quads(Quad(0x19, 0x3d, 0xe3, 0xbe), Quad(0xa0, 0xf4, 0xe2, 0x2b),
            Quad(0x9a, 0xc6, 0x8d, 0x2a), Quad(0xe9, 0xf8, 0x48, 0x08)),
            Quads(Quad(0xa0, 0xfa, 0xfe, 0x17), Quad(0x88, 0x54, 0x2c, 0xb1),
            Quad(0x23, 0xa3, 0x39, 0x39), Quad(0x2a, 0x6c, 0x76, 0x05)),
            Quads(Quad(0xd4, 0x27, 0x11, 0xae), Quad(0xe0, 0xbf, 0x98, 0xf1),
            Quad(0xb8, 0xb4, 0x5d, 0xe5), Quad(0x1e, 0x41, 0x52, 0x30)),
            Quads(Quad(0x04, 0x66, 0x81, 0xe5), Quad(0xe0, 0xcb, 0x19, 0x9a),
            Quad(0x48, 0xf8, 0xd3, 0x7a), Quad(0x28, 0x06, 0x26, 0x4c)),
            Quads(Quad(0xa4, 0x9c, 0x7f, 0xf2), Quad(0x68, 0x9f, 0x35, 0x2b),
            Quad(0x6b, 0x5b, 0xea, 0x43), Quad(0x02, 0x6a, 0x50, 0x49)));
  }

  lemma {:induction false} SubVector1()
    ensures SubQuads(Quads(Quad(0x19, 0x3d, 0xe3, 0xbe), Quad(0xa0, 0xf4, 0xe2, 0x2b),
            Quad(0x9a, 0xc6, 0x8d, 0x2a), Quad(0xe9, 0xf8, 0x48, 0x08))) ==
            Quads(Quad(0xd4, 0x27, 0x11, 0xae), Quad(0xe0, 0xbf, 0x98, 0xf1),
            Quad(0xb8, 0xb4, 0x5d, 0xe5), Quad(0x1e, 0x41, 0x52, 0x30))
  {
    SubVector1p();
    SubVector1q();
    SubVector1r();
    SubVector1s();
  }

  lemma {:induction false} SubVector1p()
    ensures SubQuad(Quad(0x19, 0x3d, 0xe3, 0xbe)) == Quad(0xd4, 0x27, 0x11, 0xae)
  {}

  lemma {:induction false} SubVector1q()
    ensures SubQuad(Quad(0xa0, 0xf4, 0xe2, 0x2b)) == Quad(0xe0, 0xbf, 0x98, 0xf1)
  {}

  lemma {:induction false} SubVector1r()
    ensures SubQuad(Quad(0x9a, 0xc6, 0x8d, 0x2a)) == Quad(0xb8, 0xb4, 0x5d, 0xe5)
  {}

  lemma {:induction false} SubVector1s()
    ensures SubQuad(Quad(0xe9, 0xf8, 0x48, 0x08)) == Quad(0x1e, 0x41, 0x52, 0x30)
  {}

  lemma {:induction false} MixVector1()
    ensures MixQuads(ShiftQuads(Quads(Quad(0xd4, 0x27, 0x11, 0xae), Quad(0xe0, 0xbf, 0x98, 0xf1),
            Quad(0xb8, 0xb4, 0x5d, 0xe5), Quad(0x1e, 0x41, 0x52, 0x30)))) ==
            Quads(Quad(0x04, 0x66, 0x81, 0xe5), Quad(0xe0, 0xcb, 0x19, 0x9a),
            Quad(0x48, 0xf8, 0xd3, 0x7a), Quad(0x28, 0x06, 0x26, 0x4c))
  {}

  lemma {:induction false} RoundVector2()
    ensures RoundOf(Quads(Quad(0xa4, 0x9c, 0x7f, 0xf2), Quad(0x68, 0x9f, 0x35, 0x2b),
            Quad(0x6b, 0x5b, 0xea, 0x43), Quad(0x02, 0x6a, 0x50, 0x49)),
            Quads(Quad(0xf2, 0xc2, 0x95, 0xf2), Quad(0x7a, 0x96, 0xb9, 0x43),
            Quad(0x59, 0x35, 0x80, 0x7a), Quad(0x73, 0x59, 0xf6, 0x7f))) ==
            Quads(Quad(0xaa, 0x8f, 0x5f, 0x03), Quad(0x61, 0xdd, 0xe3, 0xef),
            Quad(0x82, 0xd2, 0x4a, 0xd2), Quad(0x68, 0x32, 0x46, 0x9a))
  {
    SubVector2();
    MixVector2();
    RoundBy(Quads(Quad(0xa4, 0x9c, 0x7f, 0xf2), Quad(0x68, 0x9f, 0x35, 0x2b),
            Quad(0x6b, 0x5b, 0xea, 0x43), Quad(0x02, 0x6a, 0x50, 0x49)),
            Quads(Quad(0xf2, 0xc2, 0x95, 0xf2), Quad(0x7a, 0x96, 0xb9, 0x43),
            Quad(0x59, 0x35, 0x80, 0x7a), Quad(0x73, 0x59, 0xf6, 0x7f)),
            Quads(Quad(0x49, 0xde, 0xd2, 0x89), Quad(0x45, 0xdb, 0x96, 0xf1),
            Quad(0x7f, 0x39, 0x87, 0x1a), Quad(0x77, 0x02, 0x53, 0x3b)),
            Quads(Quad(0x58, 0x4d, 0xca, 0xf1), Quad(0x1b, 0x4b, 0x5a, 0xac),
            Quad(0xdb, 0xe7, 0xca, 0xa8), Quad(0x1b, 0x6b, 0xb0, 0xe5)),
            Quads(Quad(0xaa, 0x8f, 0x5f, 0x03), Quad(0x61, 0xdd, 0xe3, 0xef),
            Quad(0x82, 0xd2, 0x4a, 0xd2), Quad(0x68, 0x32, 0x46, 0x9a)));
  }

  lemma {:induction false} SubVector2()
    ensures SubQuads(Quads(Quad(0xa4, 0x9c, 0x7f, 0xf2), Quad(0x68, 0x9f, 0x35, 0x2b),
            Quad(0x6b, 0x5b, 0xea, 0x43), Quad(0x02, 0x6a, 0x50, 0x49))) ==
            Quads(Quad(0x49, 0xde, 0xd2, 0x89), Quad(0x45, 0xdb, 0x96, 0xf1),
            Quad(0x7f, 0x39, 0x87, 0x1a), Quad(0x77, 0x02, 0x53, 0x3b))
  {
    SubVector2p();
    SubVector2q();
    SubVector2r();
    SubVector2s();
  }

  lemma {:induction false} SubVector2p()
    ensures SubQuad(Quad(0xa4, 0x9c, 0x7f, 0xf2)) == Quad(0x49, 0xde, 0xd2, 0x89)
  {}

  lemma {:induction false} SubVector2q()
    ensures SubQuad(Quad(0x68, 0x9f, 0x35, 0x2b)) == Quad(0x45, 0xdb, 0x96, 0xf1)
  {}

  lemma {:induction false} SubVector2r()
    ensures SubQuad(Quad(0x6b, 0x5b, 0xea, 0x43)) == Quad(0x7f, 0x39, 0x87, 0x1a)
  {}

  lemma {:induction false} SubVector2s()
    ensures SubQuad(Quad(0x02, 0x6a, 0x50, 0x49)) == Quad(0x77, 0x02, 0x53, 0x3b)
  {}

  lemma {:induction false} MixVector2()
    ensures MixQuads(ShiftQuads(Quads(Quad(0x49, 0xde, 0xd2, 0x89), Quad(0x45, 0xdb, 0x96, 0xf1),
            Quad(0x7f, 0x39, 0x87, 0x1a), Quad(0x77, 0x02, 0x53, 0x3b)))) ==
            Quads(Quad(0x58, 0x4d, 0xca, 0xf1), Quad(0x1b, 0x4b, 0x5a, 0xac),
            Quad(0xdb, 0xe7, 0xca, 0xa8), Quad(0x1b, 0x6b, 0xb0, 0xe5))
  {}

  lemma {:induction false} RoundVector3()
    ensures RoundOf(Quads(Quad(0xaa, 0x8f, 0x5f, 0x03), Quad(0x61, 0xdd, 0xe3, 0xef),
            Quad(0x82, 0xd2, 0x4a, 0xd2), Quad(0x68, 0x32, 0x46, 0x9a)),
            Quads(Quad(0x3d, 0x80, 0x47, 0x7d), Quad(0x47, 0x16, 0xfe, 0x3e),
            Quad(0x1e, 0x23, 0x7e, 0x44), Quad(0x6d, 0x7a, 0x88, 0x3b))) ==
            Quads(Quad(0x48, 0x6c, 0x4e, 0xee), Quad(0x67, 0x1d, 0x9d, 0x0d),
            Quad(0x4d, 0xe3, 0xb1, 0x38), Quad(0xd6, 0x5f, 0x58, 0xe7))
  {
    SubVector3();
    MixVector3();
    RoundBy(Quads(Quad(0xaa, 0x8f, 0x5f, 0x03), Quad(0x61, 0xdd, 0xe3, 0xef),
            Quad(0x82, 0xd2, 0x4a, 0xd2), Quad(0x68, 0x32, 0x46, 0x9a)),
            Quads(Quad(0x3d, 0x80, 0x47, 0x7d), Quad(0x47, 0x16, 0xfe, 0x3e),
            Quad(0x1e, 0x23, 0x7e, 0x44), Quad(0x6d, 0x7a, 0x88, 0x3b)),
            Quads(Quad(0xac, 0x73, 0xcf, 0x7b), Quad(0xef, 0xc1, 0x11, 0xdf),
            Quad(0x13, 0xb5, 0xd6, 0xb5), Quad(0x45, 0x23, 0x5a, 0xb8)),
            Quads(Quad(0x75, 0xec, 0x09, 0x93), Quad(0x20, 0x0b, 0x63, 0x33),
            Quad(0x53, 0xc0, 0xcf, 0x7c), Quad(0xbb, 0x25, 0xd0, 0xdc)),
            Quads(Quad(0x48, 0x6c, 0x4e, 0xee), Quad(0x67, 0x1d, 0x9d, 0x0d),
            Quad(0x4d, 0xe3, 0xb1, 0x38), Quad(0xd6, 0x5f, 0x58, 0xe7)));
  }

  lemma {:induction false} SubVector3()
    ensures SubQuads(Quads(Quad(0xaa, 0x8f, 0x5f, 0x03), Quad(0x61, 0xdd, 0xe3, 0xef),
            Quad(0x82, 0xd2, 0x4a, 0xd2), Quad(0x68, 0x32, 0x46, 0x9a))) ==
            Quads(Quad(0xac, 0x73, 0xcf, 0x7b), Quad(0xef, 0xc1, 0x11, 0xdf),
            Quad(0x13, 0xb5, 0xd6, 0xb5), Quad(0x45, 0x23, 0x5a, 0xb8))
  {
    SubVector3p();
    SubVector3q();
    SubVector3r();
    SubVector3s();
  }

  lemma {:induction false} SubVector3p()
    ensures SubQuad(Quad(0xaa, 0x8f, 0x5f, 0x03)) == Quad(0xac, 0x73, 0xcf, 0x7b)
  {}

  lemma {:induction false} SubVector3q()
    ensures SubQuad(Quad(0x61, 0xdd, 0xe3, 0xef)) == Quad(0xef, 0xc1, 0x11, 0xdf)
  {}

  lemma {:induction false} SubVector3r()
    ensures SubQuad(Quad(0x82, 0xd2, 0x4a, 0xd2)) == Quad(0x13, 0xb5, 0xd6, 0xb5)
  {}

  lemma {:induction false} SubVector3s()
    ensures SubQuad(Quad(0x68, 0x32, 0x46, 0x9a)) == Quad(0x45, 0x23, 0x5a, 0xb8)
  {}

  lemma {:induction false} MixVector3()
    ensures MixQuads(ShiftQuads(Quads(Quad(0xac, 0x73, 0xcf, 0x7b), Quad(0xef, 0xc1, 0x11, 0xdf),
            Quad(0x13, 0xb5, 0xd6, 0xb5), Quad(0x45, 0x23, 0x5a, 0xb8)))) ==
            Quads(Quad(0x75, 0xec, 0x09, 0x93), Quad(0x20, 0x0b, 0x63, 0x33),
            Quad(0x53, 0xc0, 0xcf, 0x7c), Quad(0xbb, 0x25, 0xd0, 0xdc))
  {}

  lemma {:induction false} RoundVector4()
    ensures RoundOf(Quads(Quad(0x48, 0x6c, 0x4e, 0xee), Quad(0x67, 0x1d, 0x9d, 0x0d),
            Quad(0x4d, 0xe3, 0xb1, 0x38), Quad(0xd6, 0x5f, 0x58, 0xe7)),
            Quads(Quad(0xef, 0x44, 0xa5, 0x41), Quad(0xa8, 0x52, 0x5b, 0x7f),
            Quad(0xb6, 0x71, 0x25, 0x3b), Quad(0xdb, 0x0b, 0xad, 0x00))) ==
            Quads(Quad(0xe0, 0x92, 0x7f, 0xe8), Quad(0xc8, 0x63, 0x63, 0xc0),
            Quad(0xd9, 0xb1, 0x35, 0x50), Quad(0x85, 0xb8, 0xbe, 0x01))
  {
    SubVector4();
    MixVector4();
    RoundBy(Quads(Quad(0x48, 0x6c, 0x4e, 0xee), Quad(0x67, 0x1d, 0x9d, 0x0d),
            Quad(0x4d, 0xe3, 0xb1, 0x38), Quad(0xd6, 0x5f, 0x58, 0xe7)),
            Quads(Quad(0xef, 0x44, 0xa5, 0x41), Quad(0xa8, 0x52, 0x5b, 0x7f),
            Quad(0xb6, 0x71, 0x25, 0x3b), Quad(0xdb, 0x0b, 0xad, 0x00)),
            Quads(Quad(0x52, 0x50, 0x2f, 0x28), Quad(0x85, 0xa4, 0x5e, 0xd7),
            Quad(0xe3, 0x11, 0xc8, 0x07), Quad(0xf6, 0xcf, 0x6a, 0x94)),
            Quads(Quad(0x0f, 0xd6, 0xda, 0xa9), Quad(0x60, 0x31, 0x38, 0xbf),
            Quad(0x6f, 0xc0, 0x10, 0x6b), Quad(0x5e, 0xb3, 0x13, 0x01)),
            Quads(Quad(0xe0, 0x92, 0x7f, 0xe8), Quad(0xc8, 0x63, 0x63, 0xc0),
            Quad(0xd9, 0xb1, 0x35, 0x50), Quad(0x85, 0xb8, 0xbe, 0x01)));
  }

  lemma {:induction false} SubVector4()
    ensures SubQuads(Quads(Quad(0x48, 0x6c, 0x4e, 0xee), Quad(0x67, 0x1d, 0x9d, 0x0d),
            Quad(0x4d, 0xe3, 0xb1, 0x38), Quad(0xd6, 0x5f, 0x58, 0xe7))) ==
            Quads(Quad(0x52, 0x50, 0x2f, 0x28), Quad(0x85, 0xa4, 0x5e, 0xd7),
            Quad(0xe3, 0x11, 0xc8, 0x07), Quad(0xf6, 0xcf, 0x6a, 0x94))
  {
    SubVector4p();
    SubVector4q();
    SubVector4r();
    SubVector4s();
  }

  lemma {:induction false} SubVector4p()
    ensures SubQuad(Quad(0x48, 0x6c, 0x4e, 0xee)) == Quad(0x52, 0x50, 0x2f, 0x28)
  {}

  lemma {:induction false} SubVector4q()
    ensures SubQuad(Quad(0x67, 0x1d, 0x9d, 0x0d)) == Quad(0x85, 0xa4, 0x5e, 0xd7)
  {}

  lemma {:induction false} SubVector4r()
    ensures SubQuad(Quad(0x4d, 0xe3, 0xb1, 0x38)) == Quad(0xe3, 0x11, 0xc8, 0x07)
  {}

  lemma {:induction false} SubVector4s()
    ensures SubQuad(Quad(0xd6, 0x5f, 0x58, 0xe7)) == Quad(0xf6, 0xcf, 0x6a, 0x94)
  {}

  lemma {:induction false} MixVector4()
    ensures MixQuads(ShiftQuads(Quads(Quad(0x52, 0x50, 0x2f, 0x28), Quad(0x85, 0xa4, 0x5e, 0xd7),
            Quad(0xe3, 0x11, 0xc8, 0x07), Quad(0xf6, 0xcf, 0x6a, 0x94)))) ==
            Quads(Quad(0x0f, 0xd6, 0xda, 0xa9), Quad(0x60, 0x31, 0x38, 0xbf),
            Quad(0x6f, 0xc0, 0x10, 0x6b), Quad(0x5e, 0xb3, 0x13, 0x01))
  {}

  lemma {:induction false} RoundVector5()
    ensures RoundOf(Quads(Quad(0xe0, 0x92, 0x7f, 0xe8), Quad(0xc8, 0x63, 0x63, 0xc0),
            Quad(0xd9, 0xb1, 0x35, 0x50), Quad(0x85, 0xb8, 0xbe, 0x01)),
            Quads(Quad(0xd4, 0xd1, 0xc6, 0xf8), Quad(0x7c, 0x83, 0x9d, 0x87),
            Quad(0xca, 0xf2, 0xb8, 0xbc), Quad(0x11, 0xf9, 0x15, 0xbc))) ==
            Quads(Quad(0xf1, 0x00, 0x6f, 0x55), Quad(0xc1, 0x92, 0x4c, 0xef),
            Quad(0x7c, 0xc8, 0x8b, 0x32), Quad(0x5d, 0xb5, 0xd5, 0x0c))
  {
    SubVector5();
    MixVector5();
    RoundBy(Quads(Quad(0xe0, 0x92, 0x7f, 0xe8), Quad(0xc8, 0x63, 0x63, 0xc0),
            Quad(0xd9, 0xb1, 0x35, 0x50), Quad(0x85, 0xb8, 0xbe, 0x01)),
            Quads(Quad(0xd4, 0xd1, 0xc6, 0xf8), Quad(0x7c, 0x83, 0x9d, 0x87),
            Quad(0xca, 0xf2, 0xb8, 0xbc), Quad(0x11, 0xf9, 0x15, 0xbc)),
            Quads(Quad(0xe1, 0x4f, 0xd2, 0x9b), Quad(0xe8, 0xfb, 0xfb, 0xba),
            Quad(0x35, 0xc8, 0x96, 0x53), Quad(0x97, 0x6c, 0xae, 0x7c)),
            Quads(Quad(0x25, 0xd1, 0xa9, 0xad), Quad(0xbd, 0x11, 0xd1, 0x68),
            Quad(0xb6, 0x3a, 0x33, 0x8e), Quad(0x4c, 0x4c, 0xc0, 0xb0)),
            Quads(Quad(0xf1, 0x00, 0x6f, 0x55), Quad(0xc1, 0x92, 0x4c, 0xef),
            Quad(0x7c, 0xc8, 0x8b, 0x32), Quad(0x5d, 0xb5, 0xd5, 0x0c)));
  }

  lemma {:induction false} SubVector5()
    ensures SubQuads(Quads(Quad(0xe0, 0x92, 0x7f, 0xe8), Quad(0xc8, 0x63, 0x63, 0xc0),
            Quad(0xd9, 0xb1, 0x35, 0x50), Quad(0x85, 0xb8, 0xbe, 0x01))) ==
            Quads(Quad(0xe1, 0x4f, 0xd2, 0x9b), Quad(0xe8, 0xfb, 0xfb, 0xba),
            Quad(0x35, 0xc8, 0x96, 0x53), Quad(0x97, 0x6c, 0xae, 0x7c))
  {
    SubVector5p();
    SubVector5q();
    SubVector5r();
    SubVector5s();
  }

  lemma {:induction false} SubVector5p()
    ensures SubQuad(Quad(0xe0, 0x92, 0x7f, 0xe8)) == Quad(0xe1, 0x4f, 0xd2, 0x9b)
  {}

  lemma {:induction false} SubVector5q()
    ensures SubQuad(Quad(0xc8, 0x63, 0x63, 0xc0)) == Quad(0xe8, 0xfb, 0xfb, 0xba)
  {}

  lemma {:induction false} SubVector5r()
    ensures SubQuad(Quad(0xd9, 0xb1, 0x35, 0x50)) == Quad(0x35, 0xc8, 0x96, 0x53)
  {}

  lemma {:induction false} SubVector5s()
    ensures SubQuad(Quad(0x85, 0xb8, 0xbe, 0x01)) == Quad(0x97, 0x6c, 0xae, 0x7c)
  {}

  lemma {:induction false} MixVector5()
    ensures MixQuads(ShiftQuads(Quads(Quad(0xe1, 0x4f, 0xd2, 0x9b), Quad(0xe8, 0xfb, 0xfb, 0xba),
            Quad(0x35, 0xc8, 0x96, 0x53), Quad(0x97, 0x6c, 0xae, 0x7c)))) ==
            Quads(Quad(0x25, 0xd1, 0xa9, 0xad), Quad(0xbd, 0x11, 0xd1, 0x68),
            Quad(0xb6, 0x3a, 0x33, 0x8e), Quad(0x4c, 0x4c, 0xc0, 0xb0))
  {}

  lemma {:induction false} RoundVector6()
    ensures RoundOf(Quads(Quad(0xf1, 0x00, 0x6f, 0x55), Quad(0xc1, 0x92, 0x4c, 0xef),
            Quad(0x7c, 0xc8, 0x8b, 0x32), Quad(0x5d, 0xb5, 0xd5, 0x0c)),
            Quads(Quad(0x6d, 0x88, 0xa3, 0x7a), Quad(0x11, 0x0b, 0x3e, 0xfd),
            Quad(0xdb, 0xf9, 0x86, 0x41), Quad(0xca, 0x00, 0x93, 0xfd))) ==
            Quads(Quad(0x26, 0x0e, 0x2e, 0x17), Quad(0x3d, 0x41, 0xb7, 0x7d),
            Quad(0xe8, 0x64, 0x72, 0xa9), Quad(0xfd, 0xd2, 0x8b, 0x25))
  {
    SubVector6();
    MixVector6();
    RoundBy(Quads(Quad(0xf1, 0x00, 0x6f, 0x55), Quad(0xc1, 0x92, 0x4c, 0xef),
            Quad(0x7c, 0xc8, 0x8b, 0x32), Quad(0x5d, 0xb5, 0xd5, 0x0c)),
            Quads(Quad(0x6d, 0x88, 0xa3, 0x7a), Quad(0x11, 0x0b, 0x3e, 0xfd),
            Quad(0xdb, 0xf9, 0x86, 0x41), Quad(0xca, 0x00, 0x93, 0xfd)),
            Quads(Quad(0xa1, 0x63, 0xa8, 0xfc), Quad(0x78, 0x4f, 0x29, 0xdf),
            Quad(0x10, 0xe8, 0x3d, 0x23), Quad(0x4c, 0xd5, 0x03, 0xfe)),
            Quads(Quad(0x4b, 0x86, 0x8d, 0x6d), Quad(0x2c, 0x4a, 0x89, 0x80),
            Quad(0x33, 0x9d, 0xf4, 0xe8), Quad(0x37, 0xd2, 0x18, 0xd8)),
            Quads(Quad(0x26, 0x0e, 0x2e, 0x17), Quad(0x3d, 0x41, 0xb7, 0x7d),
            Quad(0xe8, 0x64, 0x72, 0xa9), Quad(0xfd, 0xd2, 0x8b, 0x25)));
  }

  lemma {:induction false} SubVector6()
    ensures SubQuads(Quads(Quad(0xf1, 0x00, 0x6f, 0x55), Quad(0xc1, 0x92, 0x4c, 0xef),
            Quad(0x7c, 0xc8, 0x8b, 0x32), Quad(0x5d, 0xb5, 0xd5, 0x0c))) ==
            Quads(Quad(0xa1, 0x63, 0xa8, 0xfc), Quad(0x78, 0x4f, 0x29, 0xdf),
            Quad(0x10, 0xe8, 0x3d, 0x23), Quad(0x4c, 0xd5, 0x03, 0xfe))
  {
    SubVector6p();
    SubVector6q();
    SubVector6r();
    SubVector6s();
  }

  lemma {:induction false} SubVector6p()
    ensures SubQuad(Quad(0xf1, 0x00, 0x6f, 0x55)) == Quad(0xa1, 0x63, 0xa8, 0xfc)
  {}

  lemma {:induction false} SubVector6q()
    ensures SubQuad(Quad(0xc1, 0x92, 0x4c, 0xef)) == Quad(0x78, 0x4f, 0x29, 0xdf)
  {}

  lemma {:induction false} SubVector6r()
    ensures SubQuad(Quad(0x7c, 0xc8, 0x8b, 0x32)) == Quad(0x10, 0xe8, 0x3d, 0x23)
  {}

  lemma {:induction false} SubVector6s()
    ensures SubQuad(Quad(0x5d, 0xb5, 0xd5, 0x0c)) == Quad(0x4c, 0xd5, 0x03, 0xfe)
  {}

  lemma {:induction false} MixVector6()
    ensures MixQuads(ShiftQuads(Quads(Quad(0xa1, 0x63, 0xa8, 0xfc), Quad(0x78, 0x4f, 0x29, 0xdf),
            Quad(0x10, 0xe8, 0x3d, 0x23), Quad(0x4c, 0xd5, 0x03, 0xfe)))) ==
            Quads(Quad(0x4b, 0x86, 0x8d, 0x6d), Quad(0x2c, 0x4a, 0x89, 0x80),
            Quad(0x33, 0x9d, 0xf4, 0xe8), Quad(0x37, 0xd2, 0x18, 0xd8))
  {}

  lemma {:induction false} RoundVector7()
    ensures RoundOf(Quads(Quad(0x26, 0x0e, 0x2e, 0x17), Quad(0x3d, 0x41, 0xb7, 0x7d),
            Quad(0xe8, 0x64, 0x72, 0xa9), Quad(0xfd, 0xd2, 0x8b, 0x25)),
            Quads(Quad(0x4e, 0x54, 0xf7, 0x0e), Quad(0x5f, 0x5f, 0xc9, 0xf3),
            Quad(0x84, 0xa6, 0x4f, 0xb2), Quad(0x4e, 0xa6, 0xdc, 0x4f))) ==
            Quads(Quad(0x5a, 0x41, 0x42, 0xb1), Quad(0x19, 0x49, 0xdc, 0x1f),
            Quad(0xa3, 0xe0, 0x19, 0x65), Quad(0x7a, 0x8c, 0x04, 0x0c))
  {
    SubVector7();
    MixVector7();
    RoundBy(Quads(Quad(0x26, 0x0e, 0x2e, 0x17), Quad(0x3d, 0x41, 0xb7, 0x7d),
            Quad(0xe8, 0x64, 0x72, 0xa9), Quad(0xfd, 0xd2, 0x8b, 0x25)),
            Quads(Quad(0x4e, 0x54, 0xf7, 0x0e), Quad(0x5f, 0x5f, 0xc9, 0xf3),
            Quad(0x84, 0xa6, 0x4f, 0xb2), Quad(0x4e, 0xa6, 0xdc, 0x4f)),
            Quads(Quad(0xf7, 0xab, 0x31, 0xf0), Quad(0x27, 0x83, 0xa9, 0xff),
            Quad(0x9b, 0x43, 0x40, 0xd3), Quad(0x54, 0xb5, 0x3d, 0x3f)),
            Quads(Quad(0x14, 0x15, 0xb5, 0xbf), Quad(0x46, 0x16, 0x15, 0xec),
            Quad(0x27, 0x46, 0x56, 0xd7), Quad(0x34, 0x2a, 0xd8, 0x43)),
            Quads(Quad(0x5a, 0x41, 0x42, 0xb1), Quad(0x19, 0x49, 0xdc, 0x1f),
            Quad(0xa3, 0xe0, 0x19, 0x65), Quad(0x7a, 0x8c, 0x04, 0x0c)));
  }

  lemma {:induction false} SubVector7()
    ensures SubQuads(Quads(Quad(0x26, 0x0e, 0x2e, 0x17), Quad(0x3d, 0x41, 0xb7, 0x7d),
            Quad(0xe8, 0x64, 0x72, 0xa9), Quad(0xfd, 0xd2, 0x8b, 0x25))) ==
            Quads(Quad(0xf7, 0xab, 0x31, 0xf0), Quad(0x27, 0x83, 0xa9, 0xff),
            Quad(0x9b, 0x43, 0x40, 0xd3), Quad(0x54, 0xb5, 0x3d, 0x3f))
  {
    SubVector7p();
    SubVector7q();
    SubVector7r();
    SubVector7s();
  }

  lemma {:induction false} SubVector7p()
    ensures SubQuad(Quad(0x26, 0x0e, 0x2e, 0x17)) == Quad(0xf7, 0xab, 0x31, 0xf0)
  {}

  lemma {:induction false} SubVector7q()
    ensures SubQuad(Quad(0x3d, 0x41, 0xb7, 0x7d)) == Quad(0x27, 0x83, 0xa9, 0xff)
  {}

  lemma {:induction false} SubVector7r()
    ensures SubQuad(Quad(0xe8, 0x64, 0x72, 0xa9)) == Quad(0x9b, 0x43, 0x40, 0xd3)
  {}

  lemma {:induction false} SubVector7s()
    ensures SubQuad(Quad(0xfd, 0xd2, 0x8b, 0x25)) == Quad(0x54, 0xb5, 0x3d, 0x3f)
  {}

  lemma {:induction false} MixVector7()
    ensures MixQuads(ShiftQuads(Quads(Quad(0xf7, 0xab, 0x31, 0xf0), Quad(0x27, 0x83, 0xa9, 0xff),
            Quad(0x9b, 0x43, 0x40, 0xd3), Quad(0x54, 0xb5, 0x3d, 0x3f)))) ==
            Quads(Quad(0x14, 0x15, 0xb5, 0xbf), Quad(0x46, 0x16, 0x15, 0xec),
            Quad(0x27, 0x46, 0x56, 0xd7), Quad(0x34, 0x2a, 0xd8, 0x43))
  {}

  lemma {:induction false} RoundVector8()
    ensures RoundOf(Quads(Quad(0x5a, 0x41, 0x42, 0xb1), Quad(0x19, 0x49, 0xdc, 0x1f),
            Quad(0xa3, 0xe0, 0x19, 0x65), Quad(0x7a, 0x8c, 0x04, 0x0c)),
            Quads(Quad(0xea, 0xd2, 0x73, 0x21), Quad(0xb5, 0x8d, 0xba, 0xd2),
            Quad(0x31, 0x2b, 0xf5, 0x60), Quad(0x7f, 0x8d, 0x29, 0x2f))) ==
            Quads(Quad(0xea, 0x83, 0x5c, 0xf0), Quad(0x04, 0x45, 0x33, 0x2d),
            Quad(0x65, 0x5d, 0x98, 0xad), Quad(0x85, 0x96, 0xb0, 0xc5))
  {
    SubVector8();
    MixVector8();
    RoundBy(Quads(Quad(0x5a, 0x41, 0x42, 0xb1), Quad(0x19, 0x49, 0xdc, 0x1f),
            Quad(0xa3, 0xe0, 0x19, 0x65), Quad(0x7a, 0x8c, 0x04, 0x0c)),
            Quads(Quad(0xea, 0xd2, 0x73, 0x21), Quad(0xb5, 0x8d, 0xba, 0xd2),
            Quad(0x31, 0x2b, 0xf5, 0x60), Quad(0x7f, 0x8d, 0x29, 0x2f)),
            Quads(Quad(0xbe, 0x83, 0x2c, 0xc8), Quad(0xd4, 0x3b, 0x86, 0xc0),
            Quad(0x0a, 0xe1, 0xd4, 0x4d), Quad(0xda, 0x64, 0xf2, 0xfe)),
            Quads(Quad(0x00, 0x51, 0x2f, 0xd1), Quad(0xb1, 0xc8, 0x89, 0xff),
            Quad(0x54, 0x76, 0x6d, 0xcd), Quad(0xfa, 0x1b, 0x99, 0xea)),
            Quads(Quad(0xea, 0x83, 0x5c, 0xf0), Quad(0x04, 0x45, 0x33, 0x2d),
            Quad(0x65, 0x5d, 0x98, 0xad), Quad(0x85, 0x96, 0xb0, 0xc5)));
  }

  lemma {:induction false} SubVector8()
    ensures SubQuads(Quads(Quad(0x5a, 0x41, 0x42, 0xb1), Quad(0x19, 0x49, 0xdc, 0x1f),
            Quad(0xa3, 0xe0, 0x19, 0x65), Quad(0x7a, 0x8c, 0x04, 0x0c))) ==
            Quads(Quad(0xbe, 0x83, 0x2c, 0xc8), Quad(0xd4, 0x3b, 0x86, 0xc0),
            Quad(0x0a, 0xe1, 0xd4, 0x4d), Quad(0xda, 0x64, 0xf2, 0xfe))
  {
    SubVector8p();
    SubVector8q();
    SubVector8r();
    SubVector8s();
  }

  lemma {:induction false} SubVector8p()
    ensures SubQuad(Quad(0x5a, 0x41, 0x42, 0xb1)) == Quad(0xbe, 0x83, 0x2c, 0xc8)
  {}

  lemma {:induction false} SubVector8q()
    ensures SubQuad(Quad(0x19, 0x49, 0xdc, 0x1f)) == Quad(0xd4, 0x3b, 0x86, 0xc0)
  {}

  lemma {:induction false} SubVector8r()
    ensures SubQuad(Quad(0xa3, 0xe0, 0x19, 0x65)) == Quad(0x0a, 0xe1, 0xd4, 0x4d)
  {}

  lemma {:induction false} SubVector8s()
    ensures SubQuad(Quad(0x7a, 0x8c, 0x04, 0x0c)) == Quad(0xda, 0x64, 0xf2, 0xfe)
  {}

  lemma {:induction false} MixVector8()
    ensures MixQuads(ShiftQuads(Quads(Quad(0xbe, 0x83, 0x2c, 0xc8), Quad(0xd4, 0x3b, 0x86, 0xc0),
            Quad(0x0a, 0xe1, 0xd4, 0x4d), Quad(0xda, 0x64, 0xf2, 0xfe)))) ==
            Quads(Quad(0x00, 0x51, 0x2f, 0xd1), Quad(0xb1, 0xc8, 0x89, 0xff),
            Quad(0x54, 0x76, 0x6d, 0xcd), Quad(0xfa, 0x1b, 0x99, 0xea))
  {}

  lemma {:induction false} RoundVector9()
    ensures RoundOf(Quads(Quad(0xea, 0x83, 0x5c, 0xf0), Quad(0x04, 0x45, 0x33, 0x2d),
            Quad(0x65, 0x5d, 0x98, 0xad), Quad(0x85, 0x96, 0xb0, 0xc5)),
            Quads(Quad(0xac, 0x77, 0x66, 0xf3), Quad(0x19, 0xfa, 0xdc, 0x21),
            Quad(0x28, 0xd1, 0x29, 0x41), Quad(0x57, 0x5c, 0x00, 0x6e))) ==
            Quads(Quad(0xeb, 0x40, 0xf2, 0x1e), Quad(0x59, 0x2e, 0x38, 0x84),
            Quad(0x8b, 0xa1, 0x13, 0xe7), Quad(0x1b, 0xc3, 0x42, 0xd2))
  {
    SubVector9();
    MixVector9();
    RoundBy(Quads(Quad(0xea, 0x83, 0x5c, 0xf0), Quad(0x04, 0x45, 0x33, 0x2d),
            Quad(0x65, 0x5d, 0x98, 0xad), Quad(0x85, 0x96, 0xb0, 0xc5)),
            Quads(Quad(0xac, 0x77, 0x66, 0xf3), Quad(0x19, 0xfa, 0xdc, 0x21),
            Quad(0x28, 0xd1, 0x29, 0x41), Quad(0x57, 0x5c, 0x00, 0x6e)),
            Quads(Quad(0x87, 0xec, 0x4a, 0x8c), Quad(0xf2, 0x6e, 0xc3, 0xd8),
            Quad(0x4d, 0x4c, 0x46, 0x95), Quad(0x97, 0x90, 0xe7, 0xa6)),
            Quads(Quad(0x47, 0x37, 0x94, 0xed), Quad(0x40, 0xd4, 0xe4, 0xa5),
            Quad(0xa3, 0x70, 0x3a, 0xa6), Quad(0x4c, 0x9f, 0x42, 0xbc)),
            Quads(Quad(0xeb, 0x40, 0xf2, 0x1e), Quad(0x59, 0x2e, 0x38, 0x84),
            Quad(0x8b, 0xa1, 0x13, 0xe7), Quad(0x1b, 0xc3, 0x42, 0xd2)));
  }

  lemma {:induction false} SubVector9()
    ensures SubQuads(Quads(Quad(0xea, 0x83, 0x5c, 0xf0), Quad(0x04, 0x45, 0x33, 0x2d),
            Quad(0x65, 0x5d, 0x98, 0xad), Quad(0x85, 0x96, 0xb0, 0xc5))) ==
            Quads(Quad(0x87, 0xec, 0x4a, 0x8c), Quad(0xf2, 0x6e, 0xc3, 0xd8),
            Quad(0x4d, 0x4c, 0x46, 0x95), Quad(0x97, 0x90, 0xe7, 0xa6))
  {
    SubVector9p();
    SubVector9q();
    SubVector9r();
    SubVector9s();
  }

  lemma {:induction false} SubVector9p()
    ensures SubQuad(Quad(0xea, 0x83, 0x5c, 0xf0)) == Quad(0x87, 0xec, 0x4a, 0x8c)
  {}

  lemma {:induction false} SubVector9q()
    ensures SubQuad(Quad(0x04, 0x45, 0x33, 0x2d)) == Quad(0xf2, 0x6e, 0xc3, 0xd8)
  {}

  lemma {:induction false} SubVector9r()
    ensures SubQuad(Quad(0x65, 0x5d, 0x98, 0xad)) == Quad(0x4d, 0x4c, 0x46, 0x95)
  {}

  lemma {:induction false} SubVector9s()
    ensures SubQuad(Quad(0x85, 0x96, 0xb0, 0xc5)) == Quad(0x97, 0x90, 0xe7, 0xa6)
  {}

  lemma {:induction false} MixVector9()
    ensures MixQuads(ShiftQuads(Quads(Quad(0x87, 0xec, 0x4a, 0x8c), Quad(0xf2, 0x6e, 0xc3, 0xd8),
            Quad(0x4d, 0x4c, 0x46, 0x95), Quad(0x97, 0x90, 0xe7, 0xa6)))) ==
            Quads(Quad(0x47, 0x37, 0x94, 0xed), Quad(0x40, 0xd4, 0xe4, 0xa5),
            Quad(0xa3, 0x70, 0x3a, 0xa6), Quad(0x4c, 0x9f, 0x42, 0xbc))
  {}

  lemma {:induction false} RoundBy(x: Quads, k: Quads, u: Quads, m: Quads, y: Quads)
    requires SubQuads(x) == u && MixQuads(ShiftQuads(u)) == m && AddQuads(m, k) == y
    ensures RoundOf(x, k) == y
  {}

  lemma {:induction false} LastVector()
    ensures FinalOf(Quads(Quad(0xeb, 0x40, 0xf2, 0x1e), Quad(0x59, 0x2e, 0x38, 0x84),
            Quad(0x8b, 0xa1, 0x13, 0xe7), Quad(0x1b, 0xc3, 0x42, 0xd2)),
            Quads(Quad(0xd0, 0x14, 0xf9, 0xa8), Quad(0xc9, 0xee, 0x25, 0x89),
            Quad(0xe1, 0x3f, 0x0c, 0xc8), Quad(0xb6, 0x63, 0x0c, 0xa6))) ==
            Quads(Quad(0x39, 0x25, 0x84, 0x1d), Quad(0x02, 0xdc, 0x09, 0xfb),
            Quad(0xdc, 0x11, 0x85, 0x97), Quad(0x19, 0x6a, 0x0b, 0x32))
  {
    SubVector10();
  }

  lemma {:induction false} SubVector10()
    ensures SubQuads(Quads(Quad(0xeb, 0x40, 0xf2, 0x1e), Quad(0x59, 0x2e, 0x38, 0x84),
            Quad(0x8b, 0xa1, 0x13, 0xe7), Quad(0x1b, 0xc3, 0x42, 0xd2))) ==
            Quads(Quad(0xe9, 0x09, 0x89, 0x72), Quad(0xcb, 0x31, 0x07, 0x5f),
            Quad(0x3d, 0x32, 0x7d, 0x94), Quad(0xaf, 0x2e, 0x2c, 0xb5))
  {
    SubVector10p();
    SubVector10q();
    SubVector10r();
    SubVector10s();
  }

  lemma {:induction false} SubVector10p()
    ensures SubQuad(Quad(0xeb, 0x40, 0xf2, 0x1e)) == Quad(0xe9, 0x09, 0x89, 0x72)
  {}

  lemma {:induction false} SubVector10q()
    ensures SubQuad(Quad(0x59, 0x2e, 0x38, 0x84)) == Quad(0xcb, 0x31, 0x07, 0x5f)
  {}

  lemma {:induction false} SubVector10r()
    ensures SubQuad(Quad(0x8b, 0xa1, 0x13, 0xe7)) == Quad(0x3d, 0x32, 0x7d, 0x94)
  {}

  lemma {:induction false} SubVector10s()
    ensures SubQuad(Quad(0x1b, 0xc3, 0x42, 0xd2)) == Quad(0xaf, 0x2e, 0x2c, 0xb5)
  {}

  lemma {:induction false} FirstVector()
    ensures AddQuads(Quads(Quad(0x32, 0x43, 0xf6, 0xa8), Quad(0x88, 0x5a, 0x30, 0x8d),
            Quad(0x31, 0x31, 0x98, 0xa2), Quad(0xe0, 0x37, 0x07, 0x34)),
            Quads(Quad(0x2b, 0x7e, 0x15, 0x16), Quad(0x28, 0xae, 0xd2, 0xa6),
            Quad(0xab, 0xf7, 0x15, 0x88), Quad(0x09, 0xcf, 0x4f, 0x3c))) ==
            Quads(Quad(0x19, 0x3d, 0xe3, 0xbe), Quad(0xa0, 0xf4, 0xe2, 0x2b),
            Quad(0x9a, 0xc6, 0x8d, 0x2a), Quad(0xe9, 0xf8, 0x48, 0x08))
  {}

  /** g gives the state after each round. */
  ghost predicate TracksState(g: nat -> Block, w: Schedule) {
    forall r: nat {:trigger Rounds(r)} :: g(r) == Run(Rounds(r), BlockOf(PLAIN), w)
  }

  /** r rounds with the given keys. */
  function Iterated(rnd: (Quads, Quads) -> Quads, start: Quads, keys: nat -> Quads, r: nat): Quads {
    if r == 0 then start else rnd(Iterated(rnd, start, keys, r - 1), keys(r))
  }

  lemma {:induction false} IteratedIs(
    rnd: (Quads, Quads) -> Quads, keys: nat -> Quads, states: nat -> Quads, n: nat, r: nat)
    requires r <= n && forall i: nat | 1 <= i <= n :: rnd(states(i - 1), keys(i)) == states(i)
    ensures Iterated(rnd, states(0), keys, r) == states(r)
  {
    if r > 0 { IteratedIs(rnd, keys, states, n, r - 1); }
  }

  /** rnd is the round on records. */
  ghost predicate IsRound(rnd: (Quads, Quads) -> Quads) {
    forall x: Quads, k: Quads {:trigger RoundOf(x, k)} :: rnd(x, k) == RoundOf(x, k)
  }

  ghost predicate HasKeysOf(w: Schedule, keys: nat -> Quads) {
    Last(w) == 10 && forall r: nat | r <= 10 :: RoundKey(w, r) == BlockOf(keys(r))
  }

  lemma {:induction false} NextState(g: nat -> Block, w: Schedule, r: nat, x: Quads, k: Quads)
    requires TracksState(g, w) && 1 <= r <= Last(w) && g(r - 1) == BlockOf(x) && RoundKey(w, r) == BlockOf(k)
    ensures g(r) == BlockOf(RoundOf(x, k))
  {
    RunRound(Rounds(r - 1), BlockOf(PLAIN), w, x, r, k);
    assert Rounds(r) == Rounds(r - 1) + [Sub, Shift, Mixing, Key(r)];
  }

  lemma {:induction false} RoundsIterate(
    g: nat -> Block, w: Schedule, rnd: (Quads, Quads) -> Quads, start: Quads, keys: nat -> Quads, r: nat)
    requires TracksState(g, w) && IsRound(rnd) && HasKeysOf(w, keys) && r <= 9 && g(0) == BlockOf(start)
    ensures g(r) == BlockOf(Iterated(rnd, start, keys, r))
  {
    if r > 0 {
      RoundsIterate(g, w, rnd, start, keys, r - 1);
      NextState(g, w, r, Iterated(rnd, start, keys, r - 1), keys(r));
    }
  }

  lemma {:induction false} FirstState(g: nat -> Block, w: Schedule, k: Quads)
    requires TracksState(g, w) && RoundKey(w, 0) == BlockOf(k)
    ensures g(0) == BlockOf(AddQuads(PLAIN, k))
  {
    var p := BlockOf(PLAIN);
    assert Run([], p, w) == p;
    RunKey([], p, w, PLAIN, 0, k);
    assert [] + [Key(0)] == Rounds(0);
  }

  lemma {:induction false} LastState(g: nat -> Block, w: Schedule, x: Quads, k: Quads)
    requires TracksState(g, w) && Last(w) == 10 && g(9) == BlockOf(x) && RoundKey(w, 10) == BlockOf(k)
    ensures Cipher(BlockOf(PLAIN), w) == BlockOf(FinalOf(x, k))
  {
    RunFinal(Rounds(9), BlockOf(PLAIN), w, x, 10, k);
  }

  function KeyOf(r: nat): Quads { if r <= 10 then RoundWords(r) else KEY }
  function StateOf(r: nat): Quads { if r <= 9 then StateAfter(r) else PLAIN }

  lemma {:induction false} VectorsIterate(rnd: (Quads, Quads) -> Quads, r: nat)
    requires IsRound(rnd) && r <= 9
    ensures Iterated(rnd, StateOf(0), KeyOf, r) == StateOf(r)
  {
    forall i: nat | 1 <= i <= 9
      ensures rnd(StateOf(i - 1), KeyOf(i)) == StateOf(i)
    {
      RoundVector(i);
    }
    IteratedIs(rnd, KeyOf, StateOf, 9, r);
  }

  lemma {:induction false} SliceIs(w: Schedule, key: Block, f: nat -> Word, i: nat)
    requires TracksKey(f, key) && w == Expanded(key, 44) && i < 44
    ensures w[4 * i..4 * i + 4] == f(i)
  {
    ExpandedWord(key, 44, i);
  }

  lemma {:induction false} ScheduleKey(w: Schedule, key: Block, f: nat -> Word, r: nat, k: Quads)
    requires TracksKey(f, key) && w == Expanded(key, 44) && r <= 10 && KeyAt(f, 4 * r, k)
    ensures RoundKey(w, r) == BlockOf(k)
  {
    SliceIs(w, key, f, 4 * r);
    SliceIs(w, key, f, 4 * r + 1);
    SliceIs(w, key, f, 4 * r + 2);
    SliceIs(w, key, f, 4 * r + 3);
    FourWords(w, 16 * r, f(4 * r), f(4 * r + 1), f(4 * r + 2), f(4 * r + 3), k);
  }

  lemma {:induction false} ScheduleHasKeys(w: Schedule, key: Block, f: nat -> Word)
    requires key == BlockOf(KEY) && TracksKey(f, key) && w == Expanded(key, 44)
    ensures HasKeysOf(w, KeyOf)
  {
    forall r: nat | r <= 10
      ensures RoundKey(w, r) == BlockOf(KeyOf(r))
    {
      ScheduleVector(f, r, 4 * r);
      ScheduleKey(w, key, f, r, RoundWords(r));
    }
  }

  lemma {:induction false} FourWords(w: seq<bv8>, at: nat, a: Word, b: Word, c: Word, d: Word, k: Quads)
    requires at + 16 <= |w| && a == WordOf(k.p) && b == WordOf(k.q) && c == WordOf(k.r) && d == WordOf(k.s)
    requires w[at..at + 4] == a && w[at + 4..at + 8] == b && w[at + 8..at + 12] == c && w[at + 12..at + 16] == d
    ensures w[at..at + 16] == BlockOf(k)
  {
    var t := w[at..at + 16];
    assert t[0] == a[0] && t[1] == a[1] && t[2] == a[2] && t[3] == a[3] by { SubWordOf(w, at, 0, a); }
    assert t[4] == b[0] && t[5] == b[1] && t[6] == b[2] && t[7] == b[3] by { SubWordOf(w, at, 4, b); }
    assert t[8] == c[0] && t[9] == c[1] && t[10] == c[2] && t[11] == c[3] by { SubWordOf(w, at, 8, c); }
    assert t[12] == d[0] && t[13] == d[1] && t[14] == d[2] && t[15] == d[3] by { SubWordOf(w, at, 12, d); }
    Sixteen(t, k);
  }

  lemma {:induction false} SubWordOf(w: seq<bv8>, at: nat, j: nat, a: Word)
    requires at + 16 <= |w| && j + 4 <= 16 && w[at + j..at + j + 4] == a
    ensures var t := w[at..at + 16]; t[j] == a[0] && t[j + 1] == a[1] && t[j + 2] == a[2] && t[j + 3] == a[3]
  {
    assert a[0] == w[at + j] && a[1] == w[at + j + 1] && a[2] == w[at + j + 2] && a[3] == w[at + j + 3];
  }

  /** Appendix B: 3243f6a8885a308d313198a2e0370734 under the key of appendix A.1
      is 3925841d02dc09fbdc118597196a0b32. */
  lemma {:induction false} CipherVector(w: Schedule)
    requires w == Expanded(BlockOf(KEY), 44)
    ensures Cipher(BlockOf(PLAIN), w) == BlockOf(CIPHERTEXT)
  {
    var f := (i: nat) => KeyWord(BlockOf(KEY), i);
    var g := (r: nat) => Run(Rounds(r), BlockOf(PLAIN), w);
    var rnd := (x: Quads, k: Quads) => RoundOf(x, k);
    ScheduleHasKeys(w, BlockOf(KEY), f);
    TenRounds(g, w, rnd);
  }

  lemma {:induction false} TenRounds(g: nat -> Block, w: Schedule, rnd: (Quads, Quads) -> Quads)
    requires TracksState(g, w) && IsRound(rnd) && HasKeysOf(w, KeyOf)
    ensures Cipher(BlockOf(PLAIN), w) == BlockOf(CIPHERTEXT)
  {
    FirstState(g, w, KeyOf(0));
    FirstVector();
    RoundsIterate(g, w, rnd, StateOf(0), KeyOf, 9);
    VectorsIterate(rnd, 9);
    LastState(g, w, StateOf(9), KeyOf(10));
    LastVector();
  }
}
