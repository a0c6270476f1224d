/** aes.c on its buffers: every step changes one 16-byte block in place. */
module Aes {
  import opened AesField
  import opened AesCipher

  function At(b: seq<bv8>, at: nat): Block
    requires at + 16 <= |b|
  {
    b[at..at + 16]
  }

  function Put(b: seq<bv8>, at: nat, s: Block): (r: seq<bv8>)
    requires at + 16 <= |b|
    ensures |r| == |b| && At(r, at) == s
  {
    b[..at] + s + b[at + 16..]
  }

  /** b' is b with s at `at`, byte by byte. */
  ghost predicate Replaced(b: seq<bv8>, b': seq<bv8>, at: nat, s: Block) {
    && at + 16 <= |b| == |b'|
    && (forall k | 0 <= k < 16 :: b'[at + k] == s[k])
    && forall k | 0 <= k < |b| && !(at <= k < at + 16) :: b'[k] == b[k]
  }

  lemma {:induction false} ReplacedPut(b: seq<bv8>, b': seq<bv8>, at: nat, s: Block)
    requires Replaced(b, b', at, s)
    ensures b' == Put(b, at, s)
  {
    var r := Put(b, at, s);
    forall k | 0 <= k < |b|
      ensures b'[k] == r[k]
    {
      if at <= k < at + 16 { assert b'[at + (k - at)] == s[k - at]; }
    }
  }

  lemma {:induction false} PutTwice(b: seq<bv8>, at: nat, s: Block, t: Block)
    requires at + 16 <= |b|
    ensures Put(Put(b, at, s), at, t) == Put(b, at, t)
  {}

  lemma {:induction false} PutSame(b: seq<bv8>, at: nat)
    requires at + 16 <= |b|
    ensures Put(b, at, At(b, at)) == b
  {}

  // ---- the steps ----

  method Lookup(forward: bool, x: bv8, ghost k: nat) returns (y: bv8)
    ensures y == Box(forward, x, k)
  {
    y := if forward then Sbox(x) else Rsbox(x);
    BoxValue(forward, x, k);
  }

  /** Byte k of the block has been visited in the order of the two loops. */
  predicate Visited(k: int, i: int, j: int) {
    k % 4 < i || (k % 4 == i && k / 4 < j)
  }

  /** SubBytes and InvSubBytes: row by row. */
  method SubBytes(buf: array<bv8>, at: nat, forward: bool)
    requires at + 16 <= buf.Length
    modifies buf
    ensures buf[..] == Put(old(buf[..]), at, Substitute(At(old(buf[..]), at), forward))
  {
    ghost var b := buf[..];
    ghost var s := At(b, at);
    for i := 0 to 4
      invariant forall k | 0 <= k < 16 :: buf[at + k] == if Visited(k, i, 0) then Box(forward, s[k], 16) else s[k]
      invariant forall k | 0 <= k < |b| && !(at <= k < at + 16) :: buf[k] == b[k]
    {
      for j := 0 to 4
        invariant forall k | 0 <= k < 16 :: buf[at + k] == if Visited(k, i, j) then Box(forward, s[k], 16) else s[k]
        invariant forall k | 0 <= k < |b| && !(at <= k < at + 16) :: buf[k] == b[k]
      {
        var y := Lookup(forward, buf[at + 4 * j + i], 16);
        assert !Visited(4 * j + i, i, j);
        buf[at + 4 * j + i] := y;
      }
    }
    ReplacedPut(b, buf[..], at, Substitute(s, forward));
  }

  /** AddRoundKey */
  method AddRoundKey(round: nat, buf: array<bv8>, at: nat, w: seq<bv8>)
    requires at + 16 <= buf.Length && |w| % 16 == 0 && |w| >= 32 && round <= Last(w)
    modifies buf
    ensures buf[..] == Put(old(buf[..]), at, XorBlock(At(old(buf[..]), at), RoundKey(w, round)))
  {
    ghost var b := buf[..];
    ghost var s, key := At(b, at), RoundKey(w, round);
    for i := 0 to 4
      invariant forall k | 0 <= k < 16 :: buf[at + k] == if k < 4 * i then Add(s[k], key[k]) else s[k]
      invariant forall k | 0 <= k < |b| && !(at <= k < at + 16) :: buf[k] == b[k]
    {
      for j := 0 to 4
        invariant forall k | 0 <= k < 16 :: buf[at + k] == if k < 4 * i + j then Add(s[k], key[k]) else s[k]
        invariant forall k | 0 <= k < |b| && !(at <= k < at + 16) :: buf[k] == b[k]
      {
        assert key[4 * i + j] == w[round * 16 + i * 4 + j];
        buf[at + 4 * i + j] := Add(buf[at + 4 * i + j], w[round * 16 + i * 4 + j]);
      }
    }
    ReplacedPut(b, buf[..], at, XorBlock(s, key));
  }

  /** Row 1 one column to the left. */
  method RotateRow1(buf: array<bv8>, at: nat)
    requires at + 16 <= buf.Length
    modifies buf
    ensures buf[at + 1] == old(buf[at + 5]) && buf[at + 5] == old(buf[at + 9])
    ensures buf[at + 9] == old(buf[at + 13]) && buf[at + 13] == old(buf[at + 1])
    ensures forall k | 0 <= k < buf.Length && k - at !in {1, 5, 9, 13} :: buf[k] == old(buf[k])
  {
    var temp := buf[at + 1];
    buf[at + 1] := buf[at + 5];
    buf[at + 5] := buf[at + 9];
    buf[at + 9] := buf[at + 13];
    buf[at + 13] := temp;
  }

  /** Row 2 two columns, either way. */
  method RotateRow2(buf: array<bv8>, at: nat)
    requires at + 16 <= buf.Length
    modifies buf
    ensures buf[at + 2] == old(buf[at + 10]) && buf[at + 10] == old(buf[at + 2])
    ensures buf[at + 6] == old(buf[at + 14]) && buf[at + 14] == old(buf[at + 6])
    ensures forall k | 0 <= k < buf.Length && k - at !in {2, 6, 10, 14} :: buf[k] == old(buf[k])
  {
    var temp := buf[at + 2];
    buf[at + 2] := buf[at + 10];
    buf[at + 10] := temp;

    temp := buf[at + 6];
    buf[at + 6] := buf[at + 14];
    buf[at + 14] := temp;
  }

  /** Row 3 three columns to the left. */
  method RotateRow3(buf: array<bv8>, at: nat)
    requires at + 16 <= buf.Length
    modifies buf
    ensures buf[at + 3] == old(buf[at + 15]) && buf[at + 15] == old(buf[at + 11])
    ensures buf[at + 11] == old(buf[at + 7]) && buf[at + 7] == old(buf[at + 3])
    ensures forall k | 0 <= k < buf.Length && k - at !in {3, 7, 11, 15} :: buf[k] == old(buf[k])
  {
    var temp := buf[at + 3];
    buf[at + 3] := buf[at + 15];
    buf[at + 15] := buf[at + 11];
    buf[at + 11] := buf[at + 7];
    buf[at + 7] := temp;
  }

  /** Row 1 one column to the right. */
  method RotateRow1Back(buf: array<bv8>, at: nat)
    requires at + 16 <= buf.Length
    modifies buf
    ensures buf[at + 13] == old(buf[at + 9]) && buf[at + 9] == old(buf[at + 5])
    ensures buf[at + 5] == old(buf[at + 1]) && buf[at + 1] == old(buf[at + 13])
    ensures forall k | 0 <= k < buf.Length && k - at !in {1, 5, 9, 13} :: buf[k] == old(buf[k])
  {
    var temp := buf[at + 13];
    buf[at + 13] := buf[at + 9];
    buf[at + 9] := buf[at + 5];
    buf[at + 5] := buf[at + 1];
    buf[at + 1] := temp;
  }

  /** Row 3 three columns to the right. */
  method RotateRow3Back(buf: array<bv8>, at: nat)
    requires at + 16 <= buf.Length
    modifies buf
    ensures buf[at + 3] == old(buf[at + 7]) && buf[at + 7] == old(buf[at + 11])
    ensures buf[at + 11] == old(buf[at + 15]) && buf[at + 15] == old(buf[at + 3])
    ensures forall k | 0 <= k < buf.Length && k - at !in {3, 7, 11, 15} :: buf[k] == old(buf[k])
  {
    var temp := buf[at + 3];
    buf[at + 3] := buf[at + 7];
    buf[at + 7] := buf[at + 11];
    buf[at + 11] := buf[at + 15];
    buf[at + 15] := temp;
  }

  lemma {:induction false} LeftTable(s: Block, t: Block)
    requires t[0] == s[0] && t[1] == s[5] && t[2] == s[10] && t[3] == s[15]
    requires t[4] == s[4] && t[5] == s[9] && t[6] == s[14] && t[7] == s[3]
    requires t[8] == s[8] && t[9] == s[13] && t[10] == s[2] && t[11] == s[7]
    requires t[12] == s[12] && t[13] == s[1] && t[14] == s[6] && t[15] == s[11]
    ensures t == ShiftRows(s)
  {
    forall k: nat | k < 16
      ensures t[k] == s[Left(k)]
    {
      LeftTableIndex(k);
    }
  }

  lemma {:induction false} LeftTableIndex(k: nat)
    requires k < 16
    ensures Left(k) == [0, 5, 10, 15, 4, 9, 14, 3, 8, 13, 2, 7, 12, 1, 6, 11][k]
  {}

  lemma {:induction false} RightTable(s: Block, t: Block)
    requires t[0] == s[0] && t[1] == s[13] && t[2] == s[10] && t[3] == s[7]
    requires t[4] == s[4] && t[5] == s[1] && t[6] == s[14] && t[7] == s[11]
    requires t[8] == s[8] && t[9] == s[5] && t[10] == s[2] && t[11] == s[15]
    requires t[12] == s[12] && t[13] == s[9] && t[14] == s[6] && t[15] == s[3]
    ensures t == InvShiftRows(s)
  {
    forall k: nat | k < 16
      ensures t[k] == s[Right(k)]
    {
      RightTableIndex(k);
    }
  }

  lemma {:induction false} RightTableIndex(k: nat)
    requires k < 16
    ensures Right(k) == [0, 13, 10, 7, 4, 1, 14, 11, 8, 5, 2, 15, 12, 9, 6, 3][k]
  {}

  /** ShiftRows */
  method RotateRows(buf: array<bv8>, at: nat)
    requires at + 16 <= buf.Length
    modifies buf
    ensures buf[..] == Put(old(buf[..]), at, ShiftRows(At(old(buf[..]), at)))
  {
    ghost var b := buf[..];
    RotateRow1(buf, at);
    RotateRow2(buf, at);
    RotateRow3(buf, at);
    LeftTable(At(b, at), At(buf[..], at));
    ReplacedPut(b, buf[..], at, At(buf[..], at));
  }

  /** InvShiftRows */
  method RotateRowsBack(buf: array<bv8>, at: nat)
    requires at + 16 <= buf.Length
    modifies buf
    ensures buf[..] == Put(old(buf[..]), at, InvShiftRows(At(old(buf[..]), at)))
  {
    ghost var b := buf[..];
    RotateRow1Back(buf, at);
    RotateRow2(buf, at);
    RotateRow3Back(buf, at);
    RightTable(At(b, at), At(buf[..], at));
    ReplacedPut(b, buf[..], at, At(buf[..], at));
  }

  // ---- columns ----

  lemma {:induction false} SumRotates(a: bv8, b: bv8, c: bv8, d: bv8)
    ensures Add(Add(Add(a, b), c), d) == Add(Add(Add(b, c), d), a)
  {
    AddAssociates(a, b, c);
    AddAssociates(a, Add(b, c), d);
    AddCommutes(a, Add(Add(b, c), d));
  }

  /** Column i of t is column i of s mixed, or unmixed. */
  predicate IsColumn(s: Block, t: Block, forward: bool, i: nat)
    requires i < 4
  {
    var a, b, c, d := s[4 * i], s[4 * i + 1], s[4 * i + 2], s[4 * i + 3];
    if forward then
      && t[4 * i] == Mix(a, b, c, d) && t[4 * i + 1] == Mix(b, c, d, a)
      && t[4 * i + 2] == Mix(c, d, a, b) && t[4 * i + 3] == Mix(d, a, b, c)
    else
      && t[4 * i] == Unmix(a, b, c, d) && t[4 * i + 1] == Unmix(b, c, d, a)
      && t[4 * i + 2] == Unmix(c, d, a, b) && t[4 * i + 3] == Unmix(d, a, b, c)
  }

  lemma {:induction false} ColumnOf(s: Block, i: nat)
    requires i < 4
    ensures IsColumn(s, MixColumns(s), true, i) && IsColumn(s, InvMixColumns(s), false, i)
  {
    var p := 4 * i;
    assert Below(p, 1) == p + 1 && Below(p, 2) == p + 2 && Below(p, 3) == p + 3;
    assert Below(p + 1, 1) == p + 2 && Below(p + 1, 2) == p + 3 && Below(p + 1, 3) == p;
    assert Below(p + 2, 1) == p + 3 && Below(p + 2, 2) == p && Below(p + 2, 3) == p + 1;
    assert Below(p + 3, 1) == p && Below(p + 3, 2) == p + 1 && Below(p + 3, 3) == p + 2;
  }

  predicate Holds4(b: seq<bv8>, p: nat, s: Block, i: nat)
    requires p + 4 <= |b| && i < 4
  {
    b[p] == s[4 * i] && b[p + 1] == s[4 * i + 1] && b[p + 2] == s[4 * i + 2] && b[p + 3] == s[4 * i + 3]
  }

  /** Body of the loop of MixColumns, on the column at p. */
  method MixColumn(buf: array<bv8>, p: nat, ghost s: Block, ghost t: Block, ghost i: nat)
    requires p + 4 <= buf.Length && i < 4 && Holds4(buf[..], p, s, i) && IsColumn(s, t, true, i)
    modifies buf
    ensures Holds4(buf[..], p, t, i)
    ensures forall k | 0 <= k < buf.Length && !(p <= k < p + 4) :: buf[k] == old(buf[k])
  {
    MixesFast(buf[p], buf[p + 1], buf[p + 2], buf[p + 3]);
    var first := buf[p];
    var tmp := Add(Add(Add(buf[p], buf[p + 1]), buf[p + 2]), buf[p + 3]);
    var tm := Xtime(Add(buf[p], buf[p + 1]));
    buf[p] := Add(buf[p], Add(tm, tmp));
    tm := Xtime(Add(buf[p + 1], buf[p + 2]));
    buf[p + 1] := Add(buf[p + 1], Add(tm, tmp));
    tm := Xtime(Add(buf[p + 2], buf[p + 3]));
    buf[p + 2] := Add(buf[p + 2], Add(tm, tmp));
    tm := Xtime(Add(buf[p + 3], first));
    buf[p + 3] := Add(buf[p + 3], Add(tm, tmp));
  }

  lemma {:induction false} MixesFast(a: bv8, b: bv8, c: bv8, d: bv8)
    ensures var tmp := Add(Add(Add(a, b), c), d);
            && Add(a, Add(Xtime(Add(a, b)), tmp)) == Mix(a, b, c, d)
            && Add(b, Add(Xtime(Add(b, c)), tmp)) == Mix(b, c, d, a)
            && Add(c, Add(Xtime(Add(c, d)), tmp)) == Mix(c, d, a, b)
            && Add(d, Add(Xtime(Add(d, a)), tmp)) == Mix(d, a, b, c)
  {
    SumRotates(a, b, c, d);
    SumRotates(b, c, d, a);
    SumRotates(c, d, a, b);
    FastMix(a, b, c, d);
    FastMix(b, c, d, a);
    FastMix(c, d, a, b);
    FastMix(d, a, b, c);
  }

  /** One line of the loop of InvMixColumns. */
  method UnmixLine(a: bv8, b: bv8, c: bv8, d: bv8) returns (r: bv8)
    ensures r == Unmix(a, b, c, d)
  {
    MultiplyForms(a);
    MultiplyForms(b);
    MultiplyForms(c);
    MultiplyForms(d);
    r := Sum4(Multiply(a, 0x0e), Multiply(b, 0x0b), Multiply(c, 0x0d), Multiply(d, 0x09));
  }

  /** Body of the loop of InvMixColumns. */
  method UnmixColumn(buf: array<bv8>, p: nat, ghost s: Block, ghost t: Block, ghost i: nat)
    requires p + 4 <= buf.Length && i < 4 && Holds4(buf[..], p, s, i) && IsColumn(s, t, false, i)
    modifies buf
    ensures Holds4(buf[..], p, t, i)
    ensures forall k | 0 <= k < buf.Length && !(p <= k < p + 4) :: buf[k] == old(buf[k])
  {
    var a, b, c, d := buf[p], buf[p + 1], buf[p + 2], buf[p + 3];
    var r := UnmixLine(a, b, c, d);
    buf[p] := r;
    r := UnmixLine(b, c, d, a);
    buf[p + 1] := r;
    r := UnmixLine(c, d, a, b);
    buf[p + 2] := r;
    r := UnmixLine(d, a, b, c);
    buf[p + 3] := r;
  }

  /** MixColumns, or InvMixColumns. */
  method MixAll(buf: array<bv8>, at: nat, forward: bool)
    requires at + 16 <= buf.Length
    modifies buf
    ensures buf[..] == Put(old(buf[..]), at, if forward then MixColumns(At(old(buf[..]), at))
                                             else InvMixColumns(At(old(buf[..]), at)))
  {
    ghost var s := At(buf[..], at);
    forall i: nat | i < 4
      ensures IsColumn(s, MixColumns(s), true, i) && IsColumn(s, InvMixColumns(s), false, i)
    {
      ColumnOf(s, i);
    }
    MixLoop(buf, at, forward, s, if forward then MixColumns(s) else InvMixColumns(s));
  }

  method MixLoop(buf: array<bv8>, at: nat, forward: bool, ghost s: Block, ghost t: Block)
    requires at + 16 <= buf.Length && s == At(buf[..], at)
    requires forall i: nat | i < 4 :: IsColumn(s, t, forward, i)
    modifies buf
    ensures buf[..] == Put(old(buf[..]), at, t)
  {
    ghost var b := buf[..];
    for i := 0 to 4
      invariant forall k | 0 <= k < 16 :: buf[at + k] == if k < 4 * i then t[k] else s[k]
      invariant forall k | 0 <= k < |b| && !(at <= k < at + 16) :: buf[k] == b[k]
    {
      if forward {
        MixColumn(buf, at + 4 * i, s, t, i);
      } else {
        UnmixColumn(buf, at + 4 * i, s, t, i);
      }
      ColumnDone(buf[..], at, s, t, i);
    }
    ReplacedPut(b, buf[..], at, t);
  }

  lemma {:induction false} ColumnDone(b: seq<bv8>, at: nat, s: Block, t: Block, i: nat)
    requires at + 16 <= |b| && i < 4 && Holds4(b, at + 4 * i, t, i)
    requires forall k | 0 <= k < 16 && !(4 * i <= k < 4 * i + 4) :: b[at + k] == if k < 4 * i then t[k] else s[k]
    ensures forall k | 0 <= k < 16 :: b[at + k] == if k < 4 * i + 4 then t[k] else s[k]
  {
    forall k | 4 * i <= k < 4 * i + 4
      ensures b[at + k] == t[k]
    {
      assert k == 4 * i || k == 4 * i + 1 || k == 4 * i + 2 || k == 4 * i + 3;
    }
  }

  // ---- Cipher and InvCipher ----

  /** One more layer on the block at `at`. */
  lemma {:induction false} Did(b: seq<bv8>, cur: seq<bv8>, next: seq<bv8>, at: nat, ls: seq<Layer>, l: Layer,
                               s: Block, w: Schedule)
    requires at + 16 <= |b| && cur == Put(b, at, Run(ls, s, w)) && next == Put(cur, at, Effect(l, At(cur, at), w))
    ensures next == Put(b, at, Run(ls + [l], s, w))
  {
    RunExtend(ls, l, s, w);
    PutTwice(b, at, Run(ls, s, w), Run(ls + [l], s, w));
  }

  /** The body of the loop of Cipher without its last step. */
  method SubShift(buf: array<bv8>, at: nat, ghost b: seq<bv8>, ghost ls: seq<Layer>, ghost s: Block, ghost w: Schedule)
    requires at + 16 <= |b| && buf[..] == Put(b, at, Run(ls, s, w))
    modifies buf
    ensures buf[..] == Put(b, at, Run(ls + [Sub] + [Shift], s, w))
  {
    ghost var b1 := buf[..];
    SubBytes(buf, at, true);
    ghost var b2 := buf[..];
    Did(b, b1, b2, at, ls, Sub, s, w);
    RotateRows(buf, at);
    Did(b, b2, buf[..], at, ls + [Sub], Shift, s, w);
  }

  method UnshiftUnsub(buf: array<bv8>, at: nat, ghost b: seq<bv8>, ghost ls: seq<Layer>, ghost s: Block,
                      ghost w: Schedule)
    requires at + 16 <= |b| && buf[..] == Put(b, at, Run(ls, s, w))
    modifies buf
    ensures buf[..] == Put(b, at, Run(ls + [Unshift] + [Unsub], s, w))
  {
    ghost var b1 := buf[..];
    RotateRowsBack(buf, at);
    ghost var b2 := buf[..];
    Did(b, b1, b2, at, ls, Unshift, s, w);
    SubBytes(buf, at, false);
    Did(b, b2, buf[..], at, ls + [Unshift], Unsub, s, w);
  }

  method MixStep(buf: array<bv8>, at: nat, forward: bool, ghost b: seq<bv8>, ghost ls: seq<Layer>, ghost s: Block,
                 ghost w: Schedule)
    requires at + 16 <= |b| && buf[..] == Put(b, at, Run(ls, s, w))
    modifies buf
    ensures buf[..] == Put(b, at, Run(ls + [if forward then Mixing else Unmixing], s, w))
  {
    ghost var b1 := buf[..];
    MixAll(buf, at, forward);
    Did(b, b1, buf[..], at, ls, if forward then Mixing else Unmixing, s, w);
  }

  method KeyStep(round: nat, buf: array<bv8>, at: nat, w: Schedule, ghost b: seq<bv8>, ghost ls: seq<Layer>,
                 ghost s: Block)
    requires at + 16 <= |b| && buf[..] == Put(b, at, Run(ls, s, w)) && round <= Last(w)
    modifies buf
    ensures buf[..] == Put(b, at, Run(ls + [Key(round)], s, w))
  {
    ghost var b1 := buf[..];
    AddRoundKey(round, buf, at, w);
    Did(b, b1, buf[..], at, ls, Key(round), s, w);
  }

  /** Cipher: the block at `at` encrypted in place. */
  method EncryptBlock(buf: array<bv8>, at: nat, w: Schedule)
    requires at + 16 <= buf.Length
    modifies buf
    ensures buf[..] == Put(old(buf[..]), at, Cipher(At(old(buf[..]), at), w))
  {
    ghost var b, s := buf[..], At(buf[..], at);
    PutSame(b, at);
    KeyStep(0, buf, at, w, b, [], s);
    assert [] + [Key(0)] == Rounds(0);
    for round := 1 to Last(w)
      invariant buf[..] == Put(b, at, Run(Rounds(round - 1), s, w))
    {
      ghost var ls := Rounds(round - 1);
      SubShift(buf, at, b, ls, s, w);
      MixStep(buf, at, true, b, ls + [Sub] + [Shift], s, w);
      KeyStep(round, buf, at, w, b, ls + [Sub] + [Shift] + [Mixing], s);
      assert ls + [Sub] + [Shift] + [Mixing] + [Key(round)] == Rounds(round);
    }
    ghost var ls := Rounds(Last(w) - 1);
    SubShift(buf, at, b, ls, s, w);
    KeyStep(Last(w), buf, at, w, b, ls + [Sub] + [Shift], s);
    assert ls + [Sub] + [Shift] + [Key(Last(w))] == CipherLayers(Last(w));
  }

  /** InvCipher: the block at `at` decrypted in place. */
  method DecryptBlock(buf: array<bv8>, at: nat, w: Schedule)
    requires at + 16 <= buf.Length
    modifies buf
    ensures buf[..] == Put(old(buf[..]), at, InvCipher(At(old(buf[..]), at), w))
  {
    ghost var b, s := buf[..], At(buf[..], at);
    var n := Last(w);
    PutSame(b, at);
    KeyStep(n, buf, at, w, b, [], s);
    assert [] + [Key(n)] == InvRounds(n, n);
    for round := n downto 1
      invariant buf[..] == Put(b, at, Run(InvRounds(n, round), s, w))
    {
      ghost var ls := InvRounds(n, round + 1);
      UnshiftUnsub(buf, at, b, ls, s, w);
      KeyStep(round, buf, at, w, b, ls + [Unshift] + [Unsub], s);
      MixStep(buf, at, false, b, ls + [Unshift] + [Unsub] + [Key(round)], s, w);
      assert ls + [Unshift] + [Unsub] + [Key(round)] + [Unmixing] == InvRounds(n, round);
    }
    ghost var ls := InvRounds(n, 1);
    UnshiftUnsub(buf, at, b, ls, s, w);
    KeyStep(0, buf, at, w, b, ls + [Unshift] + [Unsub], s);
    assert ls + [Unshift] + [Unsub] + [Key(0)] == InvCipherLayers(n);
  }
}
