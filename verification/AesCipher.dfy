/** The AES-128 cipher and its inverse on 16-byte states, byte 4c + r being row
    r of column c (sections 5.1 and 5.3 of FIPS 197). */
module AesCipher {
  import opened AesField

  type Block = s: seq<bv8> | |s| == 16 witness seq(16, _ => 0)

  /** Round keys, 16 bytes each; there are at least two. */
  type Schedule = w: seq<bv8> | |w| % 16 == 0 && |w| >= 32 witness seq(32, _ => 0)

  /** The number of rounds: ten for the 176 bytes of AES-128. */
  function Last(w: Schedule): (n: nat)
    ensures n >= 1 && |w| == 16 * n + 16
  {
    |w| / 16 - 1
  }

  // ---- the layers ----

  /** SubBytes, or InvSubBytes. */
  function Substitute(s: Block, forward: bool): Block {
    seq(16, i requires 0 <= i < 16 => Box(forward, s[i], |s|))
  }

  /** Where ShiftRows and InvShiftRows take byte i from. */
  function Left(i: nat): (j: nat)
    requires i < 16
    ensures j < 16
  {
    var j := i + 4 * (i % 4);
    if j < 16 then j else j - 16
  }

  function Right(i: nat): (j: nat)
    requires i < 16
    ensures j < 16
  {
    var j := i - 4 * (i % 4);
    if j >= 0 then j else j + 16
  }

  function ShiftRows(s: Block): Block { seq(16, i requires 0 <= i < 16 => s[Left(i)]) }
  function InvShiftRows(s: Block): Block { seq(16, i requires 0 <= i < 16 => s[Right(i)]) }

  /** The byte k rows below byte i in its column. */
  function Below(i: nat, k: nat): (j: nat)
    requires i < 16 && k < 4
    ensures j < 16
  {
    if i % 4 + k < 4 then i + k else i + k - 4
  }

  function MixByte(s: Block, i: nat): bv8
    requires i < 16
  {
    Mix(s[i], s[Below(i, 1)], s[Below(i, 2)], s[Below(i, 3)])
  }

  function UnmixByte(s: Block, i: nat): bv8
    requires i < 16
  {
    Unmix(s[i], s[Below(i, 1)], s[Below(i, 2)], s[Below(i, 3)])
  }

  function MixColumns(s: Block): Block { seq(16, i requires 0 <= i < 16 => MixByte(s, i)) }
  function InvMixColumns(s: Block): Block { seq(16, i requires 0 <= i < 16 => UnmixByte(s, i)) }

  function XorBlock(s: Block, t: Block): Block { seq(16, i requires 0 <= i < 16 => Add(s[i], t[i])) }

  function RoundKey(w: Schedule, r: nat): Block
    requires r <= Last(w)
  {
    w[16 * r..16 * r + 16]
  }

  // ---- each layer is undone ----

  lemma {:induction false} BoxesUndo(s: Block, forward: bool)
    ensures Substitute(Substitute(s, forward), !forward) == s
  {
    var u := Substitute(s, forward);
    forall i | 0 <= i < 16
      ensures Substitute(u, !forward)[i] == s[i]
    {
      BoxUndo(forward, s[i], |s|, |u|);
    }
  }

  lemma {:induction false} SameRow(i: int, k: int)
    ensures (i + 4 * k) % 4 == i % 4
  {}

  lemma {:induction false} LeftRight(i: nat)
    requires i < 16
    ensures Left(Right(i)) == i && Right(Left(i)) == i
  {
    var r := i % 4;
    SameRow(i, r);
    SameRow(i, r - 4);
    SameRow(i, -r);
    SameRow(i, 4 - r);
  }

  lemma {:induction false} ShiftsUndo(s: Block)
    ensures InvShiftRows(ShiftRows(s)) == s && ShiftRows(InvShiftRows(s)) == s
  {
    forall i: nat | i < 16
      ensures InvShiftRows(ShiftRows(s))[i] == s[i] && ShiftRows(InvShiftRows(s))[i] == s[i]
    {
      LeftRight(i);
    }
  }

  lemma {:induction false} BelowRow(i: nat, k: nat)
    requires i < 16 && k < 4
    ensures Below(i, k) % 4 == if i % 4 + k < 4 then i % 4 + k else i % 4 + k - 4
  {}

  lemma {:induction false} MixesUndo(s: Block)
    ensures InvMixColumns(MixColumns(s)) == s && MixColumns(InvMixColumns(s)) == s
  {
    forall i: nat | i < 16
      ensures InvMixColumns(MixColumns(s))[i] == s[i] && MixColumns(InvMixColumns(s))[i] == s[i]
    {
      MixedByte(s, i);
      UnmixedByte(s, i);
    }
  }

  /** The column of byte i, seen from each of its bytes. */
  lemma {:induction false} ColumnIndices(i: nat)
    requires i < 16
    ensures var j, k, l := Below(i, 1), Below(i, 2), Below(i, 3);
            && Below(j, 1) == k && Below(j, 2) == l && Below(j, 3) == i
            && Below(k, 1) == l && Below(k, 2) == i && Below(k, 3) == j
            && Below(l, 1) == i && Below(l, 2) == j && Below(l, 3) == k
  {
    BelowRow(i, 1);
    BelowRow(i, 2);
    BelowRow(i, 3);
  }

  lemma {:induction false} MixedByte(s: Block, i: nat)
    requires i < 16
    ensures UnmixByte(MixColumns(s), i) == s[i]
  {
    ColumnIndices(i);
    UnmixMix(s[i], s[Below(i, 1)], s[Below(i, 2)], s[Below(i, 3)]);
  }

  lemma {:induction false} UnmixedByte(s: Block, i: nat)
    requires i < 16
    ensures MixByte(InvMixColumns(s), i) == s[i]
  {
    ColumnIndices(i);
    MixUnmix(s[i], s[Below(i, 1)], s[Below(i, 2)], s[Below(i, 3)]);
  }

  lemma {:induction false} XorUndo(s: Block, t: Block)
    ensures XorBlock(XorBlock(s, t), t) == s
  {
    forall i: nat | i < 16
      ensures XorBlock(XorBlock(s, t), t)[i] == s[i]
    {
      AddTwice(t[i], s[i]);
    }
  }

  // ---- layers ----

  datatype Layer = Sub | Shift | Mixing | Unsub | Unshift | Unmixing | Key(round: nat)

  function Inverse(l: Layer): Layer {
    match l
    case Sub => Unsub
    case Shift => Unshift
    case Mixing => Unmixing
    case Unsub => Sub
    case Unshift => Shift
    case Unmixing => Mixing
    case Key(_) => l
  }

  function Effect(l: Layer, s: Block, w: Schedule): Block {
    match l
    case Sub => Substitute(s, true)
    case Shift => ShiftRows(s)
    case Mixing => MixColumns(s)
    case Unsub => Substitute(s, false)
    case Unshift => InvShiftRows(s)
    case Unmixing => InvMixColumns(s)
    case Key(r) => if r <= Last(w) then XorBlock(s, RoundKey(w, r)) else s
  }

  /** Effect; counting k down first keeps the bytes out of proofs about whole
      runs. */
  function Apply(l: Layer, s: Block, w: Schedule, k: nat): Block {
    if k > 0 then Apply(l, s, w, k - 1) else Effect(l, s, w)
  }

  lemma {:induction false} ApplyEffect(l: Layer, s: Block, w: Schedule, k: nat)
    ensures Apply(l, s, w, k) == Effect(l, s, w)
  {
    if k > 0 { ApplyEffect(l, s, w, k - 1); }
  }

  lemma {:induction false} EffectUndo(l: Layer, s: Block, w: Schedule)
    ensures Effect(Inverse(l), Effect(l, s, w), w) == s
  {
    match l
    case Sub => BoxesUndo(s, true);
    case Unsub => BoxesUndo(s, false);
    case Shift => ShiftsUndo(s);
    case Unshift => ShiftsUndo(s);
    case Mixing => MixesUndo(s);
    case Unmixing => MixesUndo(s);
    case Key(r) => if r <= Last(w) { XorUndo(s, RoundKey(w, r)); }
  }

  /** Every layer is undone by its inverse. */
  lemma {:induction false} LayerUndo(l: Layer, s: Block, w: Schedule, j: nat, k: nat)
    ensures Apply(Inverse(l), Apply(l, s, w, j), w, k) == s
  {
    ApplyEffect(l, s, w, j);
    ApplyEffect(Inverse(l), Apply(l, s, w, j), w, k);
    EffectUndo(l, s, w);
  }

  /** The layers one after the other. */
  function Run(ls: seq<Layer>, s: Block, w: Schedule): Block {
    if |ls| == 0 then s else Apply(ls[|ls| - 1], Run(ls[..|ls| - 1], s, w), w, |w|)
  }

  lemma {:induction false} RunExtend(ls: seq<Layer>, l: Layer, s: Block, w: Schedule)
    ensures Run(ls + [l], s, w) == Effect(l, Run(ls, s, w), w)
  {
    assert (ls + [l])[..|ls|] == ls;
    ApplyEffect(l, Run(ls, s, w), w, |w|);
  }

  lemma {:induction false} RunFirst(l: Layer, ls: seq<Layer>, s: Block, w: Schedule)
    ensures Run([l] + ls, s, w) == Run(ls, Apply(l, s, w, |w|), w)
  {
    if |ls| == 0 {
      assert [l] + ls == [l] && [l][..0] == [];
    } else {
      var init := ls[..|ls| - 1];
      assert ([l] + ls)[..|ls|] == [l] + init;
      RunFirst(l, init, s, w);
    }
  }

  /** The inverse layers in reverse order. */
  function Mirror(ls: seq<Layer>): (ms: seq<Layer>)
    ensures |ms| == |ls|
  {
    if |ls| == 0 then [] else [Inverse(ls[|ls| - 1])] + Mirror(ls[..|ls| - 1])
  }

  lemma {:induction false} MirrorUndoes(ls: seq<Layer>, s: Block, w: Schedule)
    ensures Run(Mirror(ls), Run(ls, s, w), w) == s
  {
    if |ls| > 0 {
      var init, l := ls[..|ls| - 1], ls[|ls| - 1];
      RunFirst(Inverse(l), Mirror(init), Run(ls, s, w), w);
      LayerUndo(l, Run(init, s, w), w, |w|, |w|);
      MirrorUndoes(init, s, w);
    }
  }

  lemma {:induction false} MirrorAt(ls: seq<Layer>, i: nat)
    requires i < |ls|
    ensures Mirror(ls)[i] == Inverse(ls[|ls| - 1 - i])
  {
    if i > 0 { MirrorAt(ls[..|ls| - 1], i - 1); }
  }

  lemma {:induction false} MirrorTwice(ls: seq<Layer>)
    ensures Mirror(Mirror(ls)) == ls
  {
    forall i | 0 <= i < |ls|
      ensures Mirror(Mirror(ls))[i] == ls[i]
    {
      MirrorAt(Mirror(ls), i);
      MirrorAt(ls, |ls| - 1 - i);
    }
  }

  // ---- the cipher and its inverse ----

  /** The key addition and the first r rounds. */
  function Rounds(r: nat): seq<Layer> {
    if r == 0 then [Key(0)] else Rounds(r - 1) + [Sub, Shift, Mixing, Key(r)]
  }

  function CipherLayers(n: nat): seq<Layer>
    requires n >= 1
  {
    Rounds(n - 1) + [Sub, Shift, Key(n)]
  }

  /** The key addition and the inverse rounds n - 1 down to r. */
  function InvRounds(n: nat, r: nat): seq<Layer>
    requires r <= n
    decreases n - r
  {
    if r == n then [Key(n)] else InvRounds(n, r + 1) + [Unshift, Unsub, Key(r), Unmixing]
  }

  function InvCipherLayers(n: nat): seq<Layer>
    requires n >= 1
  {
    InvRounds(n, 1) + [Unshift, Unsub, Key(0)]
  }

  function Cipher(s: Block, w: Schedule): Block { Run(CipherLayers(Last(w)), s, w) }
  function InvCipher(s: Block, w: Schedule): Block { Run(InvCipherLayers(Last(w)), s, w) }

  lemma {:induction false} MirrorJoin(ls: seq<Layer>, ms: seq<Layer>)
    ensures Mirror(ls + ms) == Mirror(ms) + Mirror(ls)
  {
    var all := ls + ms;
    forall i | 0 <= i < |all|
      ensures Mirror(all)[i] == (Mirror(ms) + Mirror(ls))[i]
    {
      MirrorAt(all, i);
      if i < |ms| { MirrorAt(ms, i); } else { MirrorAt(ls, i - |ms|); }
    }
  }

  lemma {:induction false} MirrorRound(r: nat)
    ensures Mirror([Sub, Shift, Mixing, Key(r)]) == [Key(r), Unmixing, Unshift, Unsub]
    ensures Mirror([Sub, Shift, Key(r)]) == [Key(r), Unshift, Unsub] && Mirror([Key(r)]) == [Key(r)]
  {
    MirrorFour(Sub, Shift, Mixing, Key(r));
    MirrorThree(Sub, Shift, Key(r));
    assert [Key(r)][..0] == [];
  }

  lemma {:induction false} MirrorFour(a: Layer, b: Layer, c: Layer, d: Layer)
    ensures Mirror([a, b, c, d]) == [Inverse(d), Inverse(c), Inverse(b), Inverse(a)]
  {
    forall i | 0 <= i < 4
      ensures Mirror([a, b, c, d])[i] == [Inverse(d), Inverse(c), Inverse(b), Inverse(a)][i]
    {
      MirrorAt([a, b, c, d], i);
    }
  }

  lemma {:induction false} MirrorThree(a: Layer, b: Layer, c: Layer)
    ensures Mirror([a, b, c]) == [Inverse(c), Inverse(b), Inverse(a)]
  {
    forall i | 0 <= i < 3
      ensures Mirror([a, b, c])[i] == [Inverse(c), Inverse(b), Inverse(a)][i]
    {
      MirrorAt([a, b, c], i);
    }
  }

  /** The inverse cipher so far, completed with the mirrored rounds. */
  lemma {:induction false} MirroredRounds(n: nat, r: nat)
    requires r < n
    ensures InvRounds(n, r + 1) + [Unshift, Unsub] + Mirror(Rounds(r)) == Mirror(CipherLayers(n))
    decreases n - r
  {
    if r == n - 1 {
      MirrorJoin(Rounds(r), [Sub, Shift, Key(n)]);
      MirrorRound(n);
      assert [Key(n), Unshift, Unsub] == [Key(n)] + [Unshift, Unsub];
    } else {
      MirroredRounds(n, r + 1);
      MirrorJoin(Rounds(r), [Sub, Shift, Mixing, Key(r + 1)]);
      MirrorRound(r + 1);
      var tail := Mirror(Rounds(r));
      Regroup(InvRounds(n, r + 2), r + 1, tail);
    }
  }

  lemma {:induction false} Regroup(ls: seq<Layer>, r: nat, tail: seq<Layer>)
    ensures ls + [Unshift, Unsub] + ([Key(r), Unmixing, Unshift, Unsub] + tail) ==
            ls + [Unshift, Unsub, Key(r), Unmixing] + [Unshift, Unsub] + tail
  {}

  /** The layers of InvCipher are those of Cipher, inverted, in reverse. */
  lemma {:induction false} InvCipherIsMirror(n: nat)
    requires n >= 1
    ensures InvCipherLayers(n) == Mirror(CipherLayers(n))
  {
    MirroredRounds(n, 0);
    MirrorRound(0);
    assert InvRounds(n, 1) + [Unshift, Unsub] + [Key(0)] == InvCipherLayers(n);
  }

  /** InvCipher undoes Cipher under every round-key schedule. */
  lemma {:induction false} InvCipherCipher(s: Block, w: Schedule)
    ensures InvCipher(Cipher(s, w), w) == s
  {
    InvCipherIsMirror(Last(w));
    MirrorUndoes(CipherLayers(Last(w)), s, w);
  }

  /** Cipher undoes InvCipher under every round-key schedule. */
  lemma {:induction false} CipherInvCipher(s: Block, w: Schedule)
    ensures Cipher(InvCipher(s, w), w) == s
  {
    InvCipherIsMirror(Last(w));
    MirrorTwice(CipherLayers(Last(w)));
    MirrorUndoes(InvCipherLayers(Last(w)), s, w);
  }
}
