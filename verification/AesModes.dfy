/** Key expansion and the CBC and CTR buffer functions of aes.c. */
module AesModes {
  import opened Radix
  import opened Bytes
  import opened AesField
  import opened AesCipher
  import opened Aes

  // ---- key expansion (section 5.2 of FIPS 197) ----

  type Word = s: seq<bv8> | |s| == 4 witness [0, 0, 0, 0]

  const RCON_TABLE: seq<bv8> := [0x8d, 0x01, 0x02, 0x04, 0x08, 0x10, 0x20, 0x40, 0x80, 0x1b, 0x36]

  /** x to the power j - 1. */
  function Rcon(j: nat): bv8
    requires j >= 1
  {
    if j == 1 then 1 else Xtime(Rcon(j - 1))
  }

  lemma {:induction false} RconAgrees(j: nat)
    requires 1 <= j <= 10
    ensures RCON_TABLE[j] == Rcon(j)
  {
    if j > 1 {
      RconAgrees(j - 1);
      RconStep(j - 1);
    }
  }

  lemma {:induction false} RconStep(j: nat)
    requires 1 <= j < 10
    ensures Xtime(RCON_TABLE[j]) == RCON_TABLE[j + 1]
  {}

  function XorWord(s: Word, t: Word): Word { [Add(s[0], t[0]), Add(s[1], t[1]), Add(s[2], t[2]), Add(s[3], t[3])] }

  /** SubWord of RotWord, plus the round constant. */
  function CoreWord(t: Word, j: nat): Word
    requires j >= 1
  {
    [Add(Box(true, t[1], |t|), Rcon(j)), Box(true, t[2], |t|), Box(true, t[3], |t|), Box(true, t[0], |t|)]
  }

  function KeyWord(key: Block, i: nat): Word {
    if i < 4 then key[4 * i..4 * i + 4]
    else if i % 4 == 0 then XorWord(KeyWord(key, i - 4), CoreWord(KeyWord(key, i - 1), i / 4))
    else XorWord(KeyWord(key, i - 4), KeyWord(key, i - 1))
  }

  /** The first n words of the schedule. */
  function Expanded(key: Block, n: nat): (s: seq<bv8>)
    ensures |s| == 4 * n
  {
    if n == 0 then [] else Expanded(key, n - 1) + KeyWord(key, n - 1)
  }

  lemma {:induction false} ExpandedWord(key: Block, n: nat, i: nat)
    requires i < n
    ensures Expanded(key, n)[4 * i..4 * i + 4] == KeyWord(key, i)
  {
    if i < n - 1 {
      ExpandedWord(key, n - 1, i);
      assert Expanded(key, n)[4 * i..4 * i + 4] == Expanded(key, n - 1)[4 * i..4 * i + 4];
    }
  }

  /** Rotation, substitution and round constant. */
  method Core(t: Word, j: nat) returns (r: Word)
    requires 1 <= j <= 10
    ensures r == CoreWord(t, j)
  {
    var a := Lookup(true, t[1], |t|);
    var b := Lookup(true, t[2], |t|);
    var c := Lookup(true, t[3], |t|);
    var d := Lookup(true, t[0], |t|);
    var x := RoundConstant(j);
    r := [Add(a, x), b, c, d];
  }

  method RoundConstant(j: nat) returns (x: bv8)
    requires 1 <= j <= 10
    ensures x == Rcon(j)
  {
    RconAgrees(j);
    x := RCON_TABLE[j];
  }

  /** The word written at index i from the words before it. */
  method NextWord(t: Word, back: Word, i: nat, ghost key: Block) returns (r: Word)
    requires 4 <= i < 44 && t == KeyWord(key, i - 1) && back == KeyWord(key, i - 4)
    ensures r == KeyWord(key, i)
  {
    var tempa := t;
    if i % 4 == 0 {
      tempa := Core(t, i / 4);
    }
    r := XorWord(back, tempa);
  }

  /** KeyExpansion fills the round keys. */
  method KeyExpansion(rk: array<bv8>, key: Block)
    requires rk.Length == 176
    modifies rk
    ensures rk[..] == Expanded(key, 44)
  {
    var i := 0;
    while i < 4
      invariant 0 <= i <= 4 && rk[..4 * i] == Expanded(key, i)
    {
      PutWord(rk, i, key[4 * i..4 * i + 4], key);
      i := i + 1;
    }
    while i < 44
      invariant 4 <= i <= 44 && rk[..4 * i] == Expanded(key, i)
    {
      ExpandedWord(key, i, i - 1);
      ExpandedWord(key, i, i - 4);
      Slice4(rk[..], 4 * i, 4 * (i - 1));
      Slice4(rk[..], 4 * i, 4 * (i - 4));
      var r := NextWord(rk[4 * (i - 1)..4 * (i - 1) + 4], rk[4 * (i - 4)..4 * (i - 4) + 4], i, key);
      PutWord(rk, i, r, key);
      i := i + 1;
    }
    assert rk[..] == rk[..176];
  }

  lemma {:induction false} Slice4(s: seq<bv8>, n: nat, k: nat)
    requires k + 4 <= n <= |s|
    ensures s[k..k + 4] == s[..n][k..k + 4]
  {}

  method PutWord(rk: array<bv8>, i: nat, t: Word, ghost key: Block)
    requires 4 * i + 4 <= rk.Length && rk[..4 * i] == Expanded(key, i) && t == KeyWord(key, i)
    modifies rk
    ensures rk[..4 * (i + 1)] == Expanded(key, i + 1)
  {
    StoreWord(rk, 4 * i, t);
    assert Expanded(key, i + 1) == Expanded(key, i) + KeyWord(key, i);
  }

  method StoreWord(rk: array<bv8>, at: nat, t: Word)
    requires at + 4 <= rk.Length
    modifies rk
    ensures rk[..at + 4] == old(rk[..at]) + t
  {
    rk[at] := t[0];
    rk[at + 1] := t[1];
    rk[at + 2] := t[2];
    rk[at + 3] := t[3];
  }

  // ---- CBC (section 6.2 of NIST SP 800-38A) ----

  /** The block before the next one: the last of c, or the IV. */
  function Prev<T>(iv: T, c: seq<T>): T {
    if |c| == 0 then iv else c[|c| - 1]
  }

  /** Every block linked with the result for the one before it. */
  function Chained<T>(link: (T, T) -> T, iv: T, m: seq<T>): (c: seq<T>)
    ensures |c| == |m|
  {
    if |m| == 0 then []
    else
      var c := Chained(link, iv, m[..|m| - 1]);
      c + [link(m[|m| - 1], Prev(iv, c))]
  }

  /** Every block combined with the one before it. */
  function Unchained<T>(unlink: (T, T) -> T, iv: T, c: seq<T>): (m: seq<T>)
    ensures |m| == |c|
  {
    if |c| == 0 then []
    else Unchained(unlink, iv, c[..|c| - 1]) + [unlink(c[|c| - 1], Prev(iv, c[..|c| - 1]))]
  }

  lemma {:induction false} ChainedLast<T>(link: (T, T) -> T, iv: T, m: seq<T>, x: T)
    ensures Chained(link, iv, m + [x]) == Chained(link, iv, m) + [link(x, Prev(iv, Chained(link, iv, m)))]
  {
    assert (m + [x])[..|m|] == m;
  }

  lemma {:induction false} UnchainedLast<T>(unlink: (T, T) -> T, iv: T, c: seq<T>, x: T)
    ensures Unchained(unlink, iv, c + [x]) == Unchained(unlink, iv, c) + [unlink(x, Prev(iv, c))]
  {
    assert (c + [x])[..|c|] == c;
  }

  /** A chain is undone when every link is. */
  lemma {:induction false} ChainUndo<T>(link: (T, T) -> T, unlink: (T, T) -> T, iv: T, m: seq<T>)
    requires forall x, p :: unlink(link(x, p), p) == x
    ensures Unchained(unlink, iv, Chained(link, iv, m)) == m
  {
    if |m| > 0 {
      var init, last := m[..|m| - 1], m[|m| - 1];
      var c := Chained(link, iv, init);
      ChainUndo(link, unlink, iv, init);
      UnchainedLast(unlink, iv, c, link(last, Prev(iv, c)));
    }
  }

  lemma {:induction false} ChainRedo<T>(link: (T, T) -> T, unlink: (T, T) -> T, iv: T, c: seq<T>)
    requires forall y, p :: link(unlink(y, p), p) == y
    ensures Chained(link, iv, Unchained(unlink, iv, c)) == c
  {
    if |c| > 0 {
      var init, last := c[..|c| - 1], c[|c| - 1];
      ChainRedo(link, unlink, iv, init);
      ChainedLast(link, iv, Unchained(unlink, iv, init), unlink(last, Prev(iv, init)));
    }
  }

  /** The last result continues the chain. */
  lemma {:induction false} ChainJoin<T>(link: (T, T) -> T, iv: T, m: seq<T>, m': seq<T>)
    ensures var c := Chained(link, iv, m);
            Chained(link, iv, m + m') == c + Chained(link, Prev(iv, c), m')
  {
    if |m'| == 0 {
      assert m + m' == m;
    } else {
      var init, last := m'[..|m'| - 1], m'[|m'| - 1];
      ChainJoin(link, iv, m, init);
      assert m + m' == (m + init) + [last];
      ChainedLast(link, iv, m + init, last);
    }
  }

  function Link(w: Schedule): (Block, Block) -> Block {
    (x: Block, p: Block) => Cipher(XorBlock(x, p), w)
  }

  function Unlink(w: Schedule): (Block, Block) -> Block {
    (y: Block, p: Block) => XorBlock(InvCipher(y, w), p)
  }

  function CbcEncrypt(w: Schedule, iv: Block, m: seq<Block>): (c: seq<Block>)
    ensures |c| == |m|
  {
    Chained(Link(w), iv, m)
  }

  function CbcDecrypt(w: Schedule, iv: Block, c: seq<Block>): (m: seq<Block>)
    ensures |m| == |c|
  {
    Unchained(Unlink(w), iv, c)
  }

  lemma {:induction false} LinkUndo(w: Schedule, x: Block, p: Block)
    ensures Unlink(w)(Link(w)(x, p), p) == x
  {
    InvCipherCipher(XorBlock(x, p), w);
    XorUndo(x, p);
  }

  lemma {:induction false} LinkRedo(w: Schedule, y: Block, p: Block)
    ensures Link(w)(Unlink(w)(y, p), p) == y
  {
    XorUndo(InvCipher(y, w), p);
    CipherInvCipher(y, w);
  }

  /** Decryption undoes encryption, for every schedule, IV and message. */
  lemma {:induction false} CbcRoundTrip(w: Schedule, iv: Block, m: seq<Block>)
    ensures CbcDecrypt(w, iv, CbcEncrypt(w, iv, m)) == m
  {
    forall x, p ensures Unlink(w)(Link(w)(x, p), p) == x { LinkUndo(w, x, p); }
    ChainUndo(Link(w), Unlink(w), iv, m);
  }

  /** Encryption undoes decryption. */
  lemma {:induction false} CbcRoundTripBack(w: Schedule, iv: Block, c: seq<Block>)
    ensures CbcEncrypt(w, iv, CbcDecrypt(w, iv, c)) == c
  {
    forall y, p ensures Link(w)(Unlink(w)(y, p), p) == y { LinkRedo(w, y, p); }
    ChainRedo(Link(w), Unlink(w), iv, c);
  }

  /** The stored IV continues a message cut between calls. */
  lemma {:induction false} CbcChains(w: Schedule, iv: Block, m: seq<Block>, m': seq<Block>)
    ensures var c := CbcEncrypt(w, iv, m);
            CbcEncrypt(w, iv, m + m') == c + CbcEncrypt(w, Prev(iv, c), m')
  {
    ChainJoin(Link(w), iv, m, m');
  }

  // ---- CTR ----

  /** Big-endian increment with carry. */
  function Increment(s: seq<bv8>): (r: seq<bv8>)
    ensures |r| == |s|
  {
    if |s| == 0 then []
    else if s[|s| - 1] == 255 then Increment(s[..|s| - 1]) + [0]
    else s[..|s| - 1] + [s[|s| - 1] + 1]
  }

  function ValueOf(s: seq<bv8>): nat {
    if |s| == 0 then 0 else ValueOf(s[..|s| - 1]) * 256 + s[|s| - 1] as int
  }

  lemma {:induction false} NextByte(x: bv8)
    ensures x != 255 ==> (x + 1) as int == x as int + 1
    ensures x == 255 ==> x as int == 255
  {}

  lemma {:induction false} CarryModulus(v: nat, p: nat)
    requires p > 0
    ensures (v + 1) % p * 256 == (v * 256 + 256) % (256 * p)
  {
    var q, r := (v + 1) / p, (v + 1) % p;
    assert v + 1 == p * q + r;
    assert (256 * p) * q == 256 * (p * q);
    DivUnique(256 * (v + 1), 256 * p, q, 256 * r);
  }

  lemma {:induction false} ValueBound(s: seq<bv8>)
    ensures ValueOf(s) < Pow256(|s|)
  {
    if |s| > 0 { ValueBound(s[..|s| - 1]); }
  }

  lemma {:induction false} IncrementCarries(s: seq<bv8>)
    requires |s| > 0 && s[|s| - 1] == 255
    requires ValueOf(Increment(s[..|s| - 1])) == (ValueOf(s[..|s| - 1]) + 1) % Pow256(|s| - 1)
    ensures ValueOf(Increment(s)) == (ValueOf(s) + 1) % Pow256(|s|)
  {
    var r, v, p := Increment(s), ValueOf(s[..|s| - 1]), Pow256(|s| - 1);
    assert r[..|s| - 1] == Increment(s[..|s| - 1]) && r[|s| - 1] == 0;
    NextByte(s[|s| - 1]);
    CarryModulus(v, p);
  }

  lemma {:induction false} IncrementStops(s: seq<bv8>)
    requires |s| > 0 && s[|s| - 1] != 255
    ensures ValueOf(Increment(s)) == (ValueOf(s) + 1) % Pow256(|s|)
  {
    var r := Increment(s);
    assert ValueOf(r) == ValueOf(s) + 1 by {
      NextByte(s[|s| - 1]);
      assert r[..|s| - 1] == s[..|s| - 1];
    }
    ValueBound(r);
    DivZero(ValueOf(r), Pow256(|s|));
  }

  /** The counter goes up by one, modulo its range. */
  lemma {:induction false} IncrementValue(s: seq<bv8>)
    ensures ValueOf(Increment(s)) == (ValueOf(s) + 1) % Pow256(|s|)
  {
    if |s| == 0 {
      DivUnique(1, 1, 1, 0);
    } else if s[|s| - 1] == 255 {
      IncrementValue(s[..|s| - 1]);
      IncrementCarries(s);
    } else {
      IncrementStops(s);
    }
  }

  /** The counter block after n increments. */
  function Counter(iv: Block, n: nat): Block {
    if n == 0 then iv else Increment(Counter(iv, n - 1))
  }

  function StreamByte(w: Schedule, iv: Block, i: nat): bv8 {
    Cipher(Counter(iv, i / 16), w)[i % 16]
  }

  function CtrXcrypt(w: Schedule, iv: Block, m: seq<bv8>): (c: seq<bv8>)
    ensures |c| == |m|
  {
    seq(|m|, i requires 0 <= i < |m| => Add(m[i], StreamByte(w, iv, i)))
  }

  /** Twice from the same IV is the identity, at any length. */
  lemma {:induction false} CtrTwice(w: Schedule, iv: Block, m: seq<bv8>)
    ensures CtrXcrypt(w, iv, CtrXcrypt(w, iv, m)) == m
  {
    forall i | 0 <= i < |m|
      ensures CtrXcrypt(w, iv, CtrXcrypt(w, iv, m))[i] == m[i]
    {
      AddTwice(StreamByte(w, iv, i), m[i]);
    }
  }

  // ---- the buffer functions ----

  /** Blocks a loop in steps of 16 touches. */
  function BlockCount(length: nat): nat { (length + 15) / 16 }

  lemma {:induction false} InLoop(j: nat, length: nat)
    ensures 16 * j < length <==> j < BlockCount(length)
  {}

  /** The first n blocks of a buffer. */
  function BlocksOf(b: seq<bv8>, n: nat): (r: seq<Block>)
    requires 16 * n <= |b|
    ensures |r| == n
  {
    seq(n, j requires 0 <= j < n => b[16 * j..16 * j + 16])
  }

  /** Changing block j leaves the others. */
  lemma {:induction false} BlocksPut(b: seq<bv8>, n: nat, j: nat, s: Block)
    requires 16 * n <= |b| && j < n
    ensures BlocksOf(Put(b, 16 * j, s), n) == BlocksOf(b, n)[j := s]
  {
    var b' := Put(b, 16 * j, s);
    forall i | 0 <= i < n
      ensures b'[16 * i..16 * i + 16] == if i == j then s else b[16 * i..16 * i + 16]
    {
      if i < j { assert 16 * i + 16 <= 16 * j; } else if i > j { assert 16 * j + 16 <= 16 * i; }
    }
  }

  class Context {
    const roundKey: array<bv8>
    var iv: Block

    ghost predicate Valid() {
      roundKey.Length == 176
    }

    function Keys(): Schedule
      requires Valid()
      reads roundKey
    {
      roundKey[..]
    }

    /** AES_init_ctx_iv */
    constructor (key: Block, iv: Block)
      ensures Valid() && fresh(roundKey) && Keys() == Expanded(key, 44) && this.iv == iv
    {
      roundKey := new bv8[176];
      this.iv := iv;
      new;
      KeyExpansion(roundKey, key);
    }

    /** AES_CBC_encrypt_buffer */
    method CbcEncryptBuffer(buf: array<bv8>, length: nat)
      requires Valid() && 16 * BlockCount(length) <= buf.Length && buf != roundKey
      modifies this`iv, buf
      ensures Keys() == old(Keys())
      ensures Encrypted(old(buf[..]), buf[..], Keys(), old(iv), BlockCount(length), BlockCount(length))
      ensures iv == Prev(old(iv), BlocksOf(buf[..], BlockCount(length)))
    {
      var last := EncryptBlocks(buf, length, roundKey[..], iv);
      iv := last;
    }

    /** AES_CBC_decrypt_buffer */
    method CbcDecryptBuffer(buf: array<bv8>, length: nat)
      requires Valid() && 16 * BlockCount(length) <= buf.Length && buf != roundKey
      modifies this`iv, buf
      ensures Keys() == old(Keys())
      ensures Decrypted(old(buf[..]), buf[..], Keys(), old(iv), BlockCount(length), BlockCount(length))
      ensures iv == Prev(old(iv), BlocksOf(old(buf[..]), BlockCount(length)))
    {
      var last := DecryptBlocks(buf, length, roundKey[..], iv);
      iv := last;
    }

    /** AES_CTR_xcrypt_buffer */
    method CtrXcryptBuffer(buf: array<bv8>, length: nat)
      requires Valid() && length <= buf.Length && buf != roundKey
      modifies this`iv, buf
      ensures Keys() == old(Keys()) && iv == Counter(old(iv), BlockCount(length))
      ensures buf[..] == CtrXcrypt(Keys(), old(iv), old(buf[..])[..length]) + old(buf[..])[length..]
    {
      var next := XcryptBytes(buf, length, roundKey[..], iv);
      iv := next;
    }
  }

  /** The first j of n blocks are encrypted, the rest of the buffer is as before. */
  ghost predicate Encrypted(b: seq<bv8>, b': seq<bv8>, w: Schedule, iv: Block, n: nat, j: nat)
    requires 16 * n <= |b|
  {
    && |b'| == |b| && j <= n && b'[16 * n..] == b[16 * n..]
    && BlocksOf(b', n) == CbcEncrypt(w, iv, BlocksOf(b, n)[..j]) + BlocksOf(b, n)[j..]
  }

  ghost predicate Decrypted(b: seq<bv8>, b': seq<bv8>, w: Schedule, iv: Block, n: nat, j: nat)
    requires 16 * n <= |b|
  {
    && |b'| == |b| && j <= n && b'[16 * n..] == b[16 * n..]
    && BlocksOf(b', n) == CbcDecrypt(w, iv, BlocksOf(b, n)[..j]) + BlocksOf(b, n)[j..]
  }

  /** What the two predicates say of a whole buffer. */
  lemma {:induction false} WholeBuffer(b: seq<bv8>, b': seq<bv8>, w: Schedule, iv: Block, n: nat)
    requires 16 * n <= |b|
    ensures Encrypted(b, b', w, iv, n, n) ==> BlocksOf(b', n) == CbcEncrypt(w, iv, BlocksOf(b, n))
    ensures Decrypted(b, b', w, iv, n, n) ==> BlocksOf(b', n) == CbcDecrypt(w, iv, BlocksOf(b, n))
  {
    var m := BlocksOf(b, n);
    assert m[..n] == m && m[n..] == [];
  }

  /** Decrypting an encrypted buffer from the same IV restores every byte. */
  lemma {:induction false} BufferRoundTrip(b: seq<bv8>, b': seq<bv8>, b'': seq<bv8>, w: Schedule, iv: Block, n: nat)
    requires 16 * n <= |b| && Encrypted(b, b', w, iv, n, n) && Decrypted(b', b'', w, iv, n, n)
    ensures b'' == b
  {
    WholeBuffer(b, b', w, iv, n);
    WholeBuffer(b', b'', w, iv, n);
    CbcRoundTrip(w, iv, BlocksOf(b, n));
    BlocksDetermine(b, b'', n);
  }

  lemma {:induction false} BlocksDetermine(b: seq<bv8>, b': seq<bv8>, n: nat)
    requires 16 * n <= |b| == |b'| && BlocksOf(b, n) == BlocksOf(b', n) && b[16 * n..] == b'[16 * n..]
    ensures b == b'
  {
    forall k | 0 <= k < |b|
      ensures b[k] == b'[k]
    {
      if k < 16 * n {
        var j := k / 16;
        assert BlocksOf(b, n)[j] == BlocksOf(b', n)[j];
        assert b[16 * j..16 * j + 16][k - 16 * j] == b'[16 * j..16 * j + 16][k - 16 * j];
      } else {
        assert b[16 * n..][k - 16 * n] == b'[16 * n..][k - 16 * n];
      }
    }
  }

  /** Where the pointer Iv points before block j. */
  function Before(b: seq<bv8>, iv: Block, j: nat): Block
    requires 16 * j <= |b|
  {
    if j == 0 then iv else b[16 * j - 16..16 * j]
  }

  /** Body of the loop of AES_CBC_encrypt_buffer. */
  method EncryptNext(buf: array<bv8>, i: nat, w: Schedule, last: Block, ghost b: seq<bv8>, ghost iv: Block,
                     ghost n: nat, ghost j: nat)
    returns (next: Block)
    requires 16 * n <= |b| && i == 16 * j && j < n
    requires Encrypted(b, buf[..], w, iv, n, j) && last == Before(buf[..], iv, j)
    modifies buf
    ensures Encrypted(b, buf[..], w, iv, n, j + 1) && next == Before(buf[..], iv, j + 1)
  {
    ghost var b1 := buf[..];
    XorWithIv(buf, i, last);
    ghost var b2 := buf[..];
    EncryptBlock(buf, i, w);
    CbcStep(w, iv, b, b1, b2, buf[..], n, j, last);
    next := buf[i..i + 16];
  }

  /** Body of the loop of AES_CBC_decrypt_buffer. */
  method DecryptNext(buf: array<bv8>, i: nat, w: Schedule, last: Block, ghost b: seq<bv8>, ghost iv: Block,
                     ghost n: nat, ghost j: nat)
    returns (next: Block)
    requires 16 * n <= |b| && i == 16 * j && j < n && Decrypted(b, buf[..], w, iv, n, j)
    requires last == Prev(iv, BlocksOf(b, n)[..j])
    modifies buf
    ensures Decrypted(b, buf[..], w, iv, n, j + 1) && next == Prev(iv, BlocksOf(b, n)[..j + 1])
  {
    ghost var b1 := buf[..];
    next := buf[i..i + 16];
    DecryptBlock(buf, i, w);
    ghost var b2 := buf[..];
    XorWithIv(buf, i, last);
    CbcBackStep(w, iv, b, b1, b2, buf[..], n, j, last);
  }

  /** The loop of AES_CBC_encrypt_buffer: the pointer Iv is the context's IV
      first and then the block just written. */
  method EncryptBlocks(buf: array<bv8>, length: nat, w: Schedule, iv: Block) returns (last: Block)
    requires 16 * BlockCount(length) <= buf.Length
    modifies buf
    ensures Encrypted(old(buf[..]), buf[..], w, iv, BlockCount(length), BlockCount(length))
    ensures last == Prev(iv, BlocksOf(buf[..], BlockCount(length)))
  {
    ghost var b, n, j := buf[..], BlockCount(length), 0;
    last := iv;
    var i := 0;
    InLoop(0, length);
    while i < length
      invariant i == 16 * j && 0 <= j <= n && (i < length <==> j < n)
      invariant Encrypted(b, buf[..], w, iv, n, j) && last == Before(buf[..], iv, j)
    {
      last := EncryptNext(buf, i, w, last, b, iv, n, j);
      i, j := i + 16, j + 1;
      InLoop(j, length);
    }
    LastBlock(buf[..], n);
  }

  lemma {:induction false} LastBlock(b: seq<bv8>, n: nat)
    requires 16 * n <= |b|
    ensures n > 0 ==> BlocksOf(b, n)[n - 1] == b[16 * n - 16..16 * n]
  {
    if n > 0 { assert BlocksOf(b, n)[n - 1] == b[16 * (n - 1)..16 * (n - 1) + 16]; }
  }

  method DecryptBlocks(buf: array<bv8>, length: nat, w: Schedule, iv: Block) returns (last: Block)
    requires 16 * BlockCount(length) <= buf.Length
    modifies buf
    ensures Decrypted(old(buf[..]), buf[..], w, iv, BlockCount(length), BlockCount(length))
    ensures last == Prev(iv, BlocksOf(old(buf[..]), BlockCount(length)))
  {
    ghost var b, n, j := buf[..], BlockCount(length), 0;
    last := iv;
    var i := 0;
    InLoop(0, length);
    while i < length
      invariant i == 16 * j && 0 <= j <= n && (i < length <==> j < n)
      invariant Decrypted(b, buf[..], w, iv, n, j) && last == Prev(iv, BlocksOf(b, n)[..j])
    {
      last := DecryptNext(buf, i, w, last, b, iv, n, j);
      i, j := i + 16, j + 1;
      InLoop(j, length);
    }
    assert BlocksOf(b, n)[..n] == BlocksOf(b, n);
  }

  /** XorWithIv */
  method XorWithIv(buf: array<bv8>, at: nat, prev: Block)
    requires at + 16 <= buf.Length
    modifies buf
    ensures buf[..] == Put(old(buf[..]), at, XorBlock(At(old(buf[..]), at), prev))
  {
    ghost var b, s := buf[..], At(buf[..], at);
    for i := 0 to 16
      invariant forall k | 0 <= k < 16 :: buf[at + k] == if k < i then Add(s[k], prev[k]) else s[k]
      invariant forall k | 0 <= k < |b| && !(at <= k < at + 16) :: buf[k] == b[k]
    {
      buf[at + i] := Add(buf[at + i], prev[i]);
    }
    ReplacedPut(b, buf[..], at, XorBlock(s, prev));
  }

  /** What comes after a block is not touched. */
  lemma {:induction false} TailAfterPut(b: seq<bv8>, n: nat, j: nat, s: Block)
    requires 16 * n <= |b| && j < n
    ensures Put(b, 16 * j, s)[16 * n..] == b[16 * n..]
  {}

  lemma {:induction false} TwoPuts(b: seq<bv8>, n: nat, j: nat, s: Block, t: Block)
    requires 16 * n <= |b| && j < n
    ensures var b' := Put(Put(b, 16 * j, s), 16 * j, t);
            BlocksOf(b', n) == BlocksOf(b, n)[j := t] && b'[16 * n..] == b[16 * n..]
  {
    PutTwice(b, 16 * j, s, t);
    BlocksPut(b, n, j, t);
    TailAfterPut(b, n, j, t);
  }

  lemma {:induction false} CbcStep(w: Schedule, iv: Block, b: seq<bv8>, b1: seq<bv8>, b2: seq<bv8>, b3: seq<bv8>,
                                   n: nat, j: nat, prev: Block)
    requires 16 * n <= |b| && j < n && Encrypted(b, b1, w, iv, n, j)
    requires prev == Before(b1, iv, j)
    requires b2 == Put(b1, 16 * j, XorBlock(At(b1, 16 * j), prev)) && b3 == Put(b2, 16 * j, Cipher(At(b2, 16 * j), w))
    ensures Encrypted(b, b3, w, iv, n, j + 1)
  {
    var m, blocks := BlocksOf(b, n), BlocksOf(b1, n);
    assert At(b1, 16 * j) == blocks[j];
    if j > 0 { assert b1[16 * (j - 1)..16 * (j - 1) + 16] == blocks[j - 1]; }
    CbcBlockStep(w, iv, m, blocks, j, prev);
    var x := XorBlock(blocks[j], prev);
    TwoPuts(b1, n, j, x, Cipher(x, w));
  }

  lemma {:induction false} CbcBlockStep(w: Schedule, iv: Block, m: seq<Block>, blocks: seq<Block>, j: nat, prev: Block)
    requires j < |m| && blocks == CbcEncrypt(w, iv, m[..j]) + m[j..] && prev == if j == 0 then iv else blocks[j - 1]
    ensures blocks[j := Cipher(XorBlock(blocks[j], prev), w)] == CbcEncrypt(w, iv, m[..j + 1]) + m[j + 1..]
  {
    ChainStep(Link(w), iv, m, blocks, j, prev);
  }

  lemma {:induction false} CbcBackStep(w: Schedule, iv: Block, b: seq<bv8>, b1: seq<bv8>, b2: seq<bv8>,
                                       b3: seq<bv8>, n: nat, j: nat, prev: Block)
    requires 16 * n <= |b| && j < n && Decrypted(b, b1, w, iv, n, j) && prev == Prev(iv, BlocksOf(b, n)[..j])
    requires b2 == Put(b1, 16 * j, InvCipher(At(b1, 16 * j), w))
    requires b3 == Put(b2, 16 * j, XorBlock(At(b2, 16 * j), prev))
    ensures Decrypted(b, b3, w, iv, n, j + 1) && b1[16 * j..16 * j + 16] == Prev(iv, BlocksOf(b, n)[..j + 1])
  {
    var c, blocks := BlocksOf(b, n), BlocksOf(b1, n);
    assert At(b1, 16 * j) == blocks[j];
    CbcBackBlockStep(w, iv, c, blocks, j, prev);
    var x := InvCipher(blocks[j], w);
    TwoPuts(b1, n, j, x, XorBlock(x, prev));
  }

  lemma {:induction false} CbcBackBlockStep(
    w: Schedule, iv: Block, c: seq<Block>, blocks: seq<Block>, j: nat, prev: Block)
    requires j < |c| && blocks == CbcDecrypt(w, iv, c[..j]) + c[j..] && prev == Prev(iv, c[..j])
    ensures blocks[j] == c[j] == Prev(iv, c[..j + 1])
    ensures blocks[j := XorBlock(InvCipher(blocks[j], w), prev)] == CbcDecrypt(w, iv, c[..j + 1]) + c[j + 1..]
  {
    UnchainStep(Unlink(w), iv, c, blocks, j, prev);
  }

  lemma {:induction false} ChainStep<T>(link: (T, T) -> T, iv: T, m: seq<T>, blocks: seq<T>, j: nat, prev: T)
    requires j < |m| && blocks == Chained(link, iv, m[..j]) + m[j..] && prev == if j == 0 then iv else blocks[j - 1]
    ensures blocks[j := link(blocks[j], prev)] == Chained(link, iv, m[..j + 1]) + m[j + 1..]
  {
    ChainedLast(link, iv, m[..j], m[j]);
    assert m[..j + 1] == m[..j] + [m[j]];
  }

  lemma {:induction false} UnchainStep<T>(unlink: (T, T) -> T, iv: T, c: seq<T>, blocks: seq<T>, j: nat, prev: T)
    requires j < |c| && blocks == Unchained(unlink, iv, c[..j]) + c[j..] && prev == Prev(iv, c[..j])
    ensures blocks[j] == c[j] == Prev(iv, c[..j + 1])
    ensures blocks[j := unlink(blocks[j], prev)] == Unchained(unlink, iv, c[..j + 1]) + c[j + 1..]
  {
    UnchainedLast(unlink, iv, c[..j], c[j]);
    assert c[..j + 1] == c[..j] + [c[j]];
  }

  // ---- CTR in place ----

  function Zeros(n: nat): seq<bv8> { seq(n, _ => 0) }

  /** The loop that increments the IV from its last byte. */
  method NextCounter(iv: Block) returns (r: Block)
    ensures r == Increment(iv)
  {
    r := iv;
    var bi := 15;
    assert iv[..16] + Zeros(0) == iv && iv[..16] == iv;
    while bi >= 0
      invariant -1 <= bi <= 15 && r == iv[..bi + 1] + Zeros(15 - bi)
      invariant Increment(iv) == Increment(iv[..bi + 1]) + Zeros(15 - bi)
    {
      ghost var s := iv[..bi + 1];
      assert s[..bi] == iv[..bi] && s[bi] == r[bi];
      assert [0] + Zeros(15 - bi) == Zeros(16 - bi);
      if r[bi] == 255 {
        r := r[bi := 0];
        bi := bi - 1;
        continue;
      }
      r := r[bi := r[bi] + 1];
      break;
    }
  }

  /** The loop of AES_CTR_xcrypt_buffer; q blocks of key stream have been made
      and bi bytes of the last one used. */
  method XcryptBytes(buf: array<bv8>, length: nat, w: Schedule, iv: Block) returns (next: Block)
    requires length <= buf.Length
    modifies buf
    ensures next == Counter(iv, BlockCount(length))
    ensures buf[..] == CtrXcrypt(w, iv, old(buf[..])[..length]) + old(buf[..])[length..]
  {
    ghost var b, q := buf[..], 0;
    next := iv;
    var stream: Block := iv;
    var i, bi := 0, 16;
    while i < length
      invariant 0 <= i <= length && i == 16 * q + bi - 16 && 1 <= bi <= 16 && 0 <= q
      invariant next == Counter(iv, q) && (q > 0 ==> stream == Cipher(Counter(iv, q - 1), w))
      invariant Streamed(b, buf[..], i, w, iv)
    {
      if bi == 16 {
        stream := EncryptCopy(next, w);
        next := NextCounter(next);
        q := q + 1;
        bi := 0;
      }
      StreamPlace(w, iv, i, q - 1, bi);
      buf[i] := Add(buf[i], stream[bi]);
      i, bi := i + 1, bi + 1;
    }
    StartedBlocks(length, q, bi);
    CtrDone(b, buf[..], length, w, iv);
  }

  lemma {:induction false} StreamPlace(w: Schedule, iv: Block, i: nat, q: nat, r: nat)
    requires i == 16 * q + r && r < 16
    ensures StreamByte(w, iv, i) == Cipher(Counter(iv, q), w)[r]
  {
    assert i / 16 == q && i % 16 == r;
  }

  /** The key stream is added to the first i bytes of b. */
  ghost predicate Streamed(b: seq<bv8>, b': seq<bv8>, i: nat, w: Schedule, iv: Block) {
    && |b'| == |b| && i <= |b|
    && forall k | 0 <= k < |b| :: b'[k] == if k < i then Add(b[k], StreamByte(w, iv, k)) else b[k]
  }

  lemma {:induction false} StartedBlocks(length: nat, q: nat, bi: nat)
    requires length == 16 * q + bi - 16 && 1 <= bi <= 16
    ensures q == BlockCount(length)
  {}

  lemma {:induction false} CtrDone(b: seq<bv8>, b': seq<bv8>, length: nat, w: Schedule, iv: Block)
    requires Streamed(b, b', length, w, iv)
    ensures b' == CtrXcrypt(w, iv, b[..length]) + b[length..]
  {
    var r := CtrXcrypt(w, iv, b[..length]) + b[length..];
    forall k | 0 <= k < |b|
      ensures b'[k] == r[k]
    {
      if k < length { assert b[..length][k] == b[k]; }
    }
  }

  /** memcpy of the counter into a block buffer, and Cipher on it. */
  method EncryptCopy(s: Block, w: Schedule) returns (r: Block)
    ensures r == Cipher(s, w)
  {
    var buffer := new bv8[16](k requires 0 <= k < 16 => s[k]);
    assert buffer[..] == s && At(buffer[..], 0) == s;
    EncryptBlock(buffer, 0, w);
    r := buffer[..];
    assert r == At(r, 0);
  }
}
