/** bi_import, bi_export and the PKCS#1 v1.5 signature check of sbexecutor.c. */
module Signature {
  import opened Bytes
  import opened Radix
  import opened BigInts
  import opened Division
  import opened Barrett
  import opened ModPower


  lemma {:induction false} Pow256Four(n: nat)
    ensures Pow256(4 * n) == Pow(n)
  {
    if n > 0 {
      Pow256Four(n - 1);
      var k := 4 * n;
      assert Pow256(k) == 256 * Pow256(k - 1) && Pow256(k - 1) == 256 * Pow256(k - 2);
      assert Pow256(k - 2) == 256 * Pow256(k - 3) && Pow256(k - 3) == 256 * Pow256(k - 4);
    }
  }

  lemma {:induction false} ByteAt(v: int, n: nat, c: nat)
    requires v >= 0 && c < n
    ensures ToBytes(v, n)[n - 1 - c] == v / Pow256(c) % 256
  {
    if c == 0 {
      DivUnique(v, 1, v, 0);
    } else {
      ByteAt(v / 256, n - 1, c - 1);
      DivDiv(v, 256, Pow256(c - 1));
    }
  }

  /** Byte s of component q is byte 4q + s of the number. */
  lemma {:induction false} ByteOfComponent(e: seq<Comp>, q: nat, s: nat)
    requires q < |e| && s < 4
    ensures Val(e) / Pow256(4 * q + s) % 256 == e[q] as int / Pow256(s) % 256
  {
    ValDivMod(e, q);
    Pow256Four(q);
    Pow256Add(4 * q, s);
    DivDiv(Val(e), Pow(q), Pow256(s));
    Pow256Add(s, 4 - s);
    Pow256Four(1);
    ByteShift(e[q], Val(e[q..][1..]), Pow256(s), Pow256(3 - s));
  }

  lemma {:induction false} ByteShift(c: int, rest: int, p: int, h: int)
    requires p > 0 && p * (256 * h) == B
    ensures (c + B * rest) / p % 256 == c / p % 256
  {
    var k := h * rest;
    assert B * rest == (256 * k) * p;
    ModShift(c, p, 256 * k);
    ModShift(c / p, 256, k);
  }

  // ---- import ----

  /** c bytes from the end of data are in, nothing above them. */
  ghost predicate Imported(comps: seq<Comp>, data: seq<Byte>, c: nat) {
    && c <= |data| <= 4 * |comps|
    && (forall k | c / 4 < k < |comps| :: comps[k] == 0)
    && (c / 4 < |comps| ==> comps[c / 4] as int < Pow256(c % 4))
    && Val(comps) == FromBytes(data[|data| - c..])
  }

  lemma {:induction false} ImportFits(x: int, b: Byte, j: nat)
    requires 0 <= x < Pow256(j) && j < 4
    ensures 0 <= x + b as int * Pow256(j) < Pow256(j + 1) <= B
  {
    MulMono(Pow256(j), b, 255);
    MulMono(Pow256(j), 0, b);
    Pow256Four(1);
    Pow256Add(j + 1, 3 - j);
    MulMono(Pow256(j + 1), 1, Pow256(3 - j));
  }

  lemma {:induction false} ImportValue(comps: seq<Comp>, data: seq<Byte>, offset: nat, j: nat, x: Comp)
    requires offset < |comps| && 4 * offset + j < |data|
    requires var c := 4 * offset + j;
             && Val(comps) == FromBytes(data[|data| - c..])
             && x as int == comps[offset] + data[|data| - 1 - c] as int * Pow256(j)
    ensures Val(comps[offset := x]) == FromBytes(data[|data| - (4 * offset + j + 1)..])
  {
    var c := 4 * offset + j;
    var s := data[|data| - 1 - c..];
    var b: int := s[0];
    assert s[1..] == data[|data| - c..];
    FromBytesFront(s);
    ComponentVal(comps, offset, x);
    Pow256Four(offset);
    Pow256Add(4 * offset, j);
    Reassociate(Pow(offset), b, Pow256(j));
  }

  lemma {:induction false} Reassociate(p: int, b: int, q: int)
    ensures p * (b * q) == b * (p * q)
  {}

  lemma {:induction false} ImportStep(comps: seq<Comp>, data: seq<Byte>, offset: nat, j: nat, x: int)
    requires j < 4 && 4 * offset + j < |data| && Imported(comps, data, 4 * offset + j)
    requires offset < |comps| && x == comps[offset] as int + data[|data| - 1 - (4 * offset + j)] as int * Pow256(j)
    ensures 0 <= x < B && Imported(comps[offset := x], data, 4 * offset + j + 1)
  {
    var c := 4 * offset + j;
    assert c / 4 == offset && c % 4 == j;
    ImportFits(comps[offset], data[|data| - 1 - c], j);
    ImportValue(comps, data, offset, j, x);
    if j < 3 {
      assert (c + 1) / 4 == offset && (c + 1) % 4 == j + 1;
    } else {
      assert (c + 1) / 4 == offset + 1 && (c + 1) % 4 == 0;
    }
  }

  lemma {:induction false} ComponentVal(s: seq<Comp>, i: nat, x: Comp)
    requires i < |s|
    ensures Val(s[i := x]) == Val(s) + Pow(i) * (x as int - s[i])
  {
    var s' := s[i := x];
    ValSplit(s, i);
    ValSplit(s', i);
    assert s[..i] == s'[..i] && s[i..][1..] == s'[i..][1..];
    var rest := B * Val(s[i..][1..]);
    assert Pow(i) * (x + rest) - Pow(i) * (s[i] + rest) == Pow(i) * (x as int - s[i]);
  }

  /** comps[offset] += data[i] << (8 * j); the sum never leaves 32 bits. */
  method ImportByte(r: BigInt, data: seq<Byte>, i: nat, j: nat, offset: nat)
    requires i < |data| && 4 * offset + j == |data| - 1 - i && j < 4
    requires Imported(r.comps, data, |data| - 1 - i)
    modifies r
    ensures Imported(r.comps, data, |data| - i)
  {
    var x := r.comps[offset] as int + data[i] as int * Pow256(j);
    ImportStep(r.comps, data, offset, j, x);
    r.comps := r.comps[offset := x];
  }

  method Import(data: seq<Byte>) returns (r: BigInt)
    requires |data| >= 1
    ensures fresh(r) && Trimmed(r.comps) && Val(r.comps) == FromBytes(data)
  {
    r := new BigInt(Zeros((|data| + 3) / 4));
    ImportStart(data);
    var i, j, offset := |data| - 1, 0, 0;
    while i >= 0
      invariant -1 <= i < |data| && 0 <= j < 4 && 0 <= offset && 4 * offset + j == |data| - 1 - i
      invariant Imported(r.comps, data, |data| - 1 - i)
    {
      ImportByte(r, data, i, j, offset);
      j := j + 1;
      if j == 4 {
        j := 0;
        offset := offset + 1;
      }
      i := i - 1;
    }
    ImportEnd(r.comps, data);
    Trim(r);
  }

  lemma {:induction false} ImportStart(data: seq<Byte>)
    ensures Imported(Zeros((|data| + 3) / 4), data, 0)
  {
    ValZeros((|data| + 3) / 4);
    assert data[|data|..] == [];
  }

  lemma {:induction false} ImportEnd(comps: seq<Comp>, data: seq<Byte>)
    requires Imported(comps, data, |data|)
    ensures |data| <= 4 * |comps| && Val(comps) == FromBytes(data)
  {
    assert data[0..] == data;
  }

  // ---- export ----

  /** The c low bytes of x are in place, the rest is zero. */
  ghost predicate Exported(data: seq<Byte>, v: int, c: nat)
    requires v >= 0
  {
    && c <= |data|
    && (forall k: nat | k < c :: data[|data| - 1 - k] == v / Pow256(k) % 256)
    && (forall k | 0 <= k < |data| - c :: data[k] == 0)
  }

  lemma {:induction false} ExportDone(data: seq<Byte>, v: int, c: nat)
    requires v >= 0 && Exported(data, v, c) && (c == |data| || v < Pow256(c))
    ensures data == ToBytes(v, |data|)
  {
    var n := |data|;
    forall k | 0 <= k < n
      ensures data[k] == ToBytes(v, n)[k]
    {
      var c' := n - 1 - k;
      ByteAt(v, n, c');
      assert data[n - 1 - c'] == data[k];
      if c' >= c {
        Pow256Add(c, c' - c);
        MulMono(Pow256(c), 1, Pow256(c' - c));
        DivZero(v, Pow256(c'));
      }
    }
  }

  method Export(x: BigInt, size: nat) returns (data: seq<Byte>)
    requires |x.comps| >= 1 && size >= 1
    ensures data == ToBytes(Val(x.comps), size)
  {
    data := seq(size, _ => 0);
    ghost var v := Val(x.comps);
    var i, k := 0, size - 1;
    while i < |x.comps| && k >= 0
      invariant 0 <= i <= |x.comps| && |data| == size && -1 <= k < size
      invariant k >= 0 ==> k == size - 1 - 4 * i
      invariant Exported(data, v, size - 1 - k)
    {
      var j := 0;
      while j < 4 && k >= 0
        invariant 0 <= j <= 4 && |data| == size && -1 <= k < size
        invariant k >= 0 ==> k == size - 1 - (4 * i + j)
        invariant Exported(data, v, size - 1 - k)
      {
        ByteOfComponent(x.comps, i, j);
        data := data[k := x.comps[i] as int / Pow256(j) % 256];
        k := k - 1;
        j := j + 1;
      }
      i := i + 1;
    }
    ValBound(x.comps);
    Pow256Four(|x.comps|);
    ExportDone(data, v, size - 1 - k);
  }

  // ---- signatures ----

  /** DER prefix of a SHA-256 DigestInfo; its last byte is the digest length. */
  const PREFIX: seq<Byte> := [0x30, 0x31, 0x30, 0x0d, 0x06, 0x09, 0x60, 0x86, 0x48, 0x01,
                              0x65, 0x03, 0x04, 0x02, 0x01, 0x05, 0x00, 0x04, 0x20]

  const HASH_LEN: nat := 0x20

  /** Shortest block: 2 + 8 + 1 bytes of framing, the prefix and the digest. */
  const MIN_LEN: nat := 62

  /** EMSA-PKCS1-v1_5 of a SHA-256 digest, section 9.2 of RFC 8017. */
  function Emsa(n: nat, digest: seq<Byte>): (em: seq<Byte>)
    requires n >= MIN_LEN && |digest| == HASH_LEN
    ensures |em| == n && em[n - HASH_LEN..] == digest
  {
    [0, 1] + seq(n - 3 - |PREFIX| - HASH_LEN, _ => 0xFF) + [0] + PREFIX + digest
  }

  /** The checks sig_verify makes on the block, in its order. */
  method CheckBlock(block: seq<Byte>) returns (ok: bool)
    requires |block| >= MIN_LEN
    ensures ok <==> block == Emsa(|block|, block[|block| - HASH_LEN..])
  {
    var n := |block|;
    ghost var em := Emsa(n, block[n - HASH_LEN..]);
    var end := n - 1 - |PREFIX| - HASH_LEN;
    assert em[end + 1..n - HASH_LEN] == PREFIX;
    if block[0] != 0 || block[1] != 1 {
      return false;
    }
    var i := 2;
    while i < end
      invariant 2 <= i <= end && forall k | 0 <= k < i :: block[k] == em[k]
    {
      if block[i] != 0xFF {
        return false;
      }
      i := i + 1;
    }
    if block[i] != 0 {
      return false;
    }
    i := i + 1;
    ok := block[i..i + |PREFIX|] == PREFIX;
    if ok {
      assert block == block[..i] + PREFIX + block[n - HASH_LEN..];
      assert em == em[..i] + PREFIX + block[n - HASH_LEN..];
      assert block[..i] == em[..i];
    }
  }

  datatype Verdict = Rejected | Recovered(hash: BigInt) | Fault

  /** Exponentiation in a temporary context; red is the reduction modulo bim. */
  method ModPower2(bi: BigInt, bim: BigInt, biexp: BigInt, ghost red: int -> int) returns (ok: bool, r: BigInt)
    requires Trimmed(bi.comps) && Trimmed(bim.comps) && Trimmed(biexp.comps)
    requires Val(bim.comps) > 0 && |bim.comps| <= MAX_SIZE && Reduces(red, Val(bim.comps))
    ensures ok <==> bim.comps[|bim.comps| - 1] as int != B - 1
    ensures fresh(r) && Trimmed(r.comps)
    ensures ok ==> Val(r.comps) == PowerOf(red, Val(bi.comps), Val(biexp.comps))
  {
    r := new BigInt([0]);
    var ctx := new Context();
    var modulus := new BigInt(bim.comps);
    ok := SetMod(ctx, modulus);
    if ok {
      var base := new BigInt(bi.comps);
      var exponent := new BigInt(biexp.comps);
      r := RunPower(ctx, base, exponent, red);
    }
  }

  /** Decrypt the signature and recover the hash; v is the decrypted number, red
      the reduction modulo the modulus. Fault is the division by zero of
      bi_set_mod. */
  method SigVerify(sig: seq<Byte>, modulus: BigInt, pubExp: BigInt, ghost red: int -> int)
      returns (r: Verdict, ghost v: int)
    requires Trimmed(modulus.comps) && Trimmed(pubExp.comps)
    requires Val(modulus.comps) > 0 && |modulus.comps| <= MAX_SIZE && Reduces(red, Val(modulus.comps))
    ensures 0 <= v < 3 * Val(modulus.comps)
    ensures r.Fault? <==> |sig| >= MIN_LEN && modulus.comps[|modulus.comps| - 1] as int == B - 1
    ensures |sig| >= MIN_LEN && !r.Fault? ==>
              && v == PowerOf(red, FromBytes(sig), Val(pubExp.comps))
              && v % Val(modulus.comps) == Exp(FromBytes(sig), Val(pubExp.comps)) % Val(modulus.comps)
    ensures r.Recovered? <==>
              (!r.Fault? && |sig| >= MIN_LEN &&
               ToBytes(v, |sig|) == Emsa(|sig|, ToBytes(v, |sig|)[|sig| - HASH_LEN..]))
    ensures r.Recovered? ==> fresh(r.hash) && Trimmed(r.hash.comps)
    ensures r.Recovered? ==> Val(r.hash.comps) == FromBytes(ToBytes(v, |sig|)[|sig| - HASH_LEN..])
  {
    v := 0;
    if |sig| < MIN_LEN {
      return Rejected, v;
    }
    var data := Import(sig);
    var ok, decrypted := ModPower2(data, modulus, pubExp, red);
    if !ok {
      return Fault, v;
    }
    v := Val(decrypted.comps);
    ReducesSound(red, modulus.comps);
    PowerMeans(red, FromBytes(sig), Val(pubExp.comps), Val(modulus.comps));
    var block := Export(decrypted, |sig|);
    ok := CheckBlock(block);
    if !ok {
      return Rejected, v;
    }
    var hash := Import(block[|sig| - HASH_LEN..]);
    r := Recovered(hash);
  }

  /** Equal values at equal length are equal byte strings. */
  lemma {:induction false} FromBytesInjective(s: seq<Byte>, t: seq<Byte>)
    requires |s| == |t| && FromBytes(s) == FromBytes(t)
    ensures s == t
  {
    BytesRoundTrip(s);
    BytesRoundTrip(t);
  }

  /** The last reduction of the power s^e modulo m is complete. */
  ghost predicate Complete(red: int -> int, s: int, e: nat, m: nat)
    requires m > 0
  {
    red(LastOf(red, s, e)) == LastOf(red, s, e) % m
  }

  /** For the reduction of the code that is so if and only if the estimate for the
      number reduced last is at most one short. */
  lemma {:induction false} CompleteIff(red: int -> int, s: nat, e: nat, m: seq<Comp>)
    requires Trimmed(m) && |m| <= MAX_SIZE && Val(m) > 0 && Reduces(red, Val(m))
    ensures LastOf(red, s, e) >= 0
    ensures Complete(red, s, e, Val(m)) <==> Exact(LastOf(red, s, e), Val(m))
  {
    ReducesSound(red, m);
    PowerMeans(red, s, e, Val(m));
    TrimmedInjective(m, Comps(Val(m)));
    ReducedMeans(LastOf(red, s, e), Val(m));
  }

  /** Of a power that comes out reduced, the exported bytes are the encoding if
      and only if the power is the encoded number. */
  lemma {:induction false} GenuineIff(digest: seq<Byte>, n: nat, m: nat, red: int -> int, s: nat, e: nat)
    requires n >= MIN_LEN && |digest| == HASH_LEN && m > 0 && Sound(red, m)
    ensures PowerOf(red, s, e) >= 0
    ensures m <= Pow256(n) && Complete(red, s, e, m) ==>
              (ToBytes(PowerOf(red, s, e), n) == Emsa(n, digest) <==> Exp(s, e) % m == FromBytes(Emsa(n, digest)))
  {
    PowerMeans(red, s, e, m);
    if m <= Pow256(n) && Complete(red, s, e, m) {
      FitsBytes(PowerOf(red, s, e), n, Emsa(n, digest));
    }
  }

  lemma {:induction false} FitsBytes(v: nat, n: nat, block: seq<Byte>)
    requires v < Pow256(n) && |block| == n
    ensures ToBytes(v, n) == block <==> v == FromBytes(block)
  {
    ValueRoundTrip(v, n);
    DivZero(v, Pow256(n));
    BytesRoundTrip(block);
  }

  datatype Acceptance = Accepted | Refused | Faulted

  /** A signature is accepted exactly when the decrypted block is the encoding
      of the given digest. */
  method SignatureVerifyHash(
    digest: seq<Byte>, sig: seq<Byte>, modulus: BigInt, pubExp: BigInt, ghost red: int -> int)
      returns (r: Acceptance, ghost v: int)
    requires |digest| == HASH_LEN && Trimmed(modulus.comps) && Trimmed(pubExp.comps)
    requires Val(modulus.comps) > 0 && |modulus.comps| <= MAX_SIZE && Reduces(red, Val(modulus.comps))
    ensures 0 <= v < 3 * Val(modulus.comps)
    ensures r.Faulted? <==> |sig| >= MIN_LEN && modulus.comps[|modulus.comps| - 1] as int == B - 1
    ensures |sig| >= MIN_LEN && !r.Faulted? ==>
              && v == PowerOf(red, FromBytes(sig), Val(pubExp.comps))
              && v % Val(modulus.comps) == Exp(FromBytes(sig), Val(pubExp.comps)) % Val(modulus.comps)
    ensures var s, e, m := FromBytes(sig), Val(pubExp.comps), Val(modulus.comps);
            |sig| >= MIN_LEN && !r.Faulted? && m <= Pow256(|sig|) && Complete(red, s, e, m) ==>
              (r.Accepted? <==> Exp(s, e) % m == FromBytes(Emsa(|sig|, digest)))
    ensures r.Accepted? <==> !r.Faulted? && |sig| >= MIN_LEN && ToBytes(v, |sig|) == Emsa(|sig|, digest)
  {
    var expected := Import(digest);
    var verdict;
    verdict, v := SigVerify(sig, modulus, pubExp, red);
    if |sig| >= MIN_LEN && !verdict.Fault? {
      ReducesSound(red, modulus.comps);
      GenuineIff(digest, |sig|, Val(modulus.comps), red, FromBytes(sig), Val(pubExp.comps));
    }
    match verdict
    case Fault => r := Faulted;
    case Rejected => r := Refused;
    case Recovered(hash) =>
      ghost var block := ToBytes(v, |sig|);
      var c := Compare(hash, expected);
      r := if c == 0 then Accepted else Refused;
      if c == 0 {
        FromBytesInjective(block[|sig| - HASH_LEN..], digest);
      }
  }

  /** What acceptance says about the signature: with the bytes cut off by the
      export put back, the encoded digest is its e-th power modulo m. A number
      that fits the block has nothing cut off. */
  lemma {:induction false} AcceptedIsRoot(digest: seq<Byte>, n: nat, v: int, s: int, e: nat, m: int)
    requires n >= MIN_LEN && |digest| == HASH_LEN && m > 0
    requires v >= 0 && ToBytes(v, n) == Emsa(n, digest) && v % m == Exp(s, e) % m
    ensures (FromBytes(Emsa(n, digest)) + v / Pow256(n) * Pow256(n)) % m == Exp(s, e) % m
    ensures v < Pow256(n) ==> FromBytes(Emsa(n, digest)) % m == Exp(s, e) % m
  {
    ValueRoundTrip(v, n);
    assert v == v / Pow256(n) * Pow256(n) + v % Pow256(n);
    if v < Pow256(n) { DivZero(v, Pow256(n)); }
  }
}
