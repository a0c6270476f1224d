/** The signed image executor sbexecutor.c: certificates, keys and payloads read
    one after the other from flash. */
module Executor {
  import opened Bytes

  const MAGIC: int := 0x53424d47
  const MAX_CERTS: nat := 7
  const HEADER_SIZE: nat := 96
  const SIGNATURE_SIZE: nat := 384
  const KEY_SIZE: nat := 16

  // ---- certificates ----

  /** The fields the executor looks at. */
  datatype Cert = Cert(issuer: seq<Byte>, subject: seq<Byte>, key: seq<Byte>, fingerprint: seq<Byte>, ca: bool,
                       basic: bool, keyUsage: bool, certSign: bool, pathLen: int, signature: seq<Byte>)

  datatype Kind = RootCert | NonRootCert | EncKey | NoExec | NoReturn | WithReturn | Other

  datatype Header = Header(id: int, size: nat, loadAddr: nat, execAddr: nat, kind: Kind, checksum: bool,
                           encrypted: bool, signOfEncrypted: bool, signedObj: bool, skipHash: bool, keyNum: nat,
                           certId: nat, signCertId: nat, digest: seq<Byte>)

  /** An object in flash: header, signature, and data up to a whole block. */
  datatype Object = Object(header: Header, signature: seq<Byte>, body: seq<Byte>)

  function Complete(n: nat): (r: nat)
    ensures n <= r
  {
    (n + 15) / 16 * 16
  }

  /** Hashes, signatures, parsing and decryption as functions. */
  datatype Crypto = Crypto(headerOk: Header -> bool, parse: seq<Byte> -> Option<Cert>,
                           certSigned: (seq<Byte>, Cert) -> bool,
                           dataSigned: (seq<Byte>, seq<Byte>, seq<Byte>) -> bool,
                           digest: seq<Byte> -> seq<Byte>, keyOk: (seq<Byte>, nat) -> bool,
                           decrypt: (seq<Byte>, nat, seq<Byte>) -> seq<Byte>)

  datatype Part = Part(forceSign: bool, forceEncrypt: bool, rotpk: seq<Byte>)

  /** A certificate and the certificate its next pointer leads to. */
  datatype Chain = Root(cert: Cert) | Signed(cert: Cert, next: Chain)

  datatype Verdict = Ok | BasicConstraint | NoTrustedCert | InvalidChain | SelfSigned | BadSignature

  /** sbimg_x509_cert_verify(ca, cert), `next` being cert's next pointer. */
  function VerifyCert(c: Crypto, ca: Cert, cert: Cert, next: Option<Cert>): Verdict {
    var selfSigned := cert.issuer == cert.subject;
    if cert.basic && !cert.ca && cert.certSign then BasicConstraint
    else if cert.basic && cert.ca && (!cert.keyUsage || cert.certSign) && cert.pathLen + 1 < 0 then BasicConstraint
    else match next
      case None =>
        if cert.basic && !ca.ca then NoTrustedCert
        else if cert.issuer != ca.subject then (if selfSigned then SelfSigned else NoTrustedCert)
        else if c.certSigned(ca.key, cert) then Ok else BadSignature
      case Some(n) =>
        if cert.issuer != n.subject then InvalidChain
        else if selfSigned then SelfSigned
        else if c.certSigned(n.key, cert) then Ok else BadSignature
  }

  /** When the check passes. Key usage and CA flag must agree; a certificate with
      an issuer must name it, not itself, and be signed with its key; one without
      is checked against the given one, which must be a CA certificate if the
      checked one has basic constraints. */
  lemma {:induction false} CertAccepted(c: Crypto, ca: Cert, cert: Cert, next: Option<Cert>)
    ensures VerifyCert(c, ca, cert, next) == Ok <==>
              && (cert.basic && cert.certSign ==> cert.ca)
              && (cert.basic && cert.ca && (cert.keyUsage ==> cert.certSign) ==> cert.pathLen >= -1)
              && (next.Some? ==> cert.issuer == next.value.subject && cert.issuer != cert.subject &&
                                 c.certSigned(next.value.key, cert))
              && (next.None? ==> (cert.basic ==> ca.ca) && cert.issuer == ca.subject && c.certSigned(ca.key, cert))
  {}

  /** Every link of the chain was checked, down to the fused root. */
  predicate ChainOk(c: Crypto, part: Part, ch: Chain) {
    match ch
    case Root(r) => VerifyCert(c, r, r, None) == Ok && r.fingerprint == part.rotpk
    case Signed(x, n) =>
      && VerifyCert(c, n.cert, x, Some(n.cert)) == Ok && ChainOk(c, part, n) && (n.Signed? ==> n.cert.ca)
  }

  /** The certificates of a chain, leaf first. */
  function Links(ch: Chain): (s: seq<Cert>)
    ensures |s| > 0 && s[0] == ch.cert
  {
    match ch case Root(r) => [r] case Signed(x, n) => [x] + Links(n)
  }

  /** What a checked chain means: each certificate names the next one as issuer
      and is signed with its key, all between leaf and root are CA certificates,
      and the last is self-signed with the fused fingerprint. */
  lemma {:induction false} ChainMeans(c: Crypto, part: Part, ch: Chain)
    requires ChainOk(c, part, ch)
    ensures var s := Links(ch); var last := s[|s| - 1];
            && (forall i | 0 <= i < |s| - 1 :: s[i].issuer == s[i + 1].subject && c.certSigned(s[i + 1].key, s[i]))
            && (forall i | 0 < i < |s| - 1 :: s[i].ca)
            && last.fingerprint == part.rotpk && last.issuer == last.subject && c.certSigned(last.key, last)
  {
    if ch.Signed? {
      ChainMeans(c, part, ch.next);
      var s, t := Links(ch), Links(ch.next);
      forall i | 0 <= i < |s| - 1
        ensures s[i].issuer == s[i + 1].subject && c.certSigned(s[i + 1].key, s[i])
      {
        if i > 0 { assert s[i] == t[i - 1] && s[i + 1] == t[i]; }
      }
      forall i | 0 < i < |s| - 1
        ensures s[i].ca
      {
        assert s[i] == t[i - 1];
      }
    }
  }

  // ---- payloads ----

  /** An accepted payload: what was verified, and what lies at the load address
      afterwards. */
  datatype Payload = Payload(obj: Object, signer: Option<Chain>, verified: seq<Byte>, loaded: seq<Byte>, key: seq<Byte>,
                             keyNum: nat)

  /** The payload was verified under its signer, a non-CA certificate chained to
      the fused root; what is loaded is the verified text or its decryption. */
  ghost predicate Trusted(c: Crypto, part: Part, p: Payload) {
    && p.signer.Some? && ChainOk(c, part, p.signer.value) && !p.signer.value.cert.ca
    && c.dataSigned(p.signer.value.cert.key, p.verified, p.obj.signature)
    && p.obj.header.size <= |p.loaded|
    && (if p.obj.header.signOfEncrypted then
          |p.verified| == Complete(p.obj.header.size) && p.loaded == c.decrypt(p.key, p.keyNum, p.verified)
        else p.verified == p.loaded[..p.obj.header.size])
    && FromFlash(c, p.obj, p.verified, p.loaded, p.key, p.keyNum)
  }

  /** Where the bytes came from: the object in flash, decrypted if it says so. A
      signature over an encrypted form that is not encrypted covers leftover
      bytes of the last block as well. */
  predicate FromFlash(c: Crypto, obj: Object, verified: seq<Byte>, loaded: seq<Byte>, key: seq<Byte>, keyNum: nat) {
    var h := obj.header;
    Complete(h.size) <= |obj.body| &&
    if h.signOfEncrypted then
      LoadSize(h) <= |verified| && verified[..LoadSize(h)] == obj.body[..LoadSize(h)]
    else if h.encrypted then loaded == c.decrypt(key, keyNum, obj.body[..Complete(h.size)])
    else h.size <= |loaded| && loaded[..h.size] == obj.body[..h.size]
  }

  datatype Reason = BadHeaderId | BadHeaderHash | RootNotFirst | ParseError | RootX509 | RootBadHash | NonRootX509
                  | TooManyCerts | NonRootFirst | KeyBadChain | KeyNotSigned | KeyBadSignature | PayloadBadChain
                  | PayloadNotSigned | PayloadNotEncrypted | BadAddress | PayloadBadSignature | PayloadBadHash
                  | NoDerivedKey | ImageRefused

  const PAYLOAD_REASONS: set<Reason> :=
    {PayloadBadChain, PayloadNotSigned, PayloadNotEncrypted, BadAddress, PayloadBadSignature, NoDerivedKey,
     PayloadBadHash, ImageRefused}

  /** Fault is an access outside an array or through a null pointer. */
  datatype Status = NoErr | LoadFinish | Failed(why: Reason) | Fault

  ghost predicate Sane(c: Crypto) {
    forall k, n, d :: |c.decrypt(k, n, d)| == |d|
  }

  class Executor {
    const c: Crypto
    const part: Part
    const flash: nat -> Object
    const loadOk: (nat, nat) -> bool
    const execOk: (nat, nat, nat) -> bool
    const imageOk: seq<Byte> -> bool
    var root: Option<Cert>
    var certs: seq<Option<Chain>>
    var ids: seq<nat>
    var index: nat
    var ended: bool
    var key: seq<Byte>
    var keyNum: nat
    var offset: nat
    ghost var accepted: seq<Payload>

    /** The certificate that signs payloads. */
    function Signer(): Option<Chain>
      reads this
    {
      if index < |certs| then certs[index] else None
    }

    ghost predicate Valid()
      reads this
    {
      && Sane(c) && |certs| == |ids| == MAX_CERTS && index <= MAX_CERTS
      && (root.Some? ==> ChainOk(c, part, Root(root.value)))
      && (forall i | 0 <= i < index :: certs[i].Some? && ChainOk(c, part, certs[i].value) && certs[i].value.cert.ca)
      && (ended ==> Signer().Some? && ChainOk(c, part, Signer().value) && !Signer().value.cert.ca)
      && (forall i | index <= i < MAX_CERTS && (i > index || !ended) :: certs[i].None?)
      && (part.forceSign ==> forall p | p in accepted :: Trusted(c, part, p) && p.signer == Signer())
      && (part.forceSign && accepted != [] ==> ended)
    }

    /** No certificate loaded yet. */
    ghost predicate Fresh()
      reads this
    {
      Sane(c) && root.None? && index == 0 && !ended && certs == Slots() && ids == NoIds() && accepted == []
    }

    /** sblimg_init with static state as after start-up or sblimg_abort. The
        callbacks: which addresses may be loaded to and run, and which images
        pass (all of them when there is no such callback). */
    constructor (c: Crypto, part: Part, flash: nat -> Object, loadOk: (nat, nat) -> bool,
                 execOk: (nat, nat, nat) -> bool, imageOk: seq<Byte> -> bool, offset: nat)
      requires Sane(c)
      ensures Fresh() && Valid() && this.c == c && this.part == part && this.flash == flash && this.offset == offset
    {
      this.c, this.part, this.flash := c, part, flash;
      this.loadOk, this.execOk, this.imageOk := loadOk, execOk, imageOk;
      root, certs, ids, index, ended, accepted := None, Slots(), NoIds(), 0, false, [];
      key, keyNum, this.offset := [], 0, offset;
    }

    /** sblimg_abort */
    method Abort()
      requires Sane(c)
      modifies this
      ensures Fresh() && Valid()
    {
      root, certs, ids, index, ended, accepted := None, Slots(), NoIds(), 0, false, [];
    }

    /** verify: the certificate's slot is read before the index is checked. */
    method Verify(data: seq<Byte>, signature: seq<Byte>, present: bool, i: nat) returns (ok: bool, fault: bool)
      requires |certs| == MAX_CERTS && i < MAX_CERTS
      ensures fault <==> present && certs[i].None?
      ensures ok <==> present && certs[i].Some? && i <= index && c.dataSigned(certs[i].value.cert.key, data, signature)
    {
      if !present {
        return false, false;
      }
      if certs[i].None? {
        return false, true;
      }
      return i <= index && c.dataSigned(certs[i].value.cert.key, data, signature), false;
    }

    /** When a root certificate is accepted: first, parsed, self-verified, fused. */
    predicate RootOk(obj: Object)
      reads this
      requires obj.header.size <= |obj.body|
    {
      index == 0 && var r := c.parse(obj.body[..obj.header.size]); r.Some? && ChainOk(c, part, Root(r.value))
    }

    /** A root certificate object. */
    method HandleRoot(obj: Object) returns (s: Status)
      requires Valid() && obj.header.size <= |obj.body|
      modifies this`root
      ensures s.NoErr? ==> Valid() && root.Some? && root == c.parse(obj.body[..obj.header.size])
      ensures s.NoErr? <==> RootOk(obj)
      ensures s == Failed(RootNotFirst) <==> index != 0
      ensures s == Failed(ParseError) <==> index == 0 && c.parse(obj.body[..obj.header.size]).None?
      ensures s.NoErr? || (s.Failed? && s.why in {RootNotFirst, ParseError, RootX509, RootBadHash})
    {
      if index != 0 {
        return Failed(RootNotFirst);
      }
      var r := c.parse(obj.body[..obj.header.size]);
      if r.None? {
        return Failed(ParseError);
      }
      root := r;
      if VerifyCert(c, r.value, r.value, None) != Ok {
        return Failed(RootX509);
      }
      if part.rotpk != r.value.fingerprint {
        return Failed(RootBadHash);
      }
      return NoErr;
    }

    /** The issuer of a certificate: the root, or the latest CA certificate with
        the right name. */
    method FindIssuer(x: Cert) returns (next: Option<Chain>)
      requires Valid() && root.Some?
      ensures next == Issuer(root.value, certs[..index], x.issuer)
    {
      if root.value.subject == x.issuer {
        return Some(Root(root.value));
      }
      var i := index;
      while i > 0
        invariant 0 <= i <= index && Latest(certs[..index], x.issuer) == Latest(certs[..i], x.issuer)
      {
        i := i - 1;
        assert certs[..i + 1][..i] == certs[..i];
        if certs[i].value.cert.subject == x.issuer {
          return certs[i];
        }
      }
      return None;
    }

    /** The chain a certificate object gets, if it parses, has an issuer and
        passes the check. */
    function Certified(obj: Object): Option<Chain>
      requires |certs| == MAX_CERTS && index <= MAX_CERTS && obj.header.size <= |obj.body|
      reads this
    {
      var x := c.parse(obj.body[..obj.header.size]);
      if x.None? || root.None? then None
      else
        var next := Issuer(root.value, certs[..index], x.value.issuer);
        if next.None? then None
        else if VerifyCert(c, next.value.cert, x.value, Some(next.value.cert)) != Ok then None
        else Some(Signed(x.value, next.value))
    }

    /** When another certificate is accepted. */
    predicate CertOk(obj: Object)
      reads this
      requires |certs| == |ids| == MAX_CERTS && index <= MAX_CERTS && obj.header.size <= |obj.body|
    {
      && !ended && index < MAX_CERTS && root.Some? && obj.header.certId !in ids[..index]
      && Certified(obj).Some?
    }

    /** A non-root certificate object. */
    method HandleCert(obj: Object) returns (s: Status)
      requires Valid() && obj.header.size <= |obj.body|
      modifies this`certs, this`ids, this`index, this`ended
      ensures s.NoErr? ==> Valid()
      ensures s.NoErr? <==> old(CertOk(obj))
      ensures s.NoErr? ==> old(Certified(obj).Some?) && var ch := old(Certified(obj)).value;
                && certs == old(certs)[old(index) := Some(ch)] && ids == old(ids)[old(index) := obj.header.certId]
                && ended == !ch.cert.ca && index == if ended then old(index) else old(index) + 1
      ensures old(ended) ==> s == Failed(NonRootX509)
      ensures !old(ended) && old(index) >= MAX_CERTS ==> s == Failed(TooManyCerts)
      ensures !old(ended) && old(index) < MAX_CERTS && root.None? ==> s == Failed(NonRootFirst)
      ensures s.NoErr? || (s.Failed? && s.why in {NonRootX509, TooManyCerts, NonRootFirst, ParseError})
    {
      if ended {
        return Failed(NonRootX509);
      }
      if index >= MAX_CERTS {
        return Failed(TooManyCerts);
      }
      if root.None? {
        return Failed(NonRootFirst);
      }
      for i := 0 to index
        invariant forall j | 0 <= j < i :: ids[j] != obj.header.certId
      {
        if ids[i] == obj.header.certId {
          return Failed(NonRootX509);
        }
      }
      var parsed := c.parse(obj.body[..obj.header.size]);
      if parsed.None? {
        return Failed(ParseError);
      }
      var x := parsed.value;
      var next := FindIssuer(x);
      IssuerChecked(x.issuer);
      certs := certs[index := Some(Root(x))];
      if !x.ca {
        ended := true;
      }
      if next.None? {
        return Failed(NonRootX509);
      }
      certs := certs[index := Some(Signed(x, next.value))];
      if VerifyCert(c, next.value.cert, x, Some(next.value.cert)) != Ok {
        return Failed(NonRootX509);
      }
      ids := ids[index := obj.header.certId];
      if !ended {
        index := index + 1;
      }
      return NoErr;
    }

    lemma IssuerChecked(name: seq<Byte>)
      requires Valid() && root.Some?
      ensures var next := Issuer(root.value, certs[..index], name);
              next.Some? ==> ChainOk(c, part, next.value) && (next.value.Signed? ==> next.value.cert.ca)
    {
      LatestIn(certs[..index], name);
    }

    /** An encryption key object. The search reads the entry after the last id;
        the copy takes whole blocks into sixteen bytes. */
    method HandleKey(obj: Object) returns (s: Status)
      requires Valid() && Complete(obj.header.size) <= |obj.body|
      modifies this`key, this`keyNum
      ensures Valid() && accepted == old(accepted) && Signer() == old(Signer())
      ensures s.Fault? <==> KeyFaulty(obj)
      ensures s.NoErr? <==> KeyOk(obj)
      ensures s == Failed(KeyBadChain) <==> part.forceSign && !ended
      ensures s == Failed(KeyNotSigned) <==> part.forceSign && ended && !obj.header.signedObj
      ensures s.NoErr? || s.Fault? || (s.Failed? && s.why in {KeyBadChain, KeyNotSigned, KeyBadSignature})
      ensures s.NoErr? ==>
                && KeySigned(obj, First(ids, obj.header.signCertId)) && keyNum == obj.header.keyNum
                && key == if obj.header.size == 0 then old(key) else obj.body[..KEY_SIZE]
      ensures !s.NoErr? ==> key == old(key) && keyNum == old(keyNum)
      ensures s.NoErr? && part.forceSign ==> ended
    {
      if part.forceSign && !ended {
        return Failed(KeyBadChain);
      }
      if part.forceSign && !obj.header.signedObj {
        return Failed(KeyNotSigned);
      }
      var num := 0;
      while num < MAX_CERTS && ids[num] != obj.header.signCertId
        invariant 0 <= num <= MAX_CERTS && forall j | 0 <= j < num :: ids[j] != obj.header.signCertId
      {
        num := num + 1;
      }
      assert num == First(ids, obj.header.signCertId);
      if num >= MAX_CERTS {
        return Fault;
      }
      var ok, fault := Verify(obj.body[..obj.header.size], obj.signature, obj.header.signedObj, num);
      if fault {
        return Fault;
      }
      if !ok {
        return Failed(KeyBadSignature);
      }
      if Complete(obj.header.size) > KEY_SIZE || Complete(obj.header.size) > obj.header.size {
        return Fault;
      }
      if obj.header.size > 0 {
        key := obj.body[..KEY_SIZE];
      }
      keyNum := obj.header.keyNum;
      return NoErr;
    }

    /** When a key is accepted. */
    predicate KeyOk(obj: Object)
      reads this
      requires obj.header.size <= |obj.body|
    {
      var n := First(ids, obj.header.signCertId);
      Permitted(obj.header) && n < MAX_CERTS && KeyVerified(obj, n) && obj.header.size in {0, KEY_SIZE}
    }

    /** When a key object makes the executor leave an array or a buffer: an
        unknown id, an empty slot, or a verified key of another size. */
    predicate KeyFaulty(obj: Object)
      reads this
      requires obj.header.size <= |obj.body|
    {
      var n := First(ids, obj.header.signCertId);
      && Permitted(obj.header)
      && (|| n >= MAX_CERTS
          || (obj.header.signedObj && n < |certs| && certs[n].None?)
          || (KeyVerified(obj, n) && obj.header.size !in {0, KEY_SIZE}))
    }

    /** What a part that forces signatures asks of keys and payloads. */
    predicate Permitted(h: Header)
      reads this
    {
      part.forceSign ==> ended && h.signedObj
    }

    /** The key object passes the signature check against slot i. */
    predicate KeyVerified(obj: Object, i: nat)
      reads this
      requires obj.header.size <= |obj.body|
    {
      && obj.header.signedObj && i <= index && i < |certs| && certs[i].Some?
      && c.dataSigned(certs[i].value.cert.key, obj.body[..obj.header.size], obj.signature)
    }

    /** The key object is signed by the certificate in slot i, a checked one. */
    ghost predicate KeySigned(obj: Object, i: nat)
      reads this
      requires obj.header.size <= |obj.body|
    {
      && i < |certs| && certs[i].Some? && ChainOk(c, part, certs[i].value)
      && i < |ids| && ids[i] == obj.header.signCertId
      && c.dataSigned(certs[i].value.cert.key, obj.body[..obj.header.size], obj.signature)
    }

    /** Signed under the certificate at cert_index. */
    predicate SignedHere(obj: Object, data: seq<Byte>)
      reads this
    {
      obj.header.signedObj && Signer().Some? && c.dataSigned(Signer().value.cert.key, data, obj.signature)
    }

    /** One action of image_handle on the loaded bytes. */
    method DoAct(act: Act, obj: Object, data: seq<Byte>) returns (s: Status, out: seq<Byte>)
      requires |certs| == MAX_CERTS && Sane(c) && |data| == Complete(obj.header.size)
      ensures out == if s.NoErr? && act.Decipher? then c.decrypt(key, keyNum, data) else data
      ensures s.Fault? <==> act.Verification? && obj.header.signedObj && Signer().None?
      ensures s.NoErr? <==>
                match act
                case Verification => SignedHere(obj, data[..SignedSize(obj.header)])
                case Decipher => c.keyOk(key, keyNum)
                case Check => c.digest(data[..SignedSize(obj.header)]) == obj.header.digest
                case Nope => true
      ensures s.NoErr? || s.Fault? || (s.Failed? && s.why in {PayloadBadSignature, NoDerivedKey, PayloadBadHash})
    {
      out, s := data, NoErr;
      match act {
        case Verification =>
          if obj.header.signedObj && index >= MAX_CERTS {
            return Fault, data;
          }
          var ok, fault := false, false;
          if index < MAX_CERTS {
            ok, fault := Verify(data[..SignedSize(obj.header)], obj.signature, obj.header.signedObj, index);
          }
          s := if fault then Fault else if ok then NoErr else Failed(PayloadBadSignature);
        case Decipher =>
          if !c.keyOk(key, keyNum) {
            return Failed(NoDerivedKey), data;
          }
          out := c.decrypt(key, keyNum, data);
        case Check =>
          if c.digest(data[..SignedSize(obj.header)]) != obj.header.digest {
            s := Failed(PayloadBadHash);
          }
        case Nope =>
      }
    }

    /** The bytes that checksum and signature are about: as read, or deciphered
        before. */
    function Examined(obj: Object, memory: seq<Byte>): (r: seq<Byte>)
      reads this
      requires Complete(obj.header.size) <= |obj.body| && |memory| == Complete(obj.header.size)
    {
      var read := obj.body[..LoadSize(obj.header)] + memory[LoadSize(obj.header)..];
      if obj.header.encrypted && !obj.header.signOfEncrypted then c.decrypt(key, keyNum, read) else read
    }

    /** The bytes at the load address when all has gone well. */
    function Result(obj: Object, memory: seq<Byte>): seq<Byte>
      reads this
      requires Complete(obj.header.size) <= |obj.body| && |memory| == Complete(obj.header.size)
    {
      var data := Examined(obj, memory);
      if obj.header.signOfEncrypted then c.decrypt(key, keyNum, data) else data
    }

    /** Everything image_handle asks for, the signature apart. */
    predicate DigestOk(obj: Object, memory: seq<Byte>)
      reads this
      requires Complete(obj.header.size) <= |obj.body| && |memory| == Complete(obj.header.size)
      requires Sane(c)
    {
      obj.header.checksum ==> c.digest(Examined(obj, memory)[..SignedSize(obj.header)]) == obj.header.digest
    }

    /** When image_handle succeeds. */
    predicate Handled(obj: Object, memory: seq<Byte>)
      reads this
      requires Complete(obj.header.size) <= |obj.body| && |memory| == Complete(obj.header.size)
      requires Sane(c)
    {
      var h := obj.header;
      && (h.encrypted || h.signOfEncrypted ==> c.keyOk(key, keyNum))
      && DigestOk(obj, memory)
      && (h.signedObj || h.signOfEncrypted ==> SignedHere(obj, Examined(obj, memory)[..SignedSize(h)]))
      && imageOk(Result(obj, memory)[..LoadSize(h)])
    }

    /** When image_handle reads a certificate that is not there. */
    predicate Unhandled(obj: Object, memory: seq<Byte>)
      reads this
      requires Complete(obj.header.size) <= |obj.body| && |memory| == Complete(obj.header.size)
      requires Sane(c)
    {
      var h := obj.header;
      && h.signedObj && Signer().None?
      && (h.signOfEncrypted || ((h.encrypted ==> c.keyOk(key, keyNum)) && DigestOk(obj, memory)))
    }

    /** image_handle: `memory` is what lies at the load address before. */
    method ImageHandle(obj: Object, memory: seq<Byte>) returns (s: Status, loaded: seq<Byte>)
      requires |certs| == MAX_CERTS && Sane(c)
      requires Complete(obj.header.size) <= |obj.body| && |memory| == Complete(obj.header.size)
      ensures |loaded| == Complete(obj.header.size) && !s.LoadFinish?
      ensures s.NoErr? <==> Handled(obj, memory)
      ensures s.Fault? <==> Unhandled(obj, memory)
      ensures s.NoErr? || s == Failed(ImageRefused) ==> loaded == Result(obj, memory)
      ensures s.Failed? && s.why != ImageRefused ==> forall i | 0 <= i < LoadSize(obj.header) :: loaded[i] == 0
      ensures s.Failed? ==> s.why in {PayloadBadSignature, NoDerivedKey, PayloadBadHash, ImageRefused}
    {
      var h := obj.header;
      var first := if h.signOfEncrypted then Verification else if h.encrypted then Decipher else Nope;
      var second := if h.checksum then Check else Nope;
      var third := if h.signOfEncrypted then Decipher else if h.signedObj then Verification else Nope;
      loaded := obj.body[..LoadSize(h)] + memory[LoadSize(h)..];
      s, loaded := DoAct(first, obj, loaded);
      if s.NoErr? {
        assert loaded == Examined(obj, memory);
        s, loaded := DoAct(second, obj, loaded);
      }
      if s.NoErr? {
        s, loaded := DoAct(third, obj, loaded);
      }
      if !s.NoErr? {
        loaded := Zeros(LoadSize(h)) + loaded[LoadSize(h)..];
      } else if !imageOk(loaded[..LoadSize(h)]) {
        s := Failed(ImageRefused);
      }
    }

    /** When a payload is accepted. */
    predicate Acceptable(obj: Object, memory: seq<Byte>)
      reads this
      requires Complete(obj.header.size) <= |obj.body| && |memory| == Complete(obj.header.size)
      requires Sane(c)
    {
      && Permitted(obj.header) && (part.forceEncrypt ==> obj.header.encrypted)
      && loadOk(obj.header.loadAddr, obj.header.size) && Handled(obj, memory)
      && (obj.header.kind == WithReturn ==> execOk(obj.header.loadAddr, obj.header.size, obj.header.execAddr))
    }

    /** When a payload makes the executor read a certificate that is not there. */
    predicate Faulty(obj: Object, memory: seq<Byte>)
      reads this
      requires Complete(obj.header.size) <= |obj.body| && |memory| == Complete(obj.header.size)
      requires Sane(c)
    {
      && Permitted(obj.header) && (part.forceEncrypt ==> obj.header.encrypted)
      && loadOk(obj.header.loadAddr, obj.header.size) && Unhandled(obj, memory)
    }

    /** The record of an accepted payload. */
    function PayloadOf(obj: Object, memory: seq<Byte>): Payload
      reads this
      requires Complete(obj.header.size) <= |obj.body| && |memory| == Complete(obj.header.size)
      requires Sane(c)
    {
      Payload(obj, Signer(), Examined(obj, memory)[..SignedSize(obj.header)], Result(obj, memory), key, keyNum)
    }

    /** A handled payload on a part that forces signatures is a trusted one. */
    lemma {:induction false} HandledTrusted(obj: Object, memory: seq<Byte>)
      requires Valid() && part.forceSign && Permitted(obj.header)
      requires Complete(obj.header.size) <= |obj.body| && |memory| == Complete(obj.header.size)
      requires Handled(obj, memory)
      ensures Trusted(c, part, PayloadOf(obj, memory))
    {
      var h, read := obj.header, obj.body[..LoadSize(obj.header)] + memory[LoadSize(obj.header)..];
      assert read[..LoadSize(h)] == obj.body[..LoadSize(h)] && read[..|read|] == read;
      assert read[..h.size] == obj.body[..h.size];
      assert h.encrypted ==> read == obj.body[..Complete(h.size)];
    }

    /** A payload object up to the jump. */
    method TryPayload(obj: Object, memory: seq<Byte>) returns (s: Status, loaded: seq<Byte>)
      requires Valid() && Complete(obj.header.size) <= |obj.body| && |memory| == Complete(obj.header.size)
      ensures !s.LoadFinish? && (s.NoErr? <==> Acceptable(obj, memory)) && (s.Fault? <==> Faulty(obj, memory))
      ensures s.NoErr? ==> loaded == Result(obj, memory)
      ensures s == Failed(PayloadBadChain) <==> part.forceSign && !ended
      ensures s == Failed(PayloadNotSigned) <==> part.forceSign && ended && !obj.header.signedObj
      ensures s.Failed? ==> s.why in PAYLOAD_REASONS
    {
      loaded := memory;
      if part.forceSign && !ended {
        return Failed(PayloadBadChain), loaded;
      }
      if part.forceSign && !obj.header.signedObj {
        return Failed(PayloadNotSigned), loaded;
      }
      if part.forceEncrypt && !obj.header.encrypted {
        return Failed(PayloadNotEncrypted), loaded;
      }
      if !loadOk(obj.header.loadAddr, obj.header.size) {
        return Failed(BadAddress), loaded;
      }
      s, loaded := ImageHandle(obj, memory);
      if s.NoErr? && obj.header.kind == WithReturn &&
         !execOk(obj.header.loadAddr, obj.header.size, obj.header.execAddr)
      {
        return Failed(BadAddress), loaded;
      }
    }

    /** A payload object. */
    method HandlePayload(obj: Object, memory: seq<Byte>) returns (s: Status, loaded: seq<Byte>)
      requires Valid() && obj.header.kind in {NoExec, NoReturn, WithReturn}
      requires Complete(obj.header.size) <= |obj.body| && |memory| == Complete(obj.header.size)
      modifies this`accepted
      ensures s in {NoErr, LoadFinish} <==> old(Acceptable(obj, memory))
      ensures s.Fault? <==> old(Faulty(obj, memory))
      ensures s in {NoErr, LoadFinish} ==> Valid() && loaded == old(Result(obj, memory))
      ensures s in {NoErr, LoadFinish} ==> accepted == old(accepted) + [old(PayloadOf(obj, memory))]
      ensures s !in {NoErr, LoadFinish} ==> accepted == old(accepted)
      ensures s in {NoErr, LoadFinish} ==> (s.LoadFinish? <==> obj.header.kind == NoReturn)
      ensures s.Failed? ==> s.why in PAYLOAD_REASONS
    {
      s, loaded := TryPayload(obj, memory);
      if s.NoErr? {
        if part.forceSign { HandledTrusted(obj, memory); }
        Record(PayloadOf(obj, memory));
        s := if obj.header.kind == NoReturn then LoadFinish else NoErr;
      }
    }

    /** One more accepted payload. */
    ghost method Record(p: Payload)
      requires Valid() && p.signer == Signer() && (part.forceSign ==> ended && Trusted(c, part, p))
      modifies this`accepted
      ensures Valid() && accepted == old(accepted) + [p]
    {
      accepted := accepted + [p];
    }

    // ---- one object of any kind ----

    ghost function Now(): Static
      reads this
    {
      Static(root, certs, ids, index, ended, key, keyNum)
    }

    /** When an object is accepted; `memory` is what lies at its load address. */
    predicate Passes(obj: Object, memory: seq<Byte>)
      reads this
      requires Complete(obj.header.size) <= |obj.body| && |memory| == Complete(obj.header.size)
      requires Sane(c) && |certs| == |ids| == MAX_CERTS && index <= MAX_CERTS
    {
      match obj.header.kind
      case RootCert => RootOk(obj)
      case NonRootCert => CertOk(obj)
      case EncKey => KeyOk(obj)
      case Other => true
      case _ => Acceptable(obj, memory)
    }

    /** When an object makes the executor leave an array. */
    predicate Breaks(obj: Object, memory: seq<Byte>)
      reads this
      requires Complete(obj.header.size) <= |obj.body| && |memory| == Complete(obj.header.size) && Sane(c)
    {
      if obj.header.kind == EncKey then KeyFaulty(obj)
      else IsPayload(obj) && Faulty(obj, memory)
    }

    /** The state an accepted object leaves: a root is kept, a certificate goes to
        the slot at the index, which a CA certificate moves on, a key replaces
        the key; payloads and other objects change nothing. */
    ghost function Next(obj: Object): Static
      reads this
      requires Complete(obj.header.size) <= |obj.body|
      requires |certs| == |ids| == MAX_CERTS && index <= MAX_CERTS
      requires obj.header.kind == NonRootCert ==> CertOk(obj)
    {
      match obj.header.kind
      case RootCert => Now().(root := c.parse(obj.body[..obj.header.size]))
      case NonRootCert =>
        var ch := Certified(obj).value;
        Now().(certs := certs[index := Some(ch)], ids := ids[index := obj.header.certId], ended := !ch.cert.ca,
               index := if ch.cert.ca then index + 1 else index)
      case EncKey =>
        Now().(key := if obj.header.size < KEY_SIZE then key else obj.body[..KEY_SIZE], keyNum := obj.header.keyNum)
      case _ => Now()
    }

    /** sblimg_update: one object. */
    method Update(memory: (nat, nat) -> seq<Byte>) returns (s: Status)
      requires Valid() && FlashOk(flash) && MemoryOk(memory)
      modifies this
      ensures s == Failed(BadHeaderId) <==> flash(old(offset)).header.id != MAGIC
      ensures s == Failed(BadHeaderHash) <==>
                var h := flash(old(offset)).header; h.id == MAGIC && !h.skipHash && !c.headerOk(h)
      ensures var obj := flash(old(offset));
              HeaderOk(obj.header) ==> Stepped(obj, LoadMemory(obj, memory), s)
      ensures s in {NoErr, LoadFinish} ==> Valid() && HeaderOk(flash(old(offset)).header)
      ensures s in {NoErr, LoadFinish} ==> Grown(old(accepted), accepted, flash(old(offset)))
      ensures s.NoErr? ==> offset == old(offset) + ImageSize(flash(old(offset)).header)
      ensures !s.NoErr? ==> offset == old(offset)
      ensures s !in {NoErr, LoadFinish} ==> accepted == old(accepted)
      ensures old(ended) && s in {NoErr, LoadFinish} ==> ended && Signer() == old(Signer())
    {
      var obj := flash(offset);
      var h := obj.header;
      if h.id != MAGIC {
        return Failed(BadHeaderId);
      }
      if !h.skipHash && !c.headerOk(h) {
        return Failed(BadHeaderHash);
      }
      s := Dispatch(obj, memory);
      if s.NoErr? {
        Skip(ImageSize(h));
      }
    }

    method Skip(n: nat)
      requires Valid()
      modifies this`offset
      ensures Valid() && offset == old(offset) + n
    {
      offset := offset + n;
    }

    predicate HeaderOk(h: Header) { h.id == MAGIC && (h.skipHash || c.headerOk(h)) }

    /** What the object did: accepted, refused or broken exactly when it should be,
        and with exactly the right effect. */
    twostate predicate Stepped(obj: Object, memory: seq<Byte>, s: Status)
      reads this
      requires Complete(obj.header.size) <= |obj.body| && |memory| == Complete(obj.header.size)
      requires old(Valid())
    {
      && (s in {NoErr, LoadFinish} <==> old(Passes(obj, memory)))
      && (s.Fault? <==> old(Breaks(obj, memory)))
      && (s in {NoErr, LoadFinish} ==>
            && Now() == old(Next(obj)) && (s.LoadFinish? <==> obj.header.kind == NoReturn)
            && accepted == old(accepted) + if IsPayload(obj) then [old(PayloadOf(obj, memory))] else [])
    }

    /** The cases of sblimg_update. */
    method Dispatch(obj: Object, memory: (nat, nat) -> seq<Byte>) returns (s: Status)
      requires Valid() && MemoryOk(memory) && Complete(obj.header.size) <= |obj.body|
      modifies this`root, this`certs, this`ids, this`index, this`ended, this`key, this`keyNum, this`accepted
      ensures Stepped(obj, LoadMemory(obj, memory), s)
      ensures s in {NoErr, LoadFinish} ==> Valid() && Grown(old(accepted), accepted, obj)
      ensures s !in {NoErr, LoadFinish} ==> accepted == old(accepted)
      ensures old(ended) && s in {NoErr, LoadFinish} ==> ended && Signer() == old(Signer())
      ensures s.Failed? ==> s.why !in {BadHeaderId, BadHeaderHash}
    {
      match obj.header.kind {
        case NoExec => s := Load(obj, memory);
        case NoReturn => s := Load(obj, memory);
        case WithReturn => s := Load(obj, memory);
        case _ => s := Enrol(obj, LoadMemory(obj, memory));
      }
    }

    /** The cases that load nothing: certificates, keys and unknown objects. */
    method Enrol(obj: Object, ghost memory: seq<Byte>) returns (s: Status)
      requires Valid() && !IsPayload(obj) && Complete(obj.header.size) <= |obj.body|
      requires |memory| == Complete(obj.header.size)
      modifies this`root, this`certs, this`ids, this`index, this`ended, this`key, this`keyNum
      ensures Stepped(obj, memory, s)
      ensures s in {NoErr, LoadFinish} ==> Valid()
      ensures old(ended) && s in {NoErr, LoadFinish} ==> ended && Signer() == old(Signer())
      ensures s.Failed? ==> s.why !in {BadHeaderId, BadHeaderHash}
    {
      match obj.header.kind {
        case RootCert => s := HandleRoot(obj);
        case NonRootCert => s := HandleCert(obj);
        case EncKey => s := HandleKey(obj);
        case _ => s := NoErr;
      }
    }

    method Load(obj: Object, memory: (nat, nat) -> seq<Byte>) returns (s: Status)
      requires Valid() && IsPayload(obj) && MemoryOk(memory) && Complete(obj.header.size) <= |obj.body|
      modifies this`accepted
      ensures Stepped(obj, LoadMemory(obj, memory), s)
      ensures s in {NoErr, LoadFinish} ==> Valid()
      ensures s !in {NoErr, LoadFinish} ==> accepted == old(accepted)
      ensures s.Failed? ==> s.why in PAYLOAD_REASONS
    {
      var loaded;
      s, loaded := HandlePayload(obj, LoadMemory(obj, memory));
    }

    /** sblimg_update until the first status other than NO_ERR, at most n times;
        `memory` is what lies where before each step. The accepted payloads are
        the payload objects among the first k in flash, in order. */
    method Run(n: nat, memory: nat -> (nat, nat) -> seq<Byte>) returns (s: Status, ghost k: nat)
      requires Fresh() && Valid() && FlashOk(flash) && forall i :: MemoryOk(memory(i))
      modifies this
      ensures s in {NoErr, LoadFinish} ==> Valid()
      ensures part.forceSign ==> exists signer: Option<Chain> :: AllTrusted(c, part, accepted, signer)
      ensures k <= n && ObjectsOf(accepted) == PayloadsIn(Walked(flash, old(offset), k))
      ensures s.NoErr? ==> k == n && offset == OffsetAfter(flash, old(offset), n)
      ensures s.LoadFinish? ==> k > 0 && Finished(flash(OffsetAfter(flash, old(offset), k - 1)))
      ensures s !in {NoErr, LoadFinish} ==> k < n
    {
      ghost var start, signer := offset, Signer();
      s, k, signer := RunLoop(n, memory, start, signer);
    }

    method RunLoop(n: nat, memory: nat -> (nat, nat) -> seq<Byte>, ghost start: nat, ghost first: Option<Chain>)
      returns (s: Status, ghost k: nat, ghost signer: Option<Chain>)
      requires FlashOk(flash) && (forall i :: MemoryOk(memory(i))) && InRun(NoErr, start, 0, 0, n, first)
      modifies this
      ensures exists i: nat :: i <= n && (s.NoErr? ==> i == n) && InRun(s, start, k, i, n, signer)
    {
      s, k, signer := NoErr, 0, first;
      var i := 0;
      while i < n && s.NoErr?
        invariant i <= n && InRun(s, start, k, i, n, signer)
        decreases n - i
      {
        s, k, signer := Advance(memory(i), start, k, n, signer);
        i := i + 1;
      }
    }

    /** After i turns, which took k objects: what was accepted, and under which
        certificate. */
    ghost predicate InRun(s: Status, start: nat, k: nat, i: nat, n: nat, signer: Option<Chain>)
      reads this
    {
      && (s in {NoErr, LoadFinish} ==> Valid())
      && (part.forceSign ==> AllTrusted(c, part, accepted, signer))
      && ObjectsOf(accepted) == PayloadsIn(Walked(flash, start, k)) && k <= i
      && (s.NoErr? ==> k == i && offset == OffsetAfter(flash, start, k))
      && (s.LoadFinish? ==> k > 0 && Finished(flash(OffsetAfter(flash, start, k - 1))))
      && (s !in {NoErr, LoadFinish} ==> k < n)
    }

    /** The last accepted payload is this one, and does not return. */
    ghost predicate Finished(obj: Object)
      reads this
    {
      |accepted| > 0 && accepted[|accepted| - 1].obj == obj && obj.header.kind == NoReturn
    }

    /** One turn of a run. */
    method Advance(memory: (nat, nat) -> seq<Byte>, ghost start: nat, ghost k: nat, ghost n: nat,
                   ghost signer: Option<Chain>)
      returns (s: Status, ghost k': nat, ghost signer': Option<Chain>)
      requires FlashOk(flash) && MemoryOk(memory) && k < n && InRun(NoErr, start, k, k, n, signer)
      modifies this
      ensures InRun(s, start, k', k + 1, n, signer')
    {
      ghost var obj := flash(offset);
      s := TakeObject(memory, start, k);
      k' := if s in {NoErr, LoadFinish} then k + 1 else k;
      signer' := if s in {NoErr, LoadFinish} then Signer() else signer;
    }

    /** One object, as far as a run is concerned. */
    method TakeObject(memory: (nat, nat) -> seq<Byte>, ghost start: nat, ghost k: nat) returns (s: Status)
      requires Valid() && FlashOk(flash) && MemoryOk(memory) && offset == OffsetAfter(flash, start, k)
      requires ObjectsOf(accepted) == PayloadsIn(Walked(flash, start, k))
      modifies this
      ensures s in {NoErr, LoadFinish} ==> Valid() && ObjectsOf(accepted) == PayloadsIn(Walked(flash, start, k + 1))
      ensures s !in {NoErr, LoadFinish} ==> accepted == old(accepted)
      ensures s.NoErr? ==> offset == OffsetAfter(flash, start, k + 1)
      ensures s.LoadFinish? ==> Finished(flash(OffsetAfter(flash, start, k)))
    {
      ghost var before := accepted;
      s := Update(memory);
      if s in {NoErr, LoadFinish} { WalkedMore(flash, start, k, before, accepted); }
    }
  }

  /** The state besides the offset. */
  datatype Static = Static(root: Option<Cert>, certs: seq<Option<Chain>>, ids: seq<nat>, index: nat, ended: bool,
                           key: seq<Byte>, keyNum: nat)

  predicate IsPayload(obj: Object) { obj.header.kind in {NoExec, NoReturn, WithReturn} }

  /** What lies where the object is loaded to. */
  function LoadMemory(obj: Object, memory: (nat, nat) -> seq<Byte>): seq<Byte> {
    memory(obj.header.loadAddr, Complete(obj.header.size))
  }

  // ---- the objects of a run ----

  /** Where the object after k others stands. */
  function OffsetAfter(flash: nat -> Object, offset: nat, k: nat): nat {
    if k == 0 then offset
    else OffsetAfter(flash, offset, k - 1) + ImageSize(flash(OffsetAfter(flash, offset, k - 1)).header)
  }

  /** The first k objects. */
  function Walked(flash: nat -> Object, offset: nat, k: nat): seq<Object> {
    if k == 0 then [] else Walked(flash, offset, k - 1) + [flash(OffsetAfter(flash, offset, k - 1))]
  }

  function PayloadsIn(objs: seq<Object>): seq<Object> {
    if |objs| == 0 then []
    else PayloadsIn(objs[..|objs| - 1]) + if IsPayload(objs[|objs| - 1]) then [objs[|objs| - 1]] else []
  }

  function ObjectsOf(ps: seq<Payload>): seq<Object> { seq(|ps|, i requires 0 <= i < |ps| => ps[i].obj) }

  /** A payload object is recorded, others are not. */
  ghost predicate Grown(before: seq<Payload>, after: seq<Payload>, obj: Object) {
    if IsPayload(obj) then |after| == |before| + 1 && after[..|before|] == before && after[|before|].obj == obj
    else after == before
  }

  lemma {:induction false} WalkedMore(
    flash: nat -> Object, offset: nat, k: nat, before: seq<Payload>, after: seq<Payload>)
    requires ObjectsOf(before) == PayloadsIn(Walked(flash, offset, k))
    requires Grown(before, after, flash(OffsetAfter(flash, offset, k)))
    ensures ObjectsOf(after) == PayloadsIn(Walked(flash, offset, k + 1))
  {
    var w := Walked(flash, offset, k + 1);
    assert w[..|w| - 1] == Walked(flash, offset, k);
    if IsPayload(flash(OffsetAfter(flash, offset, k))) {
      assert ObjectsOf(after) == ObjectsOf(before) + [after[|before|].obj] by {
        forall i | 0 <= i < |before| ensures after[i] == before[i] { assert after[..|before|][i] == before[i]; }
      }
    }
  }

  datatype Act = Verification | Decipher | Check | Nope

  function SignedSize(h: Header): (n: nat)
    ensures n <= Complete(h.size)
  {
    if h.signOfEncrypted then Complete(h.size) else h.size
  }

  /** Bytes read to the load address. */
  function LoadSize(h: Header): (n: nat)
    ensures h.size <= n <= Complete(h.size)
  {
    if h.encrypted then Complete(h.size) else h.size
  }

  function ImageSize(h: Header): nat {
    var n := HEADER_SIZE + (if h.signedObj then SIGNATURE_SIZE else 0) + h.size;
    if h.encrypted then Complete(n) else (n + 3) / 4 * 4
  }

  /** An image takes its header, signature and data, up to the next boundary of
      16 bytes when it is encrypted and of 4 bytes when it is not. */
  lemma {:induction false} ImageCovers(h: Header)
    ensures var n, align := 96 + (if h.signedObj then 384 else 0) + h.size, if h.encrypted then 16 else 4;
            n <= ImageSize(h) < n + align && ImageSize(h) % align == 0
  {}

  function Zeros(n: nat): seq<Byte> { seq(n, _ => 0) }

  ghost predicate FlashOk(flash: nat -> Object) {
    forall o :: Complete(flash(o).header.size) <= |flash(o).body|
  }

  ghost predicate MemoryOk(memory: (nat, nat) -> seq<Byte>) {
    forall a, n :: |memory(a, n)| == n
  }

  /** All payloads were verified under one and the same certificate. */
  ghost predicate AllTrusted(c: Crypto, part: Part, ps: seq<Payload>, signer: Option<Chain>) {
    forall p | p in ps :: Trusted(c, part, p) && p.signer == signer
  }

  /** The first place of an id, or the length. */
  function First(ids: seq<nat>, id: nat): (n: nat)
    ensures n <= |ids| && (n < |ids| ==> ids[n] == id) && forall j | 0 <= j < n :: ids[j] != id
  {
    if |ids| == 0 || ids[0] == id then 0 else 1 + First(ids[1..], id)
  }

  /** The last certificate with this subject. */
  function Latest(cs: seq<Option<Chain>>, name: seq<Byte>): Option<Chain> {
    if |cs| == 0 then None
    else if cs[|cs| - 1].Some? && cs[|cs| - 1].value.cert.subject == name then cs[|cs| - 1]
    else Latest(cs[..|cs| - 1], name)
  }

  function Issuer(root: Cert, cs: seq<Option<Chain>>, name: seq<Byte>): Option<Chain> {
    if root.subject == name then Some(Root(root)) else Latest(cs, name)
  }

  lemma {:induction false} LatestIn(cs: seq<Option<Chain>>, name: seq<Byte>)
    ensures Latest(cs, name).Some? ==> Latest(cs, name) in cs
  {
    if |cs| > 0 { LatestIn(cs[..|cs| - 1], name); }
  }

  function Slots(): seq<Option<Chain>> { seq(MAX_CERTS, _ => None) }
  function NoIds(): seq<nat> { seq(MAX_CERTS, _ => 0) }
}
