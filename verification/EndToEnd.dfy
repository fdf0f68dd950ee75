// The PKCS#11 module against a token: what its objects say of the token's key and
// certificates, which hash and padding each mechanism means, and a whole session from
// C_Initialize to the signature.

module EndToEnd {
  import opened Bytes
  import opened Frames
  import opened InfoCodec
  import opened Pkcs11
  import opened Runs
  import opened Sessions
  import opened Answers
  import opened TokenServer

  // ----- the objects of a logged-in module

  // The attribute holds this number, most significant byte first, without leading zeros.
  predicate Holds(a: AttrValue, n: nat) {
    a.Value? && Num(a.v) == n && (n > 0 ==> a.v != [] && a.v[0] != 0)
  }

  // An RSA key reads as its modulus, exponent and the modulus' length in bits.
  lemma RsaAttributes(t: Token, i: Info, n: nat, e: nat, bits: nat)
    requires t.leaf == Some(RsaPublic(n, e)) && TokenInfo(t) == Some(i) && Acceptable(i)
    requires bits > 0 && Pow2(bits - 1) <= n < Pow2(bits)
    ensures var c := CacheOf(i, t.pin);
      && AttrOne(c, KEY_HANDLE, CKA_KEY_TYPE) == Value(ULong(0x0))
      && Holds(AttrOne(c, KEY_HANDLE, CKA_MODULUS), n)
      && Holds(AttrOne(c, KEY_HANDLE, CKA_PUBLIC_EXPONENT), e)
      && AttrOne(c, KEY_HANDLE, CKA_MODULUS_BITS) == Value(ULong(bits))
      && AttrOne(c, KEY_HANDLE, CKA_EC_PARAMS) == AttrOne(c, KEY_HANDLE, CKA_EC_POINT) == Invalid
  {
    MinBytesMinimal(n);
    MinBytesMinimal(e);
    BitLenBrackets(n, bits);
    hide MinBytes, Num, BitLen, LE, Pow2, AttrOne, KeyAttr, CertAttr, Acceptable, Labelled, DerOctet;
    KeyReads(CacheOf(i, t.pin));
  }

  // A token can be described exactly when its leaf holds an RSA key whose exponent is more
  // than one or an EC key on one of three curves, everything it names is within the
  // client's limits, and the whole fits a frame.
  lemma DescribableIff(t: Token)
    ensures Describable(t) <==>
      && t.leaf.Some?
      && (match t.leaf.value
          case RsaPublic(n, e) => e > 1 && |MinBytes(n)| < 0x1_0000 && |MinBytes(e)| < 0x1_0000
          case EcPublic(curve, _, _) => !curve.OtherCurve?
          case OtherPublic => false)
      && 1 <= |t.alias| <= 128 && 1 <= |t.certs| <= 8 && (forall c :: c in t.certs ==> CertFits(c))
      && |EncodeInfo(TokenInfo(t).value)| <= 0x10_0000
  {
    hide MinBytes, EncodeInfo, CertFits, BE;
    if t.leaf.Some? && t.leaf.value.EcPublic? && !t.leaf.value.curve.OtherCurve? {
      EcFieldsFit(t.leaf.value.curve, t.leaf.value.x, t.leaf.value.y);
    }
  }

  lemma EcFieldsFit(c: Curve, x: nat, y: nat)
    requires !c.OtherCurve?
    ensures CurveOid(c).Some? && |CurveOid(c).value| <= 10 && |Uncompressed(c, x, y)| <= 133
  {
    hide BE;
  }

  // Where the parts of the key are read.
  lemma KeyReads(c: Cache)
    ensures c.keyType == KEY_RSA ==>
      && AttrOne(c, KEY_HANDLE, CKA_KEY_TYPE) == Value(ULong(0x0))
      && AttrOne(c, KEY_HANDLE, CKA_MODULUS) == Value(c.partA)
      && AttrOne(c, KEY_HANDLE, CKA_PUBLIC_EXPONENT) == Value(c.partB)
      && AttrOne(c, KEY_HANDLE, CKA_MODULUS_BITS) == Value(ULong(BitLen(Num(c.partA))))
      && AttrOne(c, KEY_HANDLE, CKA_EC_PARAMS) == AttrOne(c, KEY_HANDLE, CKA_EC_POINT) == Invalid
    ensures c.keyType == KEY_EC ==>
      && AttrOne(c, KEY_HANDLE, CKA_KEY_TYPE) == Value(ULong(0x3))
      && AttrOne(c, KEY_HANDLE, CKA_EC_PARAMS) == Value(c.partA)
      && AttrOne(c, KEY_HANDLE, CKA_EC_POINT) == Value(c.ecPoint)
      && AttrOne(c, KEY_HANDLE, CKA_MODULUS) == AttrOne(c, KEY_HANDLE, CKA_PUBLIC_EXPONENT)
      == AttrOne(c, KEY_HANDLE, CKA_MODULUS_BITS) == Invalid
  {
    hide LE, BitLen, Num;
  }

  // The object identifier of a curve, as its arcs (RFC 5480, section 2.1.1.1).
  function CurveArcs(c: Curve): seq<nat>
    requires !c.OtherCurve?
  {
    match c
    case P256 => [1, 2, 840, 10045, 3, 1, 7]
    case P384 => [1, 3, 132, 0, 34]
    case P521 => [1, 3, 132, 0, 35]
  }

  // A number in base 128, every byte but the last with its top bit set (X.690, section 8.19).
  function Base128(n: nat, last: bool): bytes {
    (if n < 128 then [] else Base128(n / 128, false)) + [n % 128 + if last then 0 else 128]
  }

  function ArcBytes(arcs: seq<nat>): bytes {
    if arcs == [] then [] else Base128(arcs[0], true) + ArcBytes(arcs[1..])
  }

  function DerOid(arcs: seq<nat>): bytes
    requires |arcs| >= 2 && 40 * arcs[0] + arcs[1] < 128 && |ArcBytes(arcs[2..])| < 127
  {
    [0x06, 1 + |ArcBytes(arcs[2..])|, 40 * arcs[0] + arcs[1]] + ArcBytes(arcs[2..])
  }

  lemma CurveOids(c: Curve)
    requires !c.OtherCurve?
    ensures |ArcBytes(CurveArcs(c)[2..])| < 127 && CurveOid(c) == Some(DerOid(CurveArcs(c)))
  {
    match c {
      case P256 =>
        OidP256();
        assert DerOid(CurveArcs(P256)) == CurveOid(P256).value by { hide ArcBytes; }
      case P384 =>
        OidSecg(34);
        assert DerOid(CurveArcs(P384)) == CurveOid(P384).value by { hide ArcBytes; }
      case P521 =>
        OidSecg(35);
        assert DerOid(CurveArcs(P521)) == CurveOid(P521).value by { hide ArcBytes; }
    }
  }

  lemma OidP256()
    ensures ArcBytes([840, 10045, 3, 1, 7]) == [0x86, 0x48, 0xce, 0x3d, 3, 1, 7]
    ensures [1, 2, 840, 10045, 3, 1, 7][2..] == [840, 10045, 3, 1, 7]
  {
    Arc(840, [0x86, 0x48]);
    Arc(10045, [0xce, 0x3d]);
    ArcsStep(840, [10045, 3, 1, 7]);
    ArcsStep(10045, [3, 1, 7]);
    SmallArcs3(3, 1, 7);
    hide Base128, ArcBytes;
    assert [840] + [10045, 3, 1, 7] == [840, 10045, 3, 1, 7] && [10045] + [3, 1, 7] == [10045, 3, 1, 7];
  }

  lemma OidSecg(n: nat)
    requires n < 128
    ensures ArcBytes([132, 0, n]) == [0x81, 0x04, 0, n] && [1, 3, 132, 0, n][2..] == [132, 0, n]
  {
    Arc(132, [0x81, 0x04]);
    ArcsStep(132, [0, n]);
    SmallArcs2(0, n);
    hide Base128, ArcBytes;
    assert [132] + [0, n] == [132, 0, n];
  }

  lemma Arc(n: nat, b: bytes)
    requires 128 <= n < 16384 && b == [n / 128 + 128, n % 128]
    ensures Base128(n, true) == b
  {
    assert Base128(n / 128, false) == [n / 128 + 128];
  }

  lemma ArcsStep(n: nat, arcs: seq<nat>)
    ensures ArcBytes([n] + arcs) == Base128(n, true) + ArcBytes(arcs)
  {
    assert ([n] + arcs)[1..] == arcs;
  }

  lemma SmallArcs2(a: nat, b: nat)
    requires a < 128 && b < 128
    ensures ArcBytes([a, b]) == [a, b]
  {
    ArcsStep(b, []);
    ArcsStep(a, [b]);
    assert [b] + [] == [b] && [a] + [b] == [a, b];
  }

  lemma SmallArcs3(a: nat, b: nat, c: nat)
    requires a < 128 && b < 128 && c < 128
    ensures ArcBytes([a, b, c]) == [a, b, c]
  {
    SmallArcs2(b, c);
    ArcsStep(a, [b, c]);
    assert [a] + [b, c] == [a, b, c];
  }

  // An EC key reads as its curve's object identifier and, inside an OCTET STRING, the
  // marker 04 and its two coordinates.
  lemma EcAttributes(t: Token, i: Info, curve: Curve, x: nat, y: nat)
    requires t.leaf == Some(EcPublic(curve, x, y)) && TokenInfo(t) == Some(i) && Acceptable(i)
    requires x < Pow256(FieldSize(curve)) && y < Pow256(FieldSize(curve))
    ensures !curve.OtherCurve? && |ArcBytes(CurveArcs(curve)[2..])| < 127
    ensures var c := CacheOf(i, t.pin);
      && AttrOne(c, KEY_HANDLE, CKA_KEY_TYPE) == Value(ULong(0x3))
      && AttrOne(c, KEY_HANDLE, CKA_EC_PARAMS) == Value(DerOid(CurveArcs(curve)))
      && AttrOne(c, KEY_HANDLE, CKA_EC_POINT).Value?
      && TakeDerOctet(AttrOne(c, KEY_HANDLE, CKA_EC_POINT).v).Got?
      && PointIs(TakeDerOctet(AttrOne(c, KEY_HANDLE, CKA_EC_POINT).v).item, curve, x, y)
      && AttrOne(c, KEY_HANDLE, CKA_MODULUS) == AttrOne(c, KEY_HANDLE, CKA_PUBLIC_EXPONENT)
      == AttrOne(c, KEY_HANDLE, CKA_MODULUS_BITS) == Invalid
  {
    assert CurveOid(curve).Some? && i.kind == KEY_EC && i.a == CurveOid(curve).value
      && i.b == Uncompressed(curve, x, y);
    assert |i.b| <= 0xffff;
    var c := CacheOf(i, t.pin);
    assert c.keyType == KEY_EC && c.partA == CurveOid(curve).value && c.ecPoint == DerOctet(i.b)
      by { hide DerOctet, Labelled; }
    CurveOids(curve);
    PointReads(curve, x, y);
    hide CacheOf, TakeDerOctet, Uncompressed, CurveOid, DerOid, CurveArcs, ArcBytes, FieldSize, PointIs, TokenInfo,
      AttrOne, Acceptable, DerOctet;
    KeyReads(c);
  }

  lemma PointReads(curve: Curve, x: nat, y: nat)
    requires x < Pow256(FieldSize(curve)) && y < Pow256(FieldSize(curve))
    requires |Uncompressed(curve, x, y)| <= 0xffff
    ensures var t := TakeDerOctet(DerOctet(Uncompressed(curve, x, y))); t.Got? && PointIs(t.item, curve, x, y)
  {
    hide TakeDerOctet, Uncompressed, Num, FieldSize, BitSize, Pow256, BE, DerOctet;
    CoordinatesReadBack(curve, x, y);
    var point := Uncompressed(curve, x, y);
    DerOctetReads(point, []);
    assert DerOctet(point) + [] == DerOctet(point);
  }

  // The marker of an uncompressed point and its two coordinates at the curve's width.
  predicate PointIs(point: bytes, curve: Curve, x: nat, y: nat) {
    var w := FieldSize(curve);
    |point| == 1 + 2 * w && point[0] == 0x04 && Num(point[1..1 + w]) == x && Num(point[1 + w..]) == y
  }

  // The key object and the certificates, whatever the key: what they are, what they are
  // called, and the fields of each certificate in the token's order. The leaf carries the
  // alias and the others the alias up to a NUL, if it has one, and their number.
  lemma ObjectAttributes(t: Token, i: Info, n: nat)
    requires TokenInfo(t) == Some(i) && Acceptable(i) && n < |t.certs|
    ensures var c := CacheOf(i, t.pin);
      && AttrOne(c, KEY_HANDLE, CKA_CLASS) == Value(ULong(CKO_PRIVATE_KEY))
      && AttrOne(c, KEY_HANDLE, CKA_LABEL) == Value(t.alias)
      && ObjectOk(c, 2 + n) && (forall h: nat :: ObjectOk(c, h) <==> 1 <= h <= 1 + |t.certs|)
      && AttrOne(c, 2 + n, CKA_CLASS) == Value(ULong(CKO_CERTIFICATE))
      && AttrOne(c, 2 + n, CKA_VALUE) == Value(t.certs[n].der)
      && AttrOne(c, 2 + n, CKA_SUBJECT) == Value(t.certs[n].subject)
      && AttrOne(c, 2 + n, CKA_ISSUER) == Value(t.certs[n].issuer)
      && AttrOne(c, 2 + n, CKA_SERIAL_NUMBER) == Value(t.certs[n].serial)
      && AttrOne(c, 2 + n, CKA_LABEL)
      == (if n == 0 then Value(t.alias) else Value(UpToNul(t.alias) + [0x2e, 0x63, 0x61, 0x30 + n]))
      && AttrOne(c, 2 + n, CKA_ID) == AttrOne(c, KEY_HANDLE, CKA_ID)
  {
    hide UpToNul, LE, DerOctet, MinBytes, Uncompressed, CurveOid;
  }

  const KEY_ATTRIBUTES: set<nat> :=
    {0x0, 0x1, 0x2, 0x3, 0x100, 0x102, 0x103, 0x104, 0x105, 0x108, 0x162, 0x164, 0x165}

  const CERT_ATTRIBUTES: set<nat> := {0x0, 0x1, 0x2, 0x3, 0x11, 0x80, 0x81, 0x82, 0x101, 0x102}

  function KindAttributes(kind: byte): set<nat> {
    if kind == KEY_RSA then {0x120, 0x121, 0x122} else {0x180, 0x181}
  }

  // Which attributes an object has at all, and which of the key are withheld: exactly the
  // private exponent, primes, exponents and coefficient.
  lemma AttributesIff(c: Cache, h: nat, typ: nat)
    requires ObjectOk(c, h) && (c.keyType == KEY_RSA || c.keyType == KEY_EC)
    ensures AttrOne(c, h, typ).Sensitive? <==> h == KEY_HANDLE && 0x123 <= typ <= 0x128
    ensures AttrOne(c, h, typ).Value? <==>
      typ in (if h == KEY_HANDLE then KEY_ATTRIBUTES + KindAttributes(c.keyType) else CERT_ATTRIBUTES)
  {
    hide LE, BitLen;
  }

  // A flag is one byte. The key signs and does nothing else, never leaves the token and
  // is private; a certificate is not.
  lemma Flags(c: Cache, n: nat)
    requires n < |c.certs|
    ensures AttrOne(c, KEY_HANDLE, CKA_TOKEN) == AttrOne(c, KEY_HANDLE, CKA_PRIVATE) == Value([1])
    ensures AttrOne(c, KEY_HANDLE, CKA_SENSITIVE) == AttrOne(c, KEY_HANDLE, CKA_ALWAYS_SENSITIVE) == Value([1])
    ensures AttrOne(c, KEY_HANDLE, CKA_NEVER_EXTRACTABLE) == AttrOne(c, KEY_HANDLE, CKA_SIGN) == Value([1])
    ensures AttrOne(c, KEY_HANDLE, CKA_EXTRACTABLE) == Value([0])
    ensures AttrOne(c, KEY_HANDLE, CKA_ENCRYPT) == AttrOne(c, KEY_HANDLE, CKA_DECRYPT) == Value([0])
    ensures AttrOne(c, 2 + n, CKA_TOKEN) == Value([1]) && AttrOne(c, 2 + n, CKA_PRIVATE) == Value([0])
  {
    hide LE, BitLen;
  }

  // A CK_ULONG is stored least significant byte first: the network order backwards.
  lemma {:induction false} LittleEndian(n: nat, w: nat, k: nat)
    requires k < w
    ensures LE(n, w)[k] == BE(n, w)[w - 1 - k]
  {
    if k > 0 {
      LittleEndian(n / 256, w - 1, k - 1);
    }
  }

  // ----- mechanisms

  const CKM_RSA_PKCS := 0x1
  const CKM_SHA256_RSA_PKCS := 0x40
  const CKM_SHA384_RSA_PKCS := 0x41
  const CKM_SHA512_RSA_PKCS := 0x42
  const CKM_SHA256_RSA_PKCS_PSS := 0x43
  const CKM_SHA384_RSA_PKCS_PSS := 0x44
  const CKM_SHA512_RSA_PKCS_PSS := 0x45
  const CKM_ECDSA := 0x1041
  const CKM_ECDSA_SHA256 := 0x1044
  const CKM_ECDSA_SHA384 := 0x1045
  const CKM_ECDSA_SHA512 := 0x1046

  function Made(sig: Option<bytes>): Signed {
    if sig.None? then Failed else Signed(sig.value)
  }

  // What an RSA key signs under each mechanism: the message itself or its digest, under
  // the padding and hash the mechanism's name says.
  lemma RsaMechanisms(n: nat, c: Crypto, data: bytes)
    ensures var key := RsaPrivate(n);
      && SignWith(key, c, CKM_RSA_PKCS, data) == Made(c.rsa(Pkcs1, Raw, data))
      && SignWith(key, c, CKM_SHA256_RSA_PKCS, data) == Made(c.rsa(Pkcs1, Sha256, c.digest(Sha256, data)))
      && SignWith(key, c, CKM_SHA384_RSA_PKCS, data) == Made(c.rsa(Pkcs1, Sha384, c.digest(Sha384, data)))
      && SignWith(key, c, CKM_SHA512_RSA_PKCS, data) == Made(c.rsa(Pkcs1, Sha512, c.digest(Sha512, data)))
      && SignWith(key, c, CKM_SHA256_RSA_PKCS_PSS, data) == Made(c.rsa(Pss, Sha256, c.digest(Sha256, data)))
      && SignWith(key, c, CKM_SHA384_RSA_PKCS_PSS, data) == Made(c.rsa(Pss, Sha384, c.digest(Sha384, data)))
      && SignWith(key, c, CKM_SHA512_RSA_PKCS_PSS, data) == Made(c.rsa(Pss, Sha512, c.digest(Sha512, data)))
  {
  }

  // The bytes of a coordinate or of half a signature: the least that hold the curve's bits.
  lemma Widths(c: Curve)
    ensures FieldSize(c) == match c case P256 => 32 case P384 => 48 case P521 => 66 case OtherCurve => 0
  {
  }

  // An EC signature is the two numbers side by side, each at the curve's width.
  predicate Halves(made: Signed, curve: Curve, nums: Option<(nat, nat)>) {
    match nums
    case None => made == Failed
    case Some((r, s)) =>
      var w := FieldSize(curve);
      made.Signed? && |made.sig| == 2 * w
      && (r < Pow256(w) && s < Pow256(w) ==> Num(made.sig[..w]) == r && Num(made.sig[w..]) == s)
  }

  // What an EC key signs under each mechanism, the empty message of the raw one refused.
  lemma EcMechanisms(curve: Curve, c: Crypto, data: bytes)
    requires Sound(EcPrivate(curve), c)
    ensures var key := EcPrivate(curve);
      && (if data == [] then SignWith(key, c, CKM_ECDSA, data) == Rejected
          else Halves(SignWith(key, c, CKM_ECDSA, data), curve, c.ecdsa(data)))
      && Halves(SignWith(key, c, CKM_ECDSA_SHA256, data), curve, c.ecdsa(c.digest(Sha256, data)))
      && Halves(SignWith(key, c, CKM_ECDSA_SHA384, data), curve, c.ecdsa(c.digest(Sha384, data)))
      && Halves(SignWith(key, c, CKM_ECDSA_SHA512, data), curve, c.ecdsa(c.digest(Sha512, data)))
  {
    hide Halves;
    if data != [] {
      SignsDigest(curve, c, CKM_ECDSA, data, data);
    }
    SignsDigest(curve, c, CKM_ECDSA_SHA256, data, c.digest(Sha256, data));
    SignsDigest(curve, c, CKM_ECDSA_SHA384, data, c.digest(Sha384, data));
    SignsDigest(curve, c, CKM_ECDSA_SHA512, data, c.digest(Sha512, data));
  }

  lemma SignsDigest(curve: Curve, c: Crypto, mech: nat, data: bytes, digest: bytes)
    requires EcHash(mech).Some? && digest == Hashed(c, EcHash(mech).value, data) && digest != []
    ensures Halves(SignWith(EcPrivate(curve), c, mech, data), curve, c.ecdsa(digest))
  {
    assert SignWith(EcPrivate(curve), c, mech, data) ==
      match c.ecdsa(digest)
      case None => Failed
      case Some((r, s)) => Signed(RawEcdsa(curve, r, s));
    hide SignWith, EcHash;
    match c.ecdsa(digest) {
      case None =>
      case Some((r, s)) => HalvesMade(curve, r, s);
    }
  }

  lemma HalvesMade(curve: Curve, r: nat, s: nat)
    ensures Halves(Signed(RawEcdsa(curve, r, s)), curve, Some((r, s)))
  {
    hide BE, Num, FieldSize;
    var w := FieldSize(curve);
    if r < Pow256(w) && s < Pow256(w) {
      HalvesReadBack(curve, r, s);
    }
  }

  // ----- a whole session

  function Joined(parts: seq<Memory>): bytes {
    if parts == [] then [] else Joined(parts[..|parts| - 1]) + parts[|parts| - 1]
  }

  // One C_SignUpdate for each part, with memory to be had.
  function Updates(h: nat, parts: seq<Memory>): (calls: seq<Call>)
    ensures |calls| == |parts|
  {
    seq(|parts|, k requires 0 <= k < |parts| => SignUpdate(h, Mem(parts[k]), true))
  }

  // C_Initialize, C_OpenSession, C_Login answered by the token, C_SignInit.
  function Opening(t: Token, pin: Memory, mech: nat): seq<Call> {
    LoginCalls(t, pin) + [SignInit(1, Some(mech), KEY_HANDLE)]
  }

  function LoginCalls(t: Token, pin: Memory): seq<Call> {
    [Initialize(false)] + [OpenSession(0, 4, true)]
    + [Login(1, CKU_USER, Mem(pin), Answer(Served(t, Frame(OP_INFO, InfoRequest(pin)))))]
  }

  // Whatever the token, if it can be described, and whatever message of at most 2^20 - 42
  // bytes, cut into any parts: a program that starts the module, opens a session, logs in
  // with the token's PIN, starts a signature under a mechanism of the key, gives the
  // parts, asks for the length and fetches with that much room is answered CKR_OK all
  // along, and receives the token's signature over the whole message.
  lemma SessionEndToEnd(t: Token, pin: Memory, mech: nat, parts: seq<Memory>, i: Info, sig: bytes, net: Net)
    requires pin == t.pin && |t.pin| == PIN_LEN && t.leaf.Some? && t.key.Some?
    requires Pair(t.leaf.value, t.key.value) && Sound(t.key.value, t.crypto)
    requires Describable(t) && TokenInfo(t) == Some(i)
    requires mech in if i.kind == KEY_RSA then RSA_MECHS else EC_MECHS
    requires |Joined(parts)| <= MAX_FRAME - OVERHEAD
    requires SignWith(t.key.value, t.crypto, mech, Joined(parts)) == Signed(sig)
    ensures var calls := Opening(t, pin, mech) + Updates(1, parts);
      var req := Frame(OP_SIGN, SignRequest(pin, mech, Joined(parts)));
      && AllAccepted(calls)
      && DoSignFinal(Run(calls), 1, Query, net) == (Run(calls), Reply(CKR_OK, Length(|sig|), []))
      && DoSignFinal(Run(calls), 1, Room(|sig|), Answer(Served(t, req))).1 == Reply(CKR_OK, Signature(sig), req)
  {
    var opening, updates := Opening(t, pin, mech), Updates(1, parts);
    var calls, data := opening + updates, Joined(parts);
    PredictedHere(t, i, pin, mech, data);
    assert AllUpdates(updates);
    hide *;
    OpeningWorks(t, pin, mech, i);
    UpdatesStream(1, parts);
    StreamAccepted(opening, updates, 1);
    TakenMeans(opening, updates, 1);
    AllUpdatesOk(opening, 1, parts);
    UpdatesKeepCache(opening, updates);
    assert [] + data == data;
    MultiPartEndToEnd(t, calls, 1, |sig|, i, sig, net);
    PinIsLoginPin(calls);
    CachePin(i, pin);
  }

  // Every call of the run was answered CKR_OK.
  predicate AllAccepted(calls: seq<Call>) {
    forall n :: 0 < n <= |calls| ==> LastReply(calls[..n]).rv == CKR_OK
  }

  lemma AcceptedSnoc(calls: seq<Call>, c: Call)
    requires AllAccepted(calls) && Apply(Run(calls), c).1.rv == CKR_OK
    ensures AllAccepted(calls + [c])
  {
    var more := calls + [c];
    RunStep(more);
    assert more[..|more| - 1] == calls && more[|more| - 1] == c;
    hide Run, Apply, LastReply;
    forall n | 0 < n <= |more|
      ensures LastReply(more[..n]).rv == CKR_OK
    {
      if n <= |calls| {
        assert more[..n] == calls[..n];
      } else {
        assert more[..n] == more;
      }
    }
  }

  lemma PredictedHere(t: Token, i: Info, pin: Memory, mech: nat, data: bytes)
    requires pin == t.pin && |t.pin| == PIN_LEN && t.leaf.Some? && t.key.Some?
    requires Pair(t.leaf.value, t.key.value) && Sound(t.key.value, t.crypto)
    requires Describable(t) && TokenInfo(t) == Some(i)
    requires SignWith(t.key.value, t.crypto, mech, data).Signed?
    ensures Acceptable(i) && |SignWith(t.key.value, t.crypto, mech, data).sig| == SigLen(CacheOf(i, pin))
  {
    var fields := PublicFields(t.leaf.value);
    assert fields == Some((i.kind, i.a, i.b)) by {
      hide CurveOid, MinBytes, Uncompressed;
    }
    hide SignWith, Sound, Pair, Acceptable, CacheOf, PublicFields;
    PredictedLength(t.leaf.value, t.key.value, t.crypto, i, pin, mech, data);
  }

  lemma CachePin(i: Info, pin: bytes)
    requires Acceptable(i)
    ensures CacheOf(i, pin).loggedIn && CacheOf(i, pin).pin == pin && CacheOf(i, pin).keyType == i.kind
  {
    hide DerOctet, Labelled;
  }

  // The opening reaches a session that signs, holding nothing yet, under this mechanism.
  lemma OpeningWorks(t: Token, pin: Memory, mech: nat, i: Info)
    requires pin == t.pin && |t.pin| == PIN_LEN && Describable(t) && TokenInfo(t) == Some(i)
    requires mech in if i.kind == KEY_RSA then RSA_MECHS else EC_MECHS
    ensures Acceptable(i)
    ensures var calls := Opening(t, pin, mech);
      && AllAccepted(calls) && Run(calls).cache == CacheOf(i, pin) && Run(calls).slots[0].signing
      && Parts(calls, 1) == [] && Mechanism(calls, 1) == mech
  {
    var before, c := LoginCalls(t, pin), SignInit(1, Some(mech), KEY_HANDLE);
    LoginWorks(t, pin, i);
    CachePin(i, pin);
    SignInitWorks(Run(before), mech);
    hide Describable, TokenInfo, LoginCalls, Apply, CacheOf, Acceptable, Run, AllAccepted;
    AcceptedSnoc(before, c);
    RunSnoc(before, c);
    assert (before + [c])[..|before|] == before;
  }

  lemma SignInitWorks(m: State, mech: nat)
    requires Inv(m) && m.initialized && IsOpen(m, 1) && m.cache.loggedIn && !m.slots[0].signing
    requires mech in if m.cache.keyType == KEY_RSA then RSA_MECHS else EC_MECHS
    ensures var (m', r) := Apply(m, SignInit(1, Some(mech), KEY_HANDLE));
      r.rv == CKR_OK && m'.cache == m.cache && m'.slots[0].signing
  {
    hide Inv;
    var c := SignInit(1, Some(mech), KEY_HANDLE);
    assert AllPass(Checks(m, c));
    hide Checks, AllPass, Apply;
    AcceptedHasEffect(m, c);
  }

  lemma LoginWorks(t: Token, pin: Memory, i: Info)
    requires pin == t.pin && |t.pin| == PIN_LEN && Describable(t) && TokenInfo(t) == Some(i)
    ensures Acceptable(i)
    ensures var m := Run(LoginCalls(t, pin));
      && AllAccepted(LoginCalls(t, pin)) && m.initialized && IsOpen(m, 1) && m.cache == CacheOf(i, pin)
      && !m.slots[0].signing
  {
    assert Acceptable(i) && IsOpen(READY, 1) && !READY.cache.loggedIn;
    var two := [Initialize(false)] + [OpenSession(0, 4, true)];
    var net := Answer(Served(t, Frame(OP_INFO, InfoRequest(pin))));
    TwoAccepted();
    hide Describable, TokenInfo, CacheOf, Acceptable, Frame, Served, InfoRequest, Run, DoLogin, Apply, AllAccepted;
    OpenedRun();
    LoginEndToEnd(t, READY, 1);
    LoginIs(READY, pin, net);
    AcceptedSnoc(two, Login(1, CKU_USER, Mem(pin), net));
    RunSnoc(two, Login(1, CKU_USER, Mem(pin), net));
  }

  lemma LoginIs(m: State, pin: Memory, net: Net)
    ensures Apply(m, Login(1, CKU_USER, Mem(pin), net)) == DoLogin(m, 1, CKU_USER, Mem(pin), net)
  {
    hide DoLogin;
  }

  lemma TwoAccepted()
    ensures AllAccepted([Initialize(false)] + [OpenSession(0, 4, true)])
  {
    assert Run([]) == LOADED && [] + [Initialize(false)] == [Initialize(false)];
    assert AllAccepted([]);
    assert Apply(LOADED, Initialize(false)) == (LOADED.(initialized := true), Fail(CKR_OK));
    assert Apply(LOADED.(initialized := true), OpenSession(0, 4, true)).1.rv == CKR_OK;
    hide Run, Apply, AllAccepted;
    AcceptedSnoc([], Initialize(false));
    RunSnoc([], Initialize(false));
    AcceptedSnoc([Initialize(false)], OpenSession(0, 4, true));
  }

  lemma {:induction false} UpdatesStream(h: nat, parts: seq<Memory>)
    ensures Streams(Updates(h, parts), h) && Streamed(Updates(h, parts), h) == Joined(parts)
  {
    if parts != [] {
      var front := parts[..|parts| - 1];
      UpdatesStream(h, front);
      UpdatesSnoc(h, parts);
    }
  }

  lemma UpdatesSnoc(h: nat, parts: seq<Memory>)
    requires parts != []
    ensures var calls := Updates(h, parts);
      && calls[..|calls| - 1] == Updates(h, parts[..|parts| - 1])
      && calls[|calls| - 1] == SignUpdate(h, Mem(parts[|parts| - 1]), true)
      && calls == Updates(h, parts[..|parts| - 1]) + [SignUpdate(h, Mem(parts[|parts| - 1]), true)]
  {
  }

  lemma AllUpdatesOk(opening: seq<Call>, h: nat, parts: seq<Memory>)
    requires AllAccepted(opening) && AllOk(opening, Updates(h, parts), h)
    ensures AllAccepted(opening + Updates(h, parts))
  {
    hide LastReply;
    var updates := Updates(h, parts);
    var calls := opening + updates;
    forall n | 0 < n <= |calls|
      ensures LastReply(calls[..n]).rv == CKR_OK
    {
      if n <= |opening| {
        assert calls[..n] == opening[..n];
      } else {
        var k := n - |opening| - 1;
        assert Part(updates[k], h) && calls[..n] == opening + updates[..k + 1];
      }
    }
  }

  predicate AllUpdates(more: seq<Call>) {
    forall k :: 0 <= k < |more| ==> more[k].SignUpdate?
  }

  lemma {:induction false} UpdatesKeepCache(calls: seq<Call>, more: seq<Call>)
    requires AllUpdates(more)
    ensures Run(calls + more).cache == Run(calls).cache
  {
    if more == [] {
      NothingMore(calls);
    } else {
      var front, c := more[..|more| - 1], more[|more| - 1];
      assert AllUpdates(front) && c.SignUpdate?;
      LastApart(calls, more);
      hide *;
      UpdatesKeepCache(calls, front);
      UpdateRuns(calls + front, c);
    }
  }

  lemma NothingMore(calls: seq<Call>)
    ensures calls + [] == calls
  {
  }

  lemma LastApart(calls: seq<Call>, more: seq<Call>)
    requires more != []
    ensures calls + more == (calls + more[..|more| - 1]) + [more[|more| - 1]]
  {
  }

  lemma UpdateRuns(calls: seq<Call>, c: Call)
    requires c.SignUpdate?
    ensures Run(calls + [c]).cache == Run(calls).cache
  {
    hide *;
    RunSnoc(calls, c);
    UpdateKeepsCache(Run(calls), c);
  }

  lemma UpdateKeepsCache(m: State, c: Call)
    requires c.SignUpdate?
    ensures Apply(m, c).0.cache == m.cache
  {
    hide CapFor;
  }
}
