// The signing server (token/token.go, token/sign.go): what it writes for each
// request, and that the PKCS#11 client gets back exactly what the key signed.

module TokenServer {
  import opened Bytes
  import opened Frames
  import opened InfoCodec
  import opened Pkcs11
  import opened Runs

  // ----- keys and signatures

  datatype Curve = P256 | P384 | P521 | OtherCurve

  datatype PublicKey = RsaPublic(n: nat, e: nat) | EcPublic(curve: Curve, x: nat, y: nat) | OtherPublic

  // What signing needs to know of a private key; the secret itself is inside Crypto.
  datatype PrivateKey = RsaPrivate(n: nat) | EcPrivate(curve: Curve) | OtherPrivate

  datatype Hash = Raw | Sha256 | Sha384 | Sha512

  datatype Padding = Pkcs1 | Pss

  // The cryptographic library, for one private key.
  datatype Crypto = Crypto(digest: (Hash, bytes) -> bytes,
                           rsa: (Padding, Hash, bytes) -> Option<bytes>,
                           ecdsa: bytes -> Option<(nat, nat)>)

  datatype Signed = Signed(sig: bytes) | Rejected | Failed

  function BitSize(c: Curve): nat {
    match c
    case P256 => 256
    case P384 => 384
    case P521 => 521
    case OtherCurve => 0
  }

  function FieldSize(c: Curve): nat {
    (BitSize(c) + 7) / 8
  }

  // big.Int.Bytes: no leading zero byte.
  function MinBytes(n: nat): bytes {
    if n == 0 then [] else MinBytes(n / 256) + [n % 256]
  }

  lemma {:induction false} MinBytesMinimal(n: nat)
    ensures Num(MinBytes(n)) == n
    ensures n > 0 ==> MinBytes(n) != [] && MinBytes(n)[0] != 0
  {
    if n > 0 {
      MinBytesMinimal(n / 256);
      var b := MinBytes(n);
      assert b[..|b| - 1] == MinBytes(n / 256);
    }
  }

  // rawECDSA and uncompressed, by FillBytes into halves of the field size.
  function RawEcdsa(c: Curve, r: nat, s: nat): bytes {
    BE(r, FieldSize(c)) + BE(s, FieldSize(c))
  }

  function Uncompressed(c: Curve, x: nat, y: nat): bytes {
    [0x04] + BE(x, FieldSize(c)) + BE(y, FieldSize(c))
  }

  // FillBytes into out[lo..lo + size].
  method FillBytes(out: array<byte>, lo: nat, size: nat, n: nat)
    requires lo + size <= out.Length
    modifies out
    ensures out[lo..lo + size] == BE(n, size)
    ensures forall i :: 0 <= i < out.Length && !(lo <= i < lo + size) ==> out[i] == old(out[i])
  {
    hide BE;
    var b := BE(n, size);
    for i := 0 to size
      invariant forall k :: 0 <= k < i ==> out[lo + k] == b[k]
      invariant forall k :: 0 <= k < out.Length && !(lo <= k < lo + i) ==> out[k] == old(out[k])
    {
      out[lo + i] := b[i];
    }
  }

  method FillRawEcdsa(c: Curve, r: nat, s: nat) returns (out: array<byte>)
    ensures fresh(out) && out[..] == RawEcdsa(c, r, s)
  {
    hide BE, FieldSize;
    var size := FieldSize(c);
    out := new byte[2 * size](_ => 0);
    FillBytes(out, 0, size, r);
    ghost var first := out[..size];
    FillBytes(out, size, size, s);
    assert out[..size] == first;
    assert out[..] == out[..size] + out[size..2 * size];
  }

  method FillUncompressed(c: Curve, x: nat, y: nat) returns (out: array<byte>)
    ensures fresh(out) && out[..] == Uncompressed(c, x, y)
  {
    hide BE, FieldSize;
    var size := FieldSize(c);
    out := new byte[1 + 2 * size](_ => 0);
    out[0] := 0x04;
    FillBytes(out, 1, size, x);
    ghost var first := out[1..1 + size];
    FillBytes(out, 1 + size, size, y);
    assert out[..1] == [0x04] && out[1..1 + size] == first;
    assert out[..] == out[..1] + out[1..1 + size] + out[1 + size..1 + 2 * size];
  }

  // Both halves of a signature, and both coordinates of a point, read back at their
  // fixed width however small the numbers are.
  lemma HalvesReadBack(c: Curve, r: nat, s: nat)
    requires r < Pow256(FieldSize(c)) && s < Pow256(FieldSize(c))
    ensures var n, sig := FieldSize(c), RawEcdsa(c, r, s); |sig| == 2 * n && Num(sig[..n]) == r && Num(sig[n..]) == s
  {
    hide BE, Num, FieldSize;
    var n := FieldSize(c);
    NumBE(r, n);
    NumBE(s, n);
    var sig := RawEcdsa(c, r, s);
    assert sig[..n] == BE(r, n) && sig[n..] == BE(s, n);
  }

  lemma CoordinatesReadBack(c: Curve, x: nat, y: nat)
    requires x < Pow256(FieldSize(c)) && y < Pow256(FieldSize(c))
    ensures var n, point := FieldSize(c), Uncompressed(c, x, y);
      |point| == 1 + 2 * n && point[0] == 0x04 && Num(point[1..1 + n]) == x && Num(point[1 + n..]) == y
  {
    hide BE, Num, FieldSize;
    var n := FieldSize(c);
    NumBE(x, n);
    NumBE(y, n);
    var point := Uncompressed(c, x, y);
    assert point[1..1 + n] == BE(x, n) && point[1 + n..] == BE(y, n);
  }

  function CurveOid(c: Curve): Option<bytes> {
    match c
    case P256 => Some([0x06, 0x08, 0x2a, 0x86, 0x48, 0xce, 0x3d, 0x03, 0x01, 0x07])
    case P384 => Some([0x06, 0x05, 0x2b, 0x81, 0x04, 0x00, 0x22])
    case P521 => Some([0x06, 0x05, 0x2b, 0x81, 0x04, 0x00, 0x23])
    case OtherCurve => None
  }

  function PublicFields(k: PublicKey): Option<(byte, bytes, bytes)> {
    match k
    case RsaPublic(n, e) => if e <= 1 then None else Some((KEY_RSA, MinBytes(n), MinBytes(e)))
    case EcPublic(c, x, y) =>
      if CurveOid(c).None? then None else Some((KEY_EC, CurveOid(c).value, Uncompressed(c, x, y)))
    case OtherPublic => None
  }

  function RsaHash(mech: nat): Option<(Padding, Hash)> {
    match mech
    case 0x01 => Some((Pkcs1, Raw))
    case 0x40 => Some((Pkcs1, Sha256))
    case 0x41 => Some((Pkcs1, Sha384))
    case 0x42 => Some((Pkcs1, Sha512))
    case 0x43 => Some((Pss, Sha256))
    case 0x44 => Some((Pss, Sha384))
    case 0x45 => Some((Pss, Sha512))
    case _ => None
  }

  function EcHash(mech: nat): Option<Hash> {
    match mech
    case 0x1041 => Some(Raw)
    case 0x1044 => Some(Sha256)
    case 0x1045 => Some(Sha384)
    case 0x1046 => Some(Sha512)
    case _ => None
  }

  function Hashed(c: Crypto, h: Hash, data: bytes): bytes {
    if h == Raw then data else c.digest(h, data)
  }

  // signPKCS8
  function SignWith(key: PrivateKey, c: Crypto, mech: nat, data: bytes): Signed {
    match key
    case RsaPrivate(n) =>
      (match RsaHash(mech)
       case None => Rejected
       case Some((padding, h)) =>
         match c.rsa(padding, h, Hashed(c, h, data))
         case None => Failed
         case Some(sig) => Signed(sig))
    case EcPrivate(curve) =>
      (match EcHash(mech)
       case None => Rejected
       case Some(h) =>
         var d := Hashed(c, h, data);
         if d == [] then Rejected
         else
           match c.ecdsa(d)
           case None => Failed
           case Some((r, s)) => Signed(RawEcdsa(curve, r, s)))
    case OtherPrivate => Rejected
  }

  // What is assumed of the library: digests are not empty and RSA signatures are
  // as long as the modulus.
  ghost predicate Sound(key: PrivateKey, c: Crypto) {
    && (forall h, x {:trigger c.digest(h, x)} :: c.digest(h, x) != [])
    && (key.RsaPrivate? ==> forall p, h, x, sig {:trigger c.rsa(p, h, x), Some(sig)} ::
          c.rsa(p, h, x) == Some(sig) ==> |sig| == |MinBytes(key.n)|)
  }

  // The mechanism check of C_SignInit and the dispatch of the server agree: an
  // admitted mechanism is refused only for an empty message under raw ECDSA.
  lemma AdmittedMechanisms(key: PrivateKey, c: Crypto, mech: nat, data: bytes)
    requires Sound(key, c) && !key.OtherPrivate?
    ensures SignWith(key, c, mech, data) == Rejected <==>
      !(if key.RsaPrivate? then RsaMech(mech) else EcMech(mech)) || (key.EcPrivate? && mech == 0x1041 && data == [])
  {
  }

  // The length predicted by the client from the public key is the length of every signature.
  lemma PredictedLength(public: PublicKey, key: PrivateKey, c: Crypto, i: Info, pin: bytes, mech: nat, data: bytes)
    requires Sound(key, c) && Pair(public, key) && Acceptable(i)
    requires PublicFields(public) == Some((i.kind, i.a, i.b))
    requires SignWith(key, c, mech, data).Signed?
    ensures |SignWith(key, c, mech, data).sig| == SigLen(CacheOf(i, pin))
  {
    hide DerOctet, Labelled, MinBytes;
    if key.RsaPrivate? {
      var (p, h) := RsaHash(mech).value;
      var r := c.rsa(p, h, Hashed(c, h, data));
      assert r == Some(r.value);
    }
  }

  // The private half of a public key (pubEqual when the vault is sealed).
  predicate Pair(public: PublicKey, key: PrivateKey) {
    match public
    case RsaPublic(n, _) => key == RsaPrivate(n)
    case EcPublic(c, _, _) => key == EcPrivate(c)
    case OtherPublic => false
  }

  // ----- the server

  datatype Proof = BadWindow | ProofFailed | Proof(sig: bytes)

  // A token as its handlers see it. leaf is the parsed public key of the first
  // certificate, key what the vault hands to the callback (None when it fails), pubkey
  // the 32-byte Nostr key or zeros, proof the outcome of a NIP-C1 request at this
  // moment. A token is never started without certificates.
  datatype Token = Token(alias: bytes, pin: bytes, certs: seq<CertFields>, leaf: Option<PublicKey>,
                         key: Option<PrivateKey>, crypto: Crypto,
                         pubkey: bytes, proof: (nat, nat) -> Proof)

  // The unset Nostr key.
  const NO_PUBKEY: bytes := seq(32, _ => 0)

  function TokenInfo(t: Token): Option<Info> {
    if t.leaf.None? || PublicFields(t.leaf.value).None? then None
    else
      var (kind, a, b) := PublicFields(t.leaf.value).value;
      Some(Info(t.alias, kind, a, b, t.certs))
  }

  function ServeInfo(t: Token, body: bytes): bytes {
    match TakePin(body)
    case Short => Written(STATUS_PIN, [])
    case Got(pin, rest) =>
      if rest != [] || pin != t.pin then Written(STATUS_PIN, [])
      else if TokenInfo(t).None? || !InfoFits(TokenInfo(t).value) then Written(STATUS_FAILED, [])
      else Written(STATUS_OK, EncodeInfo(TokenInfo(t).value))
  }

  function ServeSign(t: Token, body: bytes): bytes {
    match TakePin(body)
    case Short => Written(STATUS_PIN, [])
    case Got(pin, rest) =>
      if pin != t.pin then Written(STATUS_PIN, [])
      else if |rest| < 8 || Num(rest[4..8]) != |rest| - 8 then Written(STATUS_BAD, [])
      else if t.key.None? then Written(STATUS_FAILED, [])
      else
        match SignWith(t.key.value, t.crypto, Num(rest[..4]), rest[8..])
        case Rejected => Written(STATUS_MECHANISM, [])
        case Failed => Written(STATUS_FAILED, [])
        case Signed(sig) => Written(STATUS_OK, Field(sig, 4))
  }

  function ServeProof(t: Token, body: bytes): bytes {
    match TakePin(body)
    case Short => Written(STATUS_PIN, [])
    case Got(pin, rest) =>
      if pin != t.pin then Written(STATUS_PIN, [])
      else if |rest| != 16 || t.pubkey == NO_PUBKEY || t.certs == [] then Written(STATUS_BAD, [])
      else
        match t.proof(Num(rest[..8]), Num(rest[8..]))
        case BadWindow => Written(STATUS_BAD, [])
        case ProofFailed => Written(STATUS_FAILED, [])
        case Proof(sig) => Written(STATUS_OK, t.pubkey + t.crypto.digest(Sha256, t.certs[0].der) + Field(sig, 4))
  }

  // Everything the server writes to a connection on which it reads this stream.
  function Served(t: Token, stream: bytes): bytes {
    match Unframe(stream)
    case NoFrame => []
    case Received(op, body, _) =>
      if op == OP_INFO then ServeInfo(t, body)
      else if op == OP_SIGN then ServeSign(t, body)
      else if op == OP_PROOF then ServeProof(t, body)
      else Written(STATUS_BAD, [])
  }

  // handle and the serve functions, step by step on a connection.
  method Handle(t: Token, conn: Conn)
    modifies conn
    ensures conn.sent == old(conn.sent) + Served(t, old(conn.pending))
  {
    hide Unframe, Written, ServeInfo, ServeSign, ServeProof;
    var ok, op, body := conn.ReadFrame();
    if !ok {
      return;
    }
    if op == OP_INFO {
      HandleInfo(t, body, conn);
    } else if op == OP_SIGN {
      HandleSign(t, body, conn);
    } else if op == OP_PROOF {
      HandleProof(t, body, conn);
    } else {
      conn.WriteFrame(STATUS_BAD, []);
    }
  }

  method HandleInfo(t: Token, body: bytes, conn: Conn)
    modifies conn`sent
    ensures conn.sent == old(conn.sent) + ServeInfo(t, body)
  {
    hide Written, TakePin, PublicFields, InfoFits, EncodeInfo;
    var p := TakePin(body);
    if p.Short? || p.rest != [] || p.item != t.pin {
      conn.WriteFrame(STATUS_PIN, []);
      return;
    }
    if t.leaf.None? || PublicFields(t.leaf.value).None? {
      conn.WriteFrame(STATUS_FAILED, []);
      return;
    }
    var (kind, a, b) := PublicFields(t.leaf.value).value;
    var ok, payload := InfoBody(Info(t.alias, kind, a, b, t.certs));
    if !ok {
      conn.WriteFrame(STATUS_FAILED, []);
      return;
    }
    conn.WriteFrame(STATUS_OK, payload);
  }

  method HandleSign(t: Token, body: bytes, conn: Conn)
    modifies conn`sent
    ensures conn.sent == old(conn.sent) + ServeSign(t, body)
  {
    hide Written, TakePin, SignWith, Field;
    var p := TakePin(body);
    if p.Short? || p.item != t.pin {
      conn.WriteFrame(STATUS_PIN, []);
      return;
    }
    var rest := p.rest;
    if |rest| < 8 || Num(rest[4..8]) != |rest| - 8 {
      conn.WriteFrame(STATUS_BAD, []);
      return;
    }
    var mech, data := Num(rest[..4]), rest[8..];
    var made := if t.key.None? then Failed else SignWith(t.key.value, t.crypto, mech, data);
    match made {
      case Rejected => conn.WriteFrame(STATUS_MECHANISM, []);
      case Failed => conn.WriteFrame(STATUS_FAILED, []);
      case Signed(sig) => conn.WriteFrame(STATUS_OK, Field(sig, 4));
    }
  }

  method HandleProof(t: Token, body: bytes, conn: Conn)
    modifies conn`sent
    ensures conn.sent == old(conn.sent) + ServeProof(t, body)
  {
    hide Written, TakePin, Field;
    var p := TakePin(body);
    if p.Short? || p.item != t.pin {
      conn.WriteFrame(STATUS_PIN, []);
      return;
    }
    var rest := p.rest;
    if |rest| != 16 || t.pubkey == NO_PUBKEY || t.certs == [] {
      conn.WriteFrame(STATUS_BAD, []);
      return;
    }
    match t.proof(Num(rest[..8]), Num(rest[8..])) {
      case BadWindow => conn.WriteFrame(STATUS_BAD, []);
      case ProofFailed => conn.WriteFrame(STATUS_FAILED, []);
      case Proof(sig) =>
        conn.WriteFrame(STATUS_OK, t.pubkey + t.crypto.digest(Sha256, t.certs[0].der) + Field(sig, 4));
    }
  }

  // ----- client and server together

  // Bytes around the message in a sign request: PIN field, mechanism, data length.
  const OVERHEAD := 42

  function Expected(t: Token, mech: nat, data: bytes): (nat, bytes) {
    if t.key.None? then (CKR_GENERAL_ERROR, [])
    else
      match SignWith(t.key.value, t.crypto, mech, data)
      case Rejected => (CKR_MECHANISM_INVALID, [])
      case Failed => (CKR_GENERAL_ERROR, [])
      case Signed(sig) => if |sig| + 4 > MAX_FRAME then (CKR_DEVICE_ERROR, []) else (CKR_OK, sig)
  }

  lemma ServedFrame(t: Token, op: byte, body: bytes)
    requires |body| < 0x1_0000_0000
    ensures Served(t, Frame(op, body)) ==
      if |body| > MAX_FRAME then []
      else if op == OP_INFO then ServeInfo(t, body)
      else if op == OP_SIGN then ServeSign(t, body)
      else if op == OP_PROOF then ServeProof(t, body)
      else Written(STATUS_BAD, [])
  {
    hide Unframe, Frame, ServeInfo, ServeSign, ServeProof, Written;
    FrameRoundTrip(op, body, []);
    assert Frame(op, body) + [] == Frame(op, body);
  }

  // What the client makes of what the server wrote.
  lemma RpcOfWritten(status: byte, body: bytes)
    ensures Rpc(Answer(Written(status, body)))
         == if |body| > MAX_FRAME then RpcError(CKR_DEVICE_ERROR) else RpcReply(status, body)
  {
    hide Frame;
    assert Unframe([]) == NoFrame;
    hide Unframe;
    if |body| <= MAX_FRAME {
      FrameRoundTrip(status, body, []);
      assert Frame(status, body) + [] == Frame(status, body);
    }
  }

  lemma SignatureReads(sig: bytes, sent: bytes)
    requires |sig| + 4 <= MAX_FRAME
    ensures SignAnswer(RpcReply(STATUS_OK, Field(sig, 4)), sent) == SignResult(CKR_OK, sig, sent)
  {
    SmallPowers();
    NumBE(|sig|, 4);
    hide BE, Num;
    assert Field(sig, 4)[..4] == BE(|sig|, 4) && Field(sig, 4)[4..] == sig;
  }

  // A sign request parses on the server to the client's mechanism and data.
  lemma RequestParses(t: Token, mech: nat, data: bytes)
    requires |t.pin| == PIN_LEN && mech < 0x1_0000_0000 && |data| < 0x1_0000_0000
    ensures var made := if t.key.None? then Failed else SignWith(t.key.value, t.crypto, mech, data);
      ServeSign(t, SignRequest(t.pin, mech, data)) == match made
        case Rejected => Written(STATUS_MECHANISM, [])
        case Failed => Written(STATUS_FAILED, [])
        case Signed(sig) => Written(STATUS_OK, Field(sig, 4))
    ensures |SignRequest(t.pin, mech, data)| == OVERHEAD + |data|
  {
    hide Written, TakePin, SignWith;
    SmallPowers();
    var rest := BE(mech, 4) + Field(data, 4);
    assert SignRequest(t.pin, mech, data) == Field(t.pin, 2) + rest;
    TakePinIff(SignRequest(t.pin, mech, data), t.pin, rest);
    NumBE(mech, 4);
    NumBE(|data|, 4);
    hide BE, Num;
    assert rest[..4] == BE(mech, 4) && rest[4..8] == BE(|data|, 4) && rest[8..] == data;
  }

  // For every message that fits, the client gets exactly the key's signature, or
  // the code for its refusal. 42 bytes is the exact overhead: a longer message the
  // client still accepts makes a frame the server will not read.
  lemma SignEndToEnd(t: Token, mech: nat, data: bytes)
    requires |t.pin| == PIN_LEN && KnownMech(mech) && |data| <= MAX_FRAME
    ensures var r := SignRpc(t.pin, mech, data, Answer(Served(t, Frame(OP_SIGN, SignRequest(t.pin, mech, data)))));
      (r.rv, r.sig) == if |data| <= MAX_FRAME - OVERHEAD then Expected(t, mech, data) else (CKR_DEVICE_ERROR, [])
  {
    RequestParses(t, mech, data);
    hide SignRequest, ServeSign, Served, Rpc, Written, SignWith, Field, Frame, Unframe;
    var req := SignRequest(t.pin, mech, data);
    ServedFrame(t, OP_SIGN, req);
    if |req| > MAX_FRAME {
      assert Served(t, Frame(OP_SIGN, req)) == [];
      NothingWritten();
    } else {
      var made := if t.key.None? then Failed else SignWith(t.key.value, t.crypto, mech, data);
      match made {
        case Rejected => RpcOfWritten(STATUS_MECHANISM, []);
        case Failed => RpcOfWritten(STATUS_FAILED, []);
        case Signed(sig) =>
          RpcOfWritten(STATUS_OK, Field(sig, 4));
          if |sig| + 4 <= MAX_FRAME {
            SignatureReads(sig, Frame(OP_SIGN, req));
          }
          FieldSize4(sig);
      }
    }
  }

  lemma NothingWritten()
    ensures Rpc(Answer([])) == RpcError(CKR_DEVICE_ERROR)
  {
  }

  lemma FieldSize4(x: bytes)
    ensures |Field(x, 4)| == 4 + |x|
  {
  }

  // ----- which requests are refused before the key or the certificates are looked at

  // A reply with no body.
  function Bare(status: byte): bytes {
    [PROTO_VERSION, status, 0, 0, 0, 0]
  }

  // The PIN is checked on every request that takes one: the reply is the bare PIN status
  // exactly when the body does not start with the length 32 and the token's own PIN, or
  // when a description is asked for with anything behind the PIN. Those bytes are the
  // same for every token, whatever its key, its leaf and its certificates.
  lemma PinRefusedIff(t: Token, op: byte, body: bytes)
    requires op == OP_INFO || op == OP_SIGN || op == OP_PROOF
    requires |body| <= MAX_FRAME
    ensures Served(t, Frame(op, body)) == Bare(STATUS_PIN) <==>
      |t.pin| != PIN_LEN || !([0, 32] + t.pin <= body) || (op == OP_INFO && |body| > 34)
  {
    if |t.pin| == PIN_LEN {
      StartsIff(body, t.pin);
    }
    BareWritten(STATUS_PIN);
    hide Served, Frame, TakePin, Field, PublicFields, InfoFits, EncodeInfo, SignWith, TokenInfo;
    ServedFrame(t, op, body);
    match TakePin(body) {
      case Short =>
      case Got(pin, rest) =>
        TakePinIff(body, pin, rest);
        FieldSize2(pin);
    }
    StatusOnly();
  }

  lemma BareWritten(status: byte)
    ensures Written(status, []) == Bare(status)
  {
    assert BE(0, 4) == [0, 0, 0, 0];
  }

  // Replies with different statuses differ.
  lemma StatusOnly()
    ensures forall status, body :: status != STATUS_PIN ==> Written(status, body) != Bare(STATUS_PIN)
  {
    hide BE;
    forall status, body | status != STATUS_PIN
      ensures Written(status, body) != Bare(STATUS_PIN)
    {
      if |body| <= MAX_FRAME {
        assert Frame(status, body)[1] == status;
      }
    }
  }

  lemma FieldSize2(x: bytes)
    ensures |Field(x, 2)| == 2 + |x|
  {
  }

  lemma StartsIff(body: bytes, pin: bytes)
    requires |pin| == PIN_LEN
    ensures TakePin(body).Got? && TakePin(body).item == pin <==> [0, 32] + pin <= body
  {
    assert BE(32, 2) == [0, 32];
    assert Field(pin, 2) == [0, 32] + pin;
    hide TakePin, BE;
    match TakePin(body) {
      case Short =>
        if [0, 32] + pin <= body {
          var rest := body[34..];
          assert body == Field(pin, 2) + rest;
          TakePinIff(body, pin, rest);
        }
      case Got(p, rest) =>
        TakePinIff(body, p, rest);
        if [0, 32] + pin <= body {
          assert body == Field(pin, 2) + body[34..];
          TakePinIff(body, pin, body[34..]);
        }
    }
  }

  // With the PIN in front, a request is malformed exactly when the lengths are not those
  // of a sign or a proof request; so is every frame of another kind.
  lemma MalformedServed(t: Token, op: byte, rest: bytes)
    requires |t.pin| == PIN_LEN && 34 + |rest| <= MAX_FRAME
    requires op != OP_INFO
    requires op == OP_SIGN ==> |rest| < 8 || |rest| != 8 + Num(rest[4..8])
    requires op == OP_PROOF ==> |rest| != 16
    ensures Served(t, Frame(op, Field(t.pin, 2) + rest)) == Bare(STATUS_BAD)
  {
    BareWritten(STATUS_BAD);
    hide Served, Frame, TakePin, Field, SignWith, Written, Num;
    FieldSize2(t.pin);
    var body := Field(t.pin, 2) + rest;
    TakePinIff(body, t.pin, rest);
    ServedFrame(t, op, body);
    if op == OP_SIGN {
      assert ServeSign(t, body) == Written(STATUS_BAD, []);
    } else if op == OP_PROOF {
      assert ServeProof(t, body) == Written(STATUS_BAD, []);
    }
  }

  // Signing under any other PIN is refused without reaching the key.
  lemma WrongPin(t: Token, pin: bytes, mech: nat, data: bytes)
    requires |pin| == PIN_LEN && pin != t.pin && KnownMech(mech) && |data| <= MAX_FRAME - OVERHEAD
    ensures var answer := Answer(Served(t, Frame(OP_SIGN, SignRequest(pin, mech, data))));
      SignRpc(pin, mech, data, answer).rv == CKR_PIN_INCORRECT
  {
    RequestParses(t.(pin := pin), mech, data);
    PinInFront(pin, BE(mech, 4) + Field(data, 4));
    hide Served, Rpc, Written, Frame, ServeSign, Field;
    PinRefusedIff(t, OP_SIGN, SignRequest(pin, mech, data));
    PinReply();
  }

  // So is logging in: the client reports the wrong PIN and caches nothing, whatever the
  // token and whoever asks.
  lemma WrongPinLogin(t: Token, m: State, h: nat, pin: Memory)
    requires |pin| == PIN_LEN && pin != t.pin
    requires m.initialized && IsOpen(m, h) && !m.cache.loggedIn
    ensures var req := Frame(OP_INFO, InfoRequest(pin));
      DoLogin(m, h, CKU_USER, Mem(pin), Answer(Served(t, req)))
        == (m.(cache := FREED), Reply(CKR_PIN_INCORRECT, Nothing, req))
  {
    PinInFront(pin, []);
    assert Field(pin, 2) + [] == InfoRequest(pin);
    FieldSize2(pin);
    hide Served, Rpc, Frame, Field, InfoRequest;
    PinRefusedIff(t, OP_INFO, InfoRequest(pin));
    PinReply();
  }

  lemma PinInFront(pin: bytes, rest: bytes)
    requires |pin| == PIN_LEN
    ensures [0, 32] + pin <= Field(pin, 2) + rest
    ensures forall p: bytes :: |p| == PIN_LEN && [0, 32] + p <= Field(pin, 2) + rest ==> p == pin
  {
    assert BE(32, 2) == [0, 32];
    var body := Field(pin, 2) + rest;
    assert body[2..34] == pin;
    forall p: bytes | |p| == PIN_LEN && [0, 32] + p <= body
      ensures p == pin
    {
      assert body[..34] == [0, 32] + p;
      assert ([0, 32] + p)[2..] == p;
    }
  }

  lemma PinReply()
    ensures Rpc(Answer(Bare(STATUS_PIN))) == RpcReply(STATUS_PIN, [])
  {
    BareWritten(STATUS_PIN);
    hide Rpc, Written;
    RpcOfWritten(STATUS_PIN, []);
  }

  // Logging in with the token's PIN succeeds exactly when the leaf can be described,
  // the description is within the client's limits and it fits a frame; it then caches
  // exactly that description. Otherwise nothing is cached.
  lemma LoginEndToEnd(t: Token, m: State, h: nat)
    requires |t.pin| == PIN_LEN && m.initialized && IsOpen(m, h) && !m.cache.loggedIn
    ensures var r := DoLogin(m, h, CKU_USER, Mem(t.pin), Answer(Served(t, Frame(OP_INFO, InfoRequest(t.pin)))));
      if Describable(t) then r.1.rv == CKR_OK && r.0 == m.(cache := CacheOf(TokenInfo(t).value, t.pin))
      else r.1.rv == CKR_DEVICE_ERROR && r.0 == m.(cache := FREED)
  {
    ServesInfo(t);
    hide ServeInfo, InfoRequest, EncodeInfo, Served, Written, Rpc, Frame, TokenInfo, CacheOf, InfoFits, Acceptable;
    FieldOf32(t.pin);
    ServedFrame(t, OP_INFO, InfoRequest(t.pin));
    if TokenInfo(t).None? || !InfoFits(TokenInfo(t).value) {
      Refused(t);
      RpcOfWritten(STATUS_FAILED, []);
    } else {
      RpcOfWritten(STATUS_OK, EncodeInfo(TokenInfo(t).value));
      if |EncodeInfo(TokenInfo(t).value)| <= MAX_FRAME {
        Described(t);
      }
      hide ParsedInfo;
    }
  }

  predicate Describable(t: Token) {
    TokenInfo(t).Some? && Acceptable(TokenInfo(t).value) && |EncodeInfo(TokenInfo(t).value)| <= MAX_FRAME
  }

  lemma ServesInfo(t: Token)
    requires |t.pin| == PIN_LEN
    ensures ServeInfo(t, InfoRequest(t.pin)) ==
      if TokenInfo(t).None? || !InfoFits(TokenInfo(t).value) then Written(STATUS_FAILED, [])
      else Written(STATUS_OK, EncodeInfo(TokenInfo(t).value))
  {
    hide TokenInfo, TakePin, Field, EncodeInfo, Written, InfoFits;
    assert Field(t.pin, 2) + [] == Field(t.pin, 2);
    TakePinIff(InfoRequest(t.pin), t.pin, []);
  }

  // What the server does not describe would not be acceptable.
  lemma Refused(t: Token)
    requires TokenInfo(t).None? || !InfoFits(TokenInfo(t).value)
    ensures !Describable(t)
  {
    hide TokenInfo, EncodeInfo;
    if TokenInfo(t).Some? {
      var i := TokenInfo(t).value;
      assert Acceptable(i) ==> forall k :: 0 <= k < |i.certs| ==> CertFits(i.certs[k]);
    }
  }

  lemma Described(t: Token)
    requires TokenInfo(t).Some? && InfoFits(TokenInfo(t).value) && |EncodeInfo(TokenInfo(t).value)| <= MAX_FRAME
    ensures var i := TokenInfo(t).value; ParsedInfo(EncodeInfo(i)) == if Acceptable(i) then Some(i) else None
  {
    hide TokenInfo, EncodeCerts, EncodeHead, ParseInfo, Acceptable;
    var i := TokenInfo(t).value;
    forall k | 0 <= k < |i.certs|
      ensures |i.certs[k].der| < 0x1_0000_0000
    {
      CertWithin(i.certs, k);
    }
    hide EncodeInfo;
    ParsesIffAcceptable(i);
  }

  lemma FieldOf32(pin: bytes)
    ensures |InfoRequest(pin)| == 2 + |pin|
  {
  }

  // Finishing with the length the query announces: the key's signature, of that length.
  lemma FinishAnswers(t: Token, m: State, h: nat, data: bytes, cap: nat, i: Info, sig: bytes, net: Net)
    requires |t.pin| == PIN_LEN && t.leaf.Some? && t.key.Some?
    requires Pair(t.leaf.value, t.key.value) && Sound(t.key.value, t.crypto)
    requires TokenInfo(t) == Some(i) && Acceptable(i) && m.cache == CacheOf(i, t.pin)
    requires Inv(m) && 1 <= h <= MAX_SESSIONS && m.slots[h - 1].signing && |data| <= MAX_FRAME - OVERHEAD
    requires SignWith(t.key.value, t.crypto, m.slots[h - 1].mech, data) == Signed(sig) && cap >= SigLen(m.cache)
    ensures var req := Frame(OP_SIGN, SignRequest(t.pin, m.slots[h - 1].mech, data));
      && FinishSign(m, h, data, Query, net) == (m, Reply(CKR_OK, Length(|sig|), []))
      && FinishSign(m, h, data, Room(cap), Answer(Served(t, req))).1 == Reply(CKR_OK, Signature(sig), req)
  {
    var mech := m.slots[h - 1].mech;
    PredictedLength(t.leaf.value, t.key.value, t.crypto, i, t.pin, mech, data);
    SigningIsLive(m, h);
    assert m.cache.pin == t.pin;
    assert |sig| == SigLen(m.cache) < 0x1_0000 by { hide DerOctet, Labelled, SignWith; }
    hide CacheOf, SignWith, Inv, Served, Frame, SignRequest, TokenInfo;
    SignEndToEnd(t, mech, data);
    SentIsRequest(t.pin, mech, data, Answer(Served(t, Frame(OP_SIGN, SignRequest(t.pin, mech, data)))));
    hide SignRpc;
  }

  // ----- a proof request

  function ProofRequest(pin: bytes, createdAt: nat, expiry: nat): bytes {
    Field(pin, 2) + (BE(createdAt, 8) + BE(expiry, 8))
  }

  // How a client takes a proof apart: public key, certificate hash, signature.
  function ReadProof(body: bytes): Option<(bytes, bytes, bytes)> {
    if |body| < 64 then None
    else
      match TakeField(body[64..], 4)
      case Short => None
      case Got(sig, rest) => if rest == [] then Some((body[..32], body[32..64], sig)) else None
  }

  // A request with the token's PIN reaches the signer with exactly its two times, and
  // the answer reads back as the token's public key, the hash of its leaf and exactly
  // the signature made; every refusal has its own status. Any other PIN gets the same
  // answer whatever the token would have signed.
  lemma ProofEndToEnd(t: Token, pin: bytes, createdAt: nat, expiry: nat)
    requires |pin| == PIN_LEN && createdAt < Pow256(8) && expiry < Pow256(8)
    requires |t.pubkey| == 32 && t.certs != [] && |t.crypto.digest(Sha256, t.certs[0].der)| == 32
    ensures var r := Unframe(Served(t, Frame(OP_PROOF, ProofRequest(pin, createdAt, expiry))));
      var made := t.proof(createdAt, expiry);
      && (pin != t.pin ==> r == Received(STATUS_PIN, [], []))
      && (pin == t.pin && (t.pubkey == NO_PUBKEY || made.BadWindow?) ==> r == Received(STATUS_BAD, [], []))
      && (pin == t.pin && t.pubkey != NO_PUBKEY && made.ProofFailed? ==> r == Received(STATUS_FAILED, [], []))
      && (pin == t.pin && t.pubkey != NO_PUBKEY && made.Proof? && |made.sig| + 68 <= MAX_FRAME ==>
        r.Received? && r.kind == STATUS_OK && r.rest == []
        && ReadProof(r.body) == Some((t.pubkey, t.crypto.digest(Sha256, t.certs[0].der), made.sig)))
  {
    ProofParses(t, pin, createdAt, expiry);
    hide ProofRequest, ServeProof, Served, Field, ReadProof, NO_PUBKEY;
    var req := ProofRequest(pin, createdAt, expiry);
    var made := t.proof(createdAt, expiry);
    ServedFrame(t, OP_PROOF, req);
    UnframeWritten(STATUS_PIN, []);
    UnframeWritten(STATUS_BAD, []);
    UnframeWritten(STATUS_FAILED, []);
    if made.Proof? && |made.sig| + 68 <= MAX_FRAME {
      FieldSize4(made.sig);
      ProofReads(t.pubkey, t.crypto.digest(Sha256, t.certs[0].der), made.sig);
      UnframeWritten(STATUS_OK, t.pubkey + t.crypto.digest(Sha256, t.certs[0].der) + Field(made.sig, 4));
    }
  }

  lemma ProofParses(t: Token, pin: bytes, createdAt: nat, expiry: nat)
    requires |pin| == PIN_LEN && createdAt < Pow256(8) && expiry < Pow256(8) && t.certs != []
    ensures var hash := t.crypto.digest(Sha256, t.certs[0].der);
      ServeProof(t, ProofRequest(pin, createdAt, expiry)) ==
        if pin != t.pin then Written(STATUS_PIN, [])
        else if t.pubkey == NO_PUBKEY then Written(STATUS_BAD, [])
        else
          match t.proof(createdAt, expiry)
          case BadWindow => Written(STATUS_BAD, [])
          case ProofFailed => Written(STATUS_FAILED, [])
          case Proof(sig) => Written(STATUS_OK, t.pubkey + hash + Field(sig, 4))
    ensures |ProofRequest(pin, createdAt, expiry)| == 50
  {
    hide Written, TakePin, NO_PUBKEY;
    var rest := BE(createdAt, 8) + BE(expiry, 8);
    TakePinIff(ProofRequest(pin, createdAt, expiry), pin, rest);
    NumBE(createdAt, 8);
    NumBE(expiry, 8);
    hide BE, Num;
    assert rest[..8] == BE(createdAt, 8) && rest[8..] == BE(expiry, 8);
  }

  lemma UnframeWritten(status: byte, body: bytes)
    requires |body| <= MAX_FRAME
    ensures Unframe(Written(status, body)) == Received(status, body, [])
  {
    hide Frame, Unframe;
    FrameRoundTrip(status, body, []);
    assert Frame(status, body) + [] == Frame(status, body);
  }

  lemma ProofReads(key: bytes, hash: bytes, sig: bytes)
    requires |key| == 32 && |hash| == 32 && |sig| < 0x1_0000_0000
    ensures ReadProof(key + hash + Field(sig, 4)) == Some((key, hash, sig))
  {
    hide Field, TakeField;
    SmallPowers();
    var body := key + hash + Field(sig, 4);
    TakeFieldOf(sig, 4, []);
    assert body[..32] == key && body[32..64] == hash && body[64..] == Field(sig, 4) + [];
  }

  // ----- signing, from the length query to the signature

  // In any run on this token's login, finishing a multi-part message with the
  // length the query call announces returns the key's signature over the
  // concatenated parts, and that length exactly.
  lemma MultiPartEndToEnd(t: Token, calls: seq<Call>, h: nat, cap: nat, i: Info, sig: bytes, net: Net)
    requires |t.pin| == PIN_LEN && t.leaf.Some? && t.key.Some?
    requires Pair(t.leaf.value, t.key.value) && Sound(t.key.value, t.crypto)
    requires TokenInfo(t) == Some(i) && Acceptable(i) && Run(calls).cache == CacheOf(i, t.pin)
    requires 1 <= h <= MAX_SESSIONS && Run(calls).slots[h - 1].signing && |Parts(calls, h)| <= MAX_FRAME - OVERHEAD
    requires SignWith(t.key.value, t.crypto, Mechanism(calls, h), Parts(calls, h)) == Signed(sig)
    requires cap >= SigLen(Run(calls).cache)
    ensures var m, req := Run(calls),
      Frame(OP_SIGN, SignRequest(LoginPin(calls), Mechanism(calls, h), Parts(calls, h)));
      && DoSignFinal(m, h, Query, net) == (m, Reply(CKR_OK, Length(|sig|), []))
      && DoSignFinal(m, h, Room(cap), Answer(Served(t, req))).1 == Reply(CKR_OK, Signature(sig), req)
  {
    var m := Run(calls);
    BufferIsParts(calls, h);
    PinIsLoginPin(calls);
    SigningIsLive(m, h);
    assert m.cache.loggedIn && m.cache.pin == t.pin;
    hide CacheOf, Run, Parts, Mechanism, LoginPin, SignWith, Inv, Served, Frame, SignRequest, TokenInfo, FinishSign,
      Acceptable, Sound, Pair, SigLen;
    FinishAnswers(t, m, h, Parts(calls, h), cap, i, sig, net);
  }

  // The same for a message signed at once.
  lemma OneShotEndToEnd(t: Token, calls: seq<Call>, h: nat, data: Memory, cap: nat, i: Info, sig: bytes, net: Net)
    requires |t.pin| == PIN_LEN && t.leaf.Some? && t.key.Some?
    requires Pair(t.leaf.value, t.key.value) && Sound(t.key.value, t.crypto)
    requires TokenInfo(t) == Some(i) && Acceptable(i) && Run(calls).cache == CacheOf(i, t.pin)
    requires 1 <= h <= MAX_SESSIONS && Run(calls).slots[h - 1].signing && Parts(calls, h) == []
      && |data| <= MAX_FRAME - OVERHEAD
    requires SignWith(t.key.value, t.crypto, Mechanism(calls, h), data) == Signed(sig)
    requires cap >= SigLen(Run(calls).cache)
    ensures var m, req := Run(calls), Frame(OP_SIGN, SignRequest(LoginPin(calls), Mechanism(calls, h), data));
      && DoSign(m, h, Mem(data), Query, net) == (m, Reply(CKR_OK, Length(|sig|), []))
      && DoSign(m, h, Mem(data), Room(cap), Answer(Served(t, req))).1 == Reply(CKR_OK, Signature(sig), req)
  {
    var m := Run(calls);
    BufferIsParts(calls, h);
    PinIsLoginPin(calls);
    SigningIsLive(m, h);
    assert m.cache.loggedIn && m.cache.pin == t.pin;
    hide CacheOf, Run, Parts, Mechanism, LoginPin, SignWith, Inv, Served, Frame, SignRequest, TokenInfo, FinishSign,
      Acceptable, Sound, Pair, SigLen;
    FinishAnswers(t, m, h, data, cap, i, sig, net);
  }

  lemma SigningIsLive(m: State, h: nat)
    requires Inv(m) && 1 <= h <= MAX_SESSIONS && m.slots[h - 1].signing
    ensures m.initialized && IsOpen(m, h) && KnownMech(m.slots[h - 1].mech)
  {
    hide CacheInv;
  }

  lemma SentIsRequest(pin: bytes, mech: nat, data: bytes, net: Net)
    requires |pin| == PIN_LEN && |data| <= MAX_FRAME && net.Answer?
    ensures SignRpc(pin, mech, data, net).sent == Frame(OP_SIGN, SignRequest(pin, mech, data))
  {
    hide Rpc, Frame, SignRequest;
  }
}
