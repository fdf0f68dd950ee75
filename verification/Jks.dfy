// Java key stores (keystore/jks.go): the chained-hash cipher around each private
// key, and the binary store it sits in.

module Jks {
  import opened Bytes
  import opened Keystore

  // SHA-1 for all this file needs to know: twenty bytes out.
  const DIGEST := 20

  ghost predicate IsDigest(h: bytes -> bytes) {
    forall x :: |h(x)| == DIGEST
  }

  // ----- exclusive or, bit by bit

  function XorBits(a: nat, b: nat, k: nat): (x: nat)
    ensures x < Pow2(k)
  {
    if k == 0 then 0 else (a % 2 + b % 2) % 2 + 2 * XorBits(a / 2, b / 2, k - 1)
  }

  function Xor(a: byte, b: byte): byte {
    assert Pow2(8) == 256 by { assert Pow2(4) == 16; }
    XorBits(a, b, 8)
  }

  // Bit k of a number, the lowest counting as 0.
  function Bit(x: nat, k: nat): nat {
    x / Pow2(k) % 2
  }

  lemma HalfDown(x: nat, p: nat)
    requires p > 0
    ensures x / (2 * p) == x / 2 / p
  {
    var q, r := x / 2 / p, x / 2 % p;
    assert x / 2 == q * p + r;
    assert x == q * (2 * p) + (2 * r + x % 2) by {
      assert 2 * (q * p) == q * (2 * p);
    }
    QuotientIs(x, 2 * p, q, 2 * r + x % 2);
  }

  lemma QuotientIs(x: nat, d: nat, q: nat, r: nat)
    requires r < d && x == q * d + r
    ensures x / d == q
  {
    AtMost(x, d, q);
    var over := x / d - q;
    assert x == (x / d) * d + x % d;
    assert over * d + x % d == r by {
      assert (x / d) * d == q * d + over * d;
    }
    assert over >= 1 ==> over * d >= d;
  }

  lemma AtMost(x: nat, d: nat, q: nat)
    requires d > 0 && q * d <= x
    ensures q <= x / d
  {
    var under := q - x / d;
    assert q * d == (x / d) * d + under * d;
    assert under >= 1 ==> under * d >= d;
  }

  lemma BitDown(x: nat, k: nat)
    requires k > 0
    ensures Bit(x, k) == Bit(x / 2, k - 1)
  {
    HalfDown(x, Pow2(k - 1));
  }

  lemma {:induction false} XorBitsAt(a: nat, b: nat, n: nat, k: nat)
    requires k < n
    ensures Bit(XorBits(a, b, n), k) == (if Bit(a, k) == Bit(b, k) then 0 else 1)
  {
    var low, rest := (a % 2 + b % 2) % 2, XorBits(a / 2, b / 2, n - 1);
    if k > 0 {
      assert XorBits(a, b, n) / 2 == rest;
      XorBitsAt(a / 2, b / 2, n - 1, k - 1);
      BitDown(XorBits(a, b, n), k);
      BitDown(a, k);
      BitDown(b, k);
    } else {
      assert Pow2(0) == 1 && XorBits(a, b, n) % 2 == low;
    }
  }

  lemma {:induction false} BitsDecide(a: nat, b: nat, n: nat)
    requires a < Pow2(n) && b < Pow2(n) && forall k: nat :: k < n ==> Bit(a, k) == Bit(b, k)
    ensures a == b
  {
    if n > 0 {
      forall k: nat | k < n - 1
        ensures Bit(a / 2, k) == Bit(b / 2, k)
      {
        BitDown(a, k + 1);
        BitDown(b, k + 1);
      }
      assert Bit(a, 0) == a % 2 && Bit(b, 0) == b % 2 by { assert Pow2(0) == 1; }
      hide Bit;
      BitsDecide(a / 2, b / 2, n - 1);
    }
  }

  // Exclusive or: the one byte whose bits are set exactly where those of a and b differ.
  lemma XorIff(a: byte, b: byte, c: byte)
    ensures c == Xor(a, b) <==> forall k: nat :: k < 8 ==> (Bit(c, k) == 1 <==> Bit(a, k) != Bit(b, k))
  {
    forall k: nat | k < 8
      ensures Bit(Xor(a, b), k) == (if Bit(a, k) == Bit(b, k) then 0 else 1)
    {
      XorBitsAt(a, b, 8, k);
    }
    assert Pow2(8) == 256 by { assert Pow2(4) == 16; }
    hide XorBits, Xor, Pow2;
    if forall k: nat :: k < 8 ==> (Bit(c, k) == 1 <==> Bit(a, k) != Bit(b, k)) {
      assert forall k: nat :: k < 8 ==> Bit(c, k) == Bit(Xor(a, b), k);
      hide Bit;
      BitsDecide(c, Xor(a, b), 8);
    }
  }

  lemma {:induction false} XorBitsTwice(a: nat, b: nat, k: nat)
    requires b < Pow2(k)
    ensures XorBits(a, XorBits(a, b, k), k) == b
  {
    if k > 0 {
      var rest := XorBits(a / 2, b / 2, k - 1);
      LowBit(a, b, rest);
      XorBitsTwice(a / 2, b / 2, k - 1);
    }
  }

  lemma LowBit(a: nat, b: nat, rest: nat)
    ensures var x := (a % 2 + b % 2) % 2 + 2 * rest; x / 2 == rest && (a % 2 + x % 2) % 2 == b % 2
  {
    var x := (a % 2 + b % 2) % 2 + 2 * rest;
    assert x / 2 == rest && x % 2 == (a % 2 + b % 2) % 2;
  }

  lemma XorTwice(a: byte, b: byte)
    ensures Xor(a, Xor(a, b)) == b
  {
    assert Pow2(8) == 256 by { assert Pow2(4) == 16; }
    XorBitsTwice(a, b, 8);
  }

  // ----- the cipher

  // Block 0 of the key stream hashes the password and the salt, each later block
  // the password and the block before it.
  function KeyBlock(h: bytes -> bytes, pw: bytes, salt: bytes, n: nat): bytes {
    h(pw + if n == 0 then salt else KeyBlock(h, pw, salt, n - 1))
  }

  ghost function KeyByte(h: bytes -> bytes, pw: bytes, salt: bytes, j: nat): byte
    requires IsDigest(h)
  {
    KeyBlock(h, pw, salt, j / DIGEST)[j % DIGEST]
  }

  ghost function Crypt(h: bytes -> bytes, pw: bytes, salt: bytes, x: bytes): bytes
    requires IsDigest(h)
  {
    seq(|x|, j requires 0 <= j < |x| => Xor(KeyByte(h, pw, salt, j), x[j]))
  }

  // What the JDK stores: salt, ciphertext, digest of password and plaintext.
  ghost function Encrypt(h: bytes -> bytes, pw: bytes, salt: bytes, plain: bytes): bytes
    requires IsDigest(h)
  {
    salt + Crypt(h, pw, salt, plain) + h(pw + plain)
  }

  ghost function Decrypt(h: bytes -> bytes, pw: bytes, body: bytes): Result<bytes>
    requires IsDigest(h)
  {
    if |body| < 2 * DIGEST then Err(Corrupt)
    else
      var plain := Crypt(h, pw, body[..DIGEST], body[DIGEST..|body| - DIGEST]);
      if h(pw + plain) == body[|body| - DIGEST..] then Ok(plain) else Err(KeyPassword)
  }

  // The chain the key stream is cut from: the salt, then always the digest of the password
  // and the link before.
  ghost predicate Chain(h: bytes -> bytes, pw: bytes, salt: bytes, links: seq<bytes>) {
    && links != [] && links[0] == salt
    && forall n :: 0 <= n < |links| - 1 ==> links[n + 1] == h(pw + links[n])
  }

  // What is stored, byte by byte: the salt; each plaintext byte under exclusive or with the
  // chain, twenty bytes a link from the one after the salt; the digest of password and
  // plaintext.
  lemma StoredBytes(h: bytes -> bytes, pw: bytes, salt: bytes, plain: bytes, links: seq<bytes>)
    requires IsDigest(h) && |salt| == DIGEST && Chain(h, pw, salt, links) && |plain| <= DIGEST * (|links| - 1)
    ensures var body := Encrypt(h, pw, salt, plain);
      && |body| == DIGEST + |plain| + DIGEST && body[..DIGEST] == salt
      && body[DIGEST + |plain|..] == h(pw + plain)
      && forall j :: 0 <= j < |plain| ==>
        |links[1 + j / DIGEST]| == DIGEST && body[DIGEST + j] == Xor(links[1 + j / DIGEST][j % DIGEST], plain[j])
  {
    var body := Encrypt(h, pw, salt, plain);
    assert body[DIGEST + |plain|..] == h(pw + plain) && body[..DIGEST] == salt;
    hide Xor, Chain;
    forall j | 0 <= j < |plain|
      ensures |links[1 + j / DIGEST]| == DIGEST
      ensures body[DIGEST + j] == Xor(links[1 + j / DIGEST][j % DIGEST], plain[j])
    {
      LinkIsBlock(h, pw, salt, links, j / DIGEST);
      assert body[DIGEST + j] == Crypt(h, pw, salt, plain)[j];
    }
  }

  lemma {:induction false} LinkIsBlock(h: bytes -> bytes, pw: bytes, salt: bytes, links: seq<bytes>, n: nat)
    requires Chain(h, pw, salt, links) && n + 1 < |links|
    ensures links[n + 1] == KeyBlock(h, pw, salt, n)
  {
    if n > 0 {
      LinkIsBlock(h, pw, salt, links, n - 1);
    }
  }

  lemma CryptTwice(h: bytes -> bytes, pw: bytes, salt: bytes, x: bytes)
    requires IsDigest(h)
    ensures Crypt(h, pw, salt, Crypt(h, pw, salt, x)) == x
  {
    var y := Crypt(h, pw, salt, x);
    forall j | 0 <= j < |x|
      ensures Crypt(h, pw, salt, y)[j] == x[j]
    {
      XorTwice(KeyByte(h, pw, salt, j), x[j]);
    }
  }

  // Decrypting an encryption gives the plaintext back, whatever its length.
  lemma DecryptEncrypt(h: bytes -> bytes, pw: bytes, salt: bytes, plain: bytes)
    requires IsDigest(h) && |salt| == DIGEST
    ensures Decrypt(h, pw, Encrypt(h, pw, salt, plain)) == Ok(plain)
  {
    var body := Encrypt(h, pw, salt, plain);
    var c := Crypt(h, pw, salt, plain);
    assert body[..DIGEST] == salt && body[DIGEST..|body| - DIGEST] == c && body[|body| - DIGEST..] == h(pw + plain);
    CryptTwice(h, pw, salt, plain);
  }

  // Nothing else decrypts: an accepted body is the encryption of its plaintext
  // under the salt it starts with.
  lemma OnlyEncryptionsDecrypt(h: bytes -> bytes, pw: bytes, body: bytes)
    requires IsDigest(h) && Decrypt(h, pw, body).Ok?
    ensures Encrypt(h, pw, body[..DIGEST], Decrypt(h, pw, body).value) == body
  {
    CryptTwice(h, pw, body[..DIGEST], body[DIGEST..|body| - DIGEST]);
  }

  // copy then ^=, for one block or what is left of it.
  method XorBlock(plain: array<byte>, off: nat, digest: bytes, enc: bytes) returns (n: nat)
    requires |digest| == DIGEST && plain.Length == |enc| && off < |enc|
    modifies plain
    ensures n == if |enc| - off < DIGEST then |enc| - off else DIGEST
    ensures forall j :: off <= j < off + n ==> plain[j] == Xor(digest[j - off], enc[j])
    ensures forall j :: 0 <= j < off ==> plain[j] == old(plain[j])
  {
    hide Xor;
    n := if |enc| - off < DIGEST then |enc| - off else DIGEST;
    for i := 0 to n
      invariant forall j :: off <= j < off + i ==> plain[j] == Xor(digest[j - off], enc[j])
      invariant forall j :: 0 <= j < off ==> plain[j] == old(plain[j])
    {
      plain[off + i] := Xor(digest[i], enc[off + i]);
    }
  }

  // decryptJKSKey, after the wrapper around the body has been unpacked.
  method DecryptKey(h: bytes -> bytes, pw: bytes, body: bytes) returns (r: Result<bytes>)
    requires IsDigest(h)
    ensures r == Decrypt(h, pw, body)
  {
    if |body| < 2 * DIGEST {
      return Err(Corrupt);
    }
    var check := body[|body| - DIGEST..];
    var enc := body[DIGEST..|body| - DIGEST];
    ghost var salt := body[..DIGEST];
    var plain := new byte[|enc|];
    var digest := body[..DIGEST];
    var off := 0;
    ghost var k := 0;
    while off < |enc|
      invariant 0 <= off <= |enc| && (off == DIGEST * k || off == |enc|)
      invariant digest == if k == 0 then salt else KeyBlock(h, pw, salt, k - 1)
      invariant forall j :: 0 <= j < off ==> plain[j] == Xor(KeyByte(h, pw, salt, j), enc[j])
    {
      hide Xor;
      digest := h(pw + digest);
      var n := XorBlock(plain, off, digest, enc);
      assert forall j :: off <= j < off + n ==> j / DIGEST == k && j % DIGEST == j - off;
      off, k := off + n, k + 1;
    }
    assert plain[..] == Crypt(h, pw, salt, enc);
    if h(pw + plain[..]) != check {
      return Err(KeyPassword);
    }
    r := Ok(plain[..]);
  }

  // ----- the store

  const MAGIC := 0xfeed_feed
  const MAX_ENTRIES := 64
  const MAX_BLOB := 0x1_0000
  const MAX_CHAIN := 8
  const MAX_STRING := 256
  const TAG_KEY := 1
  const TAG_CERT := 2

  datatype StoredCert = StoredCert(kind: bytes, der: bytes)

  datatype Stored =
    | KeyEntry(alias: bytes, time: nat, blob: bytes, chain: seq<StoredCert>)
    | CertEntry(alias: bytes, time: nat, cert: StoredCert)

  // SHA-1, the x509 parsers, and the ASN.1 wrapper of a protected key: its body when
  // the wrapper is whole and names Sun's algorithm.
  datatype Env = Env(h: bytes -> bytes, x: X509, unwrap: bytes -> Option<bytes>)

  // What is made of a key entry from its alias, protected key and certificates.
  type Opener = (bytes, bytes, seq<bytes>) -> Result<Entry>

  ghost function OpenKey(env: Env, keyPw: bytes): Opener
    requires IsDigest(env.h)
  {
    (alias, blob, ders) =>
      match env.unwrap(blob)
      case None => Err(Corrupt)
      case Some(body) =>
        match Decrypt(env.h, keyPw, body)
        case Err(e) => Err(e)
        case Ok(plain) => Finish(env.x, alias, plain, ders)
  }

  function PutCert(c: StoredCert, version: nat): bytes {
    (if version == 2 then Field(c.kind, 2) else []) + Field(c.der, 4)
  }

  function PutCerts(cs: seq<StoredCert>, version: nat): bytes {
    if cs == [] then [] else PutCert(cs[0], version) + PutCerts(cs[1..], version)
  }

  function PutEntry(e: Stored, version: nat): bytes {
    match e
    case KeyEntry(alias, time, blob, chain) =>
      BE(TAG_KEY, 4)
      + (Field(alias, 2) + (BE(time, 8) + (Field(blob, 4) + (BE(|chain|, 4) + PutCerts(chain, version)))))
    case CertEntry(alias, time, cert) =>
      BE(TAG_CERT, 4) + (Field(alias, 2) + (BE(time, 8) + PutCert(cert, version)))
  }

  function PutEntries(es: seq<Stored>, version: nat): bytes {
    if es == [] then [] else PutEntry(es[0], version) + PutEntries(es[1..], version)
  }

  function PutStore(es: seq<Stored>, version: nat): bytes {
    BE(MAGIC, 4) + (BE(version, 4) + (BE(|es|, 4) + PutEntries(es, version)))
  }

  // Where the fields of a store stand: the magic number, the version, the number of entries.
  lemma StorePlaces(es: seq<Stored>, version: nat)
    requires version <= 2 && |es| <= MAX_ENTRIES
    ensures exists r, r' ::
      && NumFronted(PutStore(es, version), 4, 0xfeed_feed, r) && NumFronted(r, 4, version, r')
      && NumFronted(r', 4, |es|, PutEntries(es, version))
  {
    SmallPowers();
    hide BE, NumFronted, PutEntries;
    var r' := BE(|es|, 4) + PutEntries(es, version);
    var r := BE(version, 4) + r';
    NumIsFronted(|es|, 4, PutEntries(es, version));
    NumIsFronted(version, 4, r');
    NumIsFronted(MAGIC, 4, r);
  }

  // Of a key entry: the tag 1, alias, time, protected key, the number of certificates and
  // the certificates. Of a certificate entry: the tag 2, alias, time and the certificate.
  lemma EntryPlaces(e: Stored, version: nat)
    requires EntryOk(e, version)
    ensures e.KeyEntry? ==> exists r0, r1, r2, r3 ::
      && NumFronted(PutEntry(e, version), 4, 1, r0) && Fronted(r0, 2, e.alias, r1) && NumFronted(r1, 8, e.time, r2)
      && Fronted(r2, 4, e.blob, r3) && NumFronted(r3, 4, |e.chain|, PutCerts(e.chain, version))
    ensures e.CertEntry? ==> exists r0, r1 ::
      && NumFronted(PutEntry(e, version), 4, 2, r0) && Fronted(r0, 2, e.alias, r1)
      && NumFronted(r1, 8, e.time, PutCert(e.cert, version))
  {
    SmallPowers();
    hide BE, Field, NumFronted, Fronted, PutCerts, PutCert;
    match e {
      case KeyEntry(alias, time, blob, chain) =>
        var r3 := BE(|chain|, 4) + PutCerts(chain, version);
        var r2 := Field(blob, 4) + r3;
        var r1 := BE(time, 8) + r2;
        var r0 := Field(alias, 2) + r1;
        NumIsFronted(|chain|, 4, PutCerts(chain, version));
        FieldFronted(blob, 4, r3);
        NumIsFronted(time, 8, r2);
        FieldFronted(alias, 2, r1);
        NumIsFronted(1, 4, r0);
      case CertEntry(alias, time, cert) =>
        var r1 := BE(time, 8) + PutCert(cert, version);
        var r0 := Field(alias, 2) + r1;
        NumIsFronted(time, 8, PutCert(cert, version));
        FieldFronted(alias, 2, r1);
        NumIsFronted(2, 4, r0);
    }
  }

  // "Mighty Aphrodite"
  const WHITENER: bytes :=
    [0x4d, 0x69, 0x67, 0x68, 0x74, 0x79, 0x20, 0x41, 0x70, 0x68, 0x72, 0x6f, 0x64, 0x69, 0x74, 0x65]

  function Seal(h: bytes -> bytes, pw: bytes, body: bytes): bytes {
    body + h(pw + WHITENER + body)
  }

  // Limits of what can be stored. Version 1 has no certificate type.
  predicate CertOk(c: StoredCert, version: nat) {
    |c.kind| <= MAX_STRING && (version != 2 ==> c.kind == []) && 1 <= |c.der| <= MAX_BLOB
  }

  predicate EntryOk(e: Stored, version: nat) {
    && |e.alias| <= MAX_STRING && e.time < Pow256(8)
    && (e.KeyEntry? ==>
      |e.blob| <= MAX_BLOB && 1 <= |e.chain| <= MAX_CHAIN && forall c :: c in e.chain ==> CertOk(c, version))
    && (e.CertEntry? ==> CertOk(e.cert, version))
  }

  // The limits, in numbers.
  lemma EntryOkIff(e: Stored, version: nat)
    ensures EntryOk(e, version) <==>
      && |e.alias| <= 256 && e.time < 0x1_0000_0000_0000_0000
      && (e.KeyEntry? ==> |e.blob| <= 0x1_0000 && 1 <= |e.chain| <= 8)
      && forall c :: c in (if e.KeyEntry? then e.chain else [e.cert]) ==>
        |c.kind| <= 256 && (version == 2 || c.kind == []) && 1 <= |c.der| <= 0x1_0000
  {
    assert Pow256(8) == 0x1_0000_0000_0000_0000 by {
      SmallPowers();
      assert Pow256(6) == 256 * Pow256(5) && Pow256(5) == 256 * Pow256(4);
      assert Pow256(8) == 256 * Pow256(7) && Pow256(7) == 256 * Pow256(6);
    }
    if e.CertEntry? {
      assert e.cert in [e.cert];
    }
  }

  function TakeString(r: bytes): (t: Read<bytes>)
    ensures t.Got? ==> |r| == 2 + |t.item| + |t.rest|
  {
    var t := TakeField(r, 2);
    if t.Got? && |t.item| > MAX_STRING then Short else t
  }

  function TakeCert(r: bytes, version: nat): (t: Read<StoredCert>)
    ensures t.Got? ==> |t.rest| < |r|
  {
    match (if version == 2 then TakeString(r) else Got([], r))
    case Short => Short
    case Got(kind, r1) =>
      match TakeField(r1, 4)
      case Short => Short
      case Got(der, r2) => if |der| == 0 || |der| > MAX_BLOB then Short else Got(StoredCert(kind, der), r2)
  }

  function TakeChain(r: bytes, version: nat, n: nat): (t: Read<seq<StoredCert>>)
    ensures t.Got? ==> |t.rest| <= |r|
    decreases n
  {
    if n == 0 then Got([], r)
    else
      match TakeCert(r, version)
      case Short => Short
      case Got(c, r1) =>
        match TakeChain(r1, version, n - 1)
        case Short => Short
        case Got(cs, rest) => Got([c] + cs, rest)
  }

  function TakeKeyEntry(r: bytes, version: nat, alias: bytes): (t: Read<Stored>)
    ensures t.Got? ==> |t.rest| <= |r| && t.item.KeyEntry?
  {
    match TakeNum(r, 8)
    case Short => Short
    case Got(time, r1) =>
      match TakeField(r1, 4)
      case Short => Short
      case Got(blob, r2) =>
        match TakeNum(r2, 4)
        case Short => Short
        case Got(count, r3) =>
          if |blob| > MAX_BLOB || count == 0 || count > MAX_CHAIN then Short
          else
            match TakeChain(r3, version, count)
            case Short => Short
            case Got(chain, r4) => Got(KeyEntry(alias, time, blob, chain), r4)
  }

  function TakeCertEntry(r: bytes, version: nat, alias: bytes): (t: Read<Stored>)
    ensures t.Got? ==> |t.rest| <= |r| && t.item.CertEntry?
  {
    match TakeNum(r, 8)
    case Short => Short
    case Got(time, r1) =>
      match TakeCert(r1, version)
      case Short => Short
      case Got(c, r2) => Got(CertEntry(alias, time, c), r2)
  }

  function TakeEntry(r: bytes, version: nat): (t: Read<Stored>)
    ensures t.Got? ==> |t.rest| < |r|
  {
    match TakeNum(r, 4)
    case Short => Short
    case Got(tag, r1) =>
      match TakeString(r1)
      case Short => Short
      case Got(alias, r2) =>
        if tag == TAG_KEY then TakeKeyEntry(r2, version, alias)
        else if tag == TAG_CERT then TakeCertEntry(r2, version, alias)
        else Short
  }

  function Ders(chain: seq<StoredCert>): seq<bytes> {
    if chain == [] then [] else [chain[0].der] + Ders(chain[1..])
  }

  // The key entries in order, certificate entries skipped, up to the first error.
  function Keys(es: seq<Stored>, open: Opener): Result<seq<Entry>> {
    if es == [] then Ok([])
    else if es[0].CertEntry? then Keys(es[1..], open)
    else
      match open(es[0].alias, es[0].blob, Ders(es[0].chain))
      case Err(e) => Err(e)
      case Ok(k) =>
        match Keys(es[1..], open)
        case Err(e) => Err(e)
        case Ok(ks) => Ok([k] + ks)
  }

  // The entry loop of parseJKS: the keys of n entries and what follows them.
  function ReadKeys(r: bytes, version: nat, n: nat, open: Opener): Result<(seq<Entry>, bytes)>
    decreases n
  {
    if n == 0 then Ok(([], r))
    else
      match TakeEntry(r, version)
      case Short => Err(Corrupt)
      case Got(e, r1) =>
        if e.CertEntry? then ReadKeys(r1, version, n - 1, open)
        else
          match open(e.alias, e.blob, Ders(e.chain))
          case Err(x) => Err(x)
          case Ok(k) =>
            match ReadKeys(r1, version, n - 1, open)
            case Err(x) => Err(x)
            case Ok((ks, rest)) => Ok(([k] + ks, rest))
  }

  // What parseJKS makes of the entries once the loop is over.
  function AllKeys(r: Result<(seq<Entry>, bytes)>): Result<seq<Entry>> {
    match r
    case Err(e) => Err(e)
    case Ok((keys, rest)) =>
      if rest != [] then Err(Corrupt) else if keys == [] then Err(NoPrivateKey) else Ok(keys)
  }

  function ParseBody(body: bytes, open: Opener): Result<seq<Entry>> {
    match TakeNum(body, 4)
    case Short => Err(Corrupt)
    case Got(magic, r1) =>
      if magic != MAGIC then Err(Corrupt)
      else
        match TakeNum(r1, 4)
        case Short => Err(Corrupt)
        case Got(version, r2) =>
          if version != 1 && version != 2 then Err(Corrupt)
          else
            match TakeNum(r2, 4)
            case Short => Err(Corrupt)
            case Got(count, r3) =>
              if count > MAX_ENTRIES then Err(Corrupt) else AllKeys(ReadKeys(r3, version, count, open))
  }

  // parseJKS
  function ParseStore(h: bytes -> bytes, pw: bytes, open: Opener, data: bytes): Result<seq<Entry>> {
    if |data| < DIGEST then Err(Corrupt)
    else
      var body := data[..|data| - DIGEST];
      if h(pw + WHITENER + body) != data[|data| - DIGEST..] then Err(Password) else ParseBody(body, open)
  }

  // takeKeyEntry with its chain loop.
  method TakeKey(env: Env, keyPw: bytes, r: bytes, version: nat, alias: bytes) returns (t: Result<(Entry, bytes)>)
    requires IsDigest(env.h)
    ensures t == Opened(TakeKeyEntry(r, version, alias), OpenKey(env, keyPw))
    ensures t.Ok? ==> t.value.0.alias != []
  {
    hide TakeCert, Decrypt, TakeNum, Take;
    var time := TakeNum(r, 8);
    if time.Short? {
      return Err(Corrupt);
    }
    var n := TakeNum(time.rest, 4);
    if n.Short? || n.item > MAX_BLOB {
      return Err(Corrupt);
    }
    var blob := Take(n.rest, n.item);
    if blob.Short? {
      return Err(Corrupt);
    }
    var count := TakeNum(blob.rest, 4);
    if count.Short? || count.item == 0 || count.item > MAX_CHAIN {
      return Err(Corrupt);
    }
    var certs: seq<bytes>, rest := [], count.rest;
    ghost var chain: seq<StoredCert> := [];
    assert Ders(chain) == certs;
    assert forall t: Read<seq<StoredCert>> :: ChainAfter([], t) == t by {
      forall t: Read<seq<StoredCert>> ensures ChainAfter([], t) == t {
        if t.Got? { assert [] + t.item == t.item; }
      }
    }
    for i := 0 to count.item
      invariant certs == Ders(chain)
      invariant TakeChain(count.rest, version, count.item) ==
        ChainAfter(chain, TakeChain(rest, version, count.item - i))
    {
      var c := TakeCert(rest, version);
      if c.Short? {
        return Err(Corrupt);
      }
      DersGrow(chain, c.item);
      ChainGrow(chain, c.item, TakeChain(c.rest, version, count.item - i - 1));
      certs, rest := certs + [c.item.der], c.rest;
      chain := chain + [c.item];
    }
    assert chain + [] == chain;
    assert TakeKeyEntry(r, version, alias) == Got(KeyEntry(alias, time.item, blob.item, chain), rest);
    var body := env.unwrap(blob.item);
    if body.None? {
      return Err(Corrupt);
    }
    var plain := DecryptKey(env.h, keyPw, body.value);
    if plain.Err? {
      return Err(plain.error);
    }
    var entry := Finish(env.x, alias, plain.value, certs);
    t := match entry case Err(e) => Err(e) case Ok(k) => Ok((k, rest));
  }

  ghost function Opened(t: Read<Stored>, open: Opener): Result<(Entry, bytes)>
    requires t.Got? ==> t.item.KeyEntry?
  {
    match t
    case Short => Err(Corrupt)
    case Got(e, rest) =>
      match open(e.alias, e.blob, Ders(e.chain))
      case Err(x) => Err(x)
      case Ok(k) => Ok((k, rest))
  }

  ghost function ChainAfter(done: seq<StoredCert>, t: Read<seq<StoredCert>>): Read<seq<StoredCert>> {
    match t
    case Short => Short
    case Got(more, rest) => Got(done + more, rest)
  }

  lemma ChainGrow(done: seq<StoredCert>, c: StoredCert, t: Read<seq<StoredCert>>)
    ensures ChainAfter(done + [c], t) ==
      ChainAfter(done, match t case Short => Short case Got(more, rest) => Got([c] + more, rest))
  {
    if t.Got? {
      assert done + [c] + t.item == done + ([c] + t.item);
    }
  }

  lemma {:induction false} DersGrow(chain: seq<StoredCert>, c: StoredCert)
    ensures Ders(chain + [c]) == Ders(chain) + [c.der]
  {
    if chain != [] {
      DersGrow(chain[1..], c);
      assert (chain + [c])[1..] == chain[1..] + [c];
    }
  }

  ghost function KeysAfter(done: seq<Entry>, t: Result<(seq<Entry>, bytes)>): Result<(seq<Entry>, bytes)> {
    match t
    case Err(e) => Err(e)
    case Ok((more, rest)) => Ok((done + more, rest))
  }

  lemma KeysGrow(done: seq<Entry>, k: Entry, t: Result<(seq<Entry>, bytes)>)
    ensures KeysAfter(done + [k], t) ==
      KeysAfter(done, match t case Err(e) => Err(e) case Ok((more, rest)) => Ok(([k] + more, rest)))
  {
    if t.Ok? {
      assert done + [k] + t.value.0 == done + ([k] + t.value.0);
    }
  }

  // parseJKS, on the UTF-16 bytes of the two passwords.
  method ParseJks(env: Env, data: bytes, storePw: bytes, keyPw: bytes) returns (t: Result<seq<Entry>>)
    requires IsDigest(env.h)
    ensures t == ParseStore(env.h, storePw, OpenKey(env, keyPw), data)
  {
    hide TakeNum, TakeKeyEntry, TakeCertEntry, TakeString, OpenKey;
    if |data| < DIGEST {
      return Err(Corrupt);
    }
    var body, mac := data[..|data| - DIGEST], data[|data| - DIGEST..];
    if env.h(storePw + WHITENER + body) != mac {
      return Err(Password);
    }
    var magic := TakeNum(body, 4);
    if magic.Short? || magic.item != MAGIC {
      return Err(Corrupt);
    }
    var version := TakeNum(magic.rest, 4);
    if version.Short? || (version.item != 1 && version.item != 2) {
      return Err(Corrupt);
    }
    var count := TakeNum(version.rest, 4);
    if count.Short? || count.item > MAX_ENTRIES {
      return Err(Corrupt);
    }
    t := EntryLoop(env, keyPw, count.rest, version.item, count.item);
  }

  method EntryLoop(env: Env, keyPw: bytes, start: bytes, version: nat, count: nat) returns (t: Result<seq<Entry>>)
    requires IsDigest(env.h)
    ensures t == AllKeys(ReadKeys(start, version, count, OpenKey(env, keyPw)))
  {
    hide TakeNum, TakeKeyEntry, TakeCertEntry, TakeString, OpenKey;
    ghost var open := OpenKey(env, keyPw);
    ghost var whole := ReadKeys(start, version, count, open);
    var out: seq<Entry>, r := [], start;
    assert whole.Ok? ==> out + whole.value.0 == whole.value.0;
    for i := 0 to count
      invariant whole == KeysAfter(out, ReadKeys(r, version, count - i, open))
    {
      var tag := TakeNum(r, 4);
      if tag.Short? {
        return Err(Corrupt);
      }
      var alias := TakeString(tag.rest);
      if alias.Short? {
        return Err(Corrupt);
      }
      if tag.item == TAG_KEY {
        var key := TakeKey(env, keyPw, alias.rest, version, alias.item);
        if key.Err? {
          return Err(key.error);
        }
        if key.value.0.alias != [] {
          KeysGrow(out, key.value.0, ReadKeys(key.value.1, version, count - i - 1, open));
          out := out + [key.value.0];
        }
        r := key.value.1;
      } else if tag.item == TAG_CERT {
        var cert := TakeCertEntry(alias.rest, version, alias.item);
        if cert.Short? {
          return Err(Corrupt);
        }
        r := cert.rest;
      } else {
        return Err(Corrupt);
      }
    }
    assert out + [] == out;
    if r != [] {
      return Err(Corrupt);
    }
    if out == [] {
      return Err(NoPrivateKey);
    }
    t := Ok(out);
  }

  // ----- printing and parsing are inverse

  lemma StringOf(s: bytes, tail: bytes)
    requires |s| <= MAX_STRING
    ensures TakeString(Field(s, 2) + tail) == Got(s, tail)
  {
    SmallPowers();
    TakeFieldOf(s, 2, tail);
  }

  lemma StringOnly(r: bytes)
    requires TakeString(r).Got?
    ensures var t := TakeString(r); r == Field(t.item, 2) + t.rest && |t.item| <= MAX_STRING
  {
    TakeFieldOnly(r, 2);
  }

  lemma CertOf(c: StoredCert, version: nat, tail: bytes)
    requires CertOk(c, version)
    ensures TakeCert(PutCert(c, version) + tail, version) == Got(c, tail)
  {
    hide TakeField, TakeString, Field;
    SmallPowers();
    var t := Field(c.der, 4) + tail;
    TakeFieldOf(c.der, 4, tail);
    if version == 2 {
      StringOf(c.kind, t);
      assert PutCert(c, version) + tail == Field(c.kind, 2) + t;
    } else {
      assert PutCert(c, version) + tail == t;
    }
  }

  lemma CertOnly(r: bytes, version: nat)
    requires TakeCert(r, version).Got?
    ensures var t := TakeCert(r, version); r == PutCert(t.item, version) + t.rest && CertOk(t.item, version)
  {
    hide TakeField, TakeString, Field;
    var t := TakeCert(r, version);
    if version == 2 {
      StringOnly(r);
    }
    var r1 := if version == 2 then TakeString(r).rest else r;
    TakeFieldOnly(r1, 4);
    if version == 2 {
      assert r == Field(t.item.kind, 2) + (Field(t.item.der, 4) + t.rest);
    } else {
      assert r == [] + Field(t.item.der, 4) + t.rest;
    }
  }

  lemma {:induction false} ChainOf(cs: seq<StoredCert>, version: nat, tail: bytes)
    requires forall c :: c in cs ==> CertOk(c, version)
    ensures TakeChain(PutCerts(cs, version) + tail, version, |cs|) == Got(cs, tail)
  {
    hide TakeCert, PutCert, CertOk;
    if cs == [] {
      assert PutCerts(cs, version) + tail == tail;
    } else {
      var more := PutCerts(cs[1..], version) + tail;
      assert PutCerts(cs, version) + tail == PutCert(cs[0], version) + more;
      hide PutCerts;
      CertOf(cs[0], version, more);
      ChainOf(cs[1..], version, tail);
      ChainHead(PutCert(cs[0], version) + more, version, cs, tail);
    }
  }

  lemma ChainHead(r: bytes, version: nat, cs: seq<StoredCert>, tail: bytes)
    requires cs != [] && TakeCert(r, version).Got? && TakeCert(r, version).item == cs[0]
    requires TakeChain(TakeCert(r, version).rest, version, |cs| - 1) == Got(cs[1..], tail)
    ensures TakeChain(r, version, |cs|) == Got(cs, tail)
  {
    hide TakeCert;
    assert [cs[0]] + cs[1..] == cs;
  }

  lemma {:induction false} ChainOnly(r: bytes, version: nat, n: nat)
    requires TakeChain(r, version, n).Got?
    ensures var t := TakeChain(r, version, n);
      r == PutCerts(t.item, version) + t.rest && |t.item| == n && forall c :: c in t.item ==> CertOk(c, version)
    decreases n
  {
    hide TakeCert, PutCert;
    if n > 0 {
      CertOnly(r, version);
      var r1 := TakeCert(r, version).rest;
      ChainOnly(r1, version, n - 1);
      var t := TakeChain(r, version, n);
      assert t.item[1..] == TakeChain(r1, version, n - 1).item;
      assert r == PutCerts(t.item, version) + t.rest;
    }
  }

  lemma EntryOf(e: Stored, version: nat, tail: bytes)
    requires EntryOk(e, version)
    ensures TakeEntry(PutEntry(e, version) + tail, version) == Got(e, tail)
  {
    hide TakeField, TakeNum, TakeString, TakeCert, TakeChain, Field, BE, PutCerts, PutCert;
    SmallPowers();
    match e {
      case KeyEntry(alias, time, blob, chain) =>
        var t3 := PutCerts(chain, version) + tail;
        var t2 := Field(blob, 4) + (BE(|chain|, 4) + t3);
        var t1 := BE(time, 8) + t2;
        assert PutEntry(e, version) + tail == BE(TAG_KEY, 4) + (Field(alias, 2) + t1);
        TakeNumBE(TAG_KEY, 4, Field(alias, 2) + t1);
        StringOf(alias, t1);
        TakeNumBE(time, 8, t2);
        TakeFieldOf(blob, 4, BE(|chain|, 4) + t3);
        TakeNumBE(|chain|, 4, t3);
        ChainOf(chain, version, tail);
      case CertEntry(alias, time, cert) =>
        var t2 := PutCert(cert, version) + tail;
        var t1 := BE(time, 8) + t2;
        assert PutEntry(e, version) + tail == BE(TAG_CERT, 4) + (Field(alias, 2) + t1);
        TakeNumBE(TAG_CERT, 4, Field(alias, 2) + t1);
        StringOf(alias, t1);
        TakeNumBE(time, 8, t2);
        CertOf(cert, version, tail);
    }
  }

  lemma EntryOnly(r: bytes, version: nat)
    requires TakeEntry(r, version).Got?
    ensures var t := TakeEntry(r, version); r == PutEntry(t.item, version) + t.rest && EntryOk(t.item, version)
  {
    hide TakeField, TakeNum, TakeString, TakeCert, TakeChain, Field, BE, PutCerts, PutCert;
    var t := TakeEntry(r, version);
    TakeNumOnly(r, 4);
    var r1 := TakeNum(r, 4).rest;
    StringOnly(r1);
    var r2 := TakeString(r1).rest;
    TakeNumOnly(r2, 8);
    var r3 := TakeNum(r2, 8).rest;
    if t.item.KeyEntry? {
      TakeFieldOnly(r3, 4);
      var r4 := TakeField(r3, 4).rest;
      TakeNumOnly(r4, 4);
      var r5 := TakeNum(r4, 4).rest;
      ChainOnly(r5, version, TakeNum(r4, 4).item);
      assert r2 == BE(t.item.time, 8) + (Field(t.item.blob, 4) + (BE(|t.item.chain|, 4) + r5));
    } else {
      CertOnly(r3, version);
    }
    assert r == BE(TakeNum(r, 4).item, 4) + (Field(t.item.alias, 2) + r2);
    assert r == PutEntry(t.item, version) + t.rest;
  }

  lemma {:induction false} KeysOf(es: seq<Stored>, version: nat, open: Opener, tail: bytes)
    requires forall e :: e in es ==> EntryOk(e, version)
    ensures ReadKeys(PutEntries(es, version) + tail, version, |es|, open)
         == match Keys(es, open) case Err(x) => Err(x) case Ok(ks) => Ok((ks, tail))
  {
    hide TakeEntry, PutEntry, Ders;
    if es == [] {
      assert PutEntries(es, version) + tail == tail;
    } else {
      var more := PutEntries(es[1..], version) + tail;
      assert PutEntries(es, version) + tail == PutEntry(es[0], version) + more;
      EntryOf(es[0], version, more);
      KeysOf(es[1..], version, open, tail);
    }
  }

  // The entries a successful read went through.
  function Entries(r: bytes, version: nat, n: nat): seq<Stored>
    decreases n
  {
    if n == 0 then []
    else
      match TakeEntry(r, version)
      case Short => []
      case Got(e, r1) => [e] + Entries(r1, version, n - 1)
  }

  lemma {:induction false} KeysOnly(r: bytes, version: nat, n: nat, open: Opener)
    requires ReadKeys(r, version, n, open).Ok?
    ensures var es := Entries(r, version, n); var (ks, rest) := ReadKeys(r, version, n, open).value;
      && |es| == n && (forall e :: e in es ==> EntryOk(e, version))
      && r == PutEntries(es, version) + rest && Keys(es, open) == Ok(ks)
    decreases n
  {
    hide TakeEntry, PutEntry, Ders;
    if n > 0 {
      EntryOnly(r, version);
      var t := TakeEntry(r, version);
      KeysOnly(t.rest, version, n - 1, open);
      var es := Entries(r, version, n);
      assert es[1..] == Entries(t.rest, version, n - 1);
      assert r == PutEntries(es, version) + ReadKeys(r, version, n, open).value.1;
    }
  }

  lemma BodyOf(es: seq<Stored>, version: nat, open: Opener, junk: bytes)
    requires (version == 1 || version == 2) && |es| <= MAX_ENTRIES && forall e :: e in es ==> EntryOk(e, version)
    ensures ParseBody(PutStore(es, version) + junk, open) ==
      AllKeys(match Keys(es, open) case Err(x) => Err(x) case Ok(ks) => Ok((ks, junk)))
  {
    hide TakeNum, BE, PutEntries, ReadKeys, Keys, EntryOk, AllKeys;
    SmallPowers();
    var t3 := PutEntries(es, version) + junk;
    var t2 := BE(|es|, 4) + t3;
    var t1 := BE(version, 4) + t2;
    assert PutStore(es, version) + junk == BE(MAGIC, 4) + t1;
    TakeNumBE(MAGIC, 4, t1);
    TakeNumBE(version, 4, t2);
    TakeNumBE(|es|, 4, t3);
    KeysOf(es, version, open, junk);
  }

  // A printed store parses to exactly its keys, in order, with their chains, and
  // only when every byte has been used.
  lemma StoreRoundTrip(h: bytes -> bytes, pw: bytes, open: Opener, es: seq<Stored>, version: nat, junk: bytes)
    requires IsDigest(h) && (version == 1 || version == 2)
    requires |es| <= MAX_ENTRIES && forall e :: e in es ==> EntryOk(e, version)
    ensures ParseStore(h, pw, open, Seal(h, pw, PutStore(es, version) + junk)) ==
      match Keys(es, open)
      case Err(x) => Err(x)
      case Ok(keys) => if junk != [] then Err(Corrupt) else if keys == [] then Err(NoPrivateKey) else Ok(keys)
  {
    hide ParseBody, PutStore, Keys, EntryOk;
    BodyOf(es, version, open, junk);
    var body := PutStore(es, version) + junk;
    var data := Seal(h, pw, body);
    assert data[..|data| - DIGEST] == body && data[|data| - DIGEST..] == h(pw + WHITENER + body);
  }

  // Whatever parses is a printed store of well-formed entries with those keys.
  lemma OnlyStoresParse(h: bytes -> bytes, pw: bytes, open: Opener, data: bytes)
    requires IsDigest(h) && ParseStore(h, pw, open, data).Ok?
    ensures exists es, version ::
      && (version == 1 || version == 2) && |es| <= MAX_ENTRIES && (forall e :: e in es ==> EntryOk(e, version))
      && data == Seal(h, pw, PutStore(es, version))
      && Keys(es, open) == ParseStore(h, pw, open, data)
  {
    hide TakeNum, BE, PutEntries, ReadKeys, Keys, EntryOk, Entries;
    var body := data[..|data| - DIGEST];
    TakeNumOnly(body, 4);
    var r1 := TakeNum(body, 4).rest;
    TakeNumOnly(r1, 4);
    var version, r2 := TakeNum(r1, 4).item, TakeNum(r1, 4).rest;
    TakeNumOnly(r2, 4);
    var count, r3 := TakeNum(r2, 4).item, TakeNum(r2, 4).rest;
    KeysOnly(r3, version, count, open);
    var es := Entries(r3, version, count);
    assert PutEntries(es, version) + [] == PutEntries(es, version);
    assert body == PutStore(es, version);
    assert data == body + data[|data| - DIGEST..];
  }

  // A private key as keytool would store it: encrypted under some salt and wrapped.
  datatype Secret = Secret(alias: bytes, time: nat, salt: bytes, plain: bytes, chain: seq<StoredCert>)

  ghost function Protect(env: Env, keyPw: bytes, wrap: bytes -> bytes, s: Secret): Stored
    requires IsDigest(env.h)
  {
    KeyEntry(s.alias, s.time, wrap(Encrypt(env.h, keyPw, s.salt, s.plain)), s.chain)
  }

  // Opening what was protected leaves only the checks of finish.
  lemma OpenProtected(env: Env, keyPw: bytes, wrap: bytes -> bytes, s: Secret)
    requires IsDigest(env.h) && |s.salt| == DIGEST
    requires forall b :: env.unwrap(wrap(b)) == Some(b)
    ensures var e := Protect(env, keyPw, wrap, s);
      OpenKey(env, keyPw)(e.alias, e.blob, Ders(e.chain)) == Finish(env.x, s.alias, s.plain, Ders(s.chain))
  {
    DecryptEncrypt(env.h, keyPw, s.salt, s.plain);
  }

  // The entries are these secrets in order, with certificate entries in between.
  ghost predicate Shuffled(env: Env, keyPw: bytes, wrap: bytes -> bytes, es: seq<Stored>, secrets: seq<Secret>)
    requires IsDigest(env.h)
  {
    if es == [] then secrets == []
    else if es[0].CertEntry? then Shuffled(env, keyPw, wrap, es[1..], secrets)
    else
      && secrets != [] && es[0] == Protect(env, keyPw, wrap, secrets[0])
      && Shuffled(env, keyPw, wrap, es[1..], secrets[1..])
  }

  ghost predicate Sound(env: Env, s: Secret) {
    |s.salt| == DIGEST && Finish(env.x, s.alias, s.plain, Ders(s.chain)).Ok?
  }

  ghost function Plainly(secrets: seq<Secret>): seq<Entry> {
    seq(|secrets|, i requires 0 <= i < |secrets| => Entry(secrets[i].alias, secrets[i].plain, Ders(secrets[i].chain)))
  }

  lemma {:induction false} KeysOfSecrets(env: Env, keyPw: bytes, wrap: bytes -> bytes,
                                         es: seq<Stored>, secrets: seq<Secret>)
    requires IsDigest(env.h) && Shuffled(env, keyPw, wrap, es, secrets)
    requires forall b :: env.unwrap(wrap(b)) == Some(b)
    requires forall s :: s in secrets ==> Sound(env, s)
    ensures Keys(es, OpenKey(env, keyPw)) == Ok(Plainly(secrets))
    decreases es
  {
    hide Protect, OpenKey, Ders;
    if es == [] {
      assert Plainly(secrets) == [];
    } else if es[0].CertEntry? {
      KeysOfSecrets(env, keyPw, wrap, es[1..], secrets);
    } else {
      assert Sound(env, secrets[0]);
      OpenProtected(env, keyPw, wrap, secrets[0]);
      KeysOfSecrets(env, keyPw, wrap, es[1..], secrets[1..]);
      assert Plainly(secrets) == [Plainly(secrets)[0]] + Plainly(secrets[1..]);
    }
  }

  // From keytool's store back to the keys: with certificate entries anywhere among
  // them, parsing gives every private key in order, in the clear, with its chain.
  lemma StoreOfSecrets(env: Env, storePw: bytes, keyPw: bytes, wrap: bytes -> bytes,
                       es: seq<Stored>, secrets: seq<Secret>, version: nat)
    requires IsDigest(env.h) && Shuffled(env, keyPw, wrap, es, secrets) && secrets != []
    requires forall b :: env.unwrap(wrap(b)) == Some(b)
    requires forall s :: s in secrets ==> Sound(env, s)
    requires (version == 1 || version == 2) && |es| <= MAX_ENTRIES && forall e :: e in es ==> EntryOk(e, version)
    ensures ParseStore(env.h, storePw, OpenKey(env, keyPw), Seal(env.h, storePw, PutStore(es, version))) ==
      Ok(Plainly(secrets))
  {
    hide ParseStore, PutStore, Keys, Shuffled, EntryOk, Sound, Seal, OpenKey;
    KeysOfSecrets(env, keyPw, wrap, es, secrets);
    StoreRoundTrip(env.h, storePw, OpenKey(env, keyPw), es, version, []);
    assert PutStore(es, version) + [] == PutStore(es, version);
  }
}
