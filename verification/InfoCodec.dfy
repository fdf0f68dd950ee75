// The token description: written by the server (infoBody, token/token.go), read
// by the client (parse_info, pkcs11/hotbox.c). The two must be inverse.

module InfoCodec {
  import opened Bytes

  const KEY_RSA: byte := 1
  const KEY_EC: byte := 2
  const MAX_CERTS := 8
  const MAX_ALIAS := 128

  datatype CertFields = CertFields(der: bytes, subject: bytes, issuer: bytes, serial: bytes)

  datatype Info = Info(alias: bytes, kind: byte, a: bytes, b: bytes, certs: seq<CertFields>)

  function EncodeCert(c: CertFields): bytes {
    Field(c.der, 4) + (Field(c.subject, 2) + (Field(c.issuer, 2) + Field(c.serial, 2)))
  }

  function EncodeCerts(cs: seq<CertFields>): bytes {
    if cs == [] then [] else EncodeCert(cs[0]) + EncodeCerts(cs[1..])
  }

  function EncodeInfo(i: Info): bytes
    requires |i.certs| < 256
  {
    EncodeHead(i) + EncodeCerts(i.certs)
  }

  function EncodeHead(i: Info): bytes
    requires |i.certs| < 256
  {
    Field(i.alias, 2) + [i.kind] + Field(i.a, 2) + Field(i.b, 2) + [|i.certs|]
  }

  // What a description holds, from the front: alias, kind, the two parts of the key, the
  // number of certificates and the certificates.
  lemma InfoPlaces(i: Info)
    requires Acceptable(i)
    ensures exists r, r', r'' ::
      && Fronted(EncodeInfo(i), 2, i.alias, [i.kind] + r) && Fronted(r, 2, i.a, r') && Fronted(r', 2, i.b, r'')
      && r'' == [|i.certs|] + EncodeCerts(i.certs)
  {
    SmallPowers();
    hide Field, Fronted, EncodeCerts;
    var r'' := [|i.certs|] + EncodeCerts(i.certs);
    var r' := Field(i.b, 2) + r'';
    var r := Field(i.a, 2) + r';
    assert EncodeInfo(i) == Field(i.alias, 2) + ([i.kind] + r);
    FieldFronted(i.b, 2, r'');
    FieldFronted(i.a, 2, r');
    FieldFronted(i.alias, 2, [i.kind] + r);
  }

  // Of a certificate: the whole, its subject, its issuer and its serial number.
  lemma CertPlaces(c: CertFields, rest: bytes)
    requires CertFits(c)
    ensures exists r, r', r'' ::
      && Fronted(EncodeCert(c) + rest, 4, c.der, r) && Fronted(r, 2, c.subject, r')
      && Fronted(r', 2, c.issuer, r'') && Fronted(r'', 2, c.serial, rest)
  {
    SmallPowers();
    hide Field, Fronted;
    var r'' := Field(c.serial, 2) + rest;
    var r' := Field(c.issuer, 2) + r'';
    var r := Field(c.subject, 2) + r';
    assert EncodeCert(c) + rest == Field(c.der, 4) + r;
    FieldFronted(c.serial, 2, rest);
    FieldFronted(c.issuer, 2, r'');
    FieldFronted(c.subject, 2, r');
    FieldFronted(c.der, 4, r);
  }

  // The length prefixes hold the lengths.
  predicate CertFits(c: CertFields) {
    |c.der| < 0x1_0000_0000 && |c.subject| < 0x1_0000 && |c.issuer| < 0x1_0000 && |c.serial| < 0x1_0000
  }

  // What the client insists on.
  predicate Acceptable(i: Info) {
    && 1 <= |i.alias| <= MAX_ALIAS
    && (i.kind == KEY_RSA || i.kind == KEY_EC)
    && |i.a| < 0x1_0000 && |i.b| < 0x1_0000
    && 1 <= |i.certs| <= MAX_CERTS
    && forall c :: c in i.certs ==> CertFits(c)
  }

  function TakeCert(r: bytes): (t: Read<CertFields>)
    ensures t.Got? ==> |t.rest| < |r|
  {
    match TakeField(r, 4)
    case Short => Short
    case Got(der, r1) =>
      match TakeField(r1, 2)
      case Short => Short
      case Got(subject, r2) =>
        match TakeField(r2, 2)
        case Short => Short
        case Got(issuer, r3) =>
          match TakeField(r3, 2)
          case Short => Short
          case Got(serial, r4) => Got(CertFields(der, subject, issuer, serial), r4)
  }

  function TakeCerts(r: bytes, count: nat): Read<seq<CertFields>> {
    if count == 0 then Got([], r)
    else
      match TakeCert(r)
      case Short => Short
      case Got(c, r1) =>
        match TakeCerts(r1, count - 1)
        case Short => Short
        case Got(cs, rest) => Got([c] + cs, rest)
  }

  // parse_info: the description, or None for every body it rejects.
  function ParseInfo(p: bytes): Option<Info> {
    match TakeField(p, 2)
    case Short => None
    case Got(alias, p1) =>
      if |alias| == 0 || |alias| > MAX_ALIAS || |p1| == 0 || (p1[0] != KEY_RSA && p1[0] != KEY_EC) then None
      else
        match TakeField(p1[1..], 2)
        case Short => None
        case Got(a, p2) =>
          match TakeField(p2, 2)
          case Short => None
          case Got(b, p3) =>
            if |p3| == 0 || p3[0] == 0 || p3[0] > MAX_CERTS then None
            else
              match TakeCerts(p3[1..], p3[0])
              case Short => None
              case Got(certs, rest) => if rest != [] then None else Some(Info(alias, p1[0], a, b, certs))
  }

  lemma TakeCertOf(c: CertFields, tail: bytes)
    requires CertFits(c)
    ensures TakeCert(EncodeCert(c) + tail) == Got(c, tail)
  {
    hide TakeField, Field;
    SmallPowers();
    var t3 := Field(c.serial, 2) + tail;
    var t2 := Field(c.issuer, 2) + t3;
    var t1 := Field(c.subject, 2) + t2;
    assert EncodeCert(c) + tail == Field(c.der, 4) + t1;
    TakeFieldOf(c.der, 4, t1);
    TakeFieldOf(c.subject, 2, t2);
    TakeFieldOf(c.issuer, 2, t3);
    TakeFieldOf(c.serial, 2, tail);
  }

  lemma TakeCertOnly(r: bytes)
    requires TakeCert(r).Got?
    ensures var t := TakeCert(r); r == EncodeCert(t.item) + t.rest && CertFits(t.item)
  {
    hide TakeField, Field;
    SmallPowers();
    TakeFieldOnly(r, 4);
    var r1 := TakeField(r, 4).rest;
    TakeFieldOnly(r1, 2);
    var r2 := TakeField(r1, 2).rest;
    TakeFieldOnly(r2, 2);
    var r3 := TakeField(r2, 2).rest;
    TakeFieldOnly(r3, 2);
    var t := TakeCert(r);
    assert r == EncodeCert(t.item) + t.rest;
  }

  lemma {:induction false} TakeCertsOf(cs: seq<CertFields>, tail: bytes)
    requires forall c :: c in cs ==> CertFits(c)
    ensures TakeCerts(EncodeCerts(cs) + tail, |cs|) == Got(cs, tail)
  {
    hide TakeCert, EncodeCert;
    if cs == [] {
      assert EncodeCerts(cs) + tail == tail;
    } else {
      var more := EncodeCerts(cs[1..]) + tail;
      assert EncodeCerts(cs) + tail == EncodeCert(cs[0]) + more;
      TakeCertOf(cs[0], more);
      TakeCertsOf(cs[1..], tail);
      assert [cs[0]] + cs[1..] == cs;
    }
  }

  lemma {:induction false} TakeCertsOnly(r: bytes, count: nat)
    requires TakeCerts(r, count).Got?
    ensures var t := TakeCerts(r, count);
      r == EncodeCerts(t.item) + t.rest && |t.item| == count && forall c :: c in t.item ==> CertFits(c)
    decreases count
  {
    hide TakeCert, EncodeCert;
    if count > 0 {
      TakeCertOnly(r);
      var r1 := TakeCert(r).rest;
      TakeCertsOnly(r1, count - 1);
      var t := TakeCerts(r, count);
      assert t.item[1..] == TakeCerts(r1, count - 1).item;
      assert r == EncodeCerts(t.item) + t.rest;
    }
  }

  // Whatever the server writes within the client's limits, the client restores.
  lemma InfoRoundTrip(i: Info)
    requires Acceptable(i)
    ensures ParseInfo(EncodeInfo(i)) == Some(i)
  {
    hide TakeField, Field, TakeCerts, EncodeCerts;
    SmallPowers();
    var t3 := [|i.certs|] + EncodeCerts(i.certs);
    var t2 := Field(i.b, 2) + t3;
    var t1 := [i.kind] + (Field(i.a, 2) + t2);
    assert EncodeInfo(i) == Field(i.alias, 2) + t1;
    TakeFieldOf(i.alias, 2, t1);
    assert t1[1..] == Field(i.a, 2) + t2;
    TakeFieldOf(i.a, 2, t2);
    TakeFieldOf(i.b, 2, t3);
    assert t3[1..] == EncodeCerts(i.certs) + [];
    TakeCertsOf(i.certs, []);
  }

  // Whatever the client accepts is exactly what the server would write for it.
  lemma OnlyEncodingsParse(p: bytes)
    requires ParseInfo(p).Some?
    ensures Acceptable(ParseInfo(p).value) && EncodeInfo(ParseInfo(p).value) == p
  {
    hide TakeField, Field, TakeCerts, EncodeCerts;
    SmallPowers();
    var i := ParseInfo(p).value;
    TakeFieldOnly(p, 2);
    var p1 := TakeField(p, 2).rest;
    TakeFieldOnly(p1[1..], 2);
    var p2 := TakeField(p1[1..], 2).rest;
    TakeFieldOnly(p2, 2);
    var p3 := TakeField(p2, 2).rest;
    TakeCertsOnly(p3[1..], p3[0]);
    assert p3 == [|i.certs|] + EncodeCerts(i.certs);
    assert p == Field(i.alias, 2) + ([i.kind] + (Field(i.a, 2) + (Field(i.b, 2) + p3)));
  }

  // A description whose lengths the prefixes hold is restored when the client's limits
  // allow it and rejected when they do not.
  lemma ParsesIffAcceptable(i: Info)
    requires InfoFits(i) && forall k :: 0 <= k < |i.certs| ==> |i.certs[k].der| < 0x1_0000_0000
    ensures ParseInfo(EncodeInfo(i)) == if Acceptable(i) then Some(i) else None
  {
    hide TakeField, Field, TakeCerts, EncodeCerts;
    SmallPowers();
    if Acceptable(i) {
      InfoRoundTrip(i);
    } else {
      var t3 := [|i.certs|] + EncodeCerts(i.certs);
      var t2 := Field(i.b, 2) + t3;
      var t1 := [i.kind] + (Field(i.a, 2) + t2);
      assert EncodeInfo(i) == Field(i.alias, 2) + t1;
      TakeFieldOf(i.alias, 2, t1);
      assert t1[1..] == Field(i.a, 2) + t2;
      TakeFieldOf(i.a, 2, t2);
      TakeFieldOf(i.b, 2, t3);
      assert forall k :: 0 <= k < |i.certs| ==> CertFits(i.certs[k]) by {
        assert forall k :: 0 <= k < |i.certs| ==> NamesFit(i.certs[k]);
      }
    }
  }

  lemma {:induction false} CertWithin(cs: seq<CertFields>, k: nat)
    requires k < |cs|
    ensures |cs[k].der| <= |EncodeCerts(cs)|
  {
    if k > 0 {
      CertWithin(cs[1..], k - 1);
    }
  }

  // infoBody: refused when a length does not fit its prefix, otherwise the encoding.
  // The DER prefix is not checked; it is truncated to 32 bits like every other store.
  method InfoBody(i: Info) returns (ok: bool, buf: bytes)
    ensures ok <==> InfoFits(i)
    ensures ok ==> buf == EncodeInfo(i)
  {
    if |i.alias| > 0xffff || |i.a| > 0xffff || |i.b| > 0xffff || |i.certs| > 255 {
      return false, [];
    }
    buf := Field(i.alias, 2);
    buf := buf + [i.kind];
    buf := buf + Field(i.a, 2);
    buf := buf + Field(i.b, 2);
    buf := buf + [|i.certs|];
    ok, buf := AppendCerts(buf, i.certs);
  }

  // The certificate loop of infoBody.
  method AppendCerts(start: bytes, certs: seq<CertFields>) returns (ok: bool, buf: bytes)
    ensures ok <==> forall k :: 0 <= k < |certs| ==> NamesFit(certs[k])
    ensures ok ==> buf == start + EncodeCerts(certs)
  {
    hide EncodeCert;
    assert EncodeCerts(certs[..0]) == [];
    hide EncodeCerts;
    buf := start;
    for n := 0 to |certs|
      invariant forall k :: 0 <= k < n ==> NamesFit(certs[k])
      invariant buf == start + EncodeCerts(certs[..n])
    {
      var c := certs[n];
      if |c.subject| > 0xffff || |c.issuer| > 0xffff || |c.serial| > 0xffff {
        return false, [];
      }
      AppendCert(certs[..n], c);
      assert certs[..n] + [c] == certs[..n + 1];
      buf := AppendCertFields(buf, c);
    }
    assert certs[..|certs|] == certs;
    ok := true;
  }

  method AppendCertFields(start: bytes, c: CertFields) returns (buf: bytes)
    ensures buf == start + EncodeCert(c)
  {
    hide Field;
    buf := start + Field(c.der, 4);
    buf := buf + Field(c.subject, 2);
    buf := buf + Field(c.issuer, 2);
    buf := buf + Field(c.serial, 2);
  }

  predicate NamesFit(c: CertFields) {
    |c.subject| <= 0xffff && |c.issuer| <= 0xffff && |c.serial| <= 0xffff
  }

  predicate InfoFits(i: Info) {
    && |i.alias| <= 0xffff && |i.a| <= 0xffff && |i.b| <= 0xffff && |i.certs| <= 255
    && forall k :: 0 <= k < |i.certs| ==> NamesFit(i.certs[k])
  }

  lemma {:induction false} AppendCert(cs: seq<CertFields>, c: CertFields)
    ensures EncodeCerts(cs + [c]) == EncodeCerts(cs) + EncodeCert(c)
  {
    if cs == [] {
      assert EncodeCerts([c][1..]) == [];
    } else {
      assert (cs + [c])[1..] == cs[1..] + [c];
      AppendCert(cs[1..], c);
    }
  }

  // The contents octets wrapped as the client's CKA_EC_POINT (der_octet).
  function DerOctet(x: bytes): bytes
    requires |x| <= 0xffff
  {
    [0x04] + DerLength(|x|) + x
  }

  function DerLength(n: nat): bytes
    requires n <= 0xffff
  {
    if n < 128 then [n]
    else if n < 256 then [0x81, n]
    else [0x82, n / 256, n % 256]
  }

  // A definite length in DER, section 10.1 of X.690: the short form below 128,
  // otherwise a count of length octets with no leading zero octet.
  predicate MinimalLength(l: bytes, n: nat) {
    || (|l| == 1 && l[0] < 128 && l[0] == n)
    || (2 <= |l| <= 127 && l[0] == 0x80 + (|l| - 1) && l[1] != 0 && n >= 128 && Num(l[1..]) == n)
  }

  lemma {:induction false} LeadingOctet(b: bytes)
    requires |b| > 0 && b[0] != 0
    ensures Num(b) >= Pow256(|b| - 1)
  {
    if |b| > 1 {
      LeadingOctet(b[..|b| - 1]);
    }
  }

  // der_octet writes the one length DER allows, for every length the u16 prefix can give it.
  lemma DerLengthUnique(l: bytes, n: nat)
    requires n <= 0xffff
    ensures MinimalLength(l, n) <==> l == DerLength(n)
  {
    SmallPowers();
    if l == DerLength(n) && n >= 128 {
      if n < 256 {
        assert l[1..] == [n] && [n][..0] == [];
        assert Num([n]) == n;
      } else {
        assert l[1..] == [n / 256, n % 256] && l[1..][..1] == [n / 256] && [n / 256][..0] == [];
        assert Num([n / 256]) == n / 256;
        assert Num(l[1..]) == n;
      }
    }
    if |l| == 1 {
      assert l == [l[0]];
    } else if MinimalLength(l, n) {
      var m := l[1..];
      LeadingOctet(m);
      assert |m| < 3;
      if |m| == 1 {
        assert m[..0] == [];
        assert Num(m) == m[0] && l == [0x81, m[0]];
      } else {
        assert m[..1] == [m[0]] && [m[0]][..0] == [];
        assert Num([m[0]]) == m[0];
        assert Num(m) / 256 == m[0] && Num(m) % 256 == m[1];
        assert l == [0x82, m[0], m[1]];
      }
    }
  }

  // A DER reader for an OCTET STRING at the front of r: tag, a definite minimal length,
  // contents. The indefinite form, the reserved octet 0xff, leading zero octets and
  // the long form of a short length are refused.
  function TakeDerOctet(r: bytes): Read<bytes> {
    if |r| < 2 || r[0] != 0x04 then Short
    else if r[1] < 0x80 then Take(r[2..], r[1])
    else
      var k := r[1] - 0x80;
      if k == 0 || k == 127 || |r| < 2 + k || r[2] == 0 || Num(r[2..2 + k]) < 128 then Short
      else Take(r[2 + k..], Num(r[2..2 + k]))
  }

  // What der_octet writes decodes to the octets it was given, whatever follows.
  lemma DerOctetReads(x: bytes, tail: bytes)
    requires |x| <= 0xffff
    ensures TakeDerOctet(DerOctet(x) + tail) == Got(x, tail)
  {
    var l := DerLength(|x|);
    DerLengthUnique(l, |x|);
    var r := DerOctet(x) + tail;
    assert r == [0x04] + l + (x + tail);
    hide Num, DerLength;
    assert r[1..1 + |l|] == l && r[1 + |l|..] == x + tail;
    if |l| > 1 {
      assert r[2..1 + |l|] == l[1..];
    }
  }

  // Whatever decodes has a minimal length, and up to the lengths the u16 prefix can
  // give it is what der_octet writes for the octets that come out.
  lemma OnlyDerOctetsRead(r: bytes)
    requires TakeDerOctet(r).Got?
    ensures var t := TakeDerOctet(r);
      && (exists l :: MinimalLength(l, |t.item|) && r == [0x04] + l + t.item + t.rest)
      && (|t.item| <= 0xffff ==> r == DerOctet(t.item) + t.rest)
  {
    var t := TakeDerOctet(r);
    var k := if r[1] < 0x80 then 0 else r[1] - 0x80;
    var l := r[1..2 + k];
    hide Num;
    assert k > 0 ==> l[1..] == r[2..2 + k];
    assert MinimalLength(l, |t.item|);
    assert r == [0x04] + l + r[2 + k..] && r[2 + k..] == t.item + t.rest;
    if |t.item| <= 0xffff {
      DerLengthUnique(l, |t.item|);
    }
  }

  lemma {:induction false} Pow2Of256(k: nat)
    ensures Pow2(8 * k) == Pow256(k)
  {
    if k > 0 {
      Pow2Of256(k - 1);
      var j := 8 * (k - 1);
      assert Pow2(j + 2) == 4 * Pow2(j) && Pow2(j + 4) == 4 * Pow2(j + 2);
      assert Pow2(j + 6) == 4 * Pow2(j + 4) && Pow2(j + 8) == 4 * Pow2(j + 6);
    }
  }

  lemma {:induction false} Pow2Sum(j: nat, k: nat)
    ensures Pow2(j + k) == Pow2(j) * Pow2(k)
  {
    if j > 0 {
      Pow2Sum(j - 1, k);
    }
  }

  function BitLen(n: nat): nat {
    if n == 0 then 0 else 1 + BitLen(n / 2)
  }

  // The bit length is the one exponent that brackets a number between powers of two.
  lemma {:induction false} BitLenBrackets(n: nat, b: nat)
    requires b > 0 && Pow2(b - 1) <= n < Pow2(b)
    ensures BitLen(n) == b
  {
    if b > 1 {
      BitLenBrackets(n / 2, b - 1);
    }
  }

  // b is x shifted left j times without losing a bit.
  predicate Shifted(x: nat, j: nat, b: nat) {
    j <= 7 && b == x * Pow2(j) && (x + 1) * Pow2(j) <= 256
  }

  lemma ShiftStep(x: nat, j: nat, b: nat)
    requires x >= 1 && Shifted(x, j, b) && b < 128
    ensures Shifted(x, j + 1, 2 * b)
  {
    assert Pow2(1) == 2 && Pow2(2) == 4 && Pow2(3) == 8;
    assert Pow2(4) == 16 && Pow2(5) == 32 && Pow2(6) == 64 && Pow2(7) == 128;
    if j == 0 {} else if j == 1 {} else if j == 2 {} else if j == 3 {}
    else if j == 4 {} else if j == 5 {} else if j == 6 {} else {}
  }

  lemma DropZero(m: bytes, i: nat)
    requires i < |m| && m[i] == 0
    ensures Num(m[i..]) == Num(m[i + 1..])
  {
    NumHead(m[i..]);
    assert m[i..][1..] == m[i + 1..];
  }

  // modulus_bits: the bit length of the number, however many zero bytes lead it.
  method ModulusBits(m: bytes) returns (bits: nat)
    ensures bits == BitLen(Num(m))
    ensures Num(m) != 0 ==> bits > 0 && Pow2(bits - 1) <= Num(m) < Pow2(bits)
  {
    var i := 0;
    assert m[0..] == m;
    while i < |m| && m[i] == 0
      invariant 0 <= i <= |m| && Num(m) == Num(m[i..])
    {
      DropZero(m, i);
      i := i + 1;
    }
    if i == |m| {
      return 0;
    }
    bits := SignificantBits(m[i..]);
    BitLenBrackets(Num(m), bits);
  }

  // The second half of modulus_bits: the leading byte is not zero.
  method SignificantBits(b: bytes) returns (bits: nat)
    requires |b| > 0 && b[0] != 0
    ensures bits > 0 && Pow2(bits - 1) <= Num(b) < Pow2(bits)
  {
    bits := |b| * 8;
    var x: nat := b[0];
    ghost var j := 0;
    while x < 128
      invariant Shifted(b[0], j, x) && x > 0 && bits == 8 * |b| - j
      decreases 256 - x
    {
      ShiftStep(b[0], j, x);
      bits, x, j := bits - 1, x * 2, j + 1;
    }
    BitBounds(b, j);
  }

  lemma BitBounds(b: bytes, j: nat)
    requires |b| > 0 && j <= 7 && 128 <= b[0] * Pow2(j) && (b[0] + 1) * Pow2(j) <= 256
    ensures Pow2(8 * |b| - j - 1) <= Num(b) < Pow2(8 * |b| - j)
  {
    hide Num, Pow256;
    assert Pow2(7) == 128 by { assert Pow2(3) == 8; }
    assert Pow2(8) == 256;
    hide Pow2;
    var top := 8 * (|b| - 1);
    NumHead(b);
    NumBound(b[1..]);
    Pow2Of256(|b| - 1);
    Pow2Sum(j, top + 7 - j);
    Pow2Sum(j, top + 8 - j);
    Pow2Sum(7, top);
    Pow2Sum(8, top);
    Scale(b[0], Pow2(j), Pow2(top), Num(b[1..]));
    Cancel(Pow2(j), Pow2(top + 7 - j), Num(b), Pow2(top + 8 - j));
  }

  lemma Scale(x: nat, s: nat, p: nat, r: nat)
    requires s > 0 && r < p && 128 <= x * s && (x + 1) * s <= 256
    ensures 128 * p <= s * (x * p + r) < 256 * p
  {
    var y := x * s;
    Distributes(s, x, p, r);
    Grows(128, y, p);
    Grows(r + 1, p, s);
    assert (r + 1) * s == s * r + s;
    assert (x + 1) * s == y + s;
    Grows(y + s, 256, p);
    assert (y + s) * p == y * p + s * p;
  }

  lemma Grows(a: nat, b: nat, c: nat)
    requires a <= b
    ensures a * c <= b * c
  {
    assert b * c == a * c + (b - a) * c;
  }

  lemma Distributes(s: nat, x: nat, p: nat, r: nat)
    ensures s * (x * p + r) == (x * s) * p + s * r
  {
    assert s * (x * p) == (x * s) * p;
  }

  lemma Cancel(s: nat, lo: nat, n: nat, hi: nat)
    requires s > 0 && s * lo <= s * n < s * hi
    ensures lo <= n < hi
  {
  }
}
