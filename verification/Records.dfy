// The records sealed in a vault: the Android chain (profile/android.go) and the
// bunker's secret and ports (profile/profile.go), read back through a capped writer.

module Records {
  import opened Bytes
  import opened Keystore

  const ANDROID_VERSION := 1
  const MAX_CERTS := 8
  const MAX_CERT := 0x4000
  const MAX_META := 0x4_0000
  const PIN_SIZE := 32
  const ANDROID_ALIAS: bytes := [0x68, 0x6f, 0x74, 0x62, 0x6f, 0x78]

  // The part of an Android key that is sealed beside the private key.
  datatype Android = Android(alias: bytes, pin: bytes, certs: seq<bytes>)

  predicate IsHex(c: byte) {
    0x30 <= c <= 0x39 || 0x61 <= c <= 0x66
  }

  predicate AllHex(pin: bytes) {
    forall i :: 0 <= i < |pin| ==> IsHex(pin[i])
  }

  predicate DerOk(x: X509, der: bytes) {
    1 <= |der| <= MAX_CERT && x.cert(der).Some?
  }

  predicate DersOk(x: X509, certs: seq<bytes>) {
    forall i :: 0 <= i < |certs| ==> DerOk(x, certs[i])
  }

  // validAndroid, as far as the sealed record goes. The key itself is sealed apart.
  predicate Valid(x: X509, a: Android) {
    a.alias == ANDROID_ALIAS && |a.pin| == PIN_SIZE && AllHex(a.pin) && 1 <= |a.certs| <= MAX_CERTS
      && DersOk(x, a.certs)
  }

  // In numbers: the name hotbox, 32 digits of lower-case hexadecimal, one to eight
  // certificates of at most 16384 bytes that parse.
  lemma ValidIff(x: X509, a: Android)
    ensures Valid(x, a) <==>
      && a.alias == [0x68, 0x6f, 0x74, 0x62, 0x6f, 0x78] && |a.pin| == 32
      && (forall c :: c in a.pin ==> 0x30 <= c <= 0x39 || 0x61 <= c <= 0x66)
      && 1 <= |a.certs| <= 8
      && forall der :: der in a.certs ==> 1 <= |der| <= 0x4000 && x.cert(der).Some?
  {
    assert forall i :: 0 <= i < |a.pin| ==> a.pin[i] in a.pin;
    assert forall i :: 0 <= i < |a.certs| ==> a.certs[i] in a.certs;
  }

  function PutDers(certs: seq<bytes>): bytes {
    if certs == [] then [] else PutDers(certs[..|certs| - 1]) + Field(certs[|certs| - 1], 4)
  }

  function Encoded(a: Android): bytes {
    [ANDROID_VERSION] + (a.pin + (Field(a.alias, 2) + ([|a.certs| % 256] + PutDers(a.certs))))
  }

  // What encodeAndroid computes before it allocates.
  function Room(a: Android): nat {
    1 + 32 + 2 + |a.alias| + 1 + DerRoom(a.certs)
  }

  function DerRoom(certs: seq<bytes>): nat {
    if certs == [] then 0 else DerRoom(certs[..|certs| - 1]) + 4 + |certs[|certs| - 1]|
  }

  lemma {:induction false} DerRoomExact(certs: seq<bytes>)
    ensures |PutDers(certs)| == DerRoom(certs)
  {
    if certs != [] {
      DerRoomExact(certs[..|certs| - 1]);
    }
  }

  lemma {:induction false} DerRoomBound(x: X509, certs: seq<bytes>)
    requires DersOk(x, certs)
    ensures DerRoom(certs) <= |certs| * (4 + MAX_CERT)
  {
    if certs != [] {
      assert DerOk(x, certs[|certs| - 1]);
      DerRoomBound(x, certs[..|certs| - 1]);
    }
  }

  // The allocation is exact, and no valid record comes near the cap.
  lemma RoomSuffices(x: X509, a: Android)
    requires Valid(x, a)
    ensures |Encoded(a)| == Room(a) <= MAX_META
  {
    DerRoomExact(a.certs);
    DerRoomBound(x, a.certs);
    assert |a.certs| * (4 + MAX_CERT) <= MAX_CERTS * (4 + MAX_CERT) by {
      Times(|a.certs|, MAX_CERTS, 4 + MAX_CERT);
    }
  }

  lemma Times(a: nat, b: nat, c: nat)
    requires a <= b
    ensures a * c <= b * c
  {
  }

  // Where each field stands in a sealed chain.
  lemma AndroidPlaces(a: Android)
    requires |a.pin| == 32 && |a.alias| < 0x1_0000 && |a.certs| < 256
    ensures var b, n := Encoded(a), |a.alias|;
      && |b| >= 36 + n && b[0] == 1 && b[1..33] == a.pin && Num(b[33..35]) == n && b[35..35 + n] == a.alias
      && b[35 + n] == |a.certs| && b[36 + n..] == PutDers(a.certs)
  {
    SmallPowers();
    var b, n := Encoded(a), |a.alias|;
    NumBE(n, 2);
    hide Num, BE, PutDers;
    var ders := PutDers(a.certs);
    var len := BE(n, 2);
    assert b == [1] + (a.pin + (len + a.alias + ([|a.certs|] + ders)));
    hide *;
    Pieces(a.pin, len, a.alias, |a.certs|, ders);
  }

  lemma Pieces(pin: bytes, len: bytes, alias: bytes, count: byte, ders: bytes)
    requires |pin| == 32 && |len| == 2
    ensures var b, n := [1] + (pin + (len + alias + ([count] + ders))), |alias|;
      && |b| >= 36 + n && b[0] == 1 && b[1..33] == pin && b[33..35] == len && b[35..35 + n] == alias
      && b[35 + n] == count && b[36 + n..] == ders
  {
    var b, n := [1] + (pin + (len + alias + ([count] + ders))), |alias|;
    assert b[1..] == pin + (len + alias + ([count] + ders));
    assert b[33..] == len + alias + ([count] + ders);
    assert b[35..] == alias + ([count] + ders);
    assert b[35 + n..] == [count] + ders;
  }

  function TakeDers(x: X509, r: bytes, n: nat): (t: Read<seq<bytes>>)
    decreases n
  {
    if n == 0 then Got([], r)
    else
      match TakeField(r, 4)
      case Short => Short
      case Got(der, rest) =>
        if !DerOk(x, der) then Short
        else
          match TakeDers(x, rest, n - 1)
          case Short => Short
          case Got(more, end) => Got([der] + more, end)
  }

  function Decoded(x: X509, buf: bytes): Option<Android> {
    if |buf| < 1 + PIN_SIZE + 2 + 1 || buf[0] != ANDROID_VERSION || |buf| > MAX_META then None
    else
      var pin := buf[1..33];
      match TakeField(buf[33..], 2)
      case Short => None
      case Got(alias, r) =>
        if !AllHex(pin) || alias != ANDROID_ALIAS || r == [] || r[0] == 0 || r[0] > MAX_CERTS then None
        else
          match TakeDers(x, r[1..], r[0])
          case Short => None
          case Got(certs, rest) => if rest == [] then Some(Android(alias, pin, certs)) else None
  }

  lemma NoDers()
    ensures PutDers([]) == []
  {
  }

  lemma {:induction false} DersOf(x: X509, certs: seq<bytes>, tail: bytes)
    requires DersOk(x, certs)
    ensures TakeDers(x, PutDers(certs) + tail, |certs|) == Got(certs, tail)
  {
    hide Field, TakeField, PutDers;
    if certs == [] {
      NoDers();
      assert PutDers(certs) + tail == tail;
    } else {
      SmallPowers();
      assert DerOk(x, certs[0]);
      var more := PutDers(certs[1..]) + tail;
      PutDersHead(certs);
      assert PutDers(certs) + tail == Field(certs[0], 4) + more;
      TakeFieldOf(certs[0], 4, more);
      DersOf(x, certs[1..], tail);
      assert [certs[0]] + certs[1..] == certs;
    }
  }

  lemma {:induction false} PutDersHead(certs: seq<bytes>)
    requires certs != []
    ensures PutDers(certs) == Field(certs[0], 4) + PutDers(certs[1..])
  {
    hide Field;
    var front, tail, last := certs[..|certs| - 1], certs[1..], certs[|certs| - 1];
    if front == [] {
      assert PutDers(front) == [] && PutDers(tail) == [];
    } else {
      assert PutDers(certs) == PutDers(front) + Field(last, 4);
      assert PutDers(tail) == PutDers(tail[..|tail| - 1]) + Field(last, 4);
      hide PutDers;
      PutDersHead(front);
      assert front[1..] == tail[..|tail| - 1] && front[0] == certs[0];
      Regrouped(Field(certs[0], 4), PutDers(front[1..]), Field(last, 4));
    }
  }

  lemma Regrouped(a: bytes, b: bytes, c: bytes)
    ensures (a + b) + c == a + (b + c)
  {
  }

  lemma {:induction false} DersOnly(x: X509, r: bytes, n: nat)
    requires TakeDers(x, r, n).Got?
    ensures var t := TakeDers(x, r, n); r == PutDers(t.item) + t.rest && |t.item| == n && DersOk(x, t.item)
    decreases n
  {
    hide Field, TakeField;
    var t := TakeDers(x, r, n);
    if n > 0 {
      TakeFieldOnly(r, 4);
      var rest := TakeField(r, 4).rest;
      DersOnly(x, rest, n - 1);
      PutDersHead(t.item);
      assert t.item[1..] == TakeDers(x, rest, n - 1).item;
      assert r == PutDers(t.item) + t.rest;
    }
  }

  // Every valid record decodes to itself.
  lemma AndroidRoundTrip(x: X509, a: Android)
    requires Valid(x, a)
    ensures Decoded(x, Encoded(a)) == Some(a)
  {
    RoomSuffices(x, a);
    SmallPowers();
    var buf := Encoded(a);
    var r := [|a.certs|] + PutDers(a.certs);
    assert buf[0] == ANDROID_VERSION && buf[1..33] == a.pin && buf[33..] == Field(a.alias, 2) + r;
    TakeFieldOf(a.alias, 2, r);
    assert r[1..] == PutDers(a.certs) + [];
    DersOf(x, a.certs, []);
  }

  // Every record that decodes is the encoding of what it decodes to, which is valid.
  lemma OnlyAndroidsDecode(x: X509, buf: bytes)
    requires Decoded(x, buf).Some?
    ensures Valid(x, Decoded(x, buf).value) && Encoded(Decoded(x, buf).value) == buf
  {
    hide TakeField, Field, TakeDers, PutDers, DersOk, AllHex;
    var a := Decoded(x, buf).value;
    TakeFieldOnly(buf[33..], 2);
    var r := TakeField(buf[33..], 2).rest;
    DersOnly(x, r[1..], r[0]);
    assert r == [r[0]] + PutDers(a.certs);
    assert buf == [buf[0]] + (buf[1..33] + buf[33..]);
  }

  lemma PutDersLast(certs: seq<bytes>, i: nat)
    requires i < |certs|
    ensures PutDers(certs[..i + 1]) == PutDers(certs[..i]) + Field(certs[i], 4)
    ensures DerRoom(certs[..i + 1]) == DerRoom(certs[..i]) + 4 + |certs[i]|
  {
    assert certs[..i + 1][..i] == certs[..i];
  }

  lemma EncodedFlat(a: Android)
    ensures [ANDROID_VERSION] + a.pin + BE(|a.alias|, 2) + a.alias + [|a.certs| % 256] + PutDers(a.certs) == Encoded(a)
  {
    hide BE, PutDers;
    var r := [|a.certs| % 256] + PutDers(a.certs);
    assert Field(a.alias, 2) + r == BE(|a.alias|, 2) + (a.alias + r);
  }

  method EncodeAndroid(a: Android) returns (r: Option<bytes>)
    ensures r == if Room(a) > MAX_META then None else Some(Encoded(a))
  {
    var n := 1 + 32 + 2 + |a.alias| + 1;
    for i := 0 to |a.certs|
      invariant n == 36 + |a.alias| + DerRoom(a.certs[..i])
    {
      PutDersLast(a.certs, i);
      n := n + 4 + |a.certs[i]|;
    }
    assert a.certs[..|a.certs|] == a.certs;
    hide BE, PutDers, Encoded;
    if n > MAX_META {
      return None;
    }
    var buf: bytes := [ANDROID_VERSION];
    buf := buf + a.pin;
    buf := buf + BE(|a.alias|, 2);
    buf := buf + a.alias;
    buf := buf + [|a.certs| % 256];
    var whole := AppendDers(buf, a.certs);
    EncodedFlat(a);
    r := Some(whole);
  }

  // The loop over the chain: length, then certificate.
  method AppendDers(head: bytes, certs: seq<bytes>) returns (buf: bytes)
    ensures buf == head + PutDers(certs)
  {
    buf := head;
    for i := 0 to |certs|
      invariant buf == head + PutDers(certs[..i])
    {
      hide BE, PutDers;
      PutDersLast(certs, i);
      buf := buf + BE(|certs[i]|, 4);
      buf := buf + certs[i];
      assert buf == head + (PutDers(certs[..i]) + Field(certs[i], 4));
    }
    assert certs[..|certs|] == certs;
  }

  ghost function After(done: seq<bytes>, t: Read<seq<bytes>>): Read<seq<bytes>> {
    match t
    case Short => Short
    case Got(more, rest) => Got(done + more, rest)
  }

  lemma AfterOne(done: seq<bytes>, der: bytes, t: Read<seq<bytes>>)
    ensures After(done + [der], t) ==
      After(done, match t case Short => Short case Got(more, rest) => Got([der] + more, rest))
  {
    if t.Got? {
      assert done + [der] + t.item == done + ([der] + t.item);
    }
  }

  method DecodeAndroid(x: X509, buf: bytes) returns (r: Option<Android>)
    ensures r == Decoded(x, buf)
  {
    hide Num, TakeDers;
    if |buf| < 1 + 32 + 2 + 1 || buf[0] != ANDROID_VERSION || |buf| > MAX_META {
      return None;
    }
    var pin := buf[1..33];
    for i := 0 to |pin|
      invariant forall j :: 0 <= j < i ==> IsHex(pin[j])
    {
      if !IsHex(pin[i]) {
        return None;
      }
    }
    hide IsHex;
    var field := TakeField(buf[33..], 2);
    if field.Short? || field.item != ANDROID_ALIAS || field.rest == [] {
      return None;
    }
    var n := field.rest[0];
    if n == 0 || n > MAX_CERTS {
      return None;
    }
    var ders := DecodeDers(x, field.rest[1..], n);
    if ders.Short? || ders.rest != [] {
      return None;
    }
    r := Some(Android(field.item, pin, ders.item));
  }

  // The loop over the chain.
  method DecodeDers(x: X509, start: bytes, n: nat) returns (r: Read<seq<bytes>>)
    ensures r == TakeDers(x, start, n)
  {
    hide TakeField, DerOk;
    var certs: seq<bytes>, rest := [], start;
    ghost var whole := TakeDers(x, rest, n);
    assert whole.Got? ==> certs + whole.item == whole.item;
    for i := 0 to n
      invariant whole == After(certs, TakeDers(x, rest, n - i))
    {
      var der := TakeField(rest, 4);
      if der.Short? || !DerOk(x, der.item) {
        return Short;
      }
      AfterOne(certs, der.item, TakeDers(x, der.rest, n - i - 1));
      certs, rest := certs + [der.item], der.rest;
    }
    assert certs + [] == certs;
    r := Got(certs, rest);
  }

  // ----- the bunker record

  const BUNKER_SIZE := 53

  datatype Capability = Capability(connect: bytes, token: bytes, ws: nat, wss: nat)

  // The types of connect, token and the ports.
  predicate Typed(c: Capability) {
    |c.connect| == 32 && |c.token| == 16 && c.ws < 0x1_0000 && c.wss < 0x1_0000
  }

  function Zeros(n: nat): bytes {
    seq(n, _ => 0)
  }

  predicate ValidBunker(c: Capability) {
    c.connect != Zeros(32) && c.token != Zeros(16) && c.ws != 0 && c.wss != 0 && c.ws != c.wss
  }

  function BunkerRecord(c: Capability): bytes {
    [1] + (c.connect + (c.token + (BE(c.ws, 2) + BE(c.wss, 2))))
  }

  function ParseBunker(buf: bytes): Option<Capability> {
    if |buf| != BUNKER_SIZE || buf[0] != 1 then None
    else
      var c := Capability(buf[1..33], buf[33..49], Num(buf[49..51]), Num(buf[51..53]));
      if ValidBunker(c) then Some(c) else None
  }

  // A record reads back exactly when Create would have accepted it.
  lemma BunkerRoundTrip(c: Capability)
    requires Typed(c)
    ensures ParseBunker(BunkerRecord(c)) == if ValidBunker(c) then Some(c) else None
  {
    SmallPowers();
    NumBE(c.ws, 2);
    NumBE(c.wss, 2);
    hide BE, Num, ValidBunker;
    var buf := BunkerRecord(c);
    assert buf[1..33] == c.connect && buf[33..49] == c.token && buf[49..51] == BE(c.ws, 2)
      && buf[51..53] == BE(c.wss, 2);
  }

  lemma OnlyBunkerRecordsParse(buf: bytes)
    requires ParseBunker(buf).Some?
    ensures var c := ParseBunker(buf).value; Typed(c) && ValidBunker(c) && BunkerRecord(c) == buf
  {
    SmallPowers();
    NumBound(buf[49..51]);
    NumBound(buf[51..53]);
    BENum(buf[49..51]);
    BENum(buf[51..53]);
    hide BE, Num, ValidBunker;
    assert buf == [buf[0]] + (buf[1..33] + (buf[33..49] + (buf[49..51] + buf[51..53])));
  }

  // Which bytes are read at all: 53 of them, the first a one, a secret and a token that are
  // not all zero, and two ports, neither zero, that differ.
  lemma BunkerReadsIff(buf: bytes)
    ensures ParseBunker(buf).Some? <==>
      && |buf| == 53 && buf[0] == 1
      && (exists i :: 1 <= i < 33 && buf[i] != 0) && (exists i :: 33 <= i < 49 && buf[i] != 0)
      && Num(buf[49..51]) != 0 && Num(buf[51..53]) != 0 && Num(buf[49..51]) != Num(buf[51..53])
  {
    if |buf| == 53 {
      NotAllZero(buf, 1, 33);
      NotAllZero(buf, 33, 49);
    }
    hide Num, Zeros;
  }

  lemma NotAllZero(buf: bytes, lo: nat, hi: nat)
    requires lo <= hi <= |buf|
    ensures buf[lo..hi] != Zeros(hi - lo) <==> exists i :: lo <= i < hi && buf[i] != 0
  {
    if i :| lo <= i < hi && buf[i] != 0 {
      assert buf[lo..hi][i - lo] != Zeros(hi - lo)[i - lo];
    }
  }

  // Where each field stands in the record.
  lemma BunkerPlaces(c: Capability)
    requires Typed(c)
    ensures var b := BunkerRecord(c);
      && |b| == 53 && b[0] == 1 && b[1..33] == c.connect && b[33..49] == c.token
      && Num(b[49..51]) == c.ws && Num(b[51..53]) == c.wss
  {
    SmallPowers();
    NumBE(c.ws, 2);
    NumBE(c.wss, 2);
    hide Num, BE;
    var b := BunkerRecord(c);
    assert b[49..51] == BE(c.ws, 2) && b[51..53] == BE(c.wss, 2);
  }

  // encodeBunker fills a fixed array field by field.
  method EncodeBunker(c: Capability) returns (buf: array<byte>)
    requires Typed(c)
    ensures fresh(buf) && buf[..] == BunkerRecord(c)
  {
    hide BE;
    buf := new byte[BUNKER_SIZE](_ => 0);
    buf[0] := 1;
    var ws, wss := BE(c.ws, 2), BE(c.wss, 2);
    forall i | 0 <= i < 32 {
      buf[1 + i] := c.connect[i];
    }
    forall i | 0 <= i < 16 {
      buf[33 + i] := c.token[i];
    }
    buf[49], buf[50] := ws[0], ws[1];
    buf[51], buf[52] := wss[0], wss[1];
    var record := BunkerRecord(c);
    assert record[1..33] == c.connect && record[33..49] == c.token && record[49..51] == ws && record[51..] == wss;
    assert forall i :: 1 <= i < 33 ==> record[i] == record[1..33][i - 1];
    assert forall i :: 33 <= i < 49 ==> record[i] == record[33..49][i - 33];
    assert record[49] == record[49..51][0] && record[50] == record[49..51][1];
    assert record[51] == record[51..][0] && record[52] == record[51..][1];
  }

  // ----- reading through the capped writer

  function Joined(chunks: seq<bytes>): bytes {
    if chunks == [] then [] else Joined(chunks[..|chunks| - 1]) + chunks[|chunks| - 1]
  }

  lemma {:induction false} JoinedGrows(chunks: seq<bytes>, n: nat)
    requires n <= |chunks|
    ensures |Joined(chunks[..n])| <= |Joined(chunks)|
    decreases |chunks| - n
  {
    if n < |chunks| {
      JoinedGrows(chunks, n + 1);
      assert chunks[..n + 1][..n] == chunks[..n];
    } else {
      assert chunks[..n] == chunks;
    }
  }

  class CapWriter {
    var buf: bytes
    const max: nat

    constructor (max: nat)
      ensures buf == [] && this.max == max
    {
      this.max := max;
      buf := [];
    }

    method Write(p: bytes) returns (ok: bool)
      modifies this
      ensures ok == (|old(buf)| + |p| <= max)
      ensures buf == if ok then old(buf) + p else old(buf)
    {
      if |buf| + |p| > max {
        return false;
      }
      buf := buf + p;
      ok := true;
    }
  }

  // The vault writes an entry in chunks of its own choosing and stops at the first error.
  method Cat(chunks: seq<bytes>, w: CapWriter) returns (ok: bool)
    requires w.buf == []
    modifies w
    ensures ok == (|Joined(chunks)| <= w.max)
    ensures ok ==> w.buf == Joined(chunks)
    ensures |w.buf| <= w.max
  {
    for i := 0 to |chunks|
      invariant w.buf == Joined(chunks[..i]) && |w.buf| <= w.max
    {
      assert chunks[..i + 1][..i] == chunks[..i];
      var wrote := w.Write(chunks[i]);
      if !wrote {
        JoinedGrows(chunks, i + 1);
        return false;
      }
    }
    assert chunks[..|chunks|] == chunks;
    ok := true;
  }

  // readBunker and readAndroid: the cap and the chunking make no difference.
  method ReadBunker(chunks: seq<bytes>) returns (r: Option<Capability>)
    ensures r == ParseBunker(Joined(chunks))
  {
    var w := new CapWriter(BUNKER_SIZE);
    var ok := Cat(chunks, w);
    if !ok || |w.buf| != BUNKER_SIZE || w.buf[0] != 1 {
      return None;
    }
    var c := Capability(w.buf[1..33], w.buf[33..49], Num(w.buf[49..51]), Num(w.buf[51..53]));
    r := if ValidBunker(c) then Some(c) else None;
  }

  method ReadAndroid(x: X509, chunks: seq<bytes>) returns (r: Option<Android>)
    ensures r == Decoded(x, Joined(chunks))
  {
    var w := new CapWriter(MAX_META);
    var ok := Cat(chunks, w);
    if !ok {
      return None;
    }
    r := DecodeAndroid(x, w.buf);
  }
}
