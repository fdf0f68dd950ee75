// What the key-store readers share (keystore/keystore.go), and the PKCS#12 reader
// once its ASN.1 and encryption are undone (parsePKCS12 in keystore/p12.go).

module Keystore {
  import opened Bytes

  datatype Error =
    | Corrupt | Password | KeyPassword | NoPrivateKey | TwoPrivateKeys
    | NotPkcs8 | NotRsaOrEc | NoCertificate | BadCertificate | WrongCertificate | BadAlias
    | Unreadable

  datatype Result<+T> = Ok(value: T) | Err(error: Error)

  // One private key and its chain, leaf first.
  datatype Entry = Entry(alias: bytes, pkcs8: bytes, certs: seq<bytes>)

  datatype PublicKey = Rsa(rsa: bytes) | Ec(ec: bytes) | OtherKind

  datatype Certificate = Certificate(raw: bytes, subject: bytes, issuer: bytes, key: PublicKey, commonName: bytes)

  // The parsers of crypto/x509: the public half of a private key, a certificate.
  datatype X509 = X509(key: bytes -> Option<PublicKey>, cert: bytes -> Option<Certificate>)

  // A parsed certificate remembers the bytes it came from.
  ghost predicate KeepsRaw(x: X509) {
    forall der :: x.cert(der).Some? ==> x.cert(der).value.raw == der
  }

  predicate SamePublic(k: PublicKey, p: PublicKey) {
    !k.OtherKind? && k == p
  }

  const FORBIDDEN: set<byte> := {0x27, 0x22, 0x0d, 0x0a, 0x5c}

  predicate ValidAlias(alias: bytes) {
    1 <= |alias| <= 128 && forall c :: c in alias ==> c !in FORBIDDEN
  }

  // finish: the last word on any entry, whichever format it came from.
  function Finish(x: X509, alias: bytes, pkcs8: bytes, certs: seq<bytes>): Result<Entry> {
    match x.key(pkcs8)
    case None => Err(NotPkcs8)
    case Some(k) =>
      if k.OtherKind? then Err(NotRsaOrEc)
      else if certs == [] then Err(NoCertificate)
      else if x.cert(certs[0]).None? then Err(BadCertificate)
      else if !SamePublic(k, x.cert(certs[0]).value.key) then Err(WrongCertificate)
      else if exists der :: der in certs && x.cert(der).None? then Err(BadCertificate)
      else if !ValidAlias(alias) then Err(BadAlias)
      else Ok(Entry(alias, pkcs8, certs))
  }

  // ----- ordering a bag of certificates

  predicate SelfIssued(c: Certificate) {
    c.subject == c.issuer
  }

  ghost predicate Within(p: seq<nat>, n: nat) {
    forall k :: 0 <= k < |p| ==> p[k] < n
  }

  // Certificate i is one that p has not used and that names itself as the issuer of
  // the last certificate on p.
  ghost predicate Follows(certs: seq<Certificate>, p: seq<nat>, i: int)
    requires |p| > 0 && Within(p, |certs|)
  {
    0 <= i < |certs| && i !in p && certs[i].subject == certs[p[|p| - 1]].issuer
  }

  // p walks from the first certificate of the key towards the root: it never visits
  // a certificate twice and each step takes the first one that follows.
  ghost predicate Walk(certs: seq<Certificate>, key: PublicKey, p: seq<nat>) {
    && |p| > 0
    && Within(p, |certs|)
    && SamePublic(key, certs[p[0]].key) && (forall j :: 0 <= j < p[0] ==> !SamePublic(key, certs[j].key))
    && forall k :: 0 < k < |p| ==> Step(certs, p[..k], p[k])
  }

  ghost predicate Step(certs: seq<Certificate>, p: seq<nat>, i: nat)
    requires |p| > 0 && Within(p, |certs|)
  {
    && !SelfIssued(certs[p[|p| - 1]])
    && Follows(certs, p, i) && forall j :: 0 <= j < i ==> !Follows(certs, p, j)
  }

  // It stops at a self-issued certificate, or when nothing follows.
  ghost predicate Stuck(certs: seq<Certificate>, p: seq<nat>)
    requires |p| > 0 && Within(p, |certs|)
  {
    SelfIssued(certs[p[|p| - 1]]) || forall j :: !Follows(certs, p, j)
  }

  ghost predicate ChainPath(certs: seq<Certificate>, key: PublicKey, p: seq<nat>) {
    Walk(certs, key, p) && Stuck(certs, p)
  }

  function Raws(certs: seq<Certificate>, p: seq<nat>): seq<bytes>
    requires Within(p, |certs|)
  {
    seq(|p|, k requires 0 <= k < |p| => certs[p[k]].raw)
  }

  ghost predicate Parsed(x: X509, ders: seq<bytes>, certs: seq<Certificate>) {
    |certs| == |ders| && forall i :: 0 <= i < |ders| ==> x.cert(ders[i]) == Some(certs[i])
  }

  ghost predicate Ordered(x: X509, key: PublicKey, ders: seq<bytes>, out: seq<bytes>) {
    exists certs, p :: Parsed(x, ders, certs) && ChainPath(certs, key, p) && out == Raws(certs, p)
  }

  method ParseCerts(x: X509, ders: seq<bytes>) returns (r: Result<seq<Certificate>>)
    ensures r.Ok? ==> Parsed(x, ders, r.value)
    ensures r.Err? ==> r.error == BadCertificate && exists i :: 0 <= i < |ders| && x.cert(ders[i]).None?
  {
    var certs: seq<Certificate> := [];
    for i := 0 to |ders|
      invariant Parsed(x, ders[..i], certs)
    {
      match x.cert(ders[i]) {
        case None => return Err(BadCertificate);
        case Some(c) => certs := certs + [c];
      }
    }
    assert ders[..|ders|] == ders;
    r := Ok(certs);
  }

  // The inner search: the first unused certificate that issued the current one.
  method FindIssuer(certs: seq<Certificate>, used: set<nat>, cur: Certificate) returns (next: Option<nat>)
    ensures next.Some? ==> next.value < |certs| && next.value !in used && certs[next.value].subject == cur.issuer
    ensures forall j :: 0 <= j < (if next.Some? then next.value else |certs|) && j !in used ==>
      certs[j].subject != cur.issuer
  {
    for i := 0 to |certs|
      invariant forall j :: 0 <= j < i && j !in used ==> certs[j].subject != cur.issuer
    {
      if i !in used && certs[i].subject == cur.issuer {
        return Some(i);
      }
    }
    next := None;
  }

  // orderCerts. The used set grows at every step, so the walk ends.
  method OrderCerts(x: X509, pkcs8: bytes, ders: seq<bytes>) returns (r: Result<seq<bytes>>)
    ensures r.Ok? ==> x.key(pkcs8).Some? && Ordered(x, x.key(pkcs8).value, ders, r.value)
    ensures r == Err(NotPkcs8) <==> x.key(pkcs8).None?
    ensures r == Err(BadCertificate) <==> x.key(pkcs8).Some? && exists i :: 0 <= i < |ders| && x.cert(ders[i]).None?
    ensures r == Err(WrongCertificate) <==>
      x.key(pkcs8).Some? && forall i :: 0 <= i < |ders| ==>
        x.cert(ders[i]).Some? && !SamePublic(x.key(pkcs8).value, x.cert(ders[i]).value.key)
    ensures r.Err? ==> r.error in {NotPkcs8, BadCertificate, WrongCertificate}
  {
    if x.key(pkcs8).None? {
      return Err(NotPkcs8);
    }
    var key := x.key(pkcs8).value;
    var parsed := ParseCerts(x, ders);
    if parsed.Err? {
      return Err(parsed.error);
    }
    var certs := parsed.value;
    var leaf := 0;
    while leaf < |certs| && !SamePublic(key, certs[leaf].key)
      invariant leaf <= |certs| && forall j :: 0 <= j < leaf ==> !SamePublic(key, certs[j].key)
    {
      leaf := leaf + 1;
    }
    if leaf == |certs| {
      return Err(WrongCertificate);
    }
    var out, cur := [certs[leaf].raw], certs[leaf];
    var used: set<nat> := {leaf};
    ghost var p: seq<nat> := [leaf];
    while cur.subject != cur.issuer
      invariant Walk(certs, key, p) && out == Raws(certs, p) && cur == certs[p[|p| - 1]]
      invariant forall j :: j in used <==> j in p
      decreases |certs| - |p|
    {
      var next := FindIssuer(certs, used, cur);
      if next.None? {
        break;
      }
      WalkStep(certs, key, p, next.value);
      NoRepeats(certs, key, p + [next.value]);
      out, used, cur := out + [certs[next.value].raw], used + {next.value}, certs[next.value];
      p := p + [next.value];
    }
    assert ChainPath(certs, key, p);
    r := Ok(out);
  }

  lemma WalkStep(certs: seq<Certificate>, key: PublicKey, p: seq<nat>, i: nat)
    requires Walk(certs, key, p) && Step(certs, p, i)
    ensures Walk(certs, key, p + [i])
  {
    var q := p + [i];
    forall k | 0 < k < |q|
      ensures Step(certs, q[..k], q[k])
    {
      assert q[..k] == if k < |p| then p[..k] else p;
    }
  }

  lemma Distinct(certs: seq<Certificate>, key: PublicKey, p: seq<nat>)
    requires Walk(certs, key, p)
    ensures forall i, j :: 0 <= i < j < |p| ==> p[i] != p[j]
  {
    forall i, j | 0 <= i < j < |p|
      ensures p[i] != p[j]
    {
      assert Step(certs, p[..j], p[j]);
      assert p[i] == p[..j][i];
    }
  }

  // A walk is no longer than the list it walks in.
  lemma NoRepeats(certs: seq<Certificate>, key: PublicKey, p: seq<nat>)
    requires Walk(certs, key, p)
    ensures |p| <= |certs|
    ensures forall i, j :: 0 <= i < j < |p| ==> p[i] != p[j]
  {
    Distinct(certs, key, p);
    Pigeons(p, |certs|);
  }

  function Below(n: nat): (s: set<nat>)
    ensures |s| == n && forall i: nat :: i in s <==> i < n
  {
    if n == 0 then {} else Below(n - 1) + {n - 1}
  }

  lemma {:induction false} Pigeons(p: seq<nat>, n: nat)
    requires Within(p, n)
    requires forall i, j :: 0 <= i < j < |p| ==> p[i] != p[j]
    ensures |p| <= n
  {
    Count(p, Below(n));
  }

  lemma {:induction false} Count(p: seq<nat>, s: set<nat>)
    requires forall j :: j in p ==> j in s
    requires forall i, j :: 0 <= i < j < |p| ==> p[i] != p[j]
    ensures |p| <= |s|
  {
    if p != [] {
      var last := p[|p| - 1];
      Count(p[..|p| - 1], s - {last});
    }
  }

  // What the walk promises a caller: subject meets issuer at every link, and no
  // certificate comes twice.
  lemma LinksMeet(certs: seq<Certificate>, key: PublicKey, p: seq<nat>, k: nat)
    requires Walk(certs, key, p) && 0 < k < |p|
    ensures p[k] < |certs| && p[k - 1] < |certs| && p[k] !in p[..k]
    ensures certs[p[k]].subject == certs[p[k - 1]].issuer && !SelfIssued(certs[p[k - 1]])
  {
    assert Step(certs, p[..k], p[k]);
  }

  // ----- the order of the bag does not matter

  ghost predicate DistinctSubjects(certs: seq<Certificate>) {
    forall i, j :: 0 <= i < j < |certs| ==> certs[i].subject != certs[j].subject
  }

  ghost predicate OneMatches(certs: seq<Certificate>, key: PublicKey) {
    forall i, j :: 0 <= i < j < |certs| ==> !(SamePublic(key, certs[i].key) && SamePublic(key, certs[j].key))
  }

  lemma {:induction false} CountOnce(certs: seq<Certificate>, c: Certificate)
    requires DistinctSubjects(certs)
    ensures multiset(certs)[c] <= 1
  {
    if certs != [] {
      var front, last := certs[..|certs| - 1], certs[|certs| - 1];
      assert certs == front + [last];
      CountOnce(front, c);
      if c in front {
        assert last != c;
      }
    }
  }

  lemma CountTwice(certs: seq<Certificate>, i: nat, j: nat)
    requires i < j < |certs| && certs[i] == certs[j]
    ensures multiset(certs)[certs[i]] >= 2
  {
    var a, b := certs[..j], certs[j..];
    assert certs == a + b;
    assert a[i] in multiset(a) && b[0] in multiset(b);
  }

  lemma Elsewhere(a: seq<Certificate>, b: seq<Certificate>, i: nat) returns (j: nat)
    requires multiset(a) == multiset(b) && i < |a|
    ensures j < |b| && b[j] == a[i]
  {
    assert a[i] in multiset(a);
    assert a[i] in b;
    j :| j < |b| && b[j] == a[i];
  }

  lemma SubjectsStayDistinct(a: seq<Certificate>, b: seq<Certificate>)
    requires multiset(a) == multiset(b) && DistinctSubjects(a)
    ensures DistinctSubjects(b)
  {
    forall i, j | 0 <= i < j < |b|
      ensures b[i].subject != b[j].subject
    {
      var k := Elsewhere(b, a, i);
      var l := Elsewhere(b, a, j);
      if k == l {
        CountTwice(b, i, j);
        CountOnce(a, b[i]);
      }
    }
  }

  lemma {:induction false} SamePrefix(a: seq<Certificate>, b: seq<Certificate>, key: PublicKey,
                                      p: seq<nat>, q: seq<nat>, k: nat)
    requires multiset(a) == multiset(b) && DistinctSubjects(a) && DistinctSubjects(b) && OneMatches(a, key)
    requires Walk(a, key, p) && Walk(b, key, q) && k < |p| && k < |q|
    ensures a[p[k]] == b[q[k]]
  {
    if k == 0 {
      var i := Elsewhere(b, a, q[0]);
      assert i == p[0];
    } else {
      SamePrefix(a, b, key, p, q, k - 1);
      assert Step(a, p[..k], p[k]) && Step(b, q[..k], q[k]);
      var i := Elsewhere(b, a, q[k]);
      assert a[i].subject == a[p[k]].subject;
    }
  }

  // Were q to go on where p stops, the next certificate of q would be one p has
  // used already, and q with it.
  lemma StopsTogether(a: seq<Certificate>, b: seq<Certificate>, key: PublicKey, p: seq<nat>, q: seq<nat>)
    requires multiset(a) == multiset(b) && DistinctSubjects(a) && DistinctSubjects(b) && OneMatches(a, key)
    requires ChainPath(a, key, p) && Walk(b, key, q)
    ensures |q| <= |p|
  {
    hide Walk, OneMatches;
    if |q| > |p| {
      var n := |p|;
      InRange(a, key, p);
      InRange(b, key, q);
      SamePrefix(a, b, key, p, q, n - 1);
      LinksMeet(b, key, q, n);
      var i := Elsewhere(b, a, q[n]);
      assert !Follows(a, p, i);
      var j :| 0 <= j < n && p[j] == i;
      SamePrefix(a, b, key, p, q, j);
    }
  }

  lemma InRange(certs: seq<Certificate>, key: PublicKey, p: seq<nat>)
    requires Walk(certs, key, p)
    ensures |p| > 0 && Within(p, |certs|)
  {
  }

  // With pairwise distinct subjects and one certificate for the key, every
  // permutation of the input gives the same chain.
  lemma OrderIndependent(a: seq<Certificate>, b: seq<Certificate>, key: PublicKey, p: seq<nat>, q: seq<nat>)
    requires multiset(a) == multiset(b) && DistinctSubjects(a) && OneMatches(a, key)
    requires ChainPath(a, key, p) && ChainPath(b, key, q)
    ensures Raws(a, p) == Raws(b, q)
  {
    SubjectsStayDistinct(a, b);
    StopsTogether(a, b, key, p, q);
    OneStays(a, b, key);
    StopsTogether(b, a, key, q, p);
    forall k | 0 <= k < |p|
      ensures a[p[k]] == b[q[k]]
    {
      SamePrefix(a, b, key, p, q, k);
    }
  }

  lemma OneStays(a: seq<Certificate>, b: seq<Certificate>, key: PublicKey)
    requires multiset(a) == multiset(b) && DistinctSubjects(b) && OneMatches(a, key)
    ensures OneMatches(b, key)
  {
    forall i, j | 0 <= i < j < |b| && SamePublic(key, b[i].key) && SamePublic(key, b[j].key)
      ensures false
    {
      var k := Elsewhere(b, a, i);
      var l := Elsewhere(b, a, j);
    }
  }

  // Without that the order does matter: two certificates for the same key.
  lemma OrderMatters()
    ensures exists a, b, key, p, q ::
      multiset(a) == multiset(b) && DistinctSubjects(a) && ChainPath(a, key, p) && ChainPath(b, key, q)
        && Raws(a, p) != Raws(b, q)
  {
    var key := Rsa([]);
    var c, d := Certificate([1], [1], [1], key, []), Certificate([2], [2], [2], key, []);
    var a, b := [c, d], [d, c];
    assert multiset(a) == multiset(b);
    assert ChainPath(a, key, [0]) && ChainPath(b, key, [0]);
    assert Raws(a, [0])[0] != Raws(b, [0])[0];
  }

  // A leaf and two self-issued certificates of its issuer's name: the first one is taken.
  lemma FirstOfTwo(leaf: Certificate, c: Certificate, d: Certificate)
    requires leaf.subject != leaf.issuer && c.subject == c.issuer == d.subject == leaf.issuer && !leaf.key.OtherKind?
    ensures ChainPath([leaf, c, d], leaf.key, [0] + [1]) && Raws([leaf, c, d], [0] + [1]) == [leaf.raw, c.raw]
  {
    var certs := [leaf, c, d];
    assert Walk(certs, leaf.key, [0]);
    WalkStep(certs, leaf.key, [0], 1);
  }

  // Nor without distinct subjects, even where one certificate alone is the key's: of
  // two issuers of the same name the one that stands first is taken.
  lemma IssuerOrderMatters(leaf: Certificate, c: Certificate, d: Certificate)
    requires leaf.subject != leaf.issuer && c.subject == c.issuer == leaf.issuer && d.subject == d.issuer == leaf.issuer
    requires !leaf.key.OtherKind? && c.key != leaf.key && d.key != leaf.key && c.raw != d.raw
    ensures multiset([leaf, c, d]) == multiset([leaf, d, c]) && OneMatches([leaf, c, d], leaf.key)
    ensures ChainPath([leaf, c, d], leaf.key, [0] + [1]) && ChainPath([leaf, d, c], leaf.key, [0] + [1])
    ensures Raws([leaf, c, d], [0] + [1]) != Raws([leaf, d, c], [0] + [1])
  {
    FirstOfTwo(leaf, c, d);
    FirstOfTwo(leaf, d, c);
    hide ChainPath, Raws;
    assert [leaf.raw, c.raw][1] != [leaf.raw, d.raw][1];
  }

  // ----- PKCS#12

  // names are the friendly names among the bag's attributes, decoded.
  datatype Bag = KeyBag(value: bytes, names: seq<bytes>) | CertBag(value: bytes, names: seq<bytes>)

  // One ContentInfo: its bags, or why bagsFromContent could not read it.
  type Content = Result<seq<Bag>>

  datatype Bundle = Bundle(pkcs8: bytes, certs: seq<bytes>, alias: bytes)

  // friendly: the first name that can be an alias.
  function Friendly(names: seq<bytes>): (alias: bytes)
    ensures alias == [] || (ValidAlias(alias) && alias in names)
    ensures alias == [] ==> forall n :: n in names ==> !ValidAlias(n)
  {
    if names == [] then [] else if ValidAlias(names[0]) then names[0] else Friendly(names[1..])
  }

  // The bags of the contents that come before the first unreadable one.
  function Readable(contents: seq<Content>): seq<Bag> {
    if contents == [] || contents[0].Err? then [] else contents[0].value + Readable(contents[1..])
  }

  function KeysIn(bags: seq<Bag>): seq<Bag> {
    if bags == [] then []
    else KeysIn(bags[..|bags| - 1]) + if bags[|bags| - 1].KeyBag? then [bags[|bags| - 1]] else []
  }

  function CertsIn(bags: seq<Bag>): seq<Bag> {
    if bags == [] then []
    else CertsIn(bags[..|bags| - 1]) + if bags[|bags| - 1].CertBag? then [bags[|bags| - 1]] else []
  }

  function Values(bags: seq<Bag>): seq<bytes> {
    seq(|bags|, i requires 0 <= i < |bags| => bags[i].value)
  }

  function FirstName(bags: seq<Bag>): (alias: bytes)
    ensures alias == [] || ValidAlias(alias)
  {
    if bags == [] then []
    else
      var sofar := FirstName(bags[..|bags| - 1]);
      if sofar != [] then sofar else Friendly(bags[|bags| - 1].names)
  }

  // The name of the key wins over those of the certificates, wherever they stand.
  function NameOf(bags: seq<Bag>): (alias: bytes)
    ensures alias == [] || ValidAlias(alias)
  {
    var keys := KeysIn(bags);
    if |keys| == 1 && Friendly(keys[0].names) != [] then Friendly(keys[0].names) else FirstName(CertsIn(bags))
  }

  // The first unreadable content matters unless two keys were seen before it.
  ghost predicate Gathered(contents: seq<Content>, r: Result<Bundle>) {
    var bags := Readable(contents);
    var keys := KeysIn(bags);
    if |keys| > 1 then r == Err(TwoPrivateKeys)
    else if exists i :: 0 <= i < |contents| && contents[i].Err? then
      exists i :: 0 <= i < |contents| && contents[i].Err? && (forall j :: 0 <= j < i ==> contents[j].Ok?)
        && r == Err(contents[i].error)
    else if keys == [] then r == Err(NoPrivateKey)
    else r == Ok(Bundle(keys[0].value, Values(CertsIn(bags)), NameOf(bags)))
  }

  lemma {:induction false} KeysSplit(a: seq<Bag>, b: seq<Bag>)
    ensures KeysIn(a + b) == KeysIn(a) + KeysIn(b)
  {
    if b == [] {
      assert a + b == a;
    } else {
      var front := b[..|b| - 1];
      KeysSplit(a, front);
      assert (a + b)[..|a + b| - 1] == a + front;
    }
  }

  // Contents that can all be read contribute all their bags.
  lemma {:induction false} ReadableSplit(done: seq<Content>, rest: seq<Content>)
    requires forall i :: 0 <= i < |done| ==> done[i].Ok?
    ensures Readable(done + rest) == Readable(done) + Readable(rest)
  {
    if done == [] {
      assert done + rest == rest;
    } else {
      var all := done + rest;
      assert all[0] == done[0] && all[1..] == done[1..] + rest;
      ReadableSplit(done[1..], rest);
      calc {
        Readable(all);
        done[0].value + Readable(all[1..]);
        done[0].value + Readable(done[1..]) + Readable(rest);
        Readable(done) + Readable(rest);
      }
    }
  }

  lemma OneContent(contents: seq<Content>, i: nat)
    requires i < |contents| && forall j :: 0 <= j < i ==> contents[j].Ok?
    ensures contents[i].Err? ==> Readable(contents) == Readable(contents[..i])
    ensures contents[i].Ok? ==>
      Readable(contents[..i + 1]) == Readable(contents[..i]) + contents[i].value
        && Readable(contents[..i + 1]) <= Readable(contents)
  {
    var before, after := contents[..i], contents[i + 1..];
    assert contents == before + [contents[i]] + after && contents[..i + 1] == before + [contents[i]];
    hide Readable;
    if contents[i].Ok? {
      ReadableMid(before, contents[i], after);
    } else {
      ReadableStop(before, contents[i], after);
    }
  }

  lemma ReadableMid(before: seq<Content>, c: Content, after: seq<Content>)
    requires c.Ok? && forall i :: 0 <= i < |before| ==> before[i].Ok?
    ensures Readable(before + [c]) == Readable(before) + c.value
    ensures Readable(before + [c] + after) == Readable(before + [c]) + Readable(after)
  {
    assert Readable([c]) == c.value;
    hide Readable;
    ReadableSplit(before, [c]);
    ReadableSplit(before + [c], after);
  }

  lemma ReadableStop(before: seq<Content>, c: Content, after: seq<Content>)
    requires c.Err? && forall i :: 0 <= i < |before| ==> before[i].Ok?
    ensures Readable(before + [c] + after) == Readable(before)
  {
    assert Readable([c] + after) == [];
    hide Readable;
    ReadableSplit(before, [c] + after);
    assert before + [c] + after == before + ([c] + after);
  }

  lemma OneMore(first: seq<Bag>, bags: seq<Bag>, k: nat, all: seq<Bag>)
    requires k < |bags| && first + bags <= all
    ensures first + bags[..k + 1] == first + bags[..k] + [bags[k]] <= all
  {
    assert bags[..k + 1] == bags[..k] + [bags[k]];
    assert (first + bags)[..|first| + k + 1] == first + bags[..k + 1];
  }

  // What the loop variables say about the bags seen so far.
  ghost predicate Holds(seen: seq<Bag>, pkcs8: Option<bytes>, certs: seq<bytes>, alias: bytes) {
    var keys := KeysIn(seen);
    && |keys| <= 1 && pkcs8 == (if keys == [] then None else Some(keys[0].value))
    && certs == Values(CertsIn(seen)) && alias == NameOf(seen)
  }

  lemma AddKey(seen: seq<Bag>, bag: Bag, certs: seq<bytes>, alias: bytes)
    requires Holds(seen, None, certs, alias) && bag.KeyBag?
    ensures var name := if Friendly(bag.names) != [] then Friendly(bag.names) else alias;
      Holds(seen + [bag], Some(bag.value), certs, name)
  {
    assert (seen + [bag])[..|seen|] == seen;
    assert KeysIn(seen + [bag]) == [bag] && CertsIn(seen + [bag]) == CertsIn(seen);
  }

  lemma AddCert(seen: seq<Bag>, bag: Bag, pkcs8: Option<bytes>, certs: seq<bytes>, alias: bytes)
    requires Holds(seen, pkcs8, certs, alias) && bag.CertBag?
    ensures Holds(seen + [bag], pkcs8, certs + [bag.value], if alias != [] then alias else Friendly(bag.names))
  {
    assert (seen + [bag])[..|seen|] == seen;
    var more := CertsIn(seen) + [bag];
    assert more[..|more| - 1] == CertsIn(seen) && more[|more| - 1] == bag;
    assert CertsIn(seen + [bag]) == more && KeysIn(seen + [bag]) == KeysIn(seen);
    assert Values(more) == Values(CertsIn(seen)) + [bag.value];
  }

  lemma SecondKey(contents: seq<Content>, seen: seq<Bag>, bag: Bag, pkcs8: bytes, certs: seq<bytes>, alias: bytes)
    requires Holds(seen, Some(pkcs8), certs, alias) && bag.KeyBag? && seen + [bag] <= Readable(contents)
    ensures Gathered(contents, Err(TwoPrivateKeys))
  {
    var all := Readable(contents);
    assert (seen + [bag])[..|seen|] == seen;
    KeysSplit(seen + [bag], all[|seen| + 1..]);
    assert all == seen + [bag] + all[|seen| + 1..];
  }

  lemma StopsAt(contents: seq<Content>, i: nat, pkcs8: Option<bytes>, certs: seq<bytes>, alias: bytes)
    requires i < |contents| && contents[i].Err? && forall j :: 0 <= j < i ==> contents[j].Ok?
    requires Holds(Readable(contents), pkcs8, certs, alias)
    ensures Gathered(contents, Err(contents[i].error))
  {
    hide Readable;
  }

  lemma ReachesEnd(contents: seq<Content>, pkcs8: Option<bytes>, certs: seq<bytes>, alias: bytes)
    requires forall j :: 0 <= j < |contents| ==> contents[j].Ok?
    requires Holds(Readable(contents), pkcs8, certs, alias)
    ensures Gathered(contents, if pkcs8.None? then Err(NoPrivateKey) else Ok(Bundle(pkcs8.value, certs, alias)))
  {
    hide Readable;
  }

  // The fold over the bags of parsePKCS12.
  method Gather(contents: seq<Content>) returns (r: Result<Bundle>)
    ensures Gathered(contents, r)
  {
    var pkcs8: Option<bytes>, certs: seq<bytes>, alias: bytes := None, [], [];
    ghost var seen: seq<Bag> := [];
    assert Holds(seen, pkcs8, certs, alias) && seen == Readable(contents[..0]);
    hide Readable, Holds, Gathered, NameOf, KeysIn, CertsIn, FirstName, Values, Friendly, ValidAlias;
    for i := 0 to |contents|
      invariant forall j :: 0 <= j < i ==> contents[j].Ok?
      invariant seen == Readable(contents[..i]) && seen <= Readable(contents)
      invariant Holds(seen, pkcs8, certs, alias)
    {
      OneContent(contents, i);
      if contents[i].Err? {
        StopsAt(contents, i, pkcs8, certs, alias);
        return Err(contents[i].error);
      }
      var bags := contents[i].value;
      for k := 0 to |bags|
        invariant seen == Readable(contents[..i]) + bags[..k]
        invariant Holds(seen, pkcs8, certs, alias)
      {
        OneMore(Readable(contents[..i]), bags, k, Readable(contents));
        match bags[k] {
          case KeyBag(value, names) =>
            if pkcs8.Some? {
              SecondKey(contents, seen, bags[k], pkcs8.value, certs, alias);
              return Err(TwoPrivateKeys);
            }
            AddKey(seen, bags[k], certs, alias);
            pkcs8 := Some(value);
            if Friendly(names) != [] {
              alias := Friendly(names);
            }
          case CertBag(value, names) =>
            AddCert(seen, bags[k], pkcs8, certs, alias);
            certs := certs + [value];
            if alias == [] {
              alias := Friendly(names);
            }
        }
        seen := seen + [bags[k]];
      }
      assert bags[..|bags|] == bags;
    }
    assert contents[..|contents|] == contents;
    ReachesEnd(contents, pkcs8, certs, alias);
    if pkcs8.None? {
      return Err(NoPrivateKey);
    }
    r := Ok(Bundle(pkcs8.value, certs, alias));
  }

  // aliasFromCert: the subject's common name, already trimmed, if it can be an alias.
  function AliasFromCert(x: X509, der: bytes): (alias: bytes)
    ensures ValidAlias(alias)
    ensures x.cert(der).Some? && ValidAlias(x.cert(der).value.commonName) ==> alias == x.cert(der).value.commonName
    ensures !(x.cert(der).Some? && ValidAlias(x.cert(der).value.commonName)) ==> alias == [0x6b, 0x65, 0x79]
  {
    match x.cert(der)
    case None => [0x6b, 0x65, 0x79]
    case Some(c) => if ValidAlias(c.commonName) then c.commonName else [0x6b, 0x65, 0x79]
  }

  // A chain that orderCerts produced passes every check of finish but the alias.
  lemma FinishAfterOrder(x: X509, alias: bytes, pkcs8: bytes, ders: seq<bytes>, out: seq<bytes>)
    requires KeepsRaw(x) && x.key(pkcs8).Some? && Ordered(x, x.key(pkcs8).value, ders, out)
    ensures Finish(x, alias, pkcs8, out) == if ValidAlias(alias) then Ok(Entry(alias, pkcs8, out)) else Err(BadAlias)
  {
    var key := x.key(pkcs8).value;
    var certs, p :| Parsed(x, ders, certs) && ChainPath(certs, key, p) && out == Raws(certs, p);
    forall k | 0 <= k < |out|
      ensures x.cert(out[k]) == Some(certs[p[k]])
    {
      assert x.cert(ders[p[k]]) == Some(certs[p[k]]);
    }
    assert x.cert(out[0]) == Some(certs[p[0]]);
  }

  ghost predicate Importable(x: X509, contents: seq<Content>) {
    exists b :: Gathered(contents, Ok(b)) && Certified(x, b)
  }

  ghost predicate Certified(x: X509, b: Bundle) {
    && x.key(b.pkcs8).Some? && (forall i :: 0 <= i < |b.certs| ==> x.cert(b.certs[i]).Some?)
    && exists i :: 0 <= i < |b.certs| && SamePublic(x.key(b.pkcs8).value, x.cert(b.certs[i]).value.key)
  }

  ghost predicate Imported(x: X509, contents: seq<Content>, e: Entry) {
    exists b :: Gathered(contents, Ok(b)) && e.pkcs8 == b.pkcs8 && x.key(b.pkcs8).Some?
      && Ordered(x, x.key(b.pkcs8).value, b.certs, e.certs)
      && e.certs != [] && e.alias == (if b.alias != [] then b.alias else AliasFromCert(x, e.certs[0]))
        && ValidAlias(e.alias)
  }

  // parsePKCS12 from its contents on. It succeeds exactly when everything can be
  // read, there is one private key, it and every certificate parse, and one of them
  // certifies it; no later check can fail.
  method ParsePkcs12(x: X509, contents: seq<Content>) returns (r: Result<seq<Entry>>)
    requires KeepsRaw(x)
    ensures r.Ok? <==> Importable(x, contents)
    ensures r.Ok? ==> |r.value| == 1 && Imported(x, contents, r.value[0])
  {
    var gathered := Gather(contents);
    if gathered.Err? {
      return Err(gathered.error);
    }
    var b := gathered.value;
    var ordered := OrderCerts(x, b.pkcs8, b.certs);
    if ordered.Err? {
      return Err(ordered.error);
    }
    var alias := b.alias;
    if alias == [] {
      alias := AliasFromCert(x, ordered.value[0]);
    }
    FinishAfterOrder(x, alias, b.pkcs8, b.certs, ordered.value);
    var entry := Finish(x, alias, b.pkcs8, ordered.value);
    r := Ok([entry.value]);
  }
}
