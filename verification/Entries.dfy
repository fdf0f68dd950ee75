// What an imported entry is, whichever format it came from: the conditions of the last
// check (finish in keystore/keystore.go) said outright, and which keys, certificates and
// names of a file the two readers take.

module Entries {
  import opened Bytes
  import opened Keystore
  import Jks

  // ----- the last check

  // A key of a kind that can sign, a chain that parses and whose leaf certifies that key,
  // and a name of 1 to 128 bytes without quotes, backslashes and line ends.
  ghost predicate Usable(x: X509, e: Entry) {
    && x.key(e.pkcs8).Some? && !x.key(e.pkcs8).value.OtherKind?
    && e.certs != [] && (forall i :: 0 <= i < |e.certs| ==> x.cert(e.certs[i]).Some?)
    && x.cert(e.certs[0]).value.key == x.key(e.pkcs8).value
    && 1 <= |e.alias| <= 128 && 0x27 !in e.alias && 0x22 !in e.alias && 0x5c !in e.alias
    && 0x0d !in e.alias && 0x0a !in e.alias
  }

  // An entry is accepted exactly when it is usable, and then unchanged; each refusal has
  // its own cause. A leaf that certifies another key is told from one that cannot be read.
  lemma FinishIff(x: X509, alias: bytes, pkcs8: bytes, certs: seq<bytes>)
    ensures var r := Finish(x, alias, pkcs8, certs);
      var signs := x.key(pkcs8).Some? && !x.key(pkcs8).value.OtherKind?;
      var leaf := if certs == [] then None else x.cert(certs[0]);
      && (r.Ok? <==> Usable(x, Entry(alias, pkcs8, certs)))
      && (r.Ok? ==> r.value == Entry(alias, pkcs8, certs))
      && (r == Err(NotPkcs8) <==> x.key(pkcs8).None?)
      && (r == Err(NotRsaOrEc) <==> x.key(pkcs8).Some? && x.key(pkcs8).value.OtherKind?)
      && (r == Err(NoCertificate) <==> signs && certs == [])
      && (r == Err(WrongCertificate) <==> signs && leaf.Some? && leaf.value.key != x.key(pkcs8).value)
      && (r == Err(BadCertificate) <==>
        && signs && certs != [] && (leaf.Some? ==> leaf.value.key == x.key(pkcs8).value)
        && exists i :: 0 <= i < |certs| && x.cert(certs[i]).None?)
  {
    if der :| der in certs && x.cert(der).None? {
      var i :| 0 <= i < |certs| && certs[i] == der;
      assert x.cert(certs[i]).None?;
    }
    assert forall i :: 0 <= i < |certs| ==> certs[i] in certs;
  }

  // ----- Java key stores

  // The positions of the key entries, in order.
  ghost predicate KeyEntries(es: seq<Jks.Stored>, ix: seq<nat>) {
    && (forall j, k :: 0 <= j < k < |ix| ==> ix[j] < ix[k])
    && forall i: nat :: i in ix <==> i < |es| && es[i].KeyEntry?
  }

  // Entry k of the result is what the key entry in place ix[k] opens to.
  ghost predicate OpensTo(es: seq<Jks.Stored>, open: Jks.Opener, ix: seq<nat>, ks: seq<Entry>) {
    && |ks| == |ix|
    && (forall k :: 0 <= k < |ix| ==> ix[k] < |es| && es[ix[k]].KeyEntry?)
    && forall k :: 0 <= k < |ix| ==> open(es[ix[k]].alias, es[ix[k]].blob, Jks.Ders(es[ix[k]].chain)) == Ok(ks[k])
  }

  // The keys of a store are those of its key entries, each once and in order.
  lemma {:induction false} KeysTaken(es: seq<Jks.Stored>, open: Jks.Opener) returns (ix: seq<nat>)
    requires Jks.Keys(es, open).Ok?
    ensures KeyEntries(es, ix) && OpensTo(es, open, ix, Jks.Keys(es, open).value)
  {
    if es == [] {
      ix := [];
      assert KeyEntries(es, ix);
    } else {
      var ks := Jks.Keys(es[1..], open).value;
      var tail := KeysTaken(es[1..], open);
      var moved := Moved(tail);
      MovedEntries(es, tail);
      MovedOpens(es, open, tail, ks);
      if es[0].KeyEntry? {
        ix := [0] + moved;
        OneMoreOpens(es, open, moved, ks, open(es[0].alias, es[0].blob, Jks.Ders(es[0].chain)).value);
      } else {
        ix := moved;
      }
      hide KeyEntries, OpensTo, Moved, Jks.Ders;
    }
  }

  lemma MovedOpens(es: seq<Jks.Stored>, open: Jks.Opener, tail: seq<nat>, ks: seq<Entry>)
    requires es != [] && OpensTo(es[1..], open, tail, ks)
    ensures OpensTo(es, open, Moved(tail), ks)
  {
    hide Jks.Ders;
    assert forall k :: 0 <= k < |tail| ==> es[1..][tail[k]] == es[tail[k] + 1];
  }

  lemma OneMoreOpens(es: seq<Jks.Stored>, open: Jks.Opener, ix: seq<nat>, ks: seq<Entry>, key: Entry)
    requires es != [] && es[0].KeyEntry? && OpensTo(es, open, ix, ks)
    requires open(es[0].alias, es[0].blob, Jks.Ders(es[0].chain)) == Ok(key)
    ensures OpensTo(es, open, [0] + ix, [key] + ks)
  {
    hide Jks.Ders;
  }

  function Moved(ix: seq<nat>): (r: seq<nat>)
    ensures |r| == |ix|
  {
    seq(|ix|, k requires 0 <= k < |ix| => ix[k] + 1)
  }

  lemma MovedEntries(es: seq<Jks.Stored>, tail: seq<nat>)
    requires es != [] && KeyEntries(es[1..], tail)
    ensures KeyEntries(es, if es[0].KeyEntry? then [0] + Moved(tail) else Moved(tail))
  {
    var moved := Moved(tail);
    forall i: nat
      ensures i in moved <==> i > 0 && i < |es| && es[i].KeyEntry?
    {
      if i in moved {
        var k :| 0 <= k < |moved| && moved[k] == i;
        assert tail[k] in tail && tail[k] == i - 1;
      }
      if i > 0 && i < |es| && es[i].KeyEntry? {
        assert es[1..][i - 1] == es[i];
        var k :| 0 <= k < |tail| && tail[k] == i - 1;
        assert moved[k] == i;
      }
    }
  }

  lemma DersAre(chain: seq<Jks.StoredCert>, i: nat)
    requires i < |chain|
    ensures |Jks.Ders(chain)| == |chain| && Jks.Ders(chain)[i] == chain[i].der
  {
    if i > 0 {
      DersAre(chain[1..], i - 1);
    } else if |chain| > 1 {
      DersAre(chain[1..], 0);
    }
  }

  // Whatever the file and the passwords: a store that is read gives at least one entry,
  // and every one is usable, so that its leaf certifies the key that was decrypted.
  lemma StoreGivesUsable(env: Jks.Env, storePw: bytes, keyPw: bytes, data: bytes)
    requires Jks.IsDigest(env.h)
    requires Jks.ParseStore(env.h, storePw, Jks.OpenKey(env, keyPw), data).Ok?
    ensures var ks := Jks.ParseStore(env.h, storePw, Jks.OpenKey(env, keyPw), data).value;
      ks != [] && forall k :: 0 <= k < |ks| ==> Usable(env.x, ks[k])
  {
    var open := Jks.OpenKey(env, keyPw);
    Jks.OnlyStoresParse(env.h, storePw, open, data);
    NotEmpty(env.h, storePw, open, data);
    hide Jks.ParseStore, Jks.OpenKey;
    var es: seq<Jks.Stored>, version: nat :| data == Jks.Seal(env.h, storePw, Jks.PutStore(es, version))
      && Jks.Keys(es, open) == Jks.ParseStore(env.h, storePw, open, data);
    hide Jks.Seal, Jks.PutStore;
    var ks := Jks.Keys(es, open).value;
    var ix := KeysTaken(es, open);
    hide Jks.Keys, Usable;
    forall k | 0 <= k < |ks|
      ensures Usable(env.x, ks[k])
    {
      var e := es[ix[k]];
      OpenedIsUsable(env, keyPw, e.alias, e.blob, Jks.Ders(e.chain));
    }
  }

  lemma NotEmpty(h: bytes -> bytes, pw: bytes, open: Jks.Opener, data: bytes)
    requires Jks.ParseStore(h, pw, open, data).Ok?
    ensures Jks.ParseStore(h, pw, open, data).value != []
  {
    hide Jks.ReadKeys, TakeNum;
  }

  lemma OpenedIsUsable(env: Jks.Env, keyPw: bytes, alias: bytes, blob: bytes, ders: seq<bytes>)
    requires Jks.IsDigest(env.h)
    ensures var r: Result<Entry> := Jks.OpenKey(env, keyPw)(alias, blob, ders); r.Ok? ==> Usable(env.x, r.value)
  {
    hide Jks.Decrypt, Finish, Usable;
    if env.unwrap(blob).Some? {
      var plain := Jks.Decrypt(env.h, keyPw, env.unwrap(blob).value);
      if plain.Ok? {
        FinishIff(env.x, alias, plain.value, ders);
      }
    }
  }

  // ----- PKCS#12

  // The positions of the certificate bags, in order.
  ghost predicate CertBags(bags: seq<Bag>, ix: seq<nat>) {
    && (forall j, k :: 0 <= j < k < |ix| ==> ix[j] < ix[k])
    && forall i: nat :: i in ix <==> i < |bags| && bags[i].CertBag?
  }

  // certs are the bags in these places.
  ghost predicate TakenFrom(bags: seq<Bag>, ix: seq<nat>, certs: seq<Bag>) {
    |certs| == |ix| && forall k :: 0 <= k < |ix| ==> ix[k] < |bags| && certs[k] == bags[ix[k]]
  }

  lemma {:induction false} CertsTaken(bags: seq<Bag>) returns (ix: seq<nat>)
    ensures CertBags(bags, ix) && TakenFrom(bags, ix, CertsIn(bags))
  {
    if bags == [] {
      ix := [];
    } else {
      var n := |bags| - 1;
      assert CertsIn(bags) == CertsIn(bags[..n]) + if bags[n].CertBag? then [bags[n]] else [];
      hide *;
      ix := CertsTaken(bags[..n]);
      OneMoreCert(bags, ix);
      OneMoreTaken(bags, ix, CertsIn(bags[..n]));
      if bags[n].CertBag? {
        ix := ix + [n];
      } else {
        assert CertsIn(bags) == CertsIn(bags[..n]);
      }
    }
  }

  lemma OneMoreTaken(bags: seq<Bag>, ix: seq<nat>, certs: seq<Bag>)
    requires bags != [] && TakenFrom(bags[..|bags| - 1], ix, certs)
    ensures TakenFrom(bags, ix, certs) && TakenFrom(bags, ix + [|bags| - 1], certs + [bags[|bags| - 1]])
  {
    var n := |bags| - 1;
    assert forall i: nat :: i < n ==> bags[..n][i] == bags[i];
  }

  lemma OneMoreCert(bags: seq<Bag>, ix: seq<nat>)
    requires bags != [] && CertBags(bags[..|bags| - 1], ix)
    ensures var n := |bags| - 1; CertBags(bags, if bags[n].CertBag? then ix + [n] else ix)
  {
    var n := |bags| - 1;
    forall i: nat
      ensures i in ix <==> i < n && bags[i].CertBag?
    {
      assert i < n ==> bags[..n][i] == bags[i];
    }
    if bags[n].CertBag? {
      Appended(ix, n);
      assert forall i: nat :: i in ix + [n] <==> i < |bags| && bags[i].CertBag?;
    }
  }

  lemma Appended(ix: seq<nat>, n: nat)
    requires (forall j, k :: 0 <= j < k < |ix| ==> ix[j] < ix[k]) && forall i :: i in ix ==> i < n
    ensures forall j, k :: 0 <= j < k < |ix + [n]| ==> (ix + [n])[j] < (ix + [n])[k]
    ensures forall i: nat :: i in ix + [n] <==> i in ix || i == n
  {
    assert forall k :: 0 <= k < |ix| ==> ix[k] in ix;
  }

  // One bag among them is a key, in place i.
  predicate OnlyKey(bags: seq<Bag>, i: nat) {
    i < |bags| && forall j :: 0 <= j < |bags| ==> (bags[j].KeyBag? <==> j == i)
  }

  lemma {:induction false} KeysCounted(bags: seq<Bag>)
    ensures KeysIn(bags) == [] <==> forall j :: 0 <= j < |bags| ==> bags[j].CertBag?
    ensures |KeysIn(bags)| == 1 <==> exists i: nat :: OnlyKey(bags, i)
    ensures forall i: nat :: OnlyKey(bags, i) ==> KeysIn(bags) == [bags[i]]
  {
    if bags != [] {
      var n := |bags| - 1;
      var front := bags[..n];
      KeysCounted(front);
      assert forall j :: 0 <= j < n ==> front[j] == bags[j];
      if bags[n].CertBag? {
        forall i: nat
          ensures OnlyKey(front, i) == OnlyKey(bags, i)
        {
        }
      } else if KeysIn(front) == [] {
        assert OnlyKey(bags, n);
      } else {
        forall i: nat
          ensures !OnlyKey(bags, i)
        {
        }
      }
    }
  }

  // The first of the names that can be an alias, or the empty name when none can.
  ghost predicate FirstValid(names: seq<bytes>, alias: bytes) {
    if exists i :: 0 <= i < |names| && ValidAlias(names[i]) then
      exists i :: 0 <= i < |names| && names[i] == alias && ValidAlias(alias)
        && forall j :: 0 <= j < i ==> !ValidAlias(names[j])
    else alias == []
  }

  lemma {:induction false} FriendlyIsFirst(names: seq<bytes>)
    ensures FirstValid(names, Friendly(names))
  {
    hide ValidAlias;
    if names != [] {
      if ValidAlias(names[0]) {
        assert names[0] == Friendly(names);
      } else {
        var rest := names[1..];
        FriendlyIsFirst(rest);
        if i :| 0 <= i < |names| && ValidAlias(names[i]) {
          assert ValidAlias(rest[i - 1]);
          var k :| 0 <= k < |rest| && rest[k] == Friendly(rest) && forall j :: 0 <= j < k ==> !ValidAlias(rest[j]);
          assert names[k + 1] == Friendly(names) && forall j :: 0 <= j < k + 1 ==> !ValidAlias(names[j]);
        } else {
          assert forall i :: 0 <= i < |rest| ==> !ValidAlias(rest[i]) by {
            assert forall i :: 0 <= i < |rest| ==> rest[i] == names[i + 1];
          }
        }
      }
    }
  }

  // The name of the first bag that has one, or the empty name when none has.
  ghost predicate FirstNamed(bags: seq<Bag>, alias: bytes) {
    if exists i :: 0 <= i < |bags| && Friendly(bags[i].names) != [] then
      exists i :: 0 <= i < |bags| && Friendly(bags[i].names) == alias != []
        && forall j :: 0 <= j < i ==> Friendly(bags[j].names) == []
    else alias == []
  }

  lemma {:induction false} FirstNameIsFirst(bags: seq<Bag>)
    ensures FirstNamed(bags, FirstName(bags))
  {
    hide Friendly, ValidAlias;
    if bags != [] {
      var n := |bags| - 1;
      var front := bags[..n];
      FirstNameIsFirst(front);
      assert forall j :: 0 <= j < n ==> front[j] == bags[j];
    }
  }

  // What a bundle holds of the bags of a file.
  ghost predicate Picked(bags: seq<Bag>, b: Bundle, key: nat, ix: seq<nat>) {
    && OnlyKey(bags, key) && b.pkcs8 == bags[key].value
    && CertBags(bags, ix) && |b.certs| == |ix|
    && (forall k :: 0 <= k < |ix| ==> ix[k] < |bags| && b.certs[k] == bags[ix[k]].value)
    && if Friendly(bags[key].names) != [] then b.alias == Friendly(bags[key].names)
       else FirstNamed(CertsIn(bags), b.alias)
  }

  // The fold over the bags succeeds exactly when every content can be read and one bag
  // alone is a key. It then holds that key, the certificates of all the certificate bags
  // in order, and the key's name, or else that of the first certificate with one.
  lemma GatheredIff(contents: seq<Content>)
    ensures (exists b :: Gathered(contents, Ok(b))) <==>
      AllReadable(contents) && exists i: nat :: OnlyKey(Readable(contents), i)
    ensures forall b :: Gathered(contents, Ok(b)) ==>
      exists key: nat, ix: seq<nat> :: Picked(Readable(contents), b, key, ix)
  {
    var bags := Readable(contents);
    GatheredMeans(contents);
    KeysCounted(bags);
    var ix := CertsTaken(bags);
    FirstNameIsFirst(CertsIn(bags));
    hide Gathered, AllReadable, Readable, Friendly, FirstNamed, FirstName, OnlyKey, CertBags, KeysIn;
    if AllReadable(contents) && |KeysIn(bags)| == 1 {
      assert Gathered(contents, Ok(Bundle(KeysIn(bags)[0].value, Values(CertsIn(bags)), NameOf(bags))));
    }
    forall b | Gathered(contents, Ok(b))
      ensures exists key: nat, ix: seq<nat> :: Picked(bags, b, key, ix)
    {
      var key: nat :| OnlyKey(bags, key);
      assert Picked(bags, b, key, ix);
    }
  }

  predicate AllReadable(contents: seq<Content>) {
    forall i :: 0 <= i < |contents| ==> contents[i].Ok?
  }

  lemma GatheredMeans(contents: seq<Content>)
    ensures var bags := Readable(contents);
      if AllReadable(contents) && |KeysIn(bags)| == 1 then
        forall r :: Gathered(contents, r) <==>
          r == Ok(Bundle(KeysIn(bags)[0].value, Values(CertsIn(bags)), NameOf(bags)))
      else forall b :: !Gathered(contents, Ok(b))
  {
    hide Readable, KeysIn, CertsIn, NameOf, Values;
  }

  // So every import from PKCS#12 is usable too.
  lemma ImportedIsUsable(x: X509, contents: seq<Content>, e: Entry)
    requires KeepsRaw(x) && Imported(x, contents, e)
    ensures Usable(x, e)
  {
    hide Gathered, Ordered, ValidAlias, Usable;
    var b :| Gathered(contents, Ok(b)) && e.pkcs8 == b.pkcs8 && x.key(b.pkcs8).Some?
      && Ordered(x, x.key(b.pkcs8).value, b.certs, e.certs) && ValidAlias(e.alias);
    FinishAfterOrder(x, e.alias, e.pkcs8, b.certs, e.certs);
    FinishIff(x, e.alias, e.pkcs8, e.certs);
  }
}
