// Reading attributes (pkcs11/hotbox.c): one entry of a template at a time, in place,
// under the output-length convention of section 5.2 of PKCS#11 v2.40.

module Attributes {
  import opened Bytes
  import opened Pkcs11

  const CKR_ATTRIBUTE_SENSITIVE := 0x11
  const CKR_ATTRIBUTE_TYPE_INVALID := 0x12
  const CKR_OBJECT_HANDLE_INVALID := 0x82
  const UNAVAILABLE := 0xffff_ffff_ffff_ffff

  // A CK_ATTRIBUTE: its type, the memory its pointer leads to, and its length field.
  datatype Entry = Entry(typ: nat, mem: Option<bytes>, len: nat)

  // What a caller promises: the memory is as long as the entry says.
  predicate Backed(e: Entry) {
    e.mem.Some? ==> e.len <= |e.mem.value|
  }

  predicate AllBacked(es: seq<Entry>) {
    forall i :: 0 <= i < |es| ==> Backed(es[i])
  }

  // put_mem
  function PutMem(e: Entry, v: bytes): (r: (Entry, nat))
    requires Backed(e)
    ensures r.0.typ == e.typ && r.0.len == |v|
  {
    if e.mem.None? then (e.(len := |v|), CKR_OK)
    else if e.len < |v| then (e.(len := |v|), CKR_BUFFER_TOO_SMALL)
    else (e.(len := |v|, mem := Some(v + e.mem.value[|v|..])), CKR_OK)
  }

  // attr_one on the value the object has.
  function Fill(e: Entry, a: AttrValue): (Entry, nat)
    requires Backed(e)
  {
    match a
    case Value(v) => PutMem(e, v)
    case Sensitive => (e.(len := UNAVAILABLE), CKR_ATTRIBUTE_SENSITIVE)
    case Invalid => (e.(len := UNAVAILABLE), CKR_ATTRIBUTE_TYPE_INVALID)
  }

  function FillOf(c: Cache, h: nat, e: Entry): (Entry, nat)
    requires ObjectOk(c, h) && Backed(e)
  {
    Fill(e, AttrOne(c, h, e.typ))
  }

  function Filled(c: Cache, h: nat, es: seq<Entry>): seq<Entry>
    requires ObjectOk(c, h) && AllBacked(es)
  {
    seq(|es|, i requires 0 <= i < |es| => FillOf(c, h, es[i]).0)
  }

  function Outcomes(c: Cache, h: nat, es: seq<Entry>): (rs: seq<nat>)
    requires ObjectOk(c, h) && AllBacked(es)
    ensures |rs| == |es|
  {
    seq(|es|, i requires 0 <= i < |es| => FillOf(c, h, es[i]).1)
  }

  // What the call returns: a sensitive attribute outweighs every other error, otherwise
  // the first error counts.
  ghost predicate Overall(rs: seq<nat>, rv: nat) {
    if CKR_ATTRIBUTE_SENSITIVE in rs then rv == CKR_ATTRIBUTE_SENSITIVE
    else if exists i :: 0 <= i < |rs| && rs[i] != CKR_OK then
      exists i :: 0 <= i < |rs| && rs[i] == rv != CKR_OK && forall j :: 0 <= j < i ==> rs[j] == CKR_OK
    else rv == CKR_OK
  }

  // The loop of C_GetAttributeValue: every entry is filled in, errors or not.
  method FillAll(c: Cache, h: nat, tmpl: array<Entry>) returns (rv: nat)
    requires ObjectOk(c, h) && AllBacked(tmpl[..])
    modifies tmpl
    ensures tmpl[..] == Filled(c, h, old(tmpl[..]))
    ensures Overall(Outcomes(c, h, old(tmpl[..])), rv)
  {
    ghost var was := tmpl[..];
    assert Overall(Outcomes(c, h, was)[..0], CKR_OK);
    hide FillOf, Outcomes, Overall, ObjectOk;
    rv := CKR_OK;
    for i := 0 to tmpl.Length
      invariant forall k :: 0 <= k < i ==> tmpl[k] == FillOf(c, h, was[k]).0
      invariant forall k :: i <= k < tmpl.Length ==> tmpl[k] == was[k]
      invariant Overall(Outcomes(c, h, was)[..i], rv)
    {
      var (e, one) := FillOf(c, h, tmpl[i]);
      OneMore(Outcomes(c, h, was)[..i], rv, one);
      OutcomesStep(c, h, was, i);
      tmpl[i] := e;
      if one == CKR_ATTRIBUTE_SENSITIVE || (one != CKR_OK && rv == CKR_OK) {
        rv := one;
      }
    }
    assert Outcomes(c, h, was)[..tmpl.Length] == Outcomes(c, h, was);
  }

  lemma OutcomesStep(c: Cache, h: nat, es: seq<Entry>, i: nat)
    requires ObjectOk(c, h) && AllBacked(es) && i < |es|
    ensures Outcomes(c, h, es)[..i + 1] == Outcomes(c, h, es)[..i] + [FillOf(c, h, es[i]).1]
  {
    hide FillOf;
  }

  lemma OneMore(rs: seq<nat>, rv: nat, one: nat)
    requires Overall(rs, rv)
    ensures Overall(rs + [one], if one == CKR_ATTRIBUTE_SENSITIVE || (one != CKR_OK && rv == CKR_OK) then one else rv)
  {
    var all := rs + [one];
    assert all[|rs|] == one && forall i :: 0 <= i < |rs| ==> all[i] == rs[i];
    if one != CKR_ATTRIBUTE_SENSITIVE && CKR_ATTRIBUTE_SENSITIVE !in rs {
      if i :| 0 <= i < |rs| && rs[i] == rv != CKR_OK && forall j :: 0 <= j < i ==> rs[j] == CKR_OK {
        assert all[i] == rv;
      }
    }
  }

  // attr_equals asks for the length, then fetches into memory of that length.
  method AttributeEquals(c: Cache, h: nat, a: Attr) returns (same: bool)
    requires ObjectOk(c, h)
    ensures same == AttrEquals(c, h, a)
  {
    var want := if a.value.Null? then a.value.len else |a.value.data|;
    var (asked, rv) := FillOf(c, h, Entry(a.typ, None, want));
    if rv != CKR_OK || asked.len != want {
      return false;
    }
    var tmp: bytes := seq(asked.len, _ => 0);
    var (fetched, rv') := FillOf(c, h, asked.(mem := Some(tmp)));
    same := rv' == CKR_OK && a.value.Mem? && fetched.mem.value == a.value.data;
  }

  // ----- the convention

  // Asking for the length and then fetching into any memory at least that long gives
  // the value itself, leaving what lies behind it alone. It is never too small.
  lemma QueryThenFetch(c: Cache, h: nat, typ: nat, len: nat, room: bytes)
    requires ObjectOk(c, h)
    requires var (asked, rv) := FillOf(c, h, Entry(typ, None, len)); rv == CKR_OK && asked.len <= |room|
    ensures AttrOne(c, h, typ).Value?
    ensures var v := AttrOne(c, h, typ).v;
      && FillOf(c, h, Entry(typ, None, len)) == (Entry(typ, None, |v|), CKR_OK)
      && FillOf(c, h, Entry(typ, Some(room), |v|)) == (Entry(typ, Some(v + room[|v|..]), |v|), CKR_OK)
  {
    hide AttrOne;
  }

  // Too short a buffer is left as it was, and the length field says what is needed.
  lemma TooSmallIff(c: Cache, h: nat, e: Entry)
    requires ObjectOk(c, h) && Backed(e)
    ensures var (e', rv) := FillOf(c, h, e);
      && (rv == CKR_BUFFER_TOO_SMALL <==>
        e.mem.Some? && AttrOne(c, h, e.typ).Value? && e.len < |AttrOne(c, h, e.typ).v|)
      && (rv != CKR_OK ==> e'.mem == e.mem)
      && (rv == CKR_BUFFER_TOO_SMALL ==> e'.len == |AttrOne(c, h, e.typ).v|)
  {
    hide AttrOne;
  }

  // Each entry's outcome has one cause; an entry that gives nothing says so in its length.
  lemma FillIff(c: Cache, h: nat, e: Entry)
    requires ObjectOk(c, h) && Backed(e)
    ensures var (e', rv) := FillOf(c, h, e); var a := AttrOne(c, h, e.typ);
      && (rv == 0x0 <==> a.Value? && (e.mem.None? || e.len >= |a.v|))
      && (rv == 0x11 <==> a.Sensitive?) && (rv == 0x12 <==> a.Invalid?)
      && (rv == 0x150 <==> a.Value? && e.mem.Some? && e.len < |a.v|)
      && e'.len == (if a.Value? then |a.v| else 0xffff_ffff_ffff_ffff) && e'.typ == e.typ
  {
    hide AttrOne;
  }

  // No entry ever receives a private part of the key.
  lemma SecretsStayUnavailable(c: Cache, e: Entry)
    requires Backed(e) && 0x123 <= e.typ <= 0x128
    ensures FillOf(c, KEY_HANDLE, e) == (e.(len := UNAVAILABLE), CKR_ATTRIBUTE_SENSITIVE)
  {
  }

  // What a search matched can be fetched, and is what was asked for.
  lemma MatchedCanBeFetched(c: Cache, h: nat, tmpl: seq<Attr>, i: nat, room: bytes)
    requires ObjectOk(c, h) && Matches(c, h, tmpl) && i < |tmpl| && tmpl[i].value.Mem? && |room| >= |tmpl[i].value.data|
    ensures var e := Entry(tmpl[i].typ, Some(room), |room|);
      FillOf(c, h, e).1 == CKR_OK && FillOf(c, h, e).0.mem.value[..FillOf(c, h, e).0.len] == tmpl[i].value.data
  {
    hide AttrOne;
    assert AttrEquals(c, h, tmpl[i]);
  }
}
