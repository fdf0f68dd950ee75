// Bytes, big-endian numbers and length-prefixed fields. Every format of the
// program (socket frames, token description, JKS, sealed records) is built from these.

module Bytes {

  datatype Option<+T> = None | Some(value: T)

  // What reading from the front of a byte string yields: nothing when it is too
  // short, otherwise the item and what follows it.
  datatype Read<+T> = Short | Got(item: T, rest: bytes)

  type byte = x: int | 0 <= x < 256

  type bytes = seq<byte>

  function Pow256(k: nat): (p: nat)
    ensures p >= 1
  {
    if k == 0 then 1 else 256 * Pow256(k - 1)
  }

  function Pow2(k: nat): (p: nat)
    ensures p >= 1
  {
    if k == 0 then 1 else 2 * Pow2(k - 1)
  }

  // The k low-order bytes of n, most significant first. Higher bytes are dropped,
  // as the shift-and-truncate stores of both languages do.
  function BE(n: nat, k: nat): (b: bytes)
    ensures |b| == k
  {
    if k == 0 then [] else BE(n / 256, k - 1) + [n % 256]
  }

  function Num(b: bytes): nat {
    if |b| == 0 then 0 else 256 * Num(b[..|b| - 1]) + b[|b| - 1]
  }

  lemma {:induction false} NumBound(b: bytes)
    ensures Num(b) < Pow256(|b|)
  {
    if |b| > 0 {
      NumBound(b[..|b| - 1]);
    }
  }

  lemma {:induction false} NumBE(n: nat, k: nat)
    requires n < Pow256(k)
    ensures Num(BE(n, k)) == n
  {
    if k > 0 {
      NumBE(n / 256, k - 1);
      var b := BE(n, k);
      assert b[..k - 1] == BE(n / 256, k - 1);
    }
  }

  lemma {:induction false} BENum(b: bytes)
    ensures BE(Num(b), |b|) == b
  {
    if |b| > 0 {
      var front, last := b[..|b| - 1], b[|b| - 1];
      assert Num(b) / 256 == Num(front) && Num(b) % 256 == last;
      BENum(front);
      assert b == front + [last];
    }
  }

  // Splitting off the leading byte.
  lemma {:induction false} NumHead(b: bytes)
    requires |b| > 0
    ensures Num(b) == b[0] * Pow256(|b| - 1) + Num(b[1..])
  {
    if |b| > 1 {
      NumHead(b[..|b| - 1]);
      assert b[..|b| - 1][1..] == b[1..][..|b| - 2];
    }
  }

  lemma SmallPowers()
    ensures Pow256(1) == 0x100 && Pow256(2) == 0x1_0000 && Pow256(4) == 0x1_0000_0000
  {
    assert Pow256(2) == 256 * Pow256(1);
    assert Pow256(3) == 256 * Pow256(2);
  }

  // A number of w bytes at the front of r.
  function TakeNum(r: bytes, w: nat): (t: Read<nat>)
    ensures t.Got? ==> |r| == w + |t.rest|
  {
    if |r| < w then Short else Got(Num(r[..w]), r[w..])
  }

  function Take(r: bytes, n: nat): (t: Read<bytes>)
    ensures t.Got? ==> r == t.item + t.rest && |t.item| == n
  {
    if |r| < n then Short else Got(r[..n], r[n..])
  }

  // A w-byte length and then that many bytes.
  function Field(x: bytes, w: nat): bytes {
    BE(|x|, w) + x
  }

  function TakeField(r: bytes, w: nat): (t: Read<bytes>)
    ensures t.Got? ==> |r| == w + |t.item| + |t.rest|
  {
    match TakeNum(r, w)
    case Short => Short
    case Got(n, rest) => Take(rest, n)
  }

  lemma TakeNumBE(n: nat, w: nat, tail: bytes)
    requires n < Pow256(w)
    ensures TakeNum(BE(n, w) + tail, w) == Got(n, tail)
  {
    NumBE(n, w);
    assert (BE(n, w) + tail)[..w] == BE(n, w);
    assert (BE(n, w) + tail)[w..] == tail;
  }

  lemma TakeNumOnly(r: bytes, w: nat)
    requires TakeNum(r, w).Got?
    ensures r == BE(TakeNum(r, w).item, w) + TakeNum(r, w).rest
    ensures TakeNum(r, w).item < Pow256(w)
  {
    BENum(r[..w]);
    NumBound(r[..w]);
  }

  // A field reads back, whatever follows it.
  lemma TakeFieldOf(x: bytes, w: nat, tail: bytes)
    requires |x| < Pow256(w)
    ensures TakeField(Field(x, w) + tail, w) == Got(x, tail)
  {
    assert Field(x, w) + tail == BE(|x|, w) + (x + tail);
    TakeNumBE(|x|, w, x + tail);
  }

  // Only a field reads as one.
  lemma TakeFieldOnly(r: bytes, w: nat)
    requires TakeField(r, w).Got?
    ensures var t := TakeField(r, w); r == Field(t.item, w) + t.rest && |t.item| < Pow256(w)
  {
    TakeNumOnly(r, w);
    var t := TakeField(r, w);
    assert r == BE(|t.item|, w) + (t.item + t.rest);
  }

  // A field stands at the front: its length in w bytes, and then it.
  predicate Fronted(p: bytes, w: nat, x: bytes, rest: bytes) {
    |p| == w + |x| + |rest| && Num(p[..w]) == |x| && p[w..w + |x|] == x && p[w + |x|..] == rest
  }

  lemma FieldFronted(x: bytes, w: nat, rest: bytes)
    requires |x| < Pow256(w)
    ensures Fronted(Field(x, w) + rest, w, x, rest)
  {
    NumBE(|x|, w);
    hide Num, BE, Pow256;
    var p := Field(x, w) + rest;
    assert p[..w] == BE(|x|, w) && p[w..w + |x|] == x && p[w + |x|..] == rest;
  }

  // A number of w bytes stands at the front.
  predicate NumFronted(p: bytes, w: nat, n: nat, rest: bytes) {
    |p| == w + |rest| && Num(p[..w]) == n && p[w..] == rest
  }

  lemma NumIsFronted(n: nat, w: nat, rest: bytes)
    requires n < Pow256(w)
    ensures NumFronted(BE(n, w) + rest, w, n, rest)
  {
    NumBE(n, w);
    hide Num, BE, Pow256;
    var p := BE(n, w) + rest;
    assert p[..w] == BE(n, w) && p[w..] == rest;
  }
}
