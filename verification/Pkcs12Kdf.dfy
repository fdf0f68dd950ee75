// The key derivation of RFC 7292, appendix B.2 (keystore/p12.go), with its
// in-place big-endian block addition, against the definition in the standard.

module Pkcs12Kdf {
  import opened Bytes

  type Hash = bytes -> bytes

  // ----- the standard's definitions

  // n copies of p, one after another.
  function Copies(p: bytes, n: nat): bytes {
    if n == 0 then [] else p + Copies(p, n - 1)
  }

  function Ceil(n: nat, d: nat): nat
    requires d > 0
  {
    (n + d - 1) / d
  }

  // p repeated to the least multiple of v that holds it, the last copy cut short;
  // an empty string stays empty.
  function Padded(p: bytes, v: nat): bytes
    requires v > 0
  {
    if p == [] then [] else seq(v * Ceil(|p|, v), i requires i >= 0 => p[i % |p|])
  }

  // (x + b + 1) modulo 2^(8|x|), most significant byte first.
  function AddBlock(x: bytes, b: bytes): bytes {
    BE((Num(x) + Num(b) + 1) % Pow256(|x|), |x|)
  }

  // Every v-byte block of s with b added to it.
  function AddBlocks(s: bytes, b: bytes, v: nat): (t: bytes)
    requires v > 0
    ensures |t| == |s|
  {
    if |s| < v then s else AddBlock(s[..v], b) + AddBlocks(s[v..], b, v)
  }

  // The hash applied r times.
  function Iterate(h: Hash, x: bytes, r: nat): bytes {
    if r <= 1 then h(x) else h(Iterate(h, x, r - 1))
  }

  // A_1 A_2 ... A_c, where each round hashes D and the current I and then adds
  // the padded result plus one to every block of I.
  function Rounds(h: Hash, d: bytes, i: bytes, r: nat, v: nat, c: nat): bytes
    requires v > 0
    decreases c
  {
    if c == 0 then []
    else
      var a := Iterate(h, d + i, r);
      a + Rounds(h, d, AddBlocks(i, Cut(Padded(a, v), v), v), r, v, c - 1)
  }

  function Cut(b: bytes, v: nat): bytes {
    if |b| < v then b else b[..v]
  }

  // The first size bytes of as many rounds as they need.
  function Derived(h: Hash, u: nat, v: nat, salt: bytes, password: bytes, r: nat, id: byte, size: nat): bytes
    requires u > 0 && v > 0 && (forall x :: |h(x)| == u)
  {
    RoundsLength(h, u, Copies([id], v), Padded(salt, v) + Padded(password, v), r, v, Ceil(size, u));
    Enough(size, u);
    Rounds(h, Copies([id], v), Padded(salt, v) + Padded(password, v), r, v, Ceil(size, u))[..size]
  }

  lemma Enough(n: nat, d: nat)
    requires d > 0
    ensures Ceil(n, d) * d >= n
  {
    assert n + d - 1 == (n + d - 1) / d * d + (n + d - 1) % d;
  }

  lemma {:induction false} RoundsLength(h: Hash, u: nat, d: bytes, i: bytes, r: nat, v: nat, c: nat)
    requires v > 0 && (forall x :: |h(x)| == u)
    ensures |Rounds(h, d, i, r, v, c)| == c * u
    decreases c
  {
    if c > 0 {
      hide AddBlocks, Padded, Cut;
      var a := Iterate(h, d + i, r);
      RoundsLength(h, u, d, AddBlocks(i, Cut(Padded(a, v), v), v), r, v, c - 1);
      assert (c - 1) * u + u == c * u;
    }
  }

  lemma {:induction false} RoundsPrefix(h: Hash, d: bytes, i: bytes, r: nat, v: nat, c: nat, k: nat)
    requires v > 0
    ensures Rounds(h, d, i, r, v, c) <= Rounds(h, d, i, r, v, c + k)
    decreases c
  {
    if c > 0 {
      hide AddBlocks, Padded, Cut;
      var a := Iterate(h, d + i, r);
      RoundsPrefix(h, d, AddBlocks(i, Cut(Padded(a, v), v), v), r, v, c - 1, k);
    }
  }

  // Padding is repetition cut to length, as the standard words it.
  lemma {:induction false} CopiesAt(p: bytes, n: nat, i: nat)
    requires p != [] && i < n * |p|
    ensures |Copies(p, n)| == n * |p| && Copies(p, n)[i] == p[i % |p|]
  {
    if n == 1 {
      assert Copies(p, 1) == p + Copies(p, 0) == p;
      SmallMod(i, |p|);
    } else {
      assert n * |p| == |p| + (n - 1) * |p|;
      CopiesAt(p, n - 1, if i < |p| then 0 else i - |p|);
      if i < |p| {
        SmallMod(i, |p|);
      } else {
        assert i % |p| == (i - |p|) % |p| by { ModStep(i, |p|); }
      }
    }
  }

  lemma SmallMod(i: nat, d: nat)
    requires i < d
    ensures i % d == i
  {
  }

  lemma ModStep(i: nat, d: nat)
    requires 0 < d <= i
    ensures i % d == (i - d) % d
  {
    var q := (i - d) / d;
    assert i == (q + 1) * d + (i - d) % d;
    Unique(i, d, q + 1, (i - d) % d);
  }

  lemma {:induction false} Mono(a: nat, b: nat, d: nat)
    requires a <= b
    ensures a * d <= b * d
    ensures (a + 1) * d == a * d + d
  {
    assert (b - a) * d >= 0;
    assert b * d == a * d + (b - a) * d;
  }

  lemma Unique(n: nat, d: nat, q: nat, r: nat)
    requires r < d && n == q * d + r
    ensures n % d == r && n / d == q
  {
    var q', r' := n / d, n % d;
    assert n == q' * d + r';
    if q > q' {
      Mono(q' + 1, q, d);
    }
    if q' > q {
      Mono(q + 1, q', d);
    }
  }

  lemma PaddedIsCopies(p: bytes, v: nat, n: nat)
    requires v > 0 && p != [] && n * |p| >= v * Ceil(|p|, v)
    ensures |Copies(p, n)| >= |Padded(p, v)| && Padded(p, v) == Copies(p, n)[..|Padded(p, v)|]
  {
    var m := v * Ceil(|p|, v);
    Enough(|p|, v);
    assert m >= |p|;
    CopiesAt(p, n, 0);
    forall i | 0 <= i < m
      ensures Padded(p, v)[i] == Copies(p, n)[i]
    {
      CopiesAt(p, n, i);
    }
  }

  // ----- the code

  // A sum written with a carry is the sum modulo 2^(8k).
  lemma CarryIsModulo(x: bytes, carry: nat, sum: nat)
    requires Num(x) + carry * Pow256(|x|) == sum
    ensures x == BE(sum % Pow256(|x|), |x|)
  {
    NumBound(x);
    Unique(sum, Pow256(|x|), carry, Num(x));
    BENum(x);
  }

  // add: dst[lo..lo+|b|] += b + 1, in place, from the last byte with a carry.
  method Add(dst: array<byte>, lo: nat, v: nat, b: bytes)
    requires lo + v <= dst.Length && v <= |b|
    modifies dst
    ensures dst[lo..lo + v] == AddBlock(old(dst[lo..lo + v]), b[..v])
    ensures forall i :: 0 <= i < dst.Length && !(lo <= i < lo + v) ==> dst[i] == old(dst[i])
  {
    hide Num, Pow256;
    var carry: nat := 1;
    var i := v;
    ghost var was := old(dst[lo..lo + v]);
    assert dst[lo + v..lo + v] == [] && was[v..] == [] && b[v..v] == [];
    EmptySum();
    while i > 0
      invariant 0 <= i <= v && carry <= 1
      invariant Num(dst[lo + i..lo + v]) + carry * Pow256(v - i) == Num(was[i..]) + Num(b[i..v]) + 1
      invariant forall k :: 0 <= k < dst.Length && !(lo + i <= k < lo + v) ==> dst[k] == old(dst[k])
    {
      i := i - 1;
      ghost var tail := dst[lo + i + 1..lo + v];
      var n := dst[lo + i] + b[i] + carry;
      ghost var byteCarry := carry;
      dst[lo + i] := n % 256;
      carry := n / 256;
      assert dst[lo + i..lo + v] == [n % 256] + tail;
      AddStep([n % 256] + tail, was[i..], b[i..v], byteCarry, n);
    }
    assert was[0..] == was && b[0..v] == b[..v];
    CarryIsModulo(dst[lo..lo + v], carry, Num(was) + Num(b[..v]) + 1);
  }

  lemma EmptySum()
    ensures Num([]) + 1 * Pow256(0) == Num([]) + Num([]) + 1
  {
  }

  lemma Carried(p: nat, hi: nat, lo: nat, x: nat, y: nat, carry: nat)
    requires x + y + carry == 256 * hi + lo
    ensures lo * p + hi * (256 * p) == x * p + y * p + carry * p
  {
    assert (x + y + carry) * p == x * p + y * p + carry * p;
    assert (256 * hi + lo) * p == hi * (256 * p) + lo * p;
  }

  lemma AddStep(x: bytes, d: bytes, b: bytes, carry: nat, n: nat)
    requires |x| == |d| == |b| > 0 && n == d[0] + b[0] + carry && x[0] == n % 256
    requires Num(x[1..]) + carry * Pow256(|x| - 1) == Num(d[1..]) + Num(b[1..]) + 1
    ensures Num(x) + (n / 256) * Pow256(|x|) == Num(d) + Num(b) + 1
  {
    hide Num;
    var p := Pow256(|x| - 1);
    NumHead(x);
    NumHead(d);
    NumHead(b);
    assert Pow256(|x|) == 256 * p;
    hide Pow256;
    Carried(p, n / 256, n % 256, d[0], b[0], carry);
  }

  // stretch
  method Stretch(pattern: bytes, v: nat) returns (out: bytes)
    requires v > 0
    ensures out == Padded(pattern, v)
  {
    if |pattern| == 0 {
      return [];
    }
    var n := v * ((|pattern| + v - 1) / v);
    var buf := new byte[n];
    for i := 0 to n
      invariant forall k :: 0 <= k < i ==> buf[k] == pattern[k % |pattern|]
    {
      buf[i] := pattern[i % |pattern|];
    }
    out := buf[..];
  }

  lemma {:induction false} AddBlocksSnoc(s: bytes, x: bytes, b: bytes, v: nat)
    requires v > 0 && |x| == v && |s| % v == 0
    ensures AddBlocks(s + x, b, v) == AddBlocks(s, b, v) + AddBlock(x, b)
  {
    hide AddBlock;
    if s == [] {
      assert s + x == x && x[..v] == x && AddBlocks(x[v..], b, v) == [];
    } else {
      assert |s| >= v by { if |s| < v { SmallMod(|s|, v); } }
      ModStep(|s|, v);
      assert (s + x)[..v] == s[..v] && (s + x)[v..] == s[v..] + x;
      AddBlocksSnoc(s[v..], x, b, v);
    }
  }

  // One block further.
  lemma AddNext(was: bytes, before: bytes, after: bytes, off: nat, k: nat, v: nat, b: bytes)
    requires v > 0 && off == k * v && off + v <= |was| && |before| == |after| == |was|
    requires before[..off] == AddBlocks(was[..off], b, v) && before[off..] == was[off..]
    requires after[off..off + v] == AddBlock(before[off..off + v], b)
    requires forall i :: 0 <= i < |was| && !(off <= i < off + v) ==> after[i] == before[i]
    ensures after[..off + v] == AddBlocks(was[..off + v], b, v) && after[off + v..] == was[off + v..]
  {
    hide AddBlock, AddBlocks;
    assert before[off..off + v] == was[off..off + v] by {
      assert before[off..][..v] == was[off..][..v];
    }
    Unique(off, v, k, 0);
    AddBlocksSnoc(was[..off], was[off..off + v], b, v);
    assert was[..off] + was[off..off + v] == was[..off + v];
    assert after[..off + v] == before[..off] + after[off..off + v];
    assert after[off + v..] == before[off..][v..] && was[off + v..] == was[off..][v..];
  }

  // The block loop of pkcs12KDF.
  method AddAll(i: array<byte>, v: nat, b: bytes)
    requires v > 0 && v <= |b| && i.Length % v == 0
    modifies i
    ensures i[..] == AddBlocks(old(i[..]), b[..v], v)
  {
    hide AddBlock;
    ghost var was := i[..];
    var off := 0;
    ghost var k, m := 0, i.Length / v;
    assert was[..0] == [] && AddBlocks([], b[..v], v) == [];
    assert i.Length == m * v;
    hide AddBlocks;
    while off + v <= i.Length
      invariant 0 <= off <= i.Length && off == k * v
      invariant i[..off] == AddBlocks(was[..off], b[..v], v)
      invariant i[off..] == was[off..]
    {
      ghost var before := i[..];
      Add(i, off, v, b);
      AddNext(was, before, i[..], off, k, v, b[..v]);
      Mono(k, k, v);
      off, k := off + v, k + 1;
    }
    Whole(k, m, v);
    assert i[..off] == i[..] && was[..off] == was;
  }

  lemma Whole(k: nat, m: nat, v: nat)
    requires v > 0 && k * v <= m * v < k * v + v
    ensures k == m
  {
    if k < m {
      Mono(k + 1, m, v);
      Mono(k, m, v);
    }
    if m < k {
      Mono(m + 1, k, v);
      Mono(m, k, v);
    }
  }

  lemma PaddedLength(p: bytes, v: nat)
    requires v > 0
    ensures |Padded(p, v)| % v == 0 && (p != [] ==> |Padded(p, v)| >= v)
  {
    if p != [] {
      var q := Ceil(|p|, v);
      Unique(v * q, v, q, 0);
      Enough(|p|, v);
      assert q >= 1;
      assert v * q >= v;
    }
  }

  // pkcs12KDF: a count below one hashes once, as one does.
  method Pkcs12KDF(h: Hash, u: nat, v: nat, salt: bytes, password: bytes, iterations: int, id: byte, size: nat)
    returns (key: bytes)
    requires u > 0 && v > 0 && (forall x :: |h(x)| == u)
    ensures key == Derived(h, u, v, salt, password, if iterations < 1 then 1 else iterations, id, size)
  {
    hide Padded, Iterate, Rounds, AddBlocks, Copies;
    ghost var r := if iterations < 1 then 1 else iterations;
    var d := Repeat(id, v);
    var s := Stretch(salt, v);
    var p := Stretch(password, v);
    PaddedLength(salt, v);
    PaddedLength(password, v);
    ModSum(|s|, |p|, v);
    var i := new byte[|s| + |p|](k requires 0 <= k < |s| + |p| => (s + p)[k]);
    assert i[..] == s + p;
    ghost var start := i[..];
    var out: bytes := [];
    ghost var c := 0;
    NoRounds(h, d, start, r, v);
    hide Resumes;
    while |out| < size
      invariant |out| == c * u && Resumes(h, d, start, r, v, c, out, i[..])
      decreases size - |out|
    {
      var a := Hashes(h, d + i[..], iterations);
      HashLength(h, u, d + i[..], r);
      var b := Stretch(a, v);
      PaddedLength(a, v);
      RoundsStep(h, d, start, i[..], r, v, c, out);
      AddAll(i, v, b);
      out := out + a;
      Mono(c, c, u);
      c := c + 1;
    }
    Resumed(h, d, start, r, v, c, out, i[..]);
    RoundsPrefixOfMore(h, u, d, start, r, v, size, c);
    key := out[..size];
  }

  // c rounds from start gave out, and from there on the rounds continue from i.
  ghost predicate Resumes(h: Hash, d: bytes, start: bytes, r: nat, v: nat, c: nat, out: bytes, i: bytes)
    requires v > 0
  {
    forall k: nat :: Rounds(h, d, start, r, v, c + k) == out + Rounds(h, d, i, r, v, k)
  }

  lemma Resumed(h: Hash, d: bytes, start: bytes, r: nat, v: nat, c: nat, out: bytes, i: bytes)
    requires v > 0 && Resumes(h, d, start, r, v, c, out, i)
    ensures Rounds(h, d, start, r, v, c) == out
  {
    assert Rounds(h, d, start, r, v, c + 0) == out + Rounds(h, d, i, r, v, 0);
  }

  lemma NoRounds(h: Hash, d: bytes, i: bytes, r: nat, v: nat)
    requires v > 0
    ensures Resumes(h, d, i, r, v, 0, [], i)
  {
    forall k: nat
      ensures Rounds(h, d, i, r, v, 0 + k) == [] + Rounds(h, d, i, r, v, k)
    {
      var l := Rounds(h, d, i, r, v, k);
      assert [] + l == l;
    }
  }

  lemma HashLength(h: Hash, u: nat, x: bytes, r: nat)
    requires forall x :: |h(x)| == u
    ensures |Iterate(h, x, r)| == u
  {
  }

  lemma ModSum(a: nat, b: nat, v: nat)
    requires v > 0 && a % v == 0 && b % v == 0
    ensures (a + b) % v == 0
  {
    assert a + b == (a / v + b / v) * v + 0;
    Unique(a + b, v, a / v + b / v, 0);
  }

  method Repeat(id: byte, v: nat) returns (d: bytes)
    ensures d == Copies([id], v)
  {
    d := [];
    for n := 0 to v
      invariant d == Copies([id], n)
    {
      d := [id] + d;
    }
  }

  // The inner loop: hash, then hash the result iterations - 1 more times.
  method Hashes(h: Hash, x: bytes, iterations: int) returns (a: bytes)
    ensures a == Iterate(h, x, if iterations < 1 then 1 else iterations)
  {
    a := h(x);
    var n := 1;
    while n < iterations
      invariant n >= 1 && (iterations >= 1 ==> n <= iterations) && (iterations < 1 ==> n == 1)
      invariant a == Iterate(h, x, n)
    {
      a := h(a);
      n := n + 1;
    }
  }

  lemma RoundsStep(h: Hash, d: bytes, start: bytes, i: bytes, r: nat, v: nat, c: nat, out: bytes)
    requires v > 0 && Resumes(h, d, start, r, v, c, out, i)
    ensures var a := Iterate(h, d + i, r);
      Resumes(h, d, start, r, v, c + 1, out + a, AddBlocks(i, Cut(Padded(a, v), v), v))
  {
    var a := Iterate(h, d + i, r);
    var i' := AddBlocks(i, Cut(Padded(a, v), v), v);
    forall k: nat
      ensures Rounds(h, d, start, r, v, (c + 1) + k) == out + a + Rounds(h, d, i', r, v, k)
    {
      assert (c + 1) + k == c + (k + 1);
      assert Rounds(h, d, i, r, v, k + 1) == a + Rounds(h, d, i', r, v, k);
      assert out + (a + Rounds(h, d, i', r, v, k)) == out + a + Rounds(h, d, i', r, v, k);
    }
  }

  // However many whole rounds were run, their first size bytes are the key.
  lemma RoundsPrefixOfMore(h: Hash, u: nat, d: bytes, i: bytes, r: nat, v: nat, size: nat, c: nat)
    requires u > 0 && v > 0 && (forall x :: |h(x)| == u) && c * u >= size
    ensures |Rounds(h, d, i, r, v, c)| >= size && |Rounds(h, d, i, r, v, Ceil(size, u))| >= size
    ensures Rounds(h, d, i, r, v, c)[..size] == Rounds(h, d, i, r, v, Ceil(size, u))[..size]
  {
    var m := Ceil(size, u);
    Enough(size, u);
    RoundsLength(h, u, d, i, r, v, c);
    RoundsLength(h, u, d, i, r, v, m);
    if m <= c {
      RoundsPrefix(h, d, i, r, v, m, c - m);
    } else {
      RoundsPrefix(h, d, i, r, v, c, m - c);
    }
  }

  // A shorter key is a prefix of a longer one.
  lemma DerivedPrefix(h: Hash, u: nat, v: nat, salt: bytes, password: bytes, r: nat, id: byte, size: nat, more: nat)
    requires u > 0 && v > 0 && (forall x :: |h(x)| == u)
    ensures Derived(h, u, v, salt, password, r, id, size) <= Derived(h, u, v, salt, password, r, id, size + more)
  {
    var d, i := Copies([id], v), Padded(salt, v) + Padded(password, v);
    var x, y := Derived(h, u, v, salt, password, r, id, size), Derived(h, u, v, salt, password, r, id, size + more);
    var c, c' := Ceil(size, u), Ceil(size + more, u);
    hide Rounds, Padded, Copies;
    Enough(size + more, u);
    RoundsLength(h, u, d, i, r, v, c');
    RoundsPrefixOfMore(h, u, d, i, r, v, size, c');
    assert x == Rounds(h, d, i, r, v, c)[..size];
    assert y == Rounds(h, d, i, r, v, c')[..size + more];
    hide Derived;
    assert y[..size] == Rounds(h, d, i, r, v, c')[..size];
  }

  // ----- the standard's steps, as a record of one derivation

  // Step 2 and 3: the string repeated to the least multiple of v bytes that holds it.
  predicate Stretched(p: bytes, v: nat, s: bytes)
    requires v > 0
  {
    && |s| % v == 0 && |p| <= |s| < |p| + v
    && forall i :: 0 <= i < |s| ==> p != [] && s[i] == p[i % |p|]
  }

  // Step 6A: the hash taken r times, one after another.
  ghost predicate HashedTimes(h: Hash, x: bytes, r: nat, a: bytes) {
    exists chain: seq<bytes> ::
      |chain| == r && r > 0 && chain[0] == h(x) && chain[r - 1] == a
      && forall i :: 0 <= i < r - 1 ==> chain[i + 1] == h(chain[i])
  }

  // Steps 6B and 6C: to every block of v bytes the number of the repeated digest's first v
  // bytes is added, and one, modulo 2^(8v).
  ghost predicate Bumped(i: bytes, a: bytes, v: nat, i': bytes)
    requires v > 0 && a != []
  {
    BlocksSum(i, Repeated(a, v), v, i')
  }

  ghost predicate BlocksSum(i: bytes, b: bytes, v: nat, i': bytes)
    requires v > 0
  {
    && |i'| == |i|
    && forall k: nat :: k * v + v <= |i| ==>
      Num(i'[k * v..k * v + v]) == (Num(i[k * v..k * v + v]) + Num(b) + 1) % Pow256(v)
  }

  function Repeated(a: bytes, v: nat): (b: bytes)
    requires a != []
    ensures |b| == v
  {
    seq(v, k requires 0 <= k < v => a[k % |a|])
  }

  // A record of the derivation: blocks[j] is the string I before round j, digests[j] the
  // A of that round.
  ghost predicate Record(h: Hash, v: nat, d: bytes, r: nat, blocks: seq<bytes>, digests: seq<bytes>)
    requires v > 0
  {
    && |blocks| == |digests| + 1
    && (forall j :: 0 <= j < |digests| ==> HashedTimes(h, d + blocks[j], r, digests[j]) && digests[j] != [])
    && (forall j :: 0 <= j < |digests| ==> Bumped(blocks[j], digests[j], v, blocks[j + 1]))
  }

  function Joined(parts: seq<bytes>): bytes {
    if parts == [] then [] else parts[0] + Joined(parts[1..])
  }

  // For every hash, salt, password, count, purpose and size, and for every record of the
  // steps of RFC 7292, appendix B.2, that is long enough: the derived key is what the
  // digests of the rounds, one after another, start with.
  lemma DerivedIsRecorded(h: Hash, u: nat, v: nat, salt: bytes, password: bytes, r: nat, id: byte, size: nat,
                          s: bytes, p: bytes, d: bytes, blocks: seq<bytes>, digests: seq<bytes>)
    requires u > 0 && v > 0 && r > 0 && forall x :: |h(x)| == u
    requires Stretched(salt, v, s) && Stretched(password, v, p)
    requires |d| == v && forall i :: 0 <= i < v ==> d[i] == id
    requires Record(h, v, d, r, blocks, digests) && blocks[0] == s + p && |digests| * u >= size
    ensures |Joined(digests)| >= size
    ensures Derived(h, u, v, salt, password, r, id, size) == Joined(digests)[..size]
  {
    StretchedIsPadded(salt, v, s);
    StretchedIsPadded(password, v, p);
    PurposeIs(id, v, d);
    Whole2(s, p, v);
    hide Stretched, Padded, Copies, Derived;
    RecordedRounds(h, u, v, d, r, blocks, digests);
    RoundsPrefixOfMore(h, u, d, s + p, r, v, size, |digests|);
    DerivedMeans(h, u, v, salt, password, r, id, size);
  }

  lemma DerivedMeans(h: Hash, u: nat, v: nat, salt: bytes, password: bytes, r: nat, id: byte, size: nat)
    requires u > 0 && v > 0 && (forall x :: |h(x)| == u)
    ensures var rounds := Rounds(h, Copies([id], v), Padded(salt, v) + Padded(password, v), r, v, Ceil(size, u));
      |rounds| >= size && Derived(h, u, v, salt, password, r, id, size) == rounds[..size]
  {
    RoundsLength(h, u, Copies([id], v), Padded(salt, v) + Padded(password, v), r, v, Ceil(size, u));
    Enough(size, u);
    hide Rounds, Padded, Copies;
  }

  lemma StretchedIsPadded(p: bytes, v: nat, s: bytes)
    requires v > 0 && Stretched(p, v, s)
    ensures s == Padded(p, v)
  {
    if p != [] {
      Enough(|p|, v);
      var q := |s| / v;
      assert |s| == q * v;
      LeastMultiple(|p|, v, q);
    }
  }

  lemma LeastMultiple(n: nat, v: nat, q: nat)
    requires v > 0 && n <= q * v < n + v
    ensures v * Ceil(n, v) == q * v
  {
    var extra := n + v - 1 - q * v;
    Unique(n + v - 1, v, q, extra);
    assert v * q == q * v;
  }

  lemma PurposeIs(id: byte, v: nat, d: bytes)
    requires |d| == v && forall i :: 0 <= i < v ==> d[i] == id
    ensures d == Copies([id], v)
  {
    if v > 0 {
      CopiesAt([id], v, 0);
      forall i | 0 <= i < v
        ensures Copies([id], v)[i] == id
      {
        CopiesAt([id], v, i);
      }
    } else {
      assert d == [];
    }
  }

  lemma Whole2(s: bytes, p: bytes, v: nat)
    requires v > 0 && |s| % v == 0 && |p| % v == 0
    ensures |s + p| % v == 0
  {
    ModSum(|s|, |p|, v);
  }

  lemma {:induction false} RecordedRounds(h: Hash, u: nat, v: nat, d: bytes, r: nat, blocks: seq<bytes>,
    digests: seq<bytes>)
    requires u > 0 && v > 0 && r > 0 && forall x :: |h(x)| == u
    requires Record(h, v, d, r, blocks, digests) && |blocks[0]| % v == 0
    ensures Rounds(h, d, blocks[0], r, v, |digests|) == Joined(digests)
    decreases |digests|
  {
    if digests != [] {
      FirstRecorded(h, v, d, r, blocks, digests);
      RoundsHead(h, d, blocks[0], r, v, |digests|);
      assert Joined(digests) == digests[0] + Joined(digests[1..]);
      hide *;
      RecordedRounds(h, u, v, d, r, blocks[1..], digests[1..]);
    }
  }

  lemma RoundsHead(h: Hash, d: bytes, i: bytes, r: nat, v: nat, c: nat)
    requires v > 0 && c > 0
    ensures var a := Iterate(h, d + i, r);
      Rounds(h, d, i, r, v, c) == a + Rounds(h, d, AddBlocks(i, Cut(Padded(a, v), v), v), r, v, c - 1)
  {
    hide AddBlocks, Padded, Cut, Iterate;
  }

  lemma FirstRecorded(h: Hash, v: nat, d: bytes, r: nat, blocks: seq<bytes>, digests: seq<bytes>)
    requires v > 0 && Record(h, v, d, r, blocks, digests) && digests != [] && |blocks[0]| % v == 0
    ensures |blocks| == |digests| + 1 && Record(h, v, d, r, blocks[1..], digests[1..])
    ensures digests[0] == Iterate(h, d + blocks[0], r)
    ensures blocks[1] == AddBlocks(blocks[0], Cut(Padded(digests[0], v), v), v) && |blocks[1]| == |blocks[0]|
  {
    var a, i := digests[0], blocks[0];
    assert HashedTimes(h, d + i, r, a) && Bumped(i, a, v, blocks[1]);
    HashedIsIterate(h, d + i, r, a);
    BumpedIsAdded(i, a, v, blocks[1]);
    RecordTail(h, v, d, r, blocks, digests);
    hide Record, Bumped, HashedTimes, AddBlocks, Padded, Cut, Iterate;
  }

  lemma RecordTail(h: Hash, v: nat, d: bytes, r: nat, blocks: seq<bytes>, digests: seq<bytes>)
    requires v > 0 && Record(h, v, d, r, blocks, digests) && digests != []
    ensures Record(h, v, d, r, blocks[1..], digests[1..])
  {
    hide HashedTimes, Bumped;
  }

  lemma {:induction false} ChainIsIterate(h: Hash, x: bytes, chain: seq<bytes>, k: nat)
    requires k < |chain| && chain[0] == h(x) && forall i :: 0 <= i < |chain| - 1 ==> chain[i + 1] == h(chain[i])
    ensures chain[k] == Iterate(h, x, k + 1)
  {
    if k > 0 {
      ChainIsIterate(h, x, chain, k - 1);
    }
  }

  lemma HashedIsIterate(h: Hash, x: bytes, r: nat, a: bytes)
    requires HashedTimes(h, x, r, a)
    ensures a == Iterate(h, x, r)
  {
    var chain: seq<bytes> :| |chain| == r && r > 0 && chain[0] == h(x) && chain[r - 1] == a
      && forall i :: 0 <= i < r - 1 ==> chain[i + 1] == h(chain[i]);
    ChainIsIterate(h, x, chain, r - 1);
  }

  lemma RepeatedIsCut(a: bytes, v: nat)
    requires v > 0 && a != []
    ensures Cut(Padded(a, v), v) == Repeated(a, v)
  {
    PaddedLength(a, v);
  }

  lemma BumpedIsAdded(i: bytes, a: bytes, v: nat, i': bytes)
    requires v > 0 && a != [] && |i| % v == 0 && Bumped(i, a, v, i')
    ensures i' == AddBlocks(i, Cut(Padded(a, v), v), v)
  {
    RepeatedIsCut(a, v);
    hide Padded, Cut;
    AllBlocks(i, Repeated(a, v), v, i');
  }

  lemma {:induction false} AllBlocks(i: bytes, b: bytes, v: nat, i': bytes)
    requires v > 0 && |i| % v == 0 && BlocksSum(i, b, v, i')
    ensures i' == AddBlocks(i, b, v)
    decreases |i|
  {
    if |i| < v {
      assert |i| == 0 by { SmallMod(|i|, v); }
    } else {
      ModStep(|i|, v);
      TailSums(i, b, v, i');
      HeadSum(i, b, v, i');
      hide BlocksSum;
      AllBlocks(i[v..], b, v, i'[v..]);
      hide AddBlock;
      assert i' == i'[..v] + i'[v..];
    }
  }

  lemma HeadSum(i: bytes, b: bytes, v: nat, i': bytes)
    requires v > 0 && |i| >= v && BlocksSum(i, b, v, i')
    ensures i'[..v] == AddBlock(i[..v], b)
  {
    assert 0 * v == 0;
    var was, now := i[0 * v..0 * v + v], i'[0 * v..0 * v + v];
    assert was == i[..v] && now == i'[..v];
    assert Num(now) == (Num(was) + Num(b) + 1) % Pow256(v);
    BENum(now);
    hide Num, BE, BlocksSum;
  }

  lemma TailSums(i: bytes, b: bytes, v: nat, i': bytes)
    requires v > 0 && |i| >= v && BlocksSum(i, b, v, i')
    ensures BlocksSum(i[v..], b, v, i'[v..])
  {
    hide Num, Pow256;
    forall k: nat | k * v + v <= |i[v..]|
      ensures Num(i'[v..][k * v..k * v + v]) == (Num(i[v..][k * v..k * v + v]) + Num(b) + 1) % Pow256(v)
    {
      assert (k + 1) * v == k * v + v;
      assert i[v..][k * v..k * v + v] == i[(k + 1) * v..(k + 1) * v + v];
      assert i'[v..][k * v..k * v + v] == i'[(k + 1) * v..(k + 1) * v + v];
    }
  }
}
