// Choosing the newest build-tools directory (compareVersions and the scan of
// findBuildTools in sign.go), with Go's 64-bit arithmetic and strconv.Atoi.

module Versions {
  import opened Bytes
  import DotEnv

  const MAX_INT := 0x7fff_ffff_ffff_ffff
  const MIN_INT := -0x8000_0000_0000_0000
  const MAX_UINT := 0xffff_ffff_ffff_ffff

  predicate IsInt(x: int) {
    MIN_INT <= x <= MAX_INT
  }

  // What the machine keeps of a result outside the range.
  function Wrap(x: int): (w: int)
    ensures IsInt(w) && (IsInt(x) ==> w == x)
  {
    (x - MIN_INT) % 0x1_0000_0000_0000_0000 + MIN_INT
  }

  // ----- strconv.Atoi, the error dropped

  datatype Parsed = Digits(n: nat) | Syntax | Range

  // Digits left to right; whichever comes first decides, a character that is no digit
  // or a value past 64 bits.
  function Magnitude(s: string): (p: Parsed)
    ensures p.Digits? ==> p.n <= MAX_UINT
  {
    if s == "" then Digits(0)
    else
      var front, c := Magnitude(s[..|s| - 1]), s[|s| - 1];
      if !front.Digits? then front
      else if !('0' <= c <= '9') then Syntax
      else
        var n: nat := 10 * front.n + (c as int - '0' as int);
        if n > MAX_UINT then Range else Digits(n)
  }

  function Atoi(s: string): (x: int)
    ensures IsInt(x)
  {
    var neg := s != "" && s[0] == '-';
    var digits := if s != "" && (s[0] == '-' || s[0] == '+') then s[1..] else s;
    if digits == "" then 0
    else
      match Magnitude(digits)
      case Syntax => 0
      case Range => if neg then MIN_INT else MAX_INT
      case Digits(n) =>
        if neg then (if 0 - n < MIN_INT then MIN_INT else 0 - n) else if n > MAX_INT then MAX_INT else n
  }

  // ----- compareVersions

  function Split(s: string): (parts: seq<string>)
    ensures |parts| > 0
    decreases |s|
  {
    var i := DotEnv.IndexOf(s, '.');
    if i == |s| then [s] else [s[..i]] + Split(s[i + 1..])
  }

  // Component i, or zero past the last one.
  function At(parts: seq<string>, i: nat): (x: int)
    ensures IsInt(x)
  {
    if i < |parts| then Atoi(parts[i]) else 0
  }

  // strings.Compare
  function Lex(a: string, b: string): (r: int)
    ensures -1 <= r <= 1
  {
    if a == "" && b == "" then 0
    else if a == "" then -1
    else if b == "" then 1
    else if a[0] != b[0] then (if a[0] < b[0] then -1 else 1)
    else Lex(a[1..], b[1..])
  }

  function Longer(a: seq<string>, b: seq<string>): nat {
    if |a| < |b| then |b| else |a|
  }

  // The order meant: the first component that differs decides, then the text.
  function Order(a: string, b: string): int {
    OrderFrom(Split(a), Split(b), 0, Lex(a, b))
  }

  function OrderFrom(xs: seq<string>, ys: seq<string>, i: nat, tie: int): int
    decreases Longer(xs, ys) - i
  {
    if i >= Longer(xs, ys) then tie
    else if At(xs, i) != At(ys, i) then At(xs, i) - At(ys, i)
    else OrderFrom(xs, ys, i + 1, tie)
  }

  method CompareVersions(a: string, b: string) returns (r: int)
    ensures r == Wrap(Order(a, b))
  {
    var xs, ys := Split(a), Split(b);
    var i := 0;
    while i < |xs| || i < |ys|
      invariant Order(a, b) == OrderFrom(xs, ys, i, Lex(a, b))
      decreases Longer(xs, ys) - i
    {
      var x, y := 0, 0;
      if i < |xs| {
        x := Atoi(xs[i]);
      }
      if i < |ys| {
        y := Atoi(ys[i]);
      }
      if x != y {
        return Wrap(x - y);
      }
      i := i + 1;
    }
    r := Lex(a, b);
  }

  function Compared(a: string, b: string): int {
    Wrap(Order(a, b))
  }

  // ----- Order is a strict total order

  ghost predicate SameTo(xs: seq<string>, ys: seq<string>, i: nat) {
    forall j :: 0 <= j < i ==> At(xs, j) == At(ys, j)
  }

  // Where two versions part: the first differing component, or nowhere.
  lemma {:induction false} Parting(xs: seq<string>, ys: seq<string>, i: nat, tie: int) returns (k: nat)
    requires SameTo(xs, ys, i)
    ensures k >= i && SameTo(xs, ys, k)
    ensures At(xs, k) != At(ys, k) ==> OrderFrom(xs, ys, i, tie) == At(xs, k) - At(ys, k)
    ensures At(xs, k) == At(ys, k) ==> OrderFrom(xs, ys, i, tie) == tie && k >= Longer(xs, ys)
    decreases Longer(xs, ys) - i
  {
    if i < Longer(xs, ys) && At(xs, i) == At(ys, i) {
      k := Parting(xs, ys, i + 1, tie);
    } else {
      k := i;
    }
  }

  lemma {:induction false} LexZero(a: string, b: string)
    ensures Lex(a, b) == 0 <==> a == b
  {
    if a != "" && b != "" && a[0] == b[0] {
      LexZero(a[1..], b[1..]);
      assert a == [a[0]] + a[1..] && b == [b[0]] + b[1..];
    }
  }

  lemma {:induction false} LexFlip(a: string, b: string)
    ensures Lex(a, b) == -Lex(b, a)
  {
    if a != "" && b != "" && a[0] == b[0] {
      LexFlip(a[1..], b[1..]);
    }
  }

  lemma {:induction false} LexTrans(a: string, b: string, c: string)
    requires Lex(a, b) < 0 && Lex(b, c) < 0
    ensures Lex(a, c) < 0
  {
    if a != "" && b != "" && c != "" && a[0] == b[0] && b[0] == c[0] {
      LexTrans(a[1..], b[1..], c[1..]);
    }
  }

  lemma {:induction false} FlipFrom(xs: seq<string>, ys: seq<string>, i: nat, tie: int)
    ensures OrderFrom(xs, ys, i, tie) == -OrderFrom(ys, xs, i, -tie)
    decreases Longer(xs, ys) - i
  {
    if i < Longer(xs, ys) && At(xs, i) == At(ys, i) {
      FlipFrom(xs, ys, i + 1, tie);
    }
  }

  lemma OrderFlips(a: string, b: string)
    ensures Order(a, b) == -Order(b, a)
  {
    LexFlip(a, b);
    FlipFrom(Split(a), Split(b), 0, Lex(a, b));
  }

  lemma OrderZero(a: string, b: string)
    ensures Order(a, b) == 0 <==> a == b
  {
    LexZero(a, b);
    var k := Parting(Split(a), Split(b), 0, Lex(a, b));
  }

  lemma OrderTrans(a: string, b: string, c: string)
    requires Order(a, b) < 0 && Order(b, c) < 0
    ensures Order(a, c) < 0
  {
    var xs, ys, zs := Split(a), Split(b), Split(c);
    var i := Parting(xs, ys, 0, Lex(a, b));
    var j := Parting(ys, zs, 0, Lex(b, c));
    var k := Parting(xs, zs, 0, Lex(a, c));
    hide Split, At, OrderFrom, Lex;
    var n := if i < j then i else j;
    if At(xs, i) == At(ys, i) && At(ys, j) == At(zs, j) {
      LexTrans(a, b, c);
      Beyond(xs, ys, i, k);
      Beyond(ys, zs, j, k);
    } else {
      Beyond(xs, ys, i, j);
      Beyond(ys, zs, j, i);
      Beyond(xs, zs, k, n);
    }
  }

  // Versions that never part agree everywhere.
  lemma Beyond(xs: seq<string>, ys: seq<string>, k: nat, i: nat)
    requires SameTo(xs, ys, k) && (At(xs, k) == At(ys, k) ==> k >= Longer(xs, ys))
    ensures i < k || At(xs, k) == At(ys, k) ==> At(xs, i) == At(ys, i)
  {
  }

  // ----- and the comparison is that order exactly when the difference fits

  // Component k is the first in which the versions differ.
  ghost predicate PartAt(xs: seq<string>, ys: seq<string>, k: int) {
    k >= 0 && SameTo(xs, ys, k) && At(xs, k) != At(ys, k)
  }

  // The first two components that differ are no more than a machine integer apart.
  ghost predicate DifferenceFits(a: string, b: string) {
    forall k :: PartAt(Split(a), Split(b), k) ==> IsInt(At(Split(a), k) - At(Split(b), k))
  }

  lemma FitsIff(a: string, b: string)
    ensures DifferenceFits(a, b) <==> IsInt(Order(a, b))
  {
    var xs, ys := Split(a), Split(b);
    var k := Parting(xs, ys, 0, Lex(a, b));
    assert At(xs, k) != At(ys, k) ==> PartAt(xs, ys, k);
    forall i | PartAt(xs, ys, i)
      ensures At(xs, i) - At(ys, i) == Order(a, b)
    {
      if i >= k {
        Beyond(xs, ys, k, i);
      }
    }
  }

  // No component has a minus sign.
  predicate Unsigned(v: string) {
    forall i :: 0 <= i < |Split(v)| ==> Split(v)[i] == "" || Split(v)[i][0] != '-'
  }

  lemma UnsignedAt(v: string, i: nat)
    requires Unsigned(v)
    ensures At(Split(v), i) >= 0
  {
    hide Magnitude, Split;
  }

  // Versions without minus signs, and so all that build-tools have, compare rightly.
  lemma UnsignedCompareRight(a: string, b: string)
    requires Unsigned(a) && Unsigned(b)
    ensures DifferenceFits(a, b) && (Compared(a, b) < 0 <==> Order(a, b) < 0)
  {
    ComparesIffFits(a, b);
    hide Split, Compared, Order, Unsigned, At;
    forall k | PartAt(Split(a), Split(b), k)
      ensures IsInt(At(Split(a), k) - At(Split(b), k))
    {
      UnsignedAt(a, k);
      UnsignedAt(b, k);
    }
  }

  lemma WrapSign(x: int)
    requires -0x1_0000_0000_0000_0000 < x < 0x1_0000_0000_0000_0000
    ensures (Wrap(x) == 0 <==> x == 0) && ((Wrap(x) < 0 <==> x < 0) <==> IsInt(x))
  {
    var m := 0x1_0000_0000_0000_0000;
    if x < MIN_INT {
      assert (x - MIN_INT) % m == x - MIN_INT + m;
    } else if x > MAX_INT {
      assert (x - MIN_INT) % m == x - MIN_INT - m;
    }
  }

  // compareVersions returns zero for equal strings only, and otherwise has the sign of
  // the order if and only if the two differing components are no more than 2^63 apart.
  lemma ComparesIffFits(a: string, b: string)
    ensures Compared(a, b) == 0 <==> a == b
    ensures (Compared(a, b) < 0 <==> Order(a, b) < 0) <==> DifferenceFits(a, b)
  {
    OrderZero(a, b);
    FitsIff(a, b);
    var k := Parting(Split(a), Split(b), 0, Lex(a, b));
    hide Wrap, Split, OrderFrom, DifferenceFits;
    WrapSign(Order(a, b));
  }

  lemma EqualFits(a: string)
    ensures DifferenceFits(a, a)
  {
    hide Split, At;
  }

  // Among versions whose differences fit, the comparison is a strict total order.
  lemma ComparedIsOrder(a: string, b: string, c: string)
    requires DifferenceFits(a, b) && DifferenceFits(b, a) && DifferenceFits(b, c) && DifferenceFits(a, c)
    ensures Compared(a, b) < 0 || Compared(b, a) < 0 || a == b
    ensures !(Compared(a, b) < 0 && Compared(b, a) < 0) && !(Compared(a, a) < 0)
    ensures Compared(a, b) < 0 && Compared(b, c) < 0 ==> Compared(a, c) < 0
  {
    hide Order, Compared, DifferenceFits;
    EqualFits(a);
    ComparesIffFits(a, b);
    ComparesIffFits(b, a);
    ComparesIffFits(b, c);
    ComparesIffFits(a, c);
    ComparesIffFits(a, a);
    OrderFlips(a, b);
    OrderZero(a, b);
    if Order(a, b) < 0 && Order(b, c) < 0 {
      OrderTrans(a, b, c);
    }
  }

  // Every machine integer is a component: its decimal text.
  function Decimal(n: nat): (s: string)
    ensures s != "" && forall c :: c in s ==> '0' <= c <= '9'
  {
    var digit := ('0' as int + n % 10) as char;
    if n < 10 then [digit] else Decimal(n / 10) + [digit]
  }

  function Text(x: int): string {
    if x < 0 then "-" + Decimal(-x) else Decimal(x)
  }

  lemma {:induction false} MagnitudeDecimal(n: nat)
    requires n <= MAX_UINT
    ensures Magnitude(Decimal(n)) == Digits(n)
  {
    var s := Decimal(n);
    assert s[|s| - 1] as int - '0' as int == n % 10;
    if n < 10 {
      assert s[..|s| - 1] == "";
    } else {
      MagnitudeDecimal(n / 10);
      assert s[..|s| - 1] == Decimal(n / 10);
    }
  }

  lemma AtoiText(x: int)
    requires IsInt(x)
    ensures Atoi(Text(x)) == x
  {
    var digits := Decimal(if x < 0 then -x else x);
    MagnitudeDecimal(if x < 0 then -x else x);
    assert digits[0] in digits;
    hide Magnitude, Decimal;
    assert x < 0 ==> ("-" + digits)[1..] == digits;
  }

  lemma SplitText(x: int)
    ensures Split(Text(x)) == [Text(x)]
  {
    var s, digits := Text(x), Decimal(if x < 0 then -x else x);
    assert '.' !in digits;
    assert '.' !in s by {
      assert s == digits || s == "-" + digits;
    }
  }

  // For any two integers too far apart there are versions that compare the wrong way:
  // "9223372036854775807" counts as older than "-1".
  lemma FarApartComparesWrong(x: int, y: int)
    requires IsInt(x) && IsInt(y) && !IsInt(x - y)
    ensures Order(Text(x), Text(y)) == x - y
    ensures Compared(Text(x), Text(y)) < 0 <==> x > y
  {
    hide Atoi, Split, Text, Wrap, Lex;
    AtoiText(x);
    AtoiText(y);
    SplitText(x);
    SplitText(y);
    assert At([Text(x)], 0) == x && At([Text(y)], 0) == y;
    WrapSign(x - y);
  }

  // ----- what the components, their values and the tie are

  function Join(parts: seq<string>): string
    requires parts != []
  {
    if |parts| == 1 then parts[0] else parts[0] + "." + Join(parts[1..])
  }

  predicate DotFree(parts: seq<string>) {
    forall i :: 0 <= i < |parts| ==> '.' !in parts[i]
  }

  // The components are the pieces between the dots: joined with dots they are the text,
  // and there is no dot in any.
  lemma {:induction false} JoinSplit(s: string)
    ensures Join(Split(s)) == s && DotFree(Split(s))
    decreases |s|
  {
    var i := DotEnv.IndexOf(s, '.');
    if i < |s| {
      var rest := Split(s[i + 1..]);
      JoinSplit(s[i + 1..]);
      assert Split(s)[1..] == rest && s == s[..i] + "." + s[i + 1..];
    }
  }

  // And no other pieces are.
  lemma {:induction false} SplitJoin(parts: seq<string>)
    requires parts != [] && DotFree(parts)
    ensures Split(Join(parts)) == parts
  {
    if |parts| == 1 {
      assert DotEnv.IndexOf(parts[0], '.') == |parts[0]|;
    } else {
      var first, tail := parts[0], Join(parts[1..]);
      assert Join(parts) == first + ("." + tail);
      SplitJoin(parts[1..]);
      SplitHead(first, tail);
      hide Split, Join;
      assert parts == [first] + parts[1..];
    }
  }

  lemma SplitHead(first: string, tail: string)
    requires '.' !in first
    ensures Split(first + ("." + tail)) == [first] + Split(tail)
  {
    FirstDot(first, tail);
    var s := first + ("." + tail);
    hide DotEnv.IndexOf;
    assert s[..|first|] == first && s[|first| + 1..] == tail;
  }

  lemma {:induction false} FirstDot(first: string, rest: string)
    requires '.' !in first
    ensures DotEnv.IndexOf(first + ("." + rest), '.') == |first|
  {
    if first != "" {
      FirstDot(first[1..], rest);
      assert (first + ("." + rest))[1..] == first[1..] + ("." + rest);
    }
  }

  predicate AllInts(xs: seq<int>) {
    forall i :: 0 <= i < |xs| ==> IsInt(xs[i])
  }

  function Texts(xs: seq<int>): (parts: seq<string>)
    ensures |parts| == |xs|
  {
    seq(|xs|, i requires 0 <= i < |xs| => Text(xs[i]))
  }

  // Component i of a version given by its numbers, a missing one counting as zero.
  function Component(xs: seq<int>, i: nat): int {
    if i < |xs| then xs[i] else 0
  }

  // The version with these numbers, printed and joined with dots.
  function Version(xs: seq<int>): string
    requires xs != []
  {
    Join(Texts(xs))
  }

  lemma PrintedParts(xs: seq<int>)
    requires xs != [] && AllInts(xs)
    ensures Split(Version(xs)) == Texts(xs)
    ensures forall i: nat :: At(Split(Version(xs)), i) == Component(xs, i)
  {
    forall i | 0 <= i < |xs|
      ensures '.' !in Texts(xs)[i] && Atoi(Texts(xs)[i]) == xs[i]
    {
      DotFreeText(xs[i]);
      AtoiText(xs[i]);
    }
    hide Text, Atoi, Join, Split;
    SplitJoin(Texts(xs));
  }

  lemma DotFreeText(x: int)
    ensures '.' !in Text(x)
  {
    var digits := Decimal(if x < 0 then -x else x);
    assert '.' !in digits;
    hide Decimal;
    assert Text(x) == digits || Text(x) == "-" + digits;
  }

  // Versions of any machine integers, of any lengths: the first place in which they
  // differ, missing numbers counting as zero, decides the order by its difference. So
  // 30.0.10 is newer than 30.0.9 and than 30.
  lemma OrderOfNumbers(xs: seq<int>, ys: seq<int>, k: nat)
    requires xs != [] && ys != [] && AllInts(xs) && AllInts(ys)
    requires forall i :: 0 <= i < k ==> Component(xs, i) == Component(ys, i)
    ensures Component(xs, k) != Component(ys, k) ==>
      Order(Version(xs), Version(ys)) == Component(xs, k) - Component(ys, k)
    ensures Component(xs, k) == Component(ys, k) && k >= |xs| && k >= |ys| ==>
      Order(Version(xs), Version(ys)) == Lex(Version(xs), Version(ys))
  {
    PrintedParts(xs);
    PrintedParts(ys);
    hide Split, At, Lex, Version;
    var a, b := Split(Version(xs)), Split(Version(ys));
    assert SameTo(a, b, k);
    OrderAt(a, b, k, Lex(Version(xs), Version(ys)));
  }

  lemma OrderAt(xs: seq<string>, ys: seq<string>, k: nat, tie: int)
    requires SameTo(xs, ys, k)
    ensures At(xs, k) != At(ys, k) ==> OrderFrom(xs, ys, 0, tie) == At(xs, k) - At(ys, k)
    ensures At(xs, k) == At(ys, k) && k >= Longer(xs, ys) ==> OrderFrom(xs, ys, 0, tie) == tie
  {
    var j := Parting(xs, ys, 0, tie);
    hide OrderFrom;
    if j > k {
      assert At(xs, k) == At(ys, k);
    }
  }

  // The tie: the text that ends first, or has the smaller character where they first
  // differ, comes first.
  lemma {:induction false} LexIs(a: string, b: string, k: nat)
    requires k <= |a| && k <= |b| && a[..k] == b[..k]
    ensures k < |a| && k < |b| && a[k] != b[k] ==> Lex(a, b) == if a[k] < b[k] then -1 else 1
    ensures k == |a| < |b| ==> Lex(a, b) == -1
    ensures k == |b| < |a| ==> Lex(a, b) == 1
    ensures k == |a| == |b| ==> Lex(a, b) == 0
  {
    if k > 0 {
      assert a[0] == a[..k][0] && b[0] == b[..k][0];
      assert a[1..][..k - 1] == a[..k][1..] && b[1..][..k - 1] == b[..k][1..];
      LexIs(a[1..], b[1..], k - 1);
    }
  }

  predicate IsDigit(c: char) {
    '0' <= c <= '9'
  }

  predicate AllDigits(s: string) {
    forall i :: 0 <= i < |s| ==> IsDigit(s[i])
  }

  function Pow10(k: nat): nat {
    if k == 0 then 1 else 10 * Pow10(k - 1)
  }

  // The value of a string of digits, each weighed by its place.
  function DigitSum(s: string): nat
    requires AllDigits(s)
  {
    if s == "" then 0 else (s[0] as int - '0' as int) * Pow10(|s| - 1) + DigitSum(s[1..])
  }

  lemma {:induction false} DigitSumSnoc(s: string, c: char)
    requires AllDigits(s) && IsDigit(c)
    ensures AllDigits(s + [c]) && DigitSum(s + [c]) == 10 * DigitSum(s) + (c as int - '0' as int)
  {
    if s != "" {
      DigitSumSnoc(s[1..], c);
      assert (s + [c])[1..] == s[1..] + [c];
      Shift(s[0] as int - '0' as int, |s| - 1);
    }
  }

  lemma Shift(d: nat, k: nat)
    ensures d * Pow10(k + 1) == 10 * (d * Pow10(k))
  {
  }

  lemma {:induction false} MagnitudeIs(s: string)
    requires AllDigits(s)
    ensures Magnitude(s) == if DigitSum(s) <= MAX_UINT then Digits(DigitSum(s)) else Range
  {
    if s != "" {
      var front, c := s[..|s| - 1], s[|s| - 1];
      assert s == front + [c];
      MagnitudeIs(front);
      DigitSumSnoc(front, c);
    }
  }

  // A component of digits, leading zeros and a sign allowed, has its value, held to the
  // machine's range.
  lemma AtoiOfDigits(s: string)
    requires s != "" && AllDigits(s)
    ensures var n: int := DigitSum(s);
      && Atoi(s) == Atoi("+" + s) == (if n > MAX_INT then MAX_INT else n)
      && Atoi("-" + s) == if -n < MIN_INT then MIN_INT else -n
  {
    MagnitudeIs(s);
    hide Magnitude, DigitSum;
    assert ("-" + s)[1..] == s && ("+" + s)[1..] == s;
    assert IsDigit(s[0]);
  }

  // One with anything else in it, unless its digits before that overflow, counts as zero,
  // and so do the empty component and a lone sign.
  lemma AtoiOfJunk(s: string, i: nat)
    requires i < |s| && AllDigits(s[..i]) && !IsDigit(s[i]) && DigitSum(s[..i]) <= MAX_UINT
    requires i > 0 || (s[0] != '-' && s[0] != '+')
    ensures Atoi(s) == Atoi("+" + s) == Atoi("-" + s) == Atoi("") == Atoi("+") == Atoi("-") == 0
  {
    MagnitudeIs(s[..i]);
    MagnitudeJunk(s, i);
    assert i > 0 ==> IsDigit(s[..i][0]);
    hide Magnitude, DigitSum;
    assert ("-" + s)[1..] == s && ("+" + s)[1..] == s;
  }

  lemma {:induction false} MagnitudeJunk(s: string, i: nat)
    requires i < |s| && Magnitude(s[..i]).Digits? && !IsDigit(s[i])
    ensures Magnitude(s) == Syntax
  {
    var front := s[..|s| - 1];
    if i < |s| - 1 {
      assert front[..i] == s[..i];
      MagnitudeJunk(front, i);
    } else {
      assert front == s[..i];
    }
  }

  // ----- the scan

  // What slices.SortFunc leaves when the comparison is a strict weak order.
  ghost predicate Sorted(vs: seq<string>) {
    forall i :: 0 < i < |vs| ==> Compared(vs[i - 1], vs[i]) <= 0
  }

  ghost predicate AllFit(vs: seq<string>) {
    forall a, b :: a in vs && b in vs ==> DifferenceFits(a, b)
  }

  lemma {:induction false} SortedOrder(vs: seq<string>, i: nat, j: nat)
    requires Sorted(vs) && AllFit(vs) && i <= j < |vs|
    ensures Order(vs[i], vs[j]) <= 0
  {
    hide Order, Compared;
    OrderZero(vs[i], vs[j]);
    if i < j {
      SortedOrder(vs, i, j - 1);
      assert Compared(vs[j - 1], vs[j]) <= 0 && DifferenceFits(vs[j - 1], vs[j]);
      ComparesIffFits(vs[j - 1], vs[j]);
      OrderZero(vs[i], vs[j - 1]);
      OrderZero(vs[j - 1], vs[j]);
      if Order(vs[i], vs[j - 1]) < 0 && Order(vs[j - 1], vs[j]) < 0 {
        OrderTrans(vs[i], vs[j - 1], vs[j]);
      }
    }
  }

  lemma SameMembers(a: seq<string>, b: seq<string>)
    requires multiset(a) == multiset(b)
    ensures forall v :: v in a <==> v in b
  {
    forall v
      ensures v in a <==> v in b
    {
      assert v in a <==> v in multiset(a);
      assert v in b <==> v in multiset(b);
    }
  }

  // From the end, the first version whose two tools can be run: the greatest such.
  method NewestUsable(entries: seq<string>, sorted: seq<string>, usable: string -> bool) returns (r: Option<string>)
    requires multiset(sorted) == multiset(entries) && Sorted(sorted) && AllFit(entries)
    ensures r.None? <==> forall v :: v in entries ==> !usable(v)
    ensures r.Some? ==> r.value in entries && usable(r.value)
    ensures r.Some? ==> forall v :: v in entries && usable(v) ==> Order(v, r.value) <= 0
  {
    hide Order, Compared, DifferenceFits;
    SameMembers(entries, sorted);
    var i := |sorted|;
    while i > 0
      invariant 0 <= i <= |sorted| && forall j :: i <= j < |sorted| ==> !usable(sorted[j])
    {
      i := i - 1;
      if usable(sorted[i]) {
        forall v | v in entries && usable(v)
          ensures Order(v, sorted[i]) <= 0
        {
          var j :| 0 <= j < |sorted| && sorted[j] == v;
          SortedOrder(sorted, j, i);
        }
        return Some(sorted[i]);
      }
    }
    r := None;
  }
}
