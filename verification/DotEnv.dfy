// The .env block one command prints (envBlock in main.go) and another reads
// (readDotEnv in sign.go). A char stands for one byte of the text.

module DotEnv {
  import opened Bytes

  type Values = map<string, string>

  // What readDotEnv returns: the values, and whether the scanner got to the end.
  datatype Scanned = Scanned(values: Values, ok: bool)

  // The longest line bufio.Scanner takes, without its line feed.
  const MAX_LINE := 65535

  const SIGN_WITH := "SIGN_WITH"
  const PIN := "HOTBOX_PIN"
  const SOCKET := "HOTBOX_SOCKET"

  // ----- strings.TrimSpace: the white space of Unicode, in UTF-8

  predicate Space1(a: char) {
    a == '\t' || a == '\n' || a == '\U{0B}' || a == '\U{0C}' || a == '\r' || a == ' '
  }

  predicate Space2(a: char, b: char) {
    a == '\U{C2}' && (b == '\U{85}' || b == '\U{A0}')
  }

  predicate Space3(a: char, b: char, c: char) {
    || (a == '\U{E1}' && b == '\U{9A}' && c == '\U{80}')
    || (a == '\U{E2}' && b == '\U{80}'
      && ('\U{80}' <= c <= '\U{8A}' || c == '\U{A8}' || c == '\U{A9}' || c == '\U{AF}'))
    || (a == '\U{E2}' && b == '\U{81}' && c == '\U{9F}')
    || (a == '\U{E3}' && b == '\U{80}' && c == '\U{80}')
  }

  // The white space of Unicode, by code point (unicode.IsSpace).
  predicate White(u: nat) {
    || 0x09 <= u <= 0x0d || u == 0x20 || u == 0x85 || u == 0xa0 || u == 0x1680 || 0x2000 <= u <= 0x200a
    || u == 0x2028 || u == 0x2029 || u == 0x202f || u == 0x205f || u == 0x3000
  }

  // The bytes taken for white space are those that encode it in UTF-8 (RFC 3629, section 3).
  lemma SpacesAreUnicode(a: char, b: char, c: char)
    ensures Space1(a) <==> a < '\U{80}' && White(a as int)
    ensures Space2(a, b) <==>
      && '\U{C2}' <= a <= '\U{DF}' && '\U{80}' <= b <= '\U{BF}'
      && White((a as int - 0xc0) * 64 + (b as int - 0x80))
    ensures Space3(a, b, c) <==>
      && '\U{E1}' <= a <= '\U{EF}' && '\U{80}' <= b <= '\U{BF}' && '\U{80}' <= c <= '\U{BF}'
      && White((a as int - 0xe0) * 4096 + (b as int - 0x80) * 64 + (c as int - 0x80))
  {
  }

  // How many bytes of white space s starts and ends with: one character's worth.
  function Lead(s: string): (n: nat)
    ensures n <= |s|
  {
    if |s| >= 1 && Space1(s[0]) then 1
    else if |s| >= 2 && Space2(s[0], s[1]) then 2
    else if |s| >= 3 && Space3(s[0], s[1], s[2]) then 3
    else 0
  }

  function Trail(s: string): (n: nat)
    ensures n <= |s|
  {
    var k := |s|;
    if k >= 1 && Space1(s[k - 1]) then 1
    else if k >= 2 && Space2(s[k - 2], s[k - 1]) then 2
    else if k >= 3 && Space3(s[k - 3], s[k - 2], s[k - 1]) then 3
    else 0
  }

  function TrimLeft(s: string): (t: string)
    ensures |t| <= |s| && t == s[|s| - |t|..]
  {
    if Lead(s) == 0 then s else TrimLeft(s[Lead(s)..])
  }

  function TrimRight(s: string): (t: string)
    ensures t <= s
  {
    if Trail(s) == 0 then s else TrimRight(s[..|s| - Trail(s)])
  }

  function Trim(s: string): string {
    TrimRight(TrimLeft(s))
  }

  // ----- one line

  function DropCR(line: string): string {
    if line != [] && line[|line| - 1] == '\r' then line[..|line| - 1] else line
  }

  // The first position of c in s, or |s|.
  function IndexOf(s: string, c: char): (i: nat)
    ensures i <= |s| && c !in s[..i] && (i < |s| ==> s[i] == c)
  {
    if s == [] || s[0] == c then 0
    else
      var i := IndexOf(s[1..], c);
      assert s[..1 + i] == [s[0]] + s[1..][..i];
      1 + i
  }

  function Unquote(v: string): string {
    if |v| >= 2 && (v[0] == '\'' || v[0] == '"') && v[|v| - 1] == v[0] then v[1..|v| - 1] else v
  }

  function Unexported(s: string): string {
    if "export " <= s then s[7..] else s
  }

  // The key and the value of a line, when it is an assignment.
  function Assignment(line: string): Option<(string, string)> {
    var t := Trim(line);
    if t == [] || t[0] == '#' then None
    else
      Cut(Unexported(t))
  }

  // Around the first equals sign.
  function Cut(s: string): Option<(string, string)> {
    var i := IndexOf(s, '=');
    if i == |s| then None else Some((Trim(s[..i]), Unquote(Trim(s[i + 1..]))))
  }

  function Put(m: Values, line: string): Values {
    match Assignment(DropCR(line))
    case None => m
    case Some((key, value)) => m[key := value]
  }

  // readDotEnv on the rest of the text, with the values found so far.
  function ReadFrom(text: string, m: Values): Scanned
    decreases |text|
  {
    if text == [] then Scanned(m, true)
    else
      var n := IndexOf(text, '\n');
      if n > MAX_LINE then Scanned(m, false)
      else ReadFrom(if n < |text| then text[n + 1..] else [], Put(m, text[..n]))
  }

  function Read(text: string): Scanned {
    ReadFrom(text, map[])
  }

  method ReadDotEnv(text: string) returns (values: Values, ok: bool)
    ensures Scanned(values, ok) == Read(text)
  {
    hide Put, IndexOf;
    values := map[];
    var rest := text;
    while rest != []
      invariant ReadFrom(rest, values) == Read(text)
      decreases |rest|
    {
      var n := IndexOf(rest, '\n');
      if n > MAX_LINE {
        return values, false;
      }
      values := PutLine(values, rest[..n]);
      rest := if n < |rest| then rest[n + 1..] else [];
    }
    ok := true;
  }

  method PutLine(values: Values, raw: string) returns (m: Values)
    ensures m == Put(values, raw)
  {
    hide Trim, IndexOf, Unexported, DropCR;
    var line := Trim(DropCR(raw));
    if line == [] || line[0] == '#' {
      return values;
    }
    var assignment := Unexported(line);
    var i := IndexOf(assignment, '=');
    if i == |assignment| {
      return values;
    }
    var value := Trim(assignment[i + 1..]);
    if |value| >= 2 && (value[0] == '\'' || value[0] == '"') && value[|value| - 1] == value[0] {
      value := value[1..|value| - 1];
    }
    m := values[Trim(assignment[..i]) := value];
  }

  // ----- the printed block

  // name is what heads the block when several vaults are opened.
  datatype Block = Block(name: Option<string>, signWith: string, pin: string, socket: string)

  function Line(key: string, value: string): string {
    key + "='" + value + "'"
  }

  function Heading(b: Block): string {
    match b.name
    case None => ""
    case Some(name) => "[" + name + "]\n"
  }

  function EnvBlock(b: Block): string {
    Heading(b) + (Line(SIGN_WITH, b.signWith) + "\n"
      + if b.pin == "" then "" else Line(PIN, b.pin) + "\n" + (Line(SOCKET, b.socket) + "\n"))
  }

  // Blocks in a row have a blank line between them.
  function Printed(bs: seq<Block>): string {
    if bs == [] then "" else if |bs| == 1 then EnvBlock(bs[0]) else EnvBlock(bs[0]) + ("\n" + Printed(bs[1..]))
  }

  method PrintLine(text: string, key: string, value: string) returns (more: string)
    ensures more == text + (Line(key, value) + "\n")
  {
    more := text + key + "='" + value + "'\n";
  }

  method PrintBlock(b: Block) returns (text: string)
    ensures text == EnvBlock(b)
  {
    hide Line;
    text := "";
    if b.name.Some? {
      text := text + "[" + b.name.value + "]\n";
    }
    assert text == Heading(b);
    text := PrintLine(text, SIGN_WITH, b.signWith);
    if b.pin != "" {
      text := PrintLine(text, PIN, b.pin);
      text := PrintLine(text, SOCKET, b.socket);
    }
  }

  // ----- reading it back

  predicate OneLine(s: string) {
    '\n' !in s
  }

  predicate Short(key: string, value: string) {
    |key| + |value| + 3 <= MAX_LINE
  }

  lemma {:induction false} IndexAt(s: string, c: char, tail: string)
    requires c !in s
    ensures IndexOf(s + [c] + tail, c) == |s|
  {
    if s != [] {
      IndexAt(s[1..], c, tail);
      assert (s + [c] + tail)[1..] == s[1..] + [c] + tail;
    }
  }

  lemma LineRead(line: string, rest: string, m: Values)
    requires OneLine(line)
    ensures ReadFrom(line + "\n" + rest, m) ==
      if |line| > MAX_LINE then Scanned(m, false) else ReadFrom(rest, Put(m, line))
  {
    hide Put, IndexOf;
    var text := line + "\n" + rest;
    IndexAt(line, '\n', rest);
    assert text[..|line|] == line && text[|line| + 1..] == rest;
  }

  lemma TrimKeeps(s: string)
    requires s != [] && Lead(s) == 0 && Trail(s) == 0
    ensures Trim(s) == s
  {
  }

  // A key that trimming, comments and the export prefix leave alone.
  predicate PlainKey(key: string) {
    key != [] && Lead(key) == 0 && Trail(key) == 0 && key[0] < '\U{80}' && key[0] != '#' && key[0] != 'e'
      && '=' !in key && OneLine(key)
  }

  lemma PlainKeys()
    ensures PlainKey(SIGN_WITH) && PlainKey(PIN) && PlainKey(SOCKET)
  {
  }

  lemma QuotedEnds(value: string)
    ensures var q := "'" + value + "'"; Trim(q) == q && Unquote(q) == value
  {
    TrimKeeps("'" + value + "'");
  }

  lemma LineEnds(key: string, value: string)
    requires PlainKey(key)
    ensures var line := Line(key, value);
      line != [] && line[0] != '#' && Trim(line) == line && DropCR(line) == line && Unexported(line) == line
  {
    var line := Line(key, value);
    assert line[0] == key[0] && line[|line| - 1] == '\'';
    TrimKeeps(line);
    assert !("export " <= line) by { assert line[0] != 'e'; }
  }

  // Whatever the value, quotes, equals signs and outer spaces included.
  lemma LinePut(key: string, value: string, m: Values)
    requires PlainKey(key)
    ensures Put(m, Line(key, value)) == m[key := value]
  {
    hide Trim, DropCR, Unquote, IndexOf, Unexported, Lead, Trail, Line;
    LineEnds(key, value);
    QuotedEnds(value);
    assert Trim(key) == key by { TrimKeeps(key); }
    LineCut(key, value);
  }

  lemma LineCut(key: string, value: string)
    requires '=' !in key
    ensures var line := Line(key, value);
      |line| > |key| && IndexOf(line, '=') == |key| && line[..|key|] == key && line[|key| + 1..] == "'" + value + "'"
  {
    hide IndexOf;
    var quoted := "'" + value + "'";
    var line := key + "=" + quoted;
    IndexAt(key, '=', quoted);
    assert line[..|key|] == key && line[|key| + 1..] == quoted;
    assert Line(key, value) == line;
  }

  // ----- whole blocks

  const KEYS := {SIGN_WITH, PIN, SOCKET}

  function Look(m: Values, key: string): Option<string> {
    if key in m then Some(m[key]) else None
  }

  // What a block prints for a key, and what the last of several blocks to print it does.
  function Value(b: Block, key: string): Option<string> {
    if key == SIGN_WITH then Some(b.signWith)
    else if b.pin == "" then None
    else if key == PIN then Some(b.pin)
    else if key == SOCKET then Some(b.socket)
    else None
  }

  function Last(bs: seq<Block>, key: string): Option<string> {
    if bs == [] then None else if Last(bs[1..], key).Some? then Last(bs[1..], key) else Value(bs[0], key)
  }

  predicate Carries(key: string, value: string) {
    OneLine(value) && Short(key, value)
  }

  // Every printed field is one line that the scanner can hold.
  predicate Fits(b: Block) {
    && (b.name.Some? ==> OneLine(b.name.value) && |b.name.value| + 2 <= MAX_LINE)
    && Carries(SIGN_WITH, b.signWith)
    && (b.pin != "" ==> Carries(PIN, b.pin) && Carries(SOCKET, b.socket))
  }

  // The heading assigns to no key of ours, whatever the name.
  function Headed(m: Values, b: Block): Values {
    if b.name.Some? then Put(m, "[" + b.name.value + "]") else m
  }

  function Stored(m: Values, b: Block): Values {
    var m1 := Headed(m, b)[SIGN_WITH := b.signWith];
    if b.pin == "" then m1 else m1[PIN := b.pin][SOCKET := b.socket]
  }

  lemma {:induction false} TrimRightStart(s: string)
    requires s != [] && s[0] < '\U{80}' && !Space1(s[0])
    ensures TrimRight(s) != [] && TrimRight(s)[0] == s[0]
  {
    if Trail(s) != 0 {
      TrimRightStart(s[..|s| - Trail(s)]);
    }
  }

  // A line that starts with a bracket assigns, if at all, to a key that does.
  lemma BracketKey(line: string)
    requires line != [] && line[0] == '[' && Cut(line).Some?
    ensures Cut(line).value.0 != [] && Cut(line).value.0[0] == '['
  {
    hide Trim, Unquote;
    var i := IndexOf(line, '=');
    assert line[i] == '=';
    hide IndexOf;
    TrimStart(line[..i]);
  }

  lemma TrimStart(s: string)
    requires s != [] && s[0] == '['
    ensures Trim(s) != [] && Trim(s)[0] == '['
  {
    TrimRightStart(s);
  }

  lemma BracketEnds(name: string)
    ensures var line := "[" + name + "]";
      line != [] && line[0] == '[' && Trim(line) == line && DropCR(line) == line && Unexported(line) == line
  {
    var line := "[" + name + "]";
    assert line[0] == '[' && line[|line| - 1] == ']';
    TrimKeeps(line);
    assert !("export " <= line) by { assert line[0] != 'e'; }
  }

  lemma BracketPut(m: Values, name: string)
    ensures var t := Put(m, "[" + name + "]"); forall key :: key in KEYS ==> Look(t, key) == Look(m, key)
  {
    hide Trim, DropCR, Unexported, Cut;
    BracketEnds(name);
    var line := "[" + name + "]";
    if Cut(line).Some? {
      BracketKey(line);
    }
    assert SIGN_WITH[0] == 'S' && PIN[0] == 'H' && SOCKET[0] == 'H';
  }

  lemma KeyLineRead(key: string, value: string, rest: string, m: Values)
    requires PlainKey(key) && OneLine(value)
    ensures ReadFrom(Line(key, value) + "\n" + rest, m) ==
      if Short(key, value) then ReadFrom(rest, m[key := value]) else Scanned(m, false)
  {
    assert |Line(key, value)| == |key| + |value| + 3 && OneLine(Line(key, value));
    LinePut(key, value, m);
    hide Put, Line;
    LineRead(Line(key, value), rest, m);
  }

  // Reading the lines of one block, as far as they fit.
  lemma PinRead(b: Block, rest: string, m: Values)
    requires b.pin != "" && OneLine(b.pin) && OneLine(b.socket)
    ensures var text := Line(PIN, b.pin) + "\n" + (Line(SOCKET, b.socket) + "\n") + rest;
      ReadFrom(text, m) ==
        if !Short(PIN, b.pin) then Scanned(m, false)
        else if !Short(SOCKET, b.socket) then Scanned(m[PIN := b.pin], false)
        else ReadFrom(rest, m[PIN := b.pin][SOCKET := b.socket])
  {
    PlainKeys();
    hide Line, PlainKey, Short, ReadFrom;
    var more := Line(SOCKET, b.socket) + "\n" + rest;
    KeyLineRead(PIN, b.pin, more, m);
    KeyLineRead(SOCKET, b.socket, rest, m[PIN := b.pin]);
    assert Line(PIN, b.pin) + "\n" + (Line(SOCKET, b.socket) + "\n") + rest == Line(PIN, b.pin) + "\n" + more;
  }

  lemma BlockRead(b: Block, rest: string, m: Values)
    requires b.name.Some? ==> OneLine(b.name.value)
    requires OneLine(b.signWith) && (b.pin != "" ==> OneLine(b.pin) && OneLine(b.socket))
    ensures Fits(b) ==> ReadFrom(EnvBlock(b) + rest, m) == ReadFrom(rest, Stored(m, b))
    ensures !Fits(b) ==> !ReadFrom(EnvBlock(b) + rest, m).ok
  {
    PlainKeys();
    hide Line, PlainKey, ReadFrom, Put, OneLine;
    var pins := if b.pin == "" then "" else Line(PIN, b.pin) + "\n" + (Line(SOCKET, b.socket) + "\n");
    var body := Line(SIGN_WITH, b.signWith) + "\n" + (pins + rest);
    assert EnvBlock(b) + rest == Heading(b) + body;
    if b.name.Some? {
      HeadingRead(b.name.value, body, m);
    } else {
      assert Heading(b) + body == body;
    }
    var m1 := Headed(m, b);
    KeyLineRead(SIGN_WITH, b.signWith, pins + rest, m1);
    if b.pin != "" {
      PinRead(b, rest, m1[SIGN_WITH := b.signWith]);
    } else {
      assert pins + rest == rest;
    }
  }

  lemma HeadingRead(name: string, rest: string, m: Values)
    requires OneLine(name)
    ensures ReadFrom("[" + name + "]\n" + rest, m) ==
      if |name| + 2 > MAX_LINE then Scanned(m, false) else ReadFrom(rest, Put(m, "[" + name + "]"))
  {
    hide Put, ReadFrom;
    var line := "[" + name + "]";
    LineRead(line, rest, m);
    assert "[" + name + "]\n" + rest == line + "\n" + rest;
  }

  lemma StoredLook(m: Values, b: Block, key: string)
    requires key in KEYS
    ensures Look(Stored(m, b), key) == if Value(b, key).Some? then Value(b, key) else Look(m, key)
  {
    if b.name.Some? {
      BracketPut(m, b.name.value);
    }
    hide Put;
  }

  lemma {:induction false} PrintedRead(bs: seq<Block>, m: Values, key: string)
    requires key in KEYS && forall b :: b in bs ==> Fits(b)
    ensures var r := ReadFrom(Printed(bs), m);
      r.ok && Look(r.values, key) == if Last(bs, key).Some? then Last(bs, key) else Look(m, key)
  {
    hide EnvBlock, Stored, Value, Look, Put, Fits;
    if bs != [] {
      var b, m1 := bs[0], Stored(m, bs[0]);
      assert Fits(b);
      FitsOneLine(b);
      StoredLook(m, b, key);
      if |bs| == 1 {
        BlockRead(b, "", m);
        assert EnvBlock(b) + "" == EnvBlock(b);
        assert Last(bs[1..], key).None?;
      } else {
        BlockRead(b, "\n" + Printed(bs[1..]), m);
        BlankRead(Printed(bs[1..]), m1);
        PrintedRead(bs[1..], m1, key);
      }
    }
  }

  lemma FitsOneLine(b: Block)
    requires Fits(b)
    ensures b.name.Some? ==> OneLine(b.name.value)
    ensures OneLine(b.signWith) && (b.pin != "" ==> OneLine(b.pin) && OneLine(b.socket))
  {
  }

  lemma BlankRead(rest: string, m: Values)
    ensures ReadFrom("\n" + rest, m) == ReadFrom(rest, m)
  {
    assert "" + "\n" + rest == "\n" + rest;
    assert Put(m, "") == m;
    LineRead("", rest, m);
  }

  // Reading what was printed gives, for each key, the last value printed for it.
  lemma PrintedRoundTrip(bs: seq<Block>, key: string)
    requires key in KEYS && forall b :: b in bs ==> Fits(b)
    ensures Read(Printed(bs)).ok && Look(Read(Printed(bs)).values, key) == Last(bs, key)
  {
    PrintedRead(bs, map[], key);
  }

  ghost predicate ReadsBack(b: Block) {
    var r := Read(EnvBlock(b));
    r.ok && forall key :: key in KEYS ==> Look(r.values, key) == Value(b, key)
  }

  lemma {:induction false} TrimLeftSub(s: string, c: char)
    requires c !in s
    ensures c !in TrimLeft(s)
  {
    if Lead(s) != 0 {
      TrimLeftSub(s[Lead(s)..], c);
    }
  }

  lemma TrimOneLine(s: string)
    requires OneLine(s)
    ensures OneLine(Trim(s))
  {
    TrimLeftSub(s, '\n');
  }

  lemma PartsOneLine(s: string, i: nat)
    requires OneLine(s) && i <= |s|
    ensures OneLine(s[i..]) && OneLine(s[..i]) && OneLine(Unquote(s)) && OneLine(Unexported(s)) && OneLine(DropCR(s))
  {
  }

  lemma AssignmentOneLine(line: string)
    requires OneLine(line) && Assignment(line).Some?
    ensures OneLine(Assignment(line).value.1)
  {
    hide Trim, Unquote, Unexported, OneLine;
    var t := Trim(line);
    hide IndexOf;
    TrimOneLine(line);
    PartsOneLine(t, 0);
    var u := Unexported(t);
    var i := IndexOf(u, '=');
    PartsOneLine(u, i + 1);
    TrimOneLine(u[i + 1..]);
    PartsOneLine(Trim(u[i + 1..]), 0);
  }

  lemma PutOneLine(m: Values, line: string)
    requires OneLine(line) && AllOneLine(m)
    ensures AllOneLine(Put(m, line))
  {
    hide Assignment, DropCR;
    PartsOneLine(line, 0);
    if Assignment(DropCR(line)).Some? {
      AssignmentOneLine(DropCR(line));
    }
  }

  predicate AllOneLine(m: Values) {
    forall key :: key in m ==> OneLine(m[key])
  }

  // No value that is read holds a line feed.
  lemma {:induction false} ValuesOneLine(text: string, m: Values)
    requires AllOneLine(m)
    ensures AllOneLine(ReadFrom(text, m).values)
    decreases |text|
  {
    if text != [] {
      var n := IndexOf(text, '\n');
      if n <= MAX_LINE {
        var rest := if n < |text| then text[n + 1..] else [];
        assert OneLine(text[..n]);
        assert ReadFrom(text, m) == ReadFrom(rest, Put(m, text[..n])) by { hide Put, IndexOf; }
        hide *;
        PutOneLine(m, text[..n]);
        ValuesOneLine(rest, Put(m, text[..n]));
      }
    }
  }

  // A block reads back exactly when every field it prints is a line short enough for
  // the scanner. Vault names never hold a line feed.
  lemma ReadsBackIffFits(b: Block)
    requires b.name.Some? ==> OneLine(b.name.value)
    ensures ReadsBack(b) <==> Fits(b)
  {
    hide EnvBlock, Fits, Value, ReadFrom, OneLine;
    assert EnvBlock(b) + "" == EnvBlock(b);
    if ReadsBack(b) {
      BackOneLine(b);
      BlockRead(b, "", map[]);
    } else if Fits(b) {
      FitsBack(b);
    }
  }

  lemma BackOneLine(b: Block)
    requires ReadsBack(b)
    ensures OneLine(b.signWith) && (b.pin != "" ==> OneLine(b.pin) && OneLine(b.socket))
  {
    hide EnvBlock, ReadFrom;
    var r := Read(EnvBlock(b));
    ValuesOneLine(EnvBlock(b), map[]);
    assert Look(r.values, SIGN_WITH) == Value(b, SIGN_WITH) && Look(r.values, PIN) == Value(b, PIN)
      && Look(r.values, SOCKET) == Value(b, SOCKET);
    assert PIN != SIGN_WITH && SOCKET != SIGN_WITH && SOCKET != PIN;
  }

  lemma FitsBack(b: Block)
    requires Fits(b)
    ensures ReadsBack(b)
  {
    assert Printed([b]) == EnvBlock(b);
    forall key | key in KEYS
      ensures Look(Read(EnvBlock(b)).values, key) == Value(b, key)
    {
      PrintedRoundTrip([b], key);
      assert Last([b][1..], key).None?;
    }
    PrintedRoundTrip([b], SIGN_WITH);
  }

  // ----- lines written by hand

  // ASCII white space only.
  predicate Blank(s: string) {
    forall i :: 0 <= i < |s| ==> Space1(s[i])
  }

  // Text that trimming leaves alone.
  predicate Solid(s: string) {
    s != "" && Lead(s) == 0 && Trail(s) == 0
  }

  lemma SolidAmong(a: string, s: string, b: string)
    requires Blank(a) && Blank(b) && Solid(s)
    ensures Lead(s + b) == 0 && Trail(a + s) == 0
  {
    assert |a| >= 1 ==> Space1(a[|a| - 1]);
    assert |a| >= 2 ==> Space1(a[|a| - 2]);
    assert |b| >= 1 ==> Space1(b[0]);
    assert |b| >= 2 ==> Space1(b[1]);
  }

  lemma {:induction false} TrimLeftBlank(a: string, s: string)
    requires Blank(a)
    ensures TrimLeft(a + s) == TrimLeft(s)
  {
    if a == "" {
      assert a + s == s;
    } else {
      assert Space1((a + s)[0]) && (a + s)[1..] == a[1..] + s;
      TrimLeftBlank(a[1..], s);
    }
  }

  lemma {:induction false} TrimRightBlank(s: string, b: string)
    requires Blank(b)
    ensures TrimRight(s + b) == TrimRight(s)
  {
    if b == "" {
      assert s + b == s;
    } else {
      var n := |b| - 1;
      assert Space1((s + b)[|s + b| - 1]) && (s + b)[..|s + b| - 1] == s + b[..n];
      TrimRightBlank(s, b[..n]);
    }
  }

  // Trimming takes the white space around a text and nothing of the text.
  lemma TrimOuter(a: string, s: string, b: string)
    requires Blank(a) && Blank(b) && Solid(s)
    ensures Trim(a + s + b) == s
  {
    SolidAmong(a, s, b);
    assert a + s + b == a + (s + b);
    hide Blank, Lead, Trail;
    TrimLeftBlank(a, s + b);
    TrimRightBlank(s, b);
  }

  // A value as it may be written: between two quotes of a kind, or bare.
  predicate Written(value: string, text: string) {
    || text == "'" + value + "'" || text == "\"" + value + "\""
    || (text == value && Solid(value) && value[0] != '\'' && value[0] != '"')
  }

  lemma WrittenReads(value: string, text: string)
    requires Written(value, text)
    ensures Solid(text) && Unquote(text) == value
  {
    assert text != value ==> text[0] == text[|text| - 1] && text[1..|text| - 1] == value;
  }

  // A line somebody wrote: white space, perhaps the word export, the name, an equals
  // sign, the value in quotes or bare, with white space around any of them and perhaps
  // a carriage return behind it.
  datatype Hand = Hand(before: string, export_: bool, gap: string, key: string, after: string,
                       lead: string, text: string, trail: string)

  function Assigned(w: Hand): string {
    w.key + w.after + "=" + w.lead + w.text
  }

  function Middle(w: Hand): string {
    if w.export_ then "export " + w.gap + Assigned(w) else Assigned(w)
  }

  function HandLine(w: Hand): string {
    w.before + Middle(w) + w.trail
  }

  predicate HandOk(w: Hand, value: string) {
    && Blank(w.before) && Blank(w.gap) && Blank(w.after) && Blank(w.lead) && Blank(w.trail)
    && Solid(w.key) && '=' !in w.key && w.key[0] != '#' && Written(value, w.text)
    && (!w.export_ ==> !("export " <= Assigned(w)))
  }

  // It assigns that value to that name.
  lemma HandPut(w: Hand, value: string, m: Values)
    requires HandOk(w, value)
    ensures Put(m, HandLine(w)) == m[w.key := value]
  {
    WrittenReads(value, w.text);
    MiddleSolid(w, value);
    HandDropsCR(w, value);
    HandUnexported(w, value);
    assert Blank(w.before);
    hide *;
    TrimOuter(w.before, Middle(w), DropCR(w.trail));
    HandCut(w, value);
    PutIs(m, HandLine(w), Middle(w), w.key, value);
  }

  lemma PutIs(m: Values, line: string, t: string, key: string, value: string)
    requires Trim(DropCR(line)) == t != "" && t[0] != '#' && Cut(Unexported(t)) == Some((key, value))
    ensures Put(m, line) == m[key := value]
  {
    hide Trim, DropCR, Cut, Unexported;
  }

  lemma HandUnexported(w: Hand, value: string)
    requires HandOk(w, value)
    ensures Unexported(Middle(w)) == if w.export_ then w.gap + Assigned(w) else Assigned(w)
  {
    hide Blank, Solid, Written, Assigned;
    if w.export_ {
      assert Middle(w) == "export " + (w.gap + Assigned(w));
    }
  }

  lemma HandDropsCR(w: Hand, value: string)
    requires HandOk(w, value) && Solid(Middle(w))
    ensures DropCR(HandLine(w)) == w.before + Middle(w) + DropCR(w.trail) && Blank(DropCR(w.trail))
  {
    var line := HandLine(w);
    hide Middle, Written, Lead, Assigned;
    if w.trail == "" {
      assert line[|line| - 1] == Middle(w)[|Middle(w)| - 1] && !Space1(line[|line| - 1]);
      assert line == w.before + Middle(w);
    } else {
      assert line[|line| - 1] == w.trail[|w.trail| - 1];
      assert line[..|line| - 1] == w.before + Middle(w) + w.trail[..|w.trail| - 1];
    }
  }

  // White space of more than one byte does not straddle an ASCII character.
  lemma Straddles(x: string, y: string)
    requires x != "" && y != ""
    ensures Solid(x) && y[0] < '\U{80}' ==> Lead(x + y) == 0
    ensures Solid(y) && x[|x| - 1] < '\U{80}' ==> Trail(x + y) == 0
  {
    var s := x + y;
    assert s[|x|] == y[0] && s[|x| - 1] == x[|x| - 1];
  }

  lemma BlankIsAscii(s: string)
    requires Blank(s)
    ensures '=' !in s && (s != "" ==> s[0] < '\U{80}' && s[|s| - 1] < '\U{80}')
  {
  }

  lemma MiddleSolid(w: Hand, value: string)
    requires HandOk(w, value) && Solid(w.text)
    ensures Solid(Middle(w)) && Middle(w)[0] != '#'
  {
    var rest, front := w.after + "=" + w.lead + w.text, w.key + w.after + "=" + w.lead;
    BlankIsAscii(w.after);
    BlankIsAscii(w.lead);
    hide Blank, Written;
    hide Lead, Trail;
    Regroup(w.gap, w.key, w.after, w.lead, w.text);
    if w.export_ {
      Straddles("export " + w.gap + front, w.text);
      ExportLeads(Middle(w));
    } else {
      Straddles(w.key, rest);
      Straddles(front, w.text);
    }
  }

  lemma ExportLeads(s: string)
    requires "export " <= s
    ensures Lead(s) == 0 && s[0] == 'e'
  {
  }

  lemma HandCut(w: Hand, value: string)
    requires HandOk(w, value) && Solid(w.text) && Unquote(w.text) == value
    ensures Cut(Assigned(w)) == Cut(w.gap + Assigned(w)) == Some((w.key, value))
  {
    GapCut("", w, value);
    GapCut(w.gap, w, value);
    assert "" + Assigned(w) == Assigned(w);
  }

  lemma GapCut(gap: string, w: Hand, value: string)
    requires HandOk(w, value) && Solid(w.text) && Unquote(w.text) == value && Blank(gap)
    ensures Cut(gap + Assigned(w)) == Some((w.key, value))
  {
    var name, rest := gap + w.key + w.after, w.lead + w.text;
    HandParts(w, value);
    NoEquals(gap, w.key, w.after);
    hide *;
    Regroup(gap, w.key, w.after, w.lead, w.text);
    TrimOuter(gap, w.key, w.after);
    TrimOuter(w.lead, w.text, "");
    assert w.lead + w.text + "" == rest;
    CutAt(name, rest);
  }

  lemma HandParts(w: Hand, value: string)
    requires HandOk(w, value)
    ensures Blank(w.after) && Blank(w.lead) && Blank("") && Solid(w.key) && '=' !in w.key
    ensures Assigned(w) == w.key + w.after + "=" + w.lead + w.text
  {
    hide Solid, Written;
  }

  lemma NoEquals(gap: string, key: string, after: string)
    requires Blank(gap) && Blank(after) && '=' !in key
    ensures '=' !in gap + key + after
  {
    BlankIsAscii(gap);
    BlankIsAscii(after);
    hide Blank;
  }

  lemma Regroup(gap: string, key: string, after: string, lead: string, text: string)
    ensures gap + (key + after + "=" + lead + text) == (gap + key + after) + ("=" + (lead + text))
    ensures key + after + "=" + lead + text == key + (after + "=" + lead + text)
    ensures "export " + gap + (key + after + "=" + lead + text)
         == ("export " + gap + (key + after + "=" + lead)) + text
  {
    var head := key + after;
    assert head + "=" + lead + text == head + ("=" + (lead + text));
    assert gap + (head + ("=" + (lead + text))) == (gap + head) + ("=" + (lead + text));
    assert gap + head == gap + key + after;
  }

  lemma CutAt(name: string, rest: string)
    requires '=' !in name
    ensures Cut(name + ("=" + rest)) == Some((Trim(name), Unquote(Trim(rest))))
  {
    hide Trim, Unquote, IndexOf;
    IndexAt(name, '=', rest);
    var s := name + ['='] + rest;
    assert s == name + ("=" + rest) && s[..|name|] == name && s[|name| + 1..] == rest;
  }

  // Blank lines, comments and lines without an equals sign assign nothing.
  lemma NothingPut(before: string, rest: string, m: Values)
    requires Blank(before) && (rest == "" || rest[0] == '#' || '=' !in rest)
    ensures Put(m, before + rest) == m
  {
    if rest == "" {
      assert before + rest == before;
      BlankPut(before, m);
    } else if rest[0] == '#' {
      CommentPut(before, rest, m);
    } else {
      BlankIsAscii(before);
      NoEqualsPut(before + rest, m);
    }
  }

  lemma BlankPut(line: string, m: Values)
    requires Blank(line)
    ensures Put(m, line) == m
  {
    var t := DropCR(line);
    assert Blank(t);
    hide Blank, DropCR;
    BlankTrims(t);
    hide Trim;
  }

  lemma BlankTrims(t: string)
    requires Blank(t)
    ensures Trim(t) == ""
  {
    hide Blank;
    TrimLeftBlank(t, "");
    assert t + "" == t;
    assert TrimLeft("") == "" && TrimRight("") == "";
    hide TrimLeft, TrimRight;
  }

  lemma CommentPut(before: string, rest: string, m: Values)
    requires Blank(before) && rest != "" && rest[0] == '#'
    ensures Put(m, before + rest) == m
  {
    hide Blank;
    var r := DropCR(rest);
    assert DropCR(before + rest) == before + r && r != "" && r[0] == '#';
    hide DropCR;
    CommentTrims(before, r);
    hide Trim;
  }

  lemma CommentTrims(before: string, r: string)
    requires Blank(before) && r != "" && r[0] == '#'
    ensures Trim(before + r) != "" && Trim(before + r)[0] == '#'
  {
    TrimLeftBlank(before, r);
    HashStays(r);
    hide TrimLeft, TrimRight, Blank;
  }

  lemma NoEqualsPut(line: string, m: Values)
    requires '=' !in line
    ensures Put(m, line) == m
  {
    var t := DropCR(line);
    assert '=' !in t;
    Subtext(t);
    hide Trim, DropCR, Unexported;
  }

  lemma HashStays(s: string)
    requires s != "" && s[0] == '#'
    ensures Trim(s) != "" && Trim(s)[0] == '#'
  {
    HashLeads(s);
  }

  lemma {:induction false} HashLeads(s: string)
    requires s != "" && s[0] == '#'
    ensures TrimRight(s) != ""
  {
    if Trail(s) != 0 {
      assert Trail(s) < |s|;
      HashLeads(s[..|s| - Trail(s)]);
    }
  }

  // Trimming adds nothing.
  lemma Subtext(s: string)
    ensures '=' !in s ==> '=' !in Trim(s) && '=' !in Unexported(Trim(s))
  {
    hide Lead, Trail;
  }
}
