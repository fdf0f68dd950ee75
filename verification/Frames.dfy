// The signing socket: framing, the PIN prefix, and the read and write loops on
// both sides (token/protocol.go and the rpc helpers of pkcs11/hotbox.c).

module Frames {
  import opened Bytes

  const PROTO_VERSION: byte := 1
  const OP_INFO: byte := 1
  const OP_SIGN: byte := 2
  const OP_PROOF: byte := 3
  const STATUS_OK: byte := 0
  const STATUS_PIN: byte := 1
  const STATUS_MECHANISM: byte := 2
  const STATUS_BAD: byte := 3
  const STATUS_FAILED: byte := 4
  const MAX_FRAME := 0x10_0000
  const PIN_LEN := 32

  datatype Received = NoFrame | Received(kind: byte, body: bytes, rest: bytes)

  function Frame(kind: byte, body: bytes): bytes {
    [PROTO_VERSION, kind] + BE(|body|, 4) + body
  }

  // What a reader finds at the front of a stream that holds s and then ends.
  function Unframe(s: bytes): Received {
    if |s| < 6 || s[0] != PROTO_VERSION then NoFrame
    else
      var n := Num(s[2..6]);
      if n > MAX_FRAME || |s| < 6 + n then NoFrame
      else Received(s[1], s[6..6 + n], s[6 + n..])
  }

  // Version, kind, a length of four bytes, the body.
  lemma FramePlaces(kind: byte, body: bytes)
    requires |body| < 0x1_0000_0000
    ensures var f := Frame(kind, body);
      |f| == 6 + |body| && f[0] == 1 && f[1] == kind && Num(f[2..6]) == |body| && f[6..] == body
  {
    SmallPowers();
    NumBE(|body|, 4);
    hide Num, BE;
    assert Frame(kind, body)[2..6] == BE(|body|, 4);
  }

  // A frame reads back exactly when its body fits the bound, for bodies whose
  // length the four header bytes can hold.
  lemma FrameRoundTrip(kind: byte, body: bytes, tail: bytes)
    requires |body| < 0x1_0000_0000
    ensures Unframe(Frame(kind, body) + tail)
         == if |body| <= MAX_FRAME then Received(kind, body, tail) else NoFrame
  {
    SmallPowers();
    NumBE(|body|, 4);
    var s := Frame(kind, body) + tail;
    assert s[2..6] == BE(|body|, 4);
    assert s[6..6 + |body|] == body && s[6 + |body|..] == tail;
  }

  lemma OnlyFramesRead(s: bytes)
    requires Unframe(s).Received?
    ensures var f := Unframe(s); s == Frame(f.kind, f.body) + f.rest && |f.body| <= MAX_FRAME
  {
    BENum(s[2..6]);
    assert s == s[..2] + s[2..6] + s[6..];
  }

  // One connection. pending is every byte the peer has sent or will send before
  // it closes; sent is what has been written to it.
  class Conn {
    var pending: bytes
    var sent: bytes

    constructor (answer: bytes)
      ensures pending == answer && sent == []
    {
      pending, sent := answer, [];
    }

    // Delivers between one byte and n bytes, or nothing once the peer has closed.
    method Read(n: nat) returns (got: bytes)
      requires n > 0
      modifies this`pending
      ensures old(pending) == got + pending && |got| <= n
      ensures got == [] <==> old(pending) == []
    {
      if pending == [] {
        return [];
      }
      var k: nat :| 1 <= k <= n && k <= |pending|;
      got, pending := pending[..k], pending[k..];
    }

    // Accepts at least one of the bytes offered.
    method Write(b: bytes) returns (n: nat)
      requires b != []
      modifies this`sent
      ensures 1 <= n <= |b| && sent == old(sent) + b[..n]
    {
      n :| 1 <= n <= |b|;
      sent := sent + b[..n];
    }

    method ReadFull(n: nat) returns (ok: bool, buf: bytes)
      modifies this`pending
      ensures ok <==> |old(pending)| >= n
      ensures ok ==> buf == old(pending)[..n] && pending == old(pending)[n..]
    {
      buf := [];
      while |buf| < n
        invariant |buf| <= n && old(pending) == buf + pending
        decreases n - |buf|
      {
        var got := Read(n - |buf|);
        if got == [] {
          return false, [];
        }
        buf := buf + got;
      }
      ok := true;
    }

    method WriteFull(b: bytes)
      modifies this`sent
      ensures sent == old(sent) + b
    {
      var at := 0;
      while at < |b|
        invariant 0 <= at <= |b| && sent == old(sent) + b[..at]
      {
        var n := Write(b[at..]);
        assert b[..at] + b[at..][..n] == b[..at + n];
        at := at + n;
      }
    }

    // readFrame of the server.
    method ReadFrame() returns (ok: bool, kind: byte, body: bytes)
      modifies this`pending
      ensures var f := Unframe(old(pending));
        if f.NoFrame? then !ok else ok && kind == f.kind && body == f.body && pending == f.rest
    {
      kind, body := 0, [];
      var hdr;
      ok, hdr := ReadFull(6);
      if !ok || hdr[0] != PROTO_VERSION {
        return false, kind, body;
      }
      assert hdr[2..6] == old(pending)[2..6];
      var n := Num(hdr[2..6]);
      if n > MAX_FRAME {
        return false, kind, body;
      }
      ok, body := ReadFull(n);
      kind := hdr[1];
    }

    // writeFrame of the server: a body past the bound is an error and nothing is written.
    method WriteFrame(kind: byte, body: bytes)
      modifies this`sent
      ensures sent == old(sent) + Written(kind, body)
    {
      if |body| > MAX_FRAME {
        return;
      }
      WriteFull([PROTO_VERSION, kind] + BE(|body|, 4));
      WriteFull(body);
    }
  }

  function Written(kind: byte, body: bytes): bytes {
    if |body| > MAX_FRAME then [] else Frame(kind, body)
  }

  // How an exchange goes: no connection, or one that breaks after so many bytes of
  // the frame were written; the client out of memory, before it asked or once an
  // answer had to be held; or a peer that takes the frame and sends these bytes.
  datatype Net = Down(written: nat) | NoMemory(asked: bool) | Answer(stream: bytes)

  // What is written of a frame.
  function Outgoing(net: Net, frame: bytes): (sent: bytes)
    ensures sent <= frame && (net.Answer? ==> sent == frame)
    ensures net.Down? ==> |sent| == if net.written < |frame| then net.written else |frame|
    ensures net.NoMemory? ==> (net.asked ==> sent == frame) && (!net.asked ==> sent == [])
  {
    match net
    case Down(written) => if written < |frame| then frame[..written] else frame
    case NoMemory(asked) => if asked then frame else []
    case Answer(_) => frame
  }

  function PinBody(pin: bytes): Option<bytes> {
    if |pin| > 64 then None else Some(Field(pin, 2))
  }

  // takePin: a 32-byte PIN and what follows it.
  function TakePin(body: bytes): Read<bytes> {
    match TakeField(body, 2)
    case Short => Short
    case Got(pin, rest) => if |pin| != PIN_LEN then Short else Got(pin, rest)
  }

  // The server accepts a body exactly when it is a 32-byte PIN field and a rest.
  lemma TakePinIff(body: bytes, pin: bytes, rest: bytes)
    ensures TakePin(body) == Got(pin, rest) <==> |pin| == PIN_LEN && body == Field(pin, 2) + rest
  {
    SmallPowers();
    if |pin| == PIN_LEN && body == Field(pin, 2) + rest {
      TakeFieldOf(pin, 2, rest);
    }
    if TakePin(body) == Got(pin, rest) {
      TakeFieldOnly(body, 2);
    }
  }

  // The server's own client: a PIN it is willing to write is one the server will
  // read exactly when it is 32 bytes long.
  lemma PinBodyReads(pin: bytes, rest: bytes)
    requires PinBody(pin).Some?
    ensures TakePin(PinBody(pin).value + rest) == if |pin| == PIN_LEN then Got(pin, rest) else Short
  {
    SmallPowers();
    TakeFieldOf(pin, 2, rest);
  }
}
