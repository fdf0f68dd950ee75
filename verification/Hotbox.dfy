// The PKCS#11 module as it runs: static globals, four session records with
// growing buffers, loops over the wire. Each call is proved to do what
// Pkcs11.Apply says, for every reachable state of the globals.

module Hotbox {
  import opened Bytes
  import opened Frames
  import opened InfoCodec
  import opened Pkcs11
  import opened Attributes

  class Session {
    var open: bool
    var rw: bool
    var finding: bool
    var found: seq<nat>
    var sent: nat
    var signing: bool
    var mech: nat
    var buf: array?<byte>
    var len: nat

    ghost var view: Slot

    // The record and its buffer hold the abstract slot.
    ghost predicate Valid()
      reads this, buf
    {
      && (if buf == null then len == 0 else 0 < buf.Length && len <= buf.Length)
      && view == Slot(open, rw, finding, found, sent, signing, mech,
                      if buf == null then [] else buf[..len], if buf == null then 0 else buf.Length)
    }

    constructor ()
      ensures Valid() && view == ZEROED && buf == null
    {
      open, rw, finding, found, sent, signing, mech, buf, len := false, false, false, [], 0, false, 0, null, 0;
      view := ZEROED;
    }

    // memset to zero.
    method Zero()
      modifies this
      ensures Valid() && view == ZEROED && buf == null
    {
      open, rw, finding, found, sent, signing, mech, buf, len := false, false, false, [], 0, false, 0, null, 0;
      view := ZEROED;
    }

    // session_clear_sign
    method Clear()
      requires Valid()
      modifies this
      ensures Valid() && view == ClearSign(old(view)) && buf == null
    {
      buf, len, signing := null, 0, false;
      view := ClearSign(view);
    }

    method Open(writable: bool)
      requires Valid()
      modifies this
      ensures Valid() && buf == old(buf) && view == old(view).(open := true, rw := writable)
    {
      open, rw := true, writable;
      view := view.(open := true, rw := writable);
    }

    method Close()
      requires Valid()
      modifies this
      ensures Valid() && buf == old(buf) && view == old(view).(open := false)
    {
      open := false;
      view := view.(open := false);
    }

    method BeginSign(m: nat)
      requires Valid() && buf == null
      modifies this
      ensures Valid() && buf == old(buf) && view == old(view).(signing := true, mech := m, data := [])
    {
      signing, mech, len := true, m, 0;
      view := view.(signing := true, mech := m, data := []);
    }

    method SetSearch(on: bool, hits: seq<nat>)
      requires Valid()
      modifies this
      ensures Valid() && buf == old(buf) && view == old(view).(finding := on, found := hits, sent := 0)
    {
      finding, found, sent := on, hits, 0;
      view := view.(finding := on, found := hits, sent := 0);
    }

    // The copying loop of C_FindObjects.
    method Take(max: nat) returns (out: seq<nat>)
      requires Valid() && view.sent <= |view.found|
      modifies this
      ensures Valid() && buf == old(buf)
      ensures var s := old(view); var n := if |s.found| - s.sent < max then |s.found| - s.sent else max;
        out == s.found[s.sent..s.sent + n] && view == s.(sent := s.sent + n)
    {
      out := [];
      while |out| < max && sent < |found|
        invariant old(sent) <= sent <= |found| && |out| <= max && out == found[old(sent)..sent]
        decreases |found| - sent
        modifies this`sent
      {
        out := out + [found[sent]];
        sent := sent + 1;
      }
      view := view.(sent := sent);
    }

    // realloc: double the capacity until the need is met and keep the contents.
    method Grow(need: nat, memory: bool) returns (ok: bool)
      requires Valid() && need > view.cap
      modifies this`buf, this`view
      ensures Valid() && ok == memory
      ensures if ok then fresh(buf) && buf != null && view == old(view).(cap := CapFor(old(view).cap, need))
              else buf == old(buf) && view == old(view)
    {
      var have := if buf == null then 0 else buf.Length;
      var start := if have == 0 then 256 else have * 2;
      var cap := start;
      while cap < need
        invariant cap > 0 && Grown(cap, need) == Grown(start, need)
        decreases need - cap
      {
        cap := cap * 2;
      }
      if !memory {
        return false;
      }
      var b := new byte[cap];
      if buf != null {
        forall k | 0 <= k < len {
          b[k] := buf[k];
        }
        assert b[..len] == buf[..len];
      }
      buf, view := b, view.(cap := cap);
      ok := true;
    }

    // memcpy behind the bytes already held.
    method CopyIn(p: Memory)
      requires Valid() && len + |p| <= view.cap
      modifies this`len, this`view, buf
      ensures Valid() && view == old(view).(data := old(view).data + p)
    {
      if buf != null {
        forall k | 0 <= k < |p| {
          buf[len + k] := p[k];
        }
        assert buf[..len + |p|] == old(view).data + p;
        len := len + |p|;
      }
      view := view.(data := view.data + p);
    }

    // append_sign: make room, then copy the part in.
    method Append(p: Memory, memory: bool) returns (rv: nat)
      requires Valid()
      modifies this, buf
      ensures Valid() && (buf == old(buf) || fresh(buf))
      ensures (view, rv) == AppendSign(old(view), p, memory)
      ensures rv == CKR_OK <==>
        |old(view).data| + |p| <= 0x10_0000 && (memory || |old(view).data| + |p| <= old(view).cap)
      ensures rv == CKR_OK ==> view == old(view).(data := old(view).data + p, cap := view.cap)
      ensures rv != CKR_OK ==>
        view == old(view) && rv == if |old(view).data| + |p| > 0x10_0000 then CKR_GENERAL_ERROR else CKR_HOST_MEMORY
    {
      hide CapFor;
      if len + |p| > MAX_FRAME {
        return CKR_GENERAL_ERROR;
      }
      if len + |p| > (if buf == null then 0 else buf.Length) {
        var ok := Grow(len + |p|, memory);
        if !ok {
          return CKR_HOST_MEMORY;
        }
      }
      CopyIn(p);
      rv := CKR_OK;
    }
  }

  // rpc: one exchange on a fresh connection.
  method CallRpc(op: byte, req: bytes, net: Net) returns (rv: nat, status: byte, out: bytes, ghost sent: bytes)
    requires |req| < 0x1_0000_0000
    ensures sent == Outgoing(net, Frame(op, req))
    ensures match Rpc(net)
      case RpcError(e) => rv == e && rv != CKR_OK
      case RpcReply(s, b) => rv == CKR_OK && status == s && out == b
  {
    status, out, sent := 0, [], Outgoing(net, Frame(op, req));
    match net {
      case Down(_) => return CKR_DEVICE_ERROR, status, out, sent;
      case NoMemory(_) => return CKR_HOST_MEMORY, status, out, sent;
      case Answer(stream) =>
        var conn := new Conn(stream);
        conn.WriteFull([PROTO_VERSION, op] + BE(|req|, 4));
        conn.WriteFull(req);
        assert conn.sent == sent;
        var ok, hdr := conn.ReadFull(6);
        if !ok || hdr[0] != PROTO_VERSION {
          return CKR_DEVICE_ERROR, status, out, sent;
        }
        assert hdr[2..6] == stream[2..6];
        var n := Num(hdr[2..6]);
        if n > MAX_FRAME {
          return CKR_DEVICE_ERROR, status, out, sent;
        }
        status := hdr[1];
        ok, out := conn.ReadFull(n);
        rv := if ok then CKR_OK else CKR_DEVICE_ERROR;
    }
  }

  lemma PinField(pin: bytes)
    requires |pin| == PIN_LEN
    ensures [0, |pin|] + pin == Field(pin, 2)
  {
    assert BE(32, 2) == [0, 32];
  }

  lemma FreedUnlessLoggedIn(m: State)
    requires Inv(m)
    ensures !m.cache.loggedIn ==> m.cache == FREED
  {
    hide SlotInv;
  }

  lemma SentWithin(m: State, h: nat)
    requires Inv(m)
    ensures IsOpen(m, h) ==> m.slots[h - 1].sent <= |m.slots[h - 1].found|
  {
    hide CacheInv;
  }

  lemma NoBufferUnlessSigning(m: State, h: nat)
    requires Inv(m)
    ensures IsOpen(m, h) && !m.slots[h - 1].signing ==> m.slots[h - 1].cap == 0
  {
    hide CacheInv;
  }

  method FreshSessions() returns (ss: seq<Session>)
    ensures |ss| == MAX_SESSIONS && fresh(ss)
    ensures forall i, j :: 0 <= i < j < |ss| ==> ss[i] != ss[j]
    ensures forall i :: 0 <= i < |ss| ==> ss[i].Valid() && ss[i].view == ZEROED && ss[i].buf == null
  {
    hide Session.Valid;
    ss := [];
    for n := 0 to MAX_SESSIONS
      invariant |ss| == n && fresh(ss)
      invariant forall i, j :: 0 <= i < j < |ss| ==> ss[i] != ss[j]
      invariant forall i :: 0 <= i < |ss| ==> ss[i].Valid() && ss[i].view == ZEROED && ss[i].buf == null
    {
      var s := new Session();
      ss := ss + [s];
    }
  }

  function Prefixed(done: seq<CertFields>, t: Read<seq<CertFields>>): Read<seq<CertFields>> {
    match t
    case Short => Short
    case Got(cs, rest) => Got(done + cs, rest)
  }

  lemma PrefixedEmpty(t: Read<seq<CertFields>>)
    ensures Prefixed([], t) == t
  {
    if t.Got? {
      assert [] + t.item == t.item;
    }
  }

  lemma PrefixedStep(done: seq<CertFields>, r: bytes, n: nat)
    requires n > 0
    ensures match TakeCert(r)
      case Short => Prefixed(done, TakeCerts(r, n)) == Short
      case Got(c, r1) => Prefixed(done, TakeCerts(r, n)) == Prefixed(done + [c], TakeCerts(r1, n - 1))
  {
    hide TakeCert;
    match TakeCert(r) {
      case Short =>
      case Got(c, r1) =>
        match TakeCerts(r1, n - 1) {
          case Short =>
          case Got(cs, rest) => assert done + ([c] + cs) == done + [c] + cs;
        }
    }
  }

  lemma {:induction false} FirstClosedIs(slots: seq<Slot>, k: nat)
    requires k <= |slots| && (forall j :: 0 <= j < k ==> slots[j].open) && (k < |slots| ==> !slots[k].open)
    ensures FirstClosed(slots) == k
  {
    if k > 0 {
      FirstClosedIs(slots[1..], k - 1);
    }
  }

  class Module {
    var initialized: bool
    var loggedIn: bool
    var pin: bytes
    var alias: bytes
    var keyType: byte
    var partA: bytes
    var partB: bytes
    var ecPoint: bytes
    var certs: seq<CachedCert>
    const sessions: seq<Session>

    // The abstract state, and every buffer the sessions own.
    ghost var state: State
    ghost var owned: set<object>

    // The records are four distinct objects with distinct buffers.
    ghost predicate Shape()
      reads this, sessions
    {
      && |sessions| == MAX_SESSIONS
      && (forall i, j :: 0 <= i < j < MAX_SESSIONS ==> sessions[i] != sessions[j])
      && (forall i :: 0 <= i < MAX_SESSIONS && sessions[i].buf != null ==> sessions[i].buf in owned)
      && (forall i, j :: 0 <= i < j < MAX_SESSIONS && sessions[i].buf != null ==> sessions[i].buf != sessions[j].buf)
    }

    function Globals(): Cache
      reads this
    {
      Cache(loggedIn, pin, alias, keyType, partA, partB, ecPoint, certs)
    }

    // The globals hold the abstract state.
    ghost predicate Linked()
      reads this, sessions, owned
    {
      && Shape()
      && state.initialized == initialized
      && state.cache == Globals()
      && |state.slots| == MAX_SESSIONS
      && (forall i :: 0 <= i < MAX_SESSIONS ==> sessions[i].Valid() && sessions[i].view == state.slots[i])
    }

    // ... and the abstract state keeps the invariant.
    ghost predicate Valid()
      reads this, sessions, owned
    {
      Linked() && Inv(state)
    }

    // A step on session h alone, which may have given it a new buffer.
    twostate lemma Relink(h: nat)
      requires old(Linked()) && 1 <= h <= MAX_SESSIONS
      requires forall i :: 0 <= i < MAX_SESSIONS && i != h - 1 ==>
        sessions[i].Valid() && sessions[i].view == old(sessions[i].view) && sessions[i].buf == old(sessions[i].buf)
      requires var s := sessions[h - 1];
        && s.Valid() && (s.buf == null || s.buf == old(s.buf) || fresh(s.buf))
        && state == Set(old(state), h, s.view)
        && owned == old(owned) + (if s.buf == null then {} else {s.buf})
      requires initialized == old(initialized) && old(allocated(owned))
      requires Globals() == old(Globals())
      ensures Linked() && fresh(owned - old(owned))
    {
      hide Session.Valid;
      var s := sessions[h - 1];
      assert s.buf in old(owned) || s.buf == null || fresh(s.buf);
      assert forall i :: 0 <= i < MAX_SESSIONS && i != h - 1 ==> sessions[i].buf == null || sessions[i].buf != s.buf;
    }

    // The globals of a freshly loaded library.
    constructor ()
      ensures Valid() && state == LOADED && fresh(sessions) && fresh(owned)
    {
      LoadedInv();
      hide Inv; hide Session.Valid;
      initialized, loggedIn, pin, alias, keyType := false, false, [], [], 0;
      partA, partB, ecPoint, certs := [], [], [], [];
      var ss := FreshSessions();
      sessions := ss;
      state, owned := LOADED, {};
    }

    method Get(h: nat) returns (s: Session?)
      requires Linked()
      ensures if IsOpen(state, h) then s == sessions[h - 1] && s.Valid() && s.view == state.slots[h - 1] else s == null
      ensures s != null ==> s.finding == s.view.finding && s.signing == s.view.signing && s.mech == s.view.mech
      ensures s != null ==> s.len == |s.view.data| && (s.buf == null <==> s.view.cap == 0)
    {
      if h == 0 || h > MAX_SESSIONS || !sessions[h - 1].open {
        return null;
      }
      s := sessions[h - 1];
    }

    // ----- steps on one session

    method AppendTo(h: nat, p: Memory, memory: bool) returns (rv: nat)
      requires Linked() && 1 <= h <= MAX_SESSIONS
      modifies this`state, this`owned, sessions, owned
      ensures Linked() && fresh(owned - old(owned))
      ensures state == Set(old(state), h, AppendSign(old(state.slots[h - 1]), p, memory).0)
      ensures rv == AppendSign(old(state.slots[h - 1]), p, memory).1
    {
      hide AppendSign; hide Session.Valid;
      var s := sessions[h - 1];
      rv := s.Append(p, memory);
      state, owned := Set(state, h, s.view), owned + if s.buf == null then {} else {s.buf};
      Relink(h);
    }

    method ClearAt(h: nat)
      requires Linked() && 1 <= h <= MAX_SESSIONS
      modifies this`state, sessions
      ensures Linked() && state == Set(old(state), h, ClearSign(old(state.slots[h - 1])))
    {
      hide ClearSign; hide Session.Valid;
      var s := sessions[h - 1];
      s.Clear();
      state := Set(state, h, s.view);
      Relink(h);
    }

    // Clear the signature, then zero the record.
    method DropAt(h: nat)
      requires Linked() && 1 <= h <= MAX_SESSIONS
      modifies this`state, sessions
      ensures Linked() && state == Set(old(state), h, ZEROED)
    {
      hide Session.Valid;
      var s := sessions[h - 1];
      s.Clear();
      s.Zero();
      state := Set(state, h, s.view);
      Relink(h);
    }

    method ReopenAt(h: nat, writable: bool)
      requires Linked() && 1 <= h <= MAX_SESSIONS
      modifies this`state, sessions
      ensures Linked() && state == Set(old(state), h, ZEROED.(open := true, rw := writable))
    {
      hide Session.Valid;
      var s := sessions[h - 1];
      s.Zero();
      s.Open(writable);
      state := Set(state, h, s.view);
      Relink(h);
    }

    method FinalizeAt(h: nat)
      requires Linked() && 1 <= h <= MAX_SESSIONS
      modifies this`state, sessions
      ensures Linked() && state == Set(old(state), h, Finalized(old(state.slots[h - 1])))
    {
      hide Session.Valid;
      var s := sessions[h - 1];
      s.Clear();
      s.Close();
      state := Set(state, h, s.view);
      Relink(h);
    }

    method SearchAt(h: nat, on: bool, hits: seq<nat>)
      requires Linked() && 1 <= h <= MAX_SESSIONS
      modifies this`state, sessions
      ensures Linked()
      ensures state == Set(old(state), h, old(state.slots[h - 1]).(finding := on, found := hits, sent := 0))
    {
      hide Session.Valid;
      var s := sessions[h - 1];
      s.SetSearch(on, hits);
      state := Set(state, h, s.view);
      Relink(h);
    }

    method TakeAt(h: nat, max: nat) returns (out: seq<nat>)
      requires Linked() && 1 <= h <= MAX_SESSIONS && state.slots[h - 1].sent <= |state.slots[h - 1].found|
      modifies this`state, sessions
      ensures var s := old(state.slots[h - 1]); var n := if |s.found| - s.sent < max then |s.found| - s.sent else max;
        Linked() && out == s.found[s.sent..s.sent + n] && state == Set(old(state), h, s.(sent := s.sent + n))
    {
      hide Session.Valid;
      var s := sessions[h - 1];
      out := s.Take(max);
      state := Set(state, h, s.view);
      Relink(h);
    }

    method BeginAt(h: nat, m: nat)
      requires Linked() && 1 <= h <= MAX_SESSIONS && state.slots[h - 1].cap == 0
      modifies this`state, sessions
      ensures Linked()
      ensures state == Set(old(state), h, old(state.slots[h - 1]).(signing := true, mech := m, data := []))
    {
      var s := sessions[h - 1];
      assert s.buf == null;
      hide Session.Valid;
      s.BeginSign(m);
      state := Set(state, h, s.view);
      Relink(h);
    }

    method MechAt(h: nat) returns (m: nat)
      requires Linked() && 1 <= h <= MAX_SESSIONS
      ensures m == state.slots[h - 1].mech
    {
      m := sessions[h - 1].mech;
    }

    method BufferAt(h: nat) returns (b: bytes)
      requires Linked() && 1 <= h <= MAX_SESSIONS
      ensures b == state.slots[h - 1].data
    {
      var s := sessions[h - 1];
      b := if s.buf == null then [] else s.buf[..s.len];
    }

    // ----- the cached token description

    // free_cache
    method FreeCache()
      requires Linked()
      modifies this`loggedIn, this`pin, this`alias, this`keyType, this`partA, this`partB, this`ecPoint, this`certs,
        this`state
      ensures Linked() && state == old(state).(cache := FREED)
    {
      hide Session.Valid;
      Drop();
      state := state.(cache := FREED);
    }

    method Drop()
      modifies this`loggedIn, this`pin, this`alias, this`keyType, this`partA, this`partB, this`ecPoint, this`certs
      ensures Globals() == FREED
    {
      partA, partB, ecPoint := [], [], [];
      certs, keyType, alias, loggedIn, pin := [], 0, [], false, [];
    }

    // parse_info: on failure the globals are left half filled and the caller drops them.
    method ParseIn(p: bytes) returns (rv: nat)
      modifies this`loggedIn, this`pin, this`alias, this`keyType, this`partA, this`partB, this`ecPoint, this`certs
      ensures rv == CKR_OK <==> ParseInfo(p).Some?
      ensures rv == CKR_OK || rv == CKR_DEVICE_ERROR
      ensures rv == CKR_OK ==> ParsedInfo(p).Some? && Globals() == CacheOf(ParsedInfo(p).value, [])
    {
      hide TakeField, Label, DerOctet;
      Drop();
      var t := TakeField(p, 2);
      if t.Short? || |t.item| == 0 || |t.item| > MAX_ALIAS {
        return CKR_DEVICE_ERROR;
      }
      alias := t.item;
      var r := t.rest;
      if |r| < 1 || (r[0] != KEY_RSA && r[0] != KEY_EC) {
        return CKR_DEVICE_ERROR;
      }
      keyType := r[0];
      t := TakeField(r[1..], 2);
      if t.Short? {
        return CKR_DEVICE_ERROR;
      }
      partA := t.item;
      r := t.rest;
      t := TakeField(r, 2);
      if t.Short? {
        return CKR_DEVICE_ERROR;
      }
      TakeFieldOnly(r, 2);
      SmallPowers();
      partB := t.item;
      r := t.rest;
      if keyType == KEY_EC {
        ecPoint := DerOctet(partB);
      }
      if |r| < 1 || r[0] == 0 || r[0] > MAX_CERTS {
        return CKR_DEVICE_ERROR;
      }
      var rest: bytes;
      rv, rest := ParseCerts(r[1..], r[0]);
      if rv == CKR_OK && rest != [] {
        return CKR_DEVICE_ERROR;
      }
      if rv == CKR_OK {
        loggedIn := true;
      }
    }

    // The certificate loop of parse_info.
    method ParseCerts(p: bytes, count: nat) returns (rv: nat, r: bytes)
      requires count <= MAX_CERTS
      modifies this`certs
      ensures match TakeCerts(p, count)
        case Short => rv == CKR_DEVICE_ERROR
        case Got(cs, rest) => |cs| <= MAX_CERTS && rv == CKR_OK && r == rest && certs == Labelled(alias, cs)
    {
      hide TakeField, Label;
      certs, r := [], p;
      ghost var done: seq<CertFields> := [];
      PrefixedEmpty(TakeCerts(p, count));
      for k := 0 to count
        invariant |done| == k && certs == Labelled(alias, done)
        invariant Prefixed(done, TakeCerts(r, count - k)) == TakeCerts(p, count)
      {
        var der := TakeField(r, 4);
        if der.Short? {
          return CKR_DEVICE_ERROR, r;
        }
        var subject := TakeField(der.rest, 2);
        if subject.Short? {
          return CKR_DEVICE_ERROR, r;
        }
        var issuer := TakeField(subject.rest, 2);
        if issuer.Short? {
          return CKR_DEVICE_ERROR, r;
        }
        var serial := TakeField(issuer.rest, 2);
        if serial.Short? {
          return CKR_DEVICE_ERROR, r;
        }
        var c := CertFields(der.item, subject.item, issuer.item, serial.item);
        PrefixedStep(done, r, count - k);
        certs := certs + [CachedCert(c, Label(alias, k))];
        done, r := done + [c], serial.rest;
      }
      rv := CKR_OK;
    }

    // ----- the calls

    method C_Initialize(reserved: bool) returns (rv: nat)
      requires Valid()
      modifies this`initialized, this`state
      ensures Valid() && (state, Fail(rv)) == DoInitialize(old(state), reserved)
    {
      hide Session.Valid;
      if initialized {
        return CKR_CRYPTOKI_ALREADY_INITIALIZED;
      }
      if reserved {
        return CKR_ARGUMENTS_BAD;
      }
      initialized := true;
      state := state.(initialized := true);
      rv := CKR_OK;
    }

    // session_clear_sign and open = 0, for every record.
    method ClearAll()
      requires Linked()
      modifies this`state, sessions
      ensures Linked() && state == old(state).(slots := FinalizedSlots(old(state).slots))
    {
      hide Finalized; hide Session.Valid, Shape;
      for i := 0 to MAX_SESSIONS
        invariant Linked() && state == old(state).(slots := state.slots)
        invariant forall j :: 0 <= j < i ==> state.slots[j] == Finalized(old(state).slots[j])
        invariant forall j :: i <= j < MAX_SESSIONS ==> state.slots[j] == old(state).slots[j]
      {
        FinalizeAt(i + 1);
      }
    }

    method C_Finalize(args: bool) returns (rv: nat)
      requires Valid()
      modifies this, sessions
      ensures Valid() && owned == old(owned) && (state, Fail(rv)) == DoFinalize(old(state), args)
    {
      FinalizeKeepsInv(state, args);
      hide Inv, FinalizedSlots; hide Session.Valid, Shape;
      if args {
        return CKR_ARGUMENTS_BAD;
      }
      if !initialized {
        return CKR_CRYPTOKI_NOT_INITIALIZED;
      }
      ClearAll();
      FreeCache();
      SetInitialized(false);
      rv := CKR_OK;
    }

    method SetInitialized(on: bool)
      requires Linked()
      modifies this`initialized, this`state
      ensures Linked() && state == old(state).(initialized := on)
    {
      hide Session.Valid;
      initialized := on;
      state := state.(initialized := on);
    }

    // The slot scan of C_OpenSession.
    method FirstFree() returns (k: nat)
      requires Linked()
      ensures k == FirstClosed(state.slots)
    {
      k := 0;
      while k < MAX_SESSIONS && sessions[k].open
        invariant 0 <= k <= MAX_SESSIONS && forall j :: 0 <= j < k ==> state.slots[j].open
      {
        k := k + 1;
      }
      FirstClosedIs(state.slots, k);
    }

    method C_OpenSession(slot: nat, flags: nat, hasOut: bool) returns (rv: nat, out: Output)
      requires Valid()
      modifies this, sessions
      ensures Valid() && owned == old(owned)
      ensures (state, Reply(rv, out, [])) == DoOpen(old(state), slot, flags, hasOut)
    {
      OpenKeepsInv(state, slot, flags, hasOut);
      hide Inv, FirstClosed; hide Session.Valid, Shape;
      out := Nothing;
      if !initialized {
        return CKR_CRYPTOKI_NOT_INITIALIZED, out;
      }
      if slot != 0 {
        return CKR_SLOT_ID_INVALID, out;
      }
      if !hasOut || (flags / 4) % 2 == 0 {
        return CKR_ARGUMENTS_BAD, out;
      }
      var k := FirstFree();
      if k == MAX_SESSIONS {
        return CKR_HOST_MEMORY, out;
      }
      ReopenAt(k + 1, (flags / 2) % 2 == 1);
      rv, out := CKR_OK, Opened(k + 1);
    }

    method C_CloseSession(h: nat) returns (rv: nat)
      requires Valid()
      modifies this`state, sessions
      ensures Valid() && (state, Fail(rv)) == DoClose(old(state), h)
    {
      CloseKeepsInv(state, h, 0);
      hide Inv, ClearSign; hide Session.Valid, Shape;
      if !initialized {
        return CKR_CRYPTOKI_NOT_INITIALIZED;
      }
      var s := Get(h);
      if s == null {
        return CKR_SESSION_HANDLE_INVALID;
      }
      DropAt(h);
      rv := CKR_OK;
    }

    method C_CloseAllSessions(slot: nat) returns (rv: nat)
      requires Valid()
      modifies this`state, sessions
      ensures Valid() && (state, Fail(rv)) == DoCloseAll(old(state), slot)
    {
      CloseKeepsInv(state, 0, slot);
      hide Inv, ClearSign; hide Session.Valid, Shape;
      if !initialized {
        return CKR_CRYPTOKI_NOT_INITIALIZED;
      }
      if slot != 0 {
        return CKR_SLOT_ID_INVALID;
      }
      for i := 0 to MAX_SESSIONS
        invariant Linked() && state == old(state).(slots := state.slots)
        invariant forall j :: 0 <= j < i ==> state.slots[j] == ZEROED
      {
        DropAt(i + 1);
      }
      assert state.slots == ZeroedSlots(old(state).slots);
      rv := CKR_OK;
    }

    // login_rpc
    method LoginExchange(given: Memory, net: Net) returns (rv: nat, ghost sent: bytes)
      requires Linked() && state.cache == FREED
      modifies this`loggedIn, this`pin, this`alias, this`keyType, this`partA, this`partB, this`ecPoint, this`certs,
        this`state
      ensures Linked() && state == old(state).(cache := LoginRpc(given, net).cache)
      ensures rv == LoginRpc(given, net).rv && sent == LoginRpc(given, net).sent
    {
      hide Session.Valid;
      hide Frame, Outgoing, ParseInfo, DerOctet, Labelled, Rpc, Field, Label;
      sent := [];
      if |given| != PIN_LEN {
        return CKR_PIN_INCORRECT, sent;
      }
      var status, body;
      rv, status, body, sent := CallRpc(OP_INFO, [0, |given|] + given, net);
      PinField(given);
      if rv != CKR_OK {
        return rv, sent;
      }
      if status == STATUS_PIN {
        return CKR_PIN_INCORRECT, sent;
      }
      if status != STATUS_OK {
        return CKR_DEVICE_ERROR, sent;
      }
      rv := ParseIn(body);
      if rv != CKR_OK {
        Drop();
        return rv, sent;
      }
      pin := given;
      state := state.(cache := Globals());
    }

    method C_Login(h: nat, user: nat, given: Ptr, net: Net) returns (rv: nat, ghost sent: bytes)
      requires Valid()
      modifies this
      ensures Valid() && owned == old(owned)
      ensures (state, Reply(rv, Nothing, sent)) == DoLogin(old(state), h, user, given, net)
    {
      LoginKeepsInv(state, h, user, given, net);
      FreedUnlessLoggedIn(state);
      hide Inv, LoginRpc; hide Session.Valid, Shape;
      sent := [];
      if !initialized {
        return CKR_CRYPTOKI_NOT_INITIALIZED, sent;
      }
      var s := Get(h);
      if s == null {
        return CKR_SESSION_HANDLE_INVALID, sent;
      }
      if user != CKU_USER {
        return CKR_USER_TYPE_INVALID, sent;
      }
      if loggedIn {
        return CKR_USER_ALREADY_LOGGED_IN, sent;
      }
      if given.Null? {
        return CKR_ARGUMENTS_BAD, sent;
      }
      rv, sent := LoginExchange(given.data, net);
    }

    method C_Logout(h: nat) returns (rv: nat)
      requires Valid()
      modifies this
      ensures Valid() && owned == old(owned) && (state, Fail(rv)) == DoLogout(old(state), h)
    {
      LogoutKeepsInv(state, h);
      hide Inv; hide Session.Valid, Shape;
      if !initialized {
        return CKR_CRYPTOKI_NOT_INITIALIZED;
      }
      var s := Get(h);
      if s == null {
        return CKR_SESSION_HANDLE_INVALID;
      }
      if !loggedIn {
        return CKR_USER_NOT_LOGGED_IN;
      }
      FreeCache();
      rv := CKR_OK;
    }

    // object_matches
    method ObjectMatches(h: nat, tmpl: seq<Attr>) returns (yes: bool)
      requires ObjectOk(Globals(), h)
      ensures yes == Matches(Globals(), h, tmpl)
    {
      hide AttrEquals;
      for i := 0 to |tmpl|
        invariant forall j :: 0 <= j < i ==> AttrEquals(Globals(), h, tmpl[j])
      {
        var same := AttributeEquals(Globals(), h, tmpl[i]);
        if !same {
          return false;
        }
      }
      yes := true;
    }

    // The candidate loop of C_FindObjectsInit.
    method Search(tmpl: seq<Attr>) returns (hits: seq<nat>)
      ensures hits == AllMatches(Globals(), tmpl)
    {
      hide Matches;
      hits := [];
      for h := 1 to 2 + |certs|
        invariant hits == MatchesBelow(Globals(), tmpl, h)
      {
        var yes := ObjectMatches(h, tmpl);
        if yes {
          hits := hits + [h];
        }
      }
    }

    ghost predicate CanRead(h: nat, obj: nat)
      reads this
    {
      state.initialized && IsOpen(state, h) && state.cache.loggedIn && ObjectOk(state.cache, obj)
    }

    // Every entry of the template is filled in place, or none is touched.
    method C_GetAttributeValue(h: nat, obj: nat, tmpl: array?<Entry>, count: nat) returns (rv: nat)
      requires Valid() && tmpl !in owned
      requires tmpl != null ==> count == tmpl.Length && AllBacked(tmpl[..])
      modifies tmpl
      ensures Valid() && state == old(state)
      ensures tmpl != null && CanRead(h, obj) ==>
        tmpl[..] == Filled(state.cache, obj, old(tmpl[..])) && Overall(Outcomes(state.cache, obj, old(tmpl[..])), rv)
      ensures tmpl != null && !CanRead(h, obj) ==>
        rv != CKR_OK && tmpl[..] == old(tmpl[..])
      ensures !state.initialized ==> rv == CKR_CRYPTOKI_NOT_INITIALIZED
      ensures state.initialized && !IsOpen(state, h) ==> rv == CKR_SESSION_HANDLE_INVALID
      ensures state.initialized && IsOpen(state, h) && !state.cache.loggedIn ==> rv == CKR_USER_NOT_LOGGED_IN
      ensures IsOpen(state, h) && state.cache.loggedIn && !ObjectOk(state.cache, obj) ==>
        rv == CKR_OBJECT_HANDLE_INVALID
      ensures CanRead(h, obj) && tmpl == null ==>
        rv == if count == 0 then CKR_OK else CKR_OBJECT_HANDLE_INVALID
    {
      hide Filled, Outcomes, Overall; hide Session.Valid;
      if !initialized {
        return CKR_CRYPTOKI_NOT_INITIALIZED;
      }
      var s := Get(h);
      if s == null {
        return CKR_SESSION_HANDLE_INVALID;
      }
      if !loggedIn {
        return CKR_USER_NOT_LOGGED_IN;
      }
      if !ObjectOk(Globals(), obj) || (count != 0 && tmpl == null) {
        return CKR_OBJECT_HANDLE_INVALID;
      }
      if tmpl == null {
        return CKR_OK;
      }
      rv := FillAll(Globals(), obj, tmpl);
    }

    method C_FindObjectsInit(h: nat, tmpl: Option<seq<Attr>>, count: nat) returns (rv: nat)
      requires Valid()
      modifies this`state, sessions
      ensures Valid() && (state, Fail(rv)) == DoFindInit(old(state), h, tmpl, count)
    {
      FindInitKeepsInv(state, h, tmpl, count);
      hide Inv, AllMatches; hide Session.Valid, Shape;
      if !initialized {
        return CKR_CRYPTOKI_NOT_INITIALIZED;
      }
      var s := Get(h);
      if s == null {
        return CKR_SESSION_HANDLE_INVALID;
      }
      if s.finding {
        return CKR_OPERATION_ACTIVE;
      }
      if tmpl.None? && count != 0 {
        return CKR_ARGUMENTS_BAD;
      }
      var hits: seq<nat> := [];
      if loggedIn {
        hits := Search(if tmpl.None? then [] else tmpl.value);
      }
      SearchAt(h, true, hits);
      rv := CKR_OK;
    }

    method C_FindObjects(h: nat, hasOut: bool, max: nat) returns (rv: nat, out: Output)
      requires Valid()
      modifies this`state, sessions
      ensures Valid() && (state, Reply(rv, out, [])) == DoFind(old(state), h, hasOut, max)
    {
      FindKeepsInv(state, h, hasOut, max);
      SentWithin(state, h);
      hide Inv; hide Session.Valid, Shape;
      out := Nothing;
      if !initialized {
        return CKR_CRYPTOKI_NOT_INITIALIZED, out;
      }
      var s := Get(h);
      if s == null {
        return CKR_SESSION_HANDLE_INVALID, out;
      }
      if !s.finding {
        return CKR_OPERATION_NOT_INITIALIZED, out;
      }
      if !hasOut {
        return CKR_ARGUMENTS_BAD, out;
      }
      var hs := TakeAt(h, max);
      rv, out := CKR_OK, Handles(hs);
    }

    method C_FindObjectsFinal(h: nat) returns (rv: nat)
      requires Valid()
      modifies this`state, sessions
      ensures Valid() && (state, Fail(rv)) == DoFindFinal(old(state), h)
    {
      FindKeepsInv(state, h, false, 0);
      hide Inv; hide Session.Valid, Shape;
      if !initialized {
        return CKR_CRYPTOKI_NOT_INITIALIZED;
      }
      var s := Get(h);
      if s == null {
        return CKR_SESSION_HANDLE_INVALID;
      }
      SearchAt(h, false, []);
      rv := CKR_OK;
    }

    method C_SignInit(h: nat, mech: Option<nat>, key: nat) returns (rv: nat)
      requires Valid()
      modifies this`state, sessions
      ensures Valid() && (state, Fail(rv)) == DoSignInit(old(state), h, mech, key)
    {
      SignInitKeepsInv(state, h, mech, key);
      NoBufferUnlessSigning(state, h);
      hide Inv, KnownMech, RsaMech, EcMech; hide Session.Valid, Shape;
      if !initialized {
        return CKR_CRYPTOKI_NOT_INITIALIZED;
      }
      var s := Get(h);
      if s == null {
        return CKR_SESSION_HANDLE_INVALID;
      }
      if !loggedIn {
        return CKR_USER_NOT_LOGGED_IN;
      }
      if mech.None? {
        return CKR_ARGUMENTS_BAD;
      }
      if s.signing {
        return CKR_OPERATION_ACTIVE;
      }
      if key != KEY_HANDLE {
        return CKR_KEY_HANDLE_INVALID;
      }
      if !KnownMech(mech.value) {
        return CKR_MECHANISM_INVALID;
      }
      if (keyType == KEY_RSA && !RsaMech(mech.value)) || (keyType == KEY_EC && !EcMech(mech.value)) {
        return CKR_KEY_TYPE_INCONSISTENT;
      }
      BeginAt(h, mech.value);
      rv := CKR_OK;
    }

    // sign_rpc
    method SignExchange(mech: nat, data: bytes, net: Net) returns (rv: nat, sig: bytes, ghost sent: bytes)
      ensures rv == SignRpc(Globals().pin, mech, data, net).rv && sig == SignRpc(Globals().pin, mech, data, net).sig
      ensures sent == SignRpc(Globals().pin, mech, data, net).sent
    {
      hide Frame, Outgoing, Rpc;
      sig, sent := [], [];
      if |pin| != PIN_LEN || |data| > MAX_FRAME {
        return CKR_ARGUMENTS_BAD, sig, sent;
      }
      var req := [0, |pin|] + pin;
      PinField(pin);
      req := req + (BE(mech, 4) + (BE(|data|, 4) + data));
      assert req == SignRequest(pin, mech, data);
      var status, body;
      rv, status, body, sent := CallRpc(OP_SIGN, req, net);
      if rv != CKR_OK {
        return rv, sig, sent;
      }
      if status == STATUS_PIN {
        return CKR_PIN_INCORRECT, sig, sent;
      }
      if status == STATUS_MECHANISM {
        return CKR_MECHANISM_INVALID, sig, sent;
      }
      if status != STATUS_OK {
        return CKR_GENERAL_ERROR, sig, sent;
      }
      if |body| < 4 || |body| - 4 != Num(body[..4]) {
        return CKR_DEVICE_ERROR, sig, sent;
      }
      sig := body[4..];
    }

    // finish_sign
    method Finish(h: nat, data: bytes, sig: SigBuf, net: Net) returns (rv: nat, out: Output, ghost sent: bytes)
      requires Linked() && 1 <= h <= MAX_SESSIONS && !sig.NoLength?
      modifies this`state, sessions
      ensures Linked() && (state, Reply(rv, out, sent)) == FinishSign(old(state), h, data, sig, net)
    {
      hide SignRpc, ClearSign; hide Session.Valid, Shape;
      var need := SigLen(Globals());
      out, sent := Nothing, [];
      if sig.Query? {
        return CKR_OK, Length(need), sent;
      }
      if sig.cap < need {
        return CKR_BUFFER_TOO_SMALL, Length(need), sent;
      }
      var mech := MechAt(h);
      var made;
      rv, made, sent := SignExchange(mech, data, net);
      ClearAt(h);
      if rv != CKR_OK {
        return rv, out, sent;
      }
      if |made| > sig.cap {
        return CKR_BUFFER_TOO_SMALL, Length(need), sent;
      }
      out := Signature(made);
    }

    method C_Sign(h: nat, data: Ptr, sig: SigBuf, net: Net) returns (rv: nat, out: Output, ghost sent: bytes)
      requires Valid()
      modifies this`state, sessions
      ensures Valid() && (state, Reply(rv, out, sent)) == DoSign(old(state), h, data, sig, net)
    {
      SignKeepsInv(state, h, data, sig, net);
      hide Inv, FinishSign; hide Session.Valid, Shape;
      out, sent := Nothing, [];
      if !initialized {
        return CKR_CRYPTOKI_NOT_INITIALIZED, out, sent;
      }
      var s := Get(h);
      if s == null {
        return CKR_SESSION_HANDLE_INVALID, out, sent;
      }
      if !s.signing {
        return CKR_OPERATION_NOT_INITIALIZED, out, sent;
      }
      if sig.NoLength? || (data.Null? && data.len != 0) {
        return CKR_ARGUMENTS_BAD, out, sent;
      }
      if s.len != 0 {
        return CKR_OPERATION_ACTIVE, out, sent;
      }
      rv, out, sent := Finish(h, if data.Null? then [] else data.data, sig, net);
    }

    method C_SignFinal(h: nat, sig: SigBuf, net: Net) returns (rv: nat, out: Output, ghost sent: bytes)
      requires Valid()
      modifies this`state, sessions
      ensures Valid() && (state, Reply(rv, out, sent)) == DoSignFinal(old(state), h, sig, net)
    {
      SignKeepsInv(state, h, Null(0), sig, net);
      hide Inv, FinishSign; hide Session.Valid, Shape;
      out, sent := Nothing, [];
      if !initialized {
        return CKR_CRYPTOKI_NOT_INITIALIZED, out, sent;
      }
      var s := Get(h);
      if s == null {
        return CKR_SESSION_HANDLE_INVALID, out, sent;
      }
      if !s.signing {
        return CKR_OPERATION_NOT_INITIALIZED, out, sent;
      }
      if sig.NoLength? {
        return CKR_ARGUMENTS_BAD, out, sent;
      }
      var data := BufferAt(h);
      rv, out, sent := Finish(h, data, sig, net);
    }

    method C_SignUpdate(h: nat, part: Ptr, memory: bool) returns (rv: nat)
      requires Valid()
      modifies this`state, this`owned, sessions, owned
      ensures Valid() && fresh(owned - old(owned))
      ensures (state, Fail(rv)) == DoSignUpdate(old(state), h, part, memory)
    {
      SignUpdateKeepsInv(state, h, part, memory);
      hide Inv, AppendSign; hide Session.Valid, Shape;
      if !initialized {
        return CKR_CRYPTOKI_NOT_INITIALIZED;
      }
      var s := Get(h);
      if s == null {
        return CKR_SESSION_HANDLE_INVALID;
      }
      if !s.signing {
        return CKR_OPERATION_NOT_INITIALIZED;
      }
      if part.Null? && part.len != 0 {
        return CKR_ARGUMENTS_BAD;
      }
      rv := AppendTo(h, if part.Null? then [] else part.data, memory);
    }
  }
}
