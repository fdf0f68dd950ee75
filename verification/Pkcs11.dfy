// The PKCS#11 module (pkcs11/hotbox.c) as a state machine: its state, what each
// C_* call answers, and what it leaves behind. The imperative module is in
// Hotbox.dfy and is proved to do exactly this; runs are studied in Runs.dfy.

module Pkcs11 {
  import opened Bytes
  import opened Frames
  import opened InfoCodec

  const CKR_OK := 0x0
  const CKR_HOST_MEMORY := 0x2
  const CKR_SLOT_ID_INVALID := 0x3
  const CKR_GENERAL_ERROR := 0x5
  const CKR_ARGUMENTS_BAD := 0x7
  const CKR_DEVICE_ERROR := 0x30
  const CKR_KEY_HANDLE_INVALID := 0x60
  const CKR_KEY_TYPE_INCONSISTENT := 0x63
  const CKR_MECHANISM_INVALID := 0x70
  const CKR_OPERATION_ACTIVE := 0x90
  const CKR_OPERATION_NOT_INITIALIZED := 0x91
  const CKR_PIN_INCORRECT := 0xa0
  const CKR_SESSION_HANDLE_INVALID := 0xb3
  const CKR_USER_ALREADY_LOGGED_IN := 0x100
  const CKR_USER_NOT_LOGGED_IN := 0x101
  const CKR_USER_TYPE_INVALID := 0x103
  const CKR_BUFFER_TOO_SMALL := 0x150
  const CKR_CRYPTOKI_NOT_INITIALIZED := 0x190
  const CKR_CRYPTOKI_ALREADY_INITIALIZED := 0x191

  const CKU_USER := 1
  const KEY_HANDLE := 1
  const MAX_SESSIONS := 4

  // An object in C memory is smaller than half the address space.
  type Memory = b: bytes | |b| < 0x8000_0000_0000_0000

  // A pointer argument with its length argument.
  datatype Ptr = Null(len: nat) | Mem(data: Memory)

  // The (signature, length) pair of an output call: the length pointer may be
  // NULL, the buffer may be NULL to ask for the length.
  datatype SigBuf = NoLength | Query | Room(cap: nat)

  datatype Attr = Attr(typ: nat, value: Ptr)

  datatype CachedCert = CachedCert(fields: CertFields, name: bytes)

  datatype Cache = Cache(loggedIn: bool, pin: bytes, alias: bytes, keyType: byte,
                         partA: bytes, partB: bytes, ecPoint: bytes, certs: seq<CachedCert>)

  const FREED := Cache(false, [], [], 0, [], [], [], [])

  datatype Slot = Slot(open: bool, rw: bool, finding: bool, found: seq<nat>, sent: nat,
                       signing: bool, mech: nat, data: bytes, cap: nat)

  const ZEROED := Slot(false, false, false, [], 0, false, 0, [], 0)

  datatype State = State(initialized: bool, cache: Cache, slots: seq<Slot>)

  const LOADED := State(false, FREED, [ZEROED, ZEROED, ZEROED, ZEROED])

  datatype Call =
    | Initialize(reserved: bool)
    | Finalize(args: bool)
    | OpenSession(slot: nat, flags: nat, hasOut: bool)
    | CloseSession(h: nat)
    | CloseAllSessions(slot: nat)
    | Login(h: nat, user: nat, pin: Ptr, net: Net)
    | Logout(h: nat)
    | FindInit(h: nat, tmpl: Option<seq<Attr>>, count: nat)
    | Find(h: nat, hasOut: bool, max: nat)
    | FindFinal(h: nat)
    | SignInit(h: nat, mech: Option<nat>, key: nat)
    | Sign(h: nat, data: Ptr, sig: SigBuf, net: Net)
    | SignUpdate(h: nat, data: Ptr, memory: bool)
    | SignFinal(h: nat, sig: SigBuf, net: Net)

  datatype Output = Nothing | Opened(h: nat) | Handles(hs: seq<nat>) | Length(n: nat) | Signature(sig: bytes)

  // The return value, what was stored through output pointers, and the bytes written to the socket.
  datatype Reply = Reply(rv: nat, out: Output, sent: bytes)

  function Fail(rv: nat): Reply {
    Reply(rv, Nothing, [])
  }

  predicate RsaMech(m: nat) {
    m == 0x1 || m == 0x40 || m == 0x41 || m == 0x42 || m == 0x43 || m == 0x44 || m == 0x45
  }

  predicate EcMech(m: nat) {
    m == 0x1041 || m == 0x1044 || m == 0x1045 || m == 0x1046
  }

  predicate KnownMech(m: nat) {
    RsaMech(m) || EcMech(m)
  }

  predicate IsOpen(m: State, h: nat) {
    1 <= h <= MAX_SESSIONS && h <= |m.slots| && m.slots[h - 1].open
  }

  function Set(m: State, h: nat, s: Slot): State
    requires 1 <= h <= |m.slots|
  {
    m.(slots := m.slots[h - 1 := s])
  }

  function ClearSign(s: Slot): Slot {
    s.(data := [], cap := 0, signing := false)
  }

  // ----- the cached token description

  // printf's %.*s stops at a NUL byte.
  function UpToNul(s: bytes): (r: bytes)
    ensures r <= s && 0 !in r
    ensures r == s || (|r| < |s| && s[|r|] == 0)
  {
    if s == [] || s[0] == 0 then [] else [s[0]] + UpToNul(s[1..])
  }

  // "<alias>" for the leaf and "<alias>.ca<n>" for the others.
  function Label(alias: bytes, n: nat): bytes
    requires n < MAX_CERTS
  {
    if n == 0 then alias else UpToNul(alias) + [0x2e, 0x63, 0x61, 0x30 + n]
  }

  function Labelled(alias: bytes, certs: seq<CertFields>): (cs: seq<CachedCert>)
    requires |certs| <= MAX_CERTS
    ensures |cs| == |certs|
  {
    seq(|certs|, n requires 0 <= n < |certs| => CachedCert(certs[n], Label(alias, n)))
  }

  function EcPoint(i: Info): bytes
    requires Acceptable(i)
  {
    if i.kind == KEY_EC then DerOctet(i.b) else []
  }

  function CacheOf(i: Info, pin: bytes): Cache
    requires Acceptable(i)
  {
    Cache(true, pin, i.alias, i.kind, i.a, i.b, EcPoint(i), Labelled(i.alias, i.certs))
  }

  function ParsedInfo(body: bytes): (i: Option<Info>)
    ensures i.Some? ==> Acceptable(i.value)
  {
    if ParseInfo(body).Some? then OnlyEncodingsParse(body); ParseInfo(body) else None
  }

  // ----- the socket

  datatype RpcResult = RpcError(rv: nat) | RpcReply(status: byte, body: bytes)

  function Rpc(net: Net): RpcResult {
    match net
    case Down(_) => RpcError(CKR_DEVICE_ERROR)
    case NoMemory(_) => RpcError(CKR_HOST_MEMORY)
    case Answer(stream) =>
      match Unframe(stream)
      case NoFrame => RpcError(CKR_DEVICE_ERROR)
      case Received(status, body, _) => RpcReply(status, body)
  }

  function InfoRequest(pin: bytes): bytes {
    Field(pin, 2)
  }

  function SignRequest(pin: bytes, mech: nat, data: bytes): bytes {
    Field(pin, 2) + (BE(mech, 4) + Field(data, 4))
  }

  datatype LoginResult = LoginResult(rv: nat, cache: Cache, sent: bytes)

  function LoginRpc(pin: bytes, net: Net): LoginResult {
    if |pin| != PIN_LEN then LoginResult(CKR_PIN_INCORRECT, FREED, [])
    else
      var sent := Outgoing(net, Frame(OP_INFO, InfoRequest(pin)));
      match Rpc(net)
      case RpcError(rv) => LoginResult(rv, FREED, sent)
      case RpcReply(status, body) =>
        if status == STATUS_PIN then LoginResult(CKR_PIN_INCORRECT, FREED, sent)
        else if status != STATUS_OK then LoginResult(CKR_DEVICE_ERROR, FREED, sent)
        else
          match ParsedInfo(body)
          case None => LoginResult(CKR_DEVICE_ERROR, FREED, sent)
          case Some(i) => LoginResult(CKR_OK, CacheOf(i, pin), sent)
  }

  datatype SignResult = SignResult(rv: nat, sig: bytes, sent: bytes)

  function SignAnswer(r: RpcResult, sent: bytes): SignResult {
    match r
    case RpcError(rv) => SignResult(rv, [], sent)
    case RpcReply(status, body) =>
      if status == STATUS_PIN then SignResult(CKR_PIN_INCORRECT, [], sent)
      else if status == STATUS_MECHANISM then SignResult(CKR_MECHANISM_INVALID, [], sent)
      else if status != STATUS_OK then SignResult(CKR_GENERAL_ERROR, [], sent)
      else if |body| < 4 || Num(body[..4]) != |body| - 4 then SignResult(CKR_DEVICE_ERROR, [], sent)
      else SignResult(CKR_OK, body[4..], sent)
  }

  // No request is ever written without a 32-byte PIN.
  function SignRpc(pin: bytes, mech: nat, data: bytes, net: Net): SignResult {
    if |pin| != PIN_LEN || |data| > MAX_FRAME then SignResult(CKR_ARGUMENTS_BAD, [], [])
    else SignAnswer(Rpc(net), Outgoing(net, Frame(OP_SIGN, SignRequest(pin, mech, data))))
  }

  // The signature length the client predicts.
  function SigLen(c: Cache): nat {
    if c.keyType == KEY_RSA then |c.partA|
    else if c.keyType == KEY_EC && |c.partB| > 0 then |c.partB| - 1
    else 0
  }

  // ----- objects and attributes

  datatype AttrValue = Value(v: bytes) | Sensitive | Invalid

  const CKA_CLASS := 0x0
  const CKA_TOKEN := 0x1
  const CKA_PRIVATE := 0x2
  const CKA_LABEL := 0x3
  const CKA_VALUE := 0x11
  const CKA_CERTIFICATE_TYPE := 0x80
  const CKA_ISSUER := 0x81
  const CKA_SERIAL_NUMBER := 0x82
  const CKA_KEY_TYPE := 0x100
  const CKA_SUBJECT := 0x101
  const CKA_ID := 0x102
  const CKA_SENSITIVE := 0x103
  const CKA_ENCRYPT := 0x104
  const CKA_DECRYPT := 0x105
  const CKA_SIGN := 0x108
  const CKA_MODULUS := 0x120
  const CKA_MODULUS_BITS := 0x121
  const CKA_PUBLIC_EXPONENT := 0x122
  const CKA_EXTRACTABLE := 0x162
  const CKA_NEVER_EXTRACTABLE := 0x164
  const CKA_ALWAYS_SENSITIVE := 0x165
  const CKA_EC_PARAMS := 0x180
  const CKA_EC_POINT := 0x181

  const YES: bytes := [1]
  const NO: bytes := [0]
  const KEY_ID: bytes := [1]

  // A CK_ULONG in memory: eight bytes, least significant first.
  function ULong(n: nat): Memory {
    LE(n, 8)
  }

  function LE(n: nat, k: nat): (b: bytes)
    ensures |b| == k
  {
    if k == 0 then [] else [n % 256] + LE(n / 256, k - 1)
  }

  function KeyAttr(c: Cache, t: nat): AttrValue {
    if 0x123 <= t <= 0x128 then Sensitive
    else if t == CKA_CLASS then Value(ULong(0x3))
    else if t == CKA_KEY_TYPE then Value(ULong(if c.keyType == KEY_RSA then 0x0 else 0x3))
    else if t == CKA_TOKEN || t == CKA_PRIVATE || t == CKA_SENSITIVE || t == CKA_SIGN
      || t == CKA_ALWAYS_SENSITIVE || t == CKA_NEVER_EXTRACTABLE then Value(YES)
    else if t == CKA_EXTRACTABLE || t == CKA_ENCRYPT || t == CKA_DECRYPT then Value(NO)
    else if t == CKA_LABEL then Value(c.alias)
    else if t == CKA_ID then Value(KEY_ID)
    else if t == CKA_MODULUS && c.keyType == KEY_RSA then Value(c.partA)
    else if t == CKA_PUBLIC_EXPONENT && c.keyType == KEY_RSA then Value(c.partB)
    else if t == CKA_MODULUS_BITS && c.keyType == KEY_RSA then Value(ULong(BitLen(Num(c.partA))))
    else if t == CKA_EC_PARAMS && c.keyType == KEY_EC then Value(c.partA)
    else if t == CKA_EC_POINT && c.keyType == KEY_EC then Value(c.ecPoint)
    else Invalid
  }

  function CertAttr(c: CachedCert, t: nat): AttrValue {
    if t == CKA_CLASS then Value(ULong(0x1))
    else if t == CKA_CERTIFICATE_TYPE then Value(ULong(0x0))
    else if t == CKA_TOKEN then Value(YES)
    else if t == CKA_PRIVATE then Value(NO)
    else if t == CKA_LABEL then Value(c.name)
    else if t == CKA_ID then Value(KEY_ID)
    else if t == CKA_VALUE then Value(c.fields.der)
    else if t == CKA_SUBJECT then Value(c.fields.subject)
    else if t == CKA_ISSUER then Value(c.fields.issuer)
    else if t == CKA_SERIAL_NUMBER then Value(c.fields.serial)
    else Invalid
  }

  predicate ObjectOk(c: Cache, h: nat) {
    h == KEY_HANDLE || 2 <= h < 2 + |c.certs|
  }

  function AttrOne(c: Cache, h: nat, t: nat): AttrValue
    requires ObjectOk(c, h)
  {
    if h == KEY_HANDLE then KeyAttr(c, t) else CertAttr(c.certs[h - 2], t)
  }

  predicate AttrEquals(c: Cache, h: nat, a: Attr)
    requires ObjectOk(c, h)
  {
    var v := AttrOne(c, h, a.typ);
    v.Value? && a.value.Mem? && v.v == a.value.data
  }

  predicate Matches(c: Cache, h: nat, tmpl: seq<Attr>)
    requires ObjectOk(c, h)
  {
    forall i :: 0 <= i < |tmpl| ==> AttrEquals(c, h, tmpl[i])
  }

  // The matching handles below top, in the order they are tried.
  function MatchesBelow(c: Cache, tmpl: seq<Attr>, top: nat): seq<nat>
    requires 1 <= top <= 2 + |c.certs|
  {
    if top == 1 then []
    else MatchesBelow(c, tmpl, top - 1) + if Matches(c, top - 1, tmpl) then [top - 1] else []
  }

  function AllMatches(c: Cache, tmpl: seq<Attr>): seq<nat> {
    MatchesBelow(c, tmpl, 2 + |c.certs|)
  }

  // ----- the calls

  function FirstClosed(slots: seq<Slot>): (k: nat)
    ensures k <= |slots|
    ensures k < |slots| ==> !slots[k].open
    ensures forall j :: 0 <= j < k ==> slots[j].open
  {
    if slots == [] || !slots[0].open then 0 else 1 + FirstClosed(slots[1..])
  }

  // The capacity after doubling until the need is met.
  function Grown(cap: nat, need: nat): (c: nat)
    requires cap > 0
    ensures c >= need && c >= cap
    decreases need - cap
  {
    if cap >= need then cap else Grown(cap * 2, need)
  }

  function CapFor(cap: nat, need: nat): (c: nat)
    ensures c >= need
    ensures need <= cap ==> c == cap
  {
    if need <= cap then cap else Grown(if cap == 0 then 256 else cap * 2, need)
  }

  function AppendSign(s: Slot, p: bytes, memory: bool): (Slot, nat) {
    var need := |s.data| + |p|;
    if need > MAX_FRAME then (s, CKR_GENERAL_ERROR)
    else if need > s.cap && !memory then (s, CKR_HOST_MEMORY)
    else (s.(data := s.data + p, cap := CapFor(s.cap, need)), CKR_OK)
  }

  function FinishSign(m: State, h: nat, data: bytes, sig: SigBuf, net: Net): (State, Reply)
    requires 1 <= h <= |m.slots| && !sig.NoLength?
  {
    var s, need := m.slots[h - 1], SigLen(m.cache);
    if sig.Query? then (m, Reply(CKR_OK, Length(need), []))
    else if sig.cap < need then (m, Reply(CKR_BUFFER_TOO_SMALL, Length(need), []))
    else
      var r := SignRpc(m.cache.pin, s.mech, data, net);
      var m' := Set(m, h, ClearSign(s));
      if r.rv != CKR_OK then (m', Reply(r.rv, Nothing, r.sent))
      else if |r.sig| > sig.cap then (m', Reply(CKR_BUFFER_TOO_SMALL, Length(need), r.sent))
      else (m', Reply(CKR_OK, Signature(r.sig), r.sent))
  }

  function Contents(p: Ptr): bytes {
    if p.Null? then [] else p.data
  }

  predicate Missing(p: Ptr) {
    p.Null? && p.len != 0
  }

  function DoOpen(m: State, slot: nat, flags: nat, hasOut: bool): (State, Reply) {
    if !m.initialized then (m, Fail(CKR_CRYPTOKI_NOT_INITIALIZED))
    else if slot != 0 then (m, Fail(CKR_SLOT_ID_INVALID))
    else if !hasOut || (flags / 4) % 2 == 0 then (m, Fail(CKR_ARGUMENTS_BAD))
    else
      var k := FirstClosed(m.slots);
      if k == |m.slots| then (m, Fail(CKR_HOST_MEMORY))
      else (Set(m, k + 1, ZEROED.(open := true, rw := (flags / 2) % 2 == 1)), Reply(CKR_OK, Opened(k + 1), []))
  }

  function DoLogin(m: State, h: nat, user: nat, pin: Ptr, net: Net): (State, Reply) {
    if !m.initialized then (m, Fail(CKR_CRYPTOKI_NOT_INITIALIZED))
    else if !IsOpen(m, h) then (m, Fail(CKR_SESSION_HANDLE_INVALID))
    else if user != CKU_USER then (m, Fail(CKR_USER_TYPE_INVALID))
    else if m.cache.loggedIn then (m, Fail(CKR_USER_ALREADY_LOGGED_IN))
    else if pin.Null? then (m, Fail(CKR_ARGUMENTS_BAD))
    else
      var r := LoginRpc(pin.data, net);
      (m.(cache := r.cache), Reply(r.rv, Nothing, r.sent))
  }

  function DoFindInit(m: State, h: nat, tmpl: Option<seq<Attr>>, count: nat): (State, Reply) {
    if !m.initialized then (m, Fail(CKR_CRYPTOKI_NOT_INITIALIZED))
    else if !IsOpen(m, h) then (m, Fail(CKR_SESSION_HANDLE_INVALID))
    else if m.slots[h - 1].finding then (m, Fail(CKR_OPERATION_ACTIVE))
    else if tmpl.None? && count != 0 then (m, Fail(CKR_ARGUMENTS_BAD))
    else
      (Set(m, h, m.slots[h - 1].(finding := true, found := FoundFor(m.cache, tmpl), sent := 0)), Fail(CKR_OK))
  }

  function FoundFor(c: Cache, tmpl: Option<seq<Attr>>): seq<nat> {
    if !c.loggedIn then [] else AllMatches(c, if tmpl.None? then [] else tmpl.value)
  }

  function DoFind(m: State, h: nat, hasOut: bool, max: nat): (State, Reply) {
    if !m.initialized then (m, Fail(CKR_CRYPTOKI_NOT_INITIALIZED))
    else if !IsOpen(m, h) then (m, Fail(CKR_SESSION_HANDLE_INVALID))
    else if !m.slots[h - 1].finding then (m, Fail(CKR_OPERATION_NOT_INITIALIZED))
    else if !hasOut then (m, Fail(CKR_ARGUMENTS_BAD))
    else
      var s := m.slots[h - 1];
      var n := if s.sent >= |s.found| then 0 else if |s.found| - s.sent < max then |s.found| - s.sent else max;
      (Set(m, h, s.(sent := s.sent + n)),
       Reply(CKR_OK, Handles(if n == 0 then [] else s.found[s.sent..s.sent + n]), []))
  }

  function DoSignInit(m: State, h: nat, mech: Option<nat>, key: nat): (State, Reply) {
    if !m.initialized then (m, Fail(CKR_CRYPTOKI_NOT_INITIALIZED))
    else if !IsOpen(m, h) then (m, Fail(CKR_SESSION_HANDLE_INVALID))
    else if !m.cache.loggedIn then (m, Fail(CKR_USER_NOT_LOGGED_IN))
    else if mech.None? then (m, Fail(CKR_ARGUMENTS_BAD))
    else if m.slots[h - 1].signing then (m, Fail(CKR_OPERATION_ACTIVE))
    else if key != KEY_HANDLE then (m, Fail(CKR_KEY_HANDLE_INVALID))
    else if !KnownMech(mech.value) then (m, Fail(CKR_MECHANISM_INVALID))
    else if (m.cache.keyType == KEY_RSA && !RsaMech(mech.value))
      || (m.cache.keyType == KEY_EC && !EcMech(mech.value)) then
      (m, Fail(CKR_KEY_TYPE_INCONSISTENT))
    else (Set(m, h, m.slots[h - 1].(signing := true, mech := mech.value, data := [])), Fail(CKR_OK))
  }

  function DoSign(m: State, h: nat, data: Ptr, sig: SigBuf, net: Net): (State, Reply) {
    if !m.initialized then (m, Fail(CKR_CRYPTOKI_NOT_INITIALIZED))
    else if !IsOpen(m, h) then (m, Fail(CKR_SESSION_HANDLE_INVALID))
    else if !m.slots[h - 1].signing then (m, Fail(CKR_OPERATION_NOT_INITIALIZED))
    else if sig.NoLength? || Missing(data) then (m, Fail(CKR_ARGUMENTS_BAD))
    else if m.slots[h - 1].data != [] then (m, Fail(CKR_OPERATION_ACTIVE))
    else FinishSign(m, h, Contents(data), sig, net)
  }

  function DoSignUpdate(m: State, h: nat, part: Ptr, memory: bool): (State, Reply) {
    if !m.initialized then (m, Fail(CKR_CRYPTOKI_NOT_INITIALIZED))
    else if !IsOpen(m, h) then (m, Fail(CKR_SESSION_HANDLE_INVALID))
    else if !m.slots[h - 1].signing then (m, Fail(CKR_OPERATION_NOT_INITIALIZED))
    else if Missing(part) then (m, Fail(CKR_ARGUMENTS_BAD))
    else
      var (s, rv) := AppendSign(m.slots[h - 1], Contents(part), memory);
      (Set(m, h, s), Fail(rv))
  }

  function DoSignFinal(m: State, h: nat, sig: SigBuf, net: Net): (State, Reply) {
    if !m.initialized then (m, Fail(CKR_CRYPTOKI_NOT_INITIALIZED))
    else if !IsOpen(m, h) then (m, Fail(CKR_SESSION_HANDLE_INVALID))
    else if !m.slots[h - 1].signing then (m, Fail(CKR_OPERATION_NOT_INITIALIZED))
    else if sig.NoLength? then (m, Fail(CKR_ARGUMENTS_BAD))
    else FinishSign(m, h, m.slots[h - 1].data, sig, net)
  }

  function FinalizedSlots(slots: seq<Slot>): seq<Slot> {
    seq(|slots|, k requires 0 <= k < |slots| => Finalized(slots[k]))
  }

  function ZeroedSlots(slots: seq<Slot>): seq<Slot> {
    seq(|slots|, _ => ZEROED)
  }

  function DoInitialize(m: State, reserved: bool): (State, Reply) {
    if m.initialized then (m, Fail(CKR_CRYPTOKI_ALREADY_INITIALIZED))
    else if reserved then (m, Fail(CKR_ARGUMENTS_BAD))
    else (m.(initialized := true), Fail(CKR_OK))
  }

  // The search fields are left behind; C_OpenSession zeroes them later.
  function Finalized(s: Slot): Slot {
    ClearSign(s).(open := false)
  }

  function DoFinalize(m: State, args: bool): (State, Reply) {
    if args then (m, Fail(CKR_ARGUMENTS_BAD))
    else if !m.initialized then (m, Fail(CKR_CRYPTOKI_NOT_INITIALIZED))
    else (State(false, FREED, FinalizedSlots(m.slots)), Fail(CKR_OK))
  }

  function DoClose(m: State, h: nat): (State, Reply) {
    if !m.initialized then (m, Fail(CKR_CRYPTOKI_NOT_INITIALIZED))
    else if !IsOpen(m, h) then (m, Fail(CKR_SESSION_HANDLE_INVALID))
    else (Set(m, h, ZEROED), Fail(CKR_OK))
  }

  function DoCloseAll(m: State, slot: nat): (State, Reply) {
    if !m.initialized then (m, Fail(CKR_CRYPTOKI_NOT_INITIALIZED))
    else if slot != 0 then (m, Fail(CKR_SLOT_ID_INVALID))
    else (m.(slots := ZeroedSlots(m.slots)), Fail(CKR_OK))
  }

  function DoLogout(m: State, h: nat): (State, Reply) {
    if !m.initialized then (m, Fail(CKR_CRYPTOKI_NOT_INITIALIZED))
    else if !IsOpen(m, h) then (m, Fail(CKR_SESSION_HANDLE_INVALID))
    else if !m.cache.loggedIn then (m, Fail(CKR_USER_NOT_LOGGED_IN))
    else (m.(cache := FREED), Fail(CKR_OK))
  }

  function DoFindFinal(m: State, h: nat): (State, Reply) {
    if !m.initialized then (m, Fail(CKR_CRYPTOKI_NOT_INITIALIZED))
    else if !IsOpen(m, h) then (m, Fail(CKR_SESSION_HANDLE_INVALID))
    else (Set(m, h, m.slots[h - 1].(finding := false, found := [], sent := 0)), Fail(CKR_OK))
  }

  function Apply(m: State, c: Call): (State, Reply) {
    match c
    case Initialize(reserved) => DoInitialize(m, reserved)
    case Finalize(args) => DoFinalize(m, args)
    case OpenSession(slot, flags, hasOut) => DoOpen(m, slot, flags, hasOut)
    case CloseSession(h) => DoClose(m, h)
    case CloseAllSessions(slot) => DoCloseAll(m, slot)
    case Login(h, user, pin, net) => DoLogin(m, h, user, pin, net)
    case Logout(h) => DoLogout(m, h)
    case FindInit(h, tmpl, count) => DoFindInit(m, h, tmpl, count)
    case Find(h, hasOut, max) => DoFind(m, h, hasOut, max)
    case FindFinal(h) => DoFindFinal(m, h)
    case SignInit(h, mech, key) => DoSignInit(m, h, mech, key)
    case Sign(h, data, sig, net) => DoSign(m, h, data, sig, net)
    case SignUpdate(h, part, memory) => DoSignUpdate(m, h, part, memory)
    case SignFinal(h, sig, net) => DoSignFinal(m, h, sig, net)
  }

  // ----- the invariant of the module

  // 256 doubled some number of times.
  predicate Doubling(c: nat) {
    c == 256 || (c > 256 && c % 2 == 0 && Doubling(c / 2))
  }

  predicate CacheInv(c: Cache) {
    && (c.loggedIn <==> |c.pin| == PIN_LEN)
    && (c.loggedIn <==> c.keyType == KEY_RSA || c.keyType == KEY_EC)
    && (c.loggedIn <==> 1 <= |c.certs| <= MAX_CERTS)
    && (c.loggedIn ==> 1 <= |c.alias| <= MAX_ALIAS)
    && (c.loggedIn ==> |c.partA| < 0x1_0000 && |c.partB| < 0x1_0000)
    && (c.loggedIn ==> c.ecPoint == if c.keyType == KEY_EC then DerOctet(c.partB) else [])
    && (c.loggedIn ==> forall n :: 0 <= n < |c.certs| ==> c.certs[n].name == Label(c.alias, n))
    && (!c.loggedIn ==> c == FREED)
  }

  predicate SlotInv(s: Slot) {
    && (!s.open ==> !s.signing)
    && (!s.signing ==> s.data == [] && s.cap == 0)
    && (s.signing ==> KnownMech(s.mech))
    && |s.data| <= s.cap <= MAX_FRAME
    && (s.cap == 0 || Doubling(s.cap))
    && s.sent <= |s.found| <= 1 + MAX_CERTS
  }

  predicate Inv(m: State) {
    && |m.slots| == MAX_SESSIONS
    && CacheInv(m.cache)
    && (forall k :: 0 <= k < MAX_SESSIONS ==> SlotInv(m.slots[k]))
    && (!m.initialized ==> m.cache == FREED && forall k :: 0 <= k < MAX_SESSIONS ==> !m.slots[k].open)
  }

  lemma {:induction false} DoublingGap(c: nat, p: nat)
    requires Doubling(c) && Doubling(p) && c < p
    ensures 2 * c <= p
  {
    if c > 256 {
      DoublingGap(c / 2, p / 2);
    }
  }

  lemma MaxIsDoubling()
    ensures Doubling(MAX_FRAME)
  {
    assert Doubling(0x800);
    assert Doubling(0x4000);
    assert Doubling(0x2_0000);
  }

  // A buffer never outgrows the largest message.
  lemma {:induction false} GrownBounds(cap: nat, need: nat)
    requires Doubling(cap) && need <= MAX_FRAME && cap <= MAX_FRAME
    ensures Doubling(Grown(cap, need)) && Grown(cap, need) <= MAX_FRAME
    decreases need - cap
  {
    if cap < need {
      MaxIsDoubling();
      DoublingGap(cap, MAX_FRAME);
      GrownBounds(cap * 2, need);
    }
  }

  lemma {:induction false} MatchCount(c: Cache, tmpl: seq<Attr>, top: nat)
    requires 1 <= top <= 2 + |c.certs|
    ensures |MatchesBelow(c, tmpl, top)| <= top - 1
  {
    if top > 1 {
      MatchCount(c, tmpl, top - 1);
    }
  }

  lemma AppendKeepsInv(s: Slot, p: bytes, memory: bool)
    requires SlotInv(s) && s.signing
    ensures SlotInv(AppendSign(s, p, memory).0) && AppendSign(s, p, memory).0.open == s.open
  {
    var need := |s.data| + |p|;
    if s.cap < need <= MAX_FRAME {
      var start := if s.cap == 0 then 256 else s.cap * 2;
      if s.cap > 0 {
        MaxIsDoubling();
        DoublingGap(s.cap, MAX_FRAME);
      }
      GrownBounds(start, need);
    }
  }

  lemma SetKeepsInv(m: State, h: nat, s: Slot)
    requires Inv(m) && 1 <= h <= MAX_SESSIONS && SlotInv(s) && (s.open ==> m.initialized)
    ensures Inv(Set(m, h, s))
  {
    hide CacheInv, SlotInv;
  }

  // A login either caches a whole description under its PIN or caches nothing.
  lemma LoginGivesCache(pin: bytes, net: Net)
    ensures CacheInv(LoginRpc(pin, net).cache)
    ensures LoginRpc(pin, net).cache.loggedIn <==> LoginRpc(pin, net).rv == CKR_OK
  {
    hide DerOctet, Label, ParsedInfo, Frame, Unframe;
  }

  lemma FinishKeepsInv(m: State, h: nat, data: bytes, sig: SigBuf, net: Net)
    requires Inv(m) && IsOpen(m, h) && !sig.NoLength?
    ensures Inv(FinishSign(m, h, data, sig, net).0)
  {
    hide SignRpc, Doubling, CacheInv, SigLen, KnownMech;
    SetKeepsInv(m, h, ClearSign(m.slots[h - 1]));
  }

  lemma OpenKeepsInv(m: State, slot: nat, flags: nat, hasOut: bool)
    requires Inv(m)
    ensures Inv(DoOpen(m, slot, flags, hasOut).0)
  {
    hide CacheInv;
    var k := FirstClosed(m.slots);
    if k < MAX_SESSIONS && m.initialized {
      SetKeepsInv(m, k + 1, ZEROED.(open := true, rw := (flags / 2) % 2 == 1));
    }
  }

  lemma LoginKeepsInv(m: State, h: nat, user: nat, pin: Ptr, net: Net)
    requires Inv(m)
    ensures Inv(DoLogin(m, h, user, pin, net).0)
  {
    hide LoginRpc, CacheInv, SlotInv;
    if pin.Mem? {
      LoginGivesCache(pin.data, net);
    }
  }

  lemma FindInitKeepsInv(m: State, h: nat, tmpl: Option<seq<Attr>>, count: nat)
    requires Inv(m)
    ensures Inv(DoFindInit(m, h, tmpl, count).0)
  {
    hide Doubling, KnownMech, CacheInv, MatchesBelow;
    MatchCount(m.cache, if tmpl.None? then [] else tmpl.value, 2 + |m.cache.certs|);
    CacheSize(m.cache);
    if IsOpen(m, h) {
      SetKeepsInv(m, h, m.slots[h - 1].(finding := true, found := FoundFor(m.cache, tmpl), sent := 0));
    }
  }

  lemma FindKeepsInv(m: State, h: nat, hasOut: bool, max: nat)
    requires Inv(m)
    ensures Inv(DoFind(m, h, hasOut, max).0)
    ensures Inv(DoFindFinal(m, h).0)
  {
    hide Doubling, KnownMech, CacheInv;
  }

  lemma SignInitKeepsInv(m: State, h: nat, mech: Option<nat>, key: nat)
    requires Inv(m)
    ensures Inv(DoSignInit(m, h, mech, key).0)
  {
    hide CacheInv, Doubling, KnownMech;
    if IsOpen(m, h) && mech.Some? && KnownMech(mech.value) && !m.slots[h - 1].signing {
      SetKeepsInv(m, h, m.slots[h - 1].(signing := true, mech := mech.value, data := []));
    }
  }

  lemma SignUpdateKeepsInv(m: State, h: nat, part: Ptr, memory: bool)
    requires Inv(m)
    ensures Inv(DoSignUpdate(m, h, part, memory).0)
  {
    hide AppendSign, CacheInv, Doubling, KnownMech;
    if IsOpen(m, h) && m.slots[h - 1].signing {
      AppendKeepsInv(m.slots[h - 1], Contents(part), memory);
      SetKeepsInv(m, h, AppendSign(m.slots[h - 1], Contents(part), memory).0);
    }
  }

  lemma SignKeepsInv(m: State, h: nat, data: Ptr, sig: SigBuf, net: Net)
    requires Inv(m)
    ensures Inv(DoSign(m, h, data, sig, net).0)
    ensures Inv(DoSignFinal(m, h, sig, net).0)
  {
    hide FinishSign, CacheInv, SlotInv;
    if IsOpen(m, h) && !sig.NoLength? {
      FinishKeepsInv(m, h, Contents(data), sig, net);
      FinishKeepsInv(m, h, m.slots[h - 1].data, sig, net);
    }
  }

  lemma LoadedInv()
    ensures Inv(LOADED)
  {
  }

  lemma FinalizeKeepsInv(m: State, args: bool)
    requires Inv(m)
    ensures Inv(DoFinalize(m, args).0)
  {
    hide Doubling, KnownMech;
  }

  lemma CloseKeepsInv(m: State, h: nat, slot: nat)
    requires Inv(m)
    ensures Inv(DoClose(m, h).0)
    ensures Inv(DoCloseAll(m, slot).0)
  {
    hide Doubling, KnownMech, CacheInv;
    if IsOpen(m, h) {
      SetKeepsInv(m, h, ZEROED);
    }
  }

  lemma LogoutKeepsInv(m: State, h: nat)
    requires Inv(m)
    ensures Inv(DoLogout(m, h).0)
  {
    hide SlotInv;
    assert CacheInv(FREED);
  }

  // Every call keeps the invariant, whatever the peer on the socket sends back.
  lemma ApplyKeepsInv(m: State, c: Call)
    requires Inv(m)
    ensures Inv(Apply(m, c).0)
  {
    hide CacheInv, SlotInv, Set;
    hide DoFinalize, DoOpen, DoClose, DoCloseAll, DoLogin, DoLogout, DoFindInit, DoFind, DoFindFinal;
    hide DoSignInit, DoSign, DoSignUpdate, DoSignFinal;
    match c {
      case Initialize(reserved) =>
      case Finalize(args) => FinalizeKeepsInv(m, args);
      case OpenSession(slot, flags, hasOut) => OpenKeepsInv(m, slot, flags, hasOut);
      case CloseSession(h) => CloseKeepsInv(m, h, 0);
      case CloseAllSessions(slot) => CloseKeepsInv(m, 0, slot);
      case Login(h, user, pin, net) => LoginKeepsInv(m, h, user, pin, net);
      case Logout(h) => LogoutKeepsInv(m, h);
      case FindInit(h, tmpl, count) => FindInitKeepsInv(m, h, tmpl, count);
      case Find(h, hasOut, max) => FindKeepsInv(m, h, hasOut, max);
      case FindFinal(h) => FindKeepsInv(m, h, false, 0);
      case SignInit(h, mech, key) => SignInitKeepsInv(m, h, mech, key);
      case Sign(h, data, sig, net) => SignKeepsInv(m, h, data, sig, net);
      case SignUpdate(h, part, memory) => SignUpdateKeepsInv(m, h, part, memory);
      case SignFinal(h, sig, net) => SignKeepsInv(m, h, Null(0), sig, net);
    }
  }

  lemma CacheSize(c: Cache)
    requires CacheInv(c)
    ensures |c.certs| <= MAX_CERTS
  {
  }
}
