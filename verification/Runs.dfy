// Whole runs of the PKCS#11 module: any sequence of calls on any sessions, from
// the moment the library is loaded.

module Runs {
  import opened Bytes
  import opened Frames
  import opened InfoCodec
  import opened Pkcs11

  // The state after a run. The invariant of the module holds in every one.
  function Run(calls: seq<Call>): (m: State)
    ensures Inv(m)
  {
    if calls == [] then LoadedInv(); LOADED
    else
      var m, c := Run(calls[..|calls| - 1]), calls[|calls| - 1];
      ApplyKeepsInv(m, c);
      Apply(m, c).0
  }

  // What the last call of a run answered.
  function LastReply(calls: seq<Call>): Reply
    requires calls != []
  {
    Apply(Run(calls[..|calls| - 1]), calls[|calls| - 1]).1
  }

  lemma RunStep(calls: seq<Call>)
    ensures calls == [] ==> Run(calls) == LOADED
    ensures calls != [] ==>
      var m, c := Run(calls[..|calls| - 1]), calls[|calls| - 1];
      Run(calls) == Apply(m, c).0 && LastReply(calls) == Apply(m, c).1
  {
  }

  // ----- multi-part signing

  // The parts of the C_SignUpdate calls on h that succeeded since its last
  // successful C_SignInit, in order. Read off calls and return values alone.
  function Parts(calls: seq<Call>, h: nat): bytes {
    if calls == [] then []
    else
      var before := Parts(calls[..|calls| - 1], h);
      var ok := LastReply(calls).rv == CKR_OK;
      match calls[|calls| - 1]
      case SignInit(h', _, _) => if h' == h && ok then [] else before
      case SignUpdate(h', part, _) => if h' == h && ok then before + Contents(part) else before
      case _ => before
  }

  // The mechanism of the last successful C_SignInit on h.
  function Mechanism(calls: seq<Call>, h: nat): nat {
    if calls == [] then 0
    else
      var before := Mechanism(calls[..|calls| - 1], h);
      match calls[|calls| - 1]
      case SignInit(h', mech, _) =>
        if h' == h && LastReply(calls).rv == CKR_OK && mech.Some? then mech.value else before
      case _ => before
  }

  // The PIN of the last successful C_Login.
  function LoginPin(calls: seq<Call>): bytes {
    if calls == [] then []
    else
      match calls[|calls| - 1]
      case Login(_, _, pin, _) =>
        if LastReply(calls).rv == CKR_OK then Contents(pin) else LoginPin(calls[..|calls| - 1])
      case _ => LoginPin(calls[..|calls| - 1])
  }

  // How one call moves the signing fields of slot h.
  predicate SigningMove(s: Slot, c: Call, rv: nat, s': Slot, h: nat) {
    match c
    case SignInit(h', mech, _) =>
      if h' == h && rv == CKR_OK then
        mech.Some? && s' == s.(signing := true, mech := mech.value, data := [])
      else s' == s
    case SignUpdate(h', part, _) =>
      if h' == h && rv == CKR_OK then
        s.signing && s' == s.(data := s.data + Contents(part), cap := s'.cap)
      else s' == s
    case _ => s'.signing ==> s.signing && s'.data == s.data && s'.mech == s.mech
  }

  // Calls that belong to neither a search nor a signature.
  predicate Lifecycle(c: Call) {
    c.Initialize? || c.Finalize? || c.OpenSession? || c.CloseSession? || c.CloseAllSessions? || c.Login? || c.Logout?
  }

  lemma LifecycleStep(m: State, c: Call, h: nat, m': State)
    requires Inv(m) && 1 <= h <= MAX_SESSIONS && m' == Apply(m, c).0 && Inv(m') && Lifecycle(c)
    ensures var s, s' := m.slots[h - 1], m'.slots[h - 1];
      (s'.signing ==> s' == s) && (s'.finding ==> s.finding && s'.found == s.found && s'.sent == s.sent)
  {
    hide CacheInv, SlotInv, LoginRpc;
  }

  lemma SigningStep(m: State, c: Call, h: nat, m': State)
    requires Inv(m) && 1 <= h <= MAX_SESSIONS && m' == Apply(m, c).0 && Inv(m')
    ensures SigningMove(m.slots[h - 1], c, Apply(m, c).1.rv, m'.slots[h - 1], h)
  {
    hide CacheInv, SlotInv, KnownMech;
    hide FinishSign, FoundFor, CapFor;
    if Lifecycle(c) {
      LifecycleStep(m, c, h, m');
      return;
    }
    if c.FindInit? || c.Find? || c.FindFinal? {
      FindCallsKeepSigning(m, c, h, m');
      return;
    }
    match c {
      case Sign(h', data, sig, net) => FinishStep(m, h', Contents(data), sig, net, h);
      case SignFinal(h', sig, net) =>
        if IsOpen(m, h') {
          FinishStep(m, h', m.slots[h' - 1].data, sig, net, h);
        }
      case _ =>
    }
  }

  lemma FindCallsKeepSigning(m: State, c: Call, h: nat, m': State)
    requires Inv(m) && 1 <= h <= MAX_SESSIONS && m' == Apply(m, c).0 && Inv(m')
    requires c.FindInit? || c.Find? || c.FindFinal?
    ensures var s, s' := m.slots[h - 1], m'.slots[h - 1];
      s'.signing == s.signing && s'.data == s.data && s'.mech == s.mech
  {
    hide CacheInv, SlotInv, FoundFor;
  }

  lemma FinishStep(m: State, h: nat, data: bytes, sig: SigBuf, net: Net, other: nat)
    requires Inv(m) && 1 <= other <= MAX_SESSIONS
    ensures IsOpen(m, h) && !sig.NoLength? ==>
      var m', r := FinishSign(m, h, data, sig, net).0, FinishSign(m, h, data, sig, net).1;
      && m' == (if sig.Room? && sig.cap >= SigLen(m.cache) then Set(m, h, ClearSign(m.slots[h - 1])) else m)
      && (other != h ==> m'.slots[other - 1] == m.slots[other - 1])
      && (m'.slots[other - 1].signing ==> m'.slots[other - 1] == m.slots[other - 1])
  {
    hide SignRpc, SigLen;
  }

  // In every run a signing session holds exactly its own accepted parts, under
  // the mechanism it was started with.
  lemma {:induction false} BufferIsParts(calls: seq<Call>, h: nat)
    requires 1 <= h <= MAX_SESSIONS
    ensures Run(calls).slots[h - 1].signing ==>
      Run(calls).slots[h - 1].data == Parts(calls, h) && Run(calls).slots[h - 1].mech == Mechanism(calls, h)
  {
    if calls != [] {
      RunStep(calls);
      hide Apply, Inv, CacheInv, SlotInv, Run, LastReply, FoundFor;
      var before := calls[..|calls| - 1];
      BufferIsParts(before, h);
      SigningStep(Run(before), calls[|calls| - 1], h, Run(calls));
    }
  }

  // While logged in, the cached PIN is the one the last successful login gave.
  lemma {:induction false} PinIsLoginPin(calls: seq<Call>)
    ensures Run(calls).cache.loggedIn ==> Run(calls).cache.pin == LoginPin(calls)
  {
    if calls != [] {
      RunStep(calls);
      hide Apply, Inv, CacheInv, SlotInv, Run, LastReply, FoundFor;
      var before := calls[..|calls| - 1];
      PinIsLoginPin(before);
      CacheStep(Run(before), calls[|calls| - 1], Run(calls));
    }
  }

  // Only a login and C_Logout and C_Finalize touch the cached description.
  lemma CacheStep(m: State, c: Call, m': State)
    requires Inv(m) && m' == Apply(m, c).0
    ensures m'.cache.loggedIn ==>
      if c.Login? && Apply(m, c).1.rv == CKR_OK then c.pin.Mem? && m'.cache.pin == c.pin.data
      else m'.cache == m.cache
  {
    hide MatchesBelow, CapFor, SignRpc, KnownMech, Frame, ParsedInfo, DerOctet, Label, Unframe;
  }

  // ----- what is sent

  // C_SignFinal sends the accepted parts, C_Sign sends its own data, each under
  // the session's mechanism and the login's PIN, as far as the connection takes them;
  // a module that is not logged in sends no sign request at all, even where a session
  // still believes it is signing.
  lemma SignSends(calls: seq<Call>, h: nat, data: Ptr, sig: SigBuf, net: Net)
    requires 1 <= h <= MAX_SESSIONS
    ensures var m, sent := Run(calls), Apply(Run(calls), SignFinal(h, sig, net)).1.sent;
      sent == [] || (m.cache.loggedIn
        && sent == Outgoing(net, Frame(OP_SIGN, SignRequest(LoginPin(calls), Mechanism(calls, h), Parts(calls, h)))))
    ensures var m, sent := Run(calls), Apply(Run(calls), Sign(h, data, sig, net)).1.sent;
      sent == [] || (m.cache.loggedIn
        && sent == Outgoing(net, Frame(OP_SIGN, SignRequest(LoginPin(calls), Mechanism(calls, h), Contents(data)))))
  {
    hide Apply;
    BufferIsParts(calls, h);
    PinIsLoginPin(calls);
    SendsBuffer(Run(calls), h, data, sig, net);
  }

  lemma SendsBuffer(m: State, h: nat, data: Ptr, sig: SigBuf, net: Net)
    requires Inv(m) && 1 <= h <= MAX_SESSIONS
    ensures var s, sent := m.slots[h - 1], Apply(m, SignFinal(h, sig, net)).1.sent;
      sent == [] || (m.cache.loggedIn && s.signing
        && sent == Outgoing(net, Frame(OP_SIGN, SignRequest(m.cache.pin, s.mech, s.data))))
    ensures var s, sent := m.slots[h - 1], Apply(m, Sign(h, data, sig, net)).1.sent;
      sent == [] || (m.cache.loggedIn && s.signing
        && sent == Outgoing(net, Frame(OP_SIGN, SignRequest(m.cache.pin, s.mech, Contents(data)))))
  {
    hide Rpc, Outgoing, SignRequest, SigLen, Frame, SlotInv;
  }

  // Finishing a multi-part signature answers exactly as signing the whole message
  // at once does, in any other run that reached the same login and mechanism.
  lemma MultiPartIsOneShot(multi: seq<Call>, h: nat, single: seq<Call>, k: nat, sig: SigBuf, net: Net)
    requires 1 <= h <= MAX_SESSIONS && 1 <= k <= MAX_SESSIONS
    requires Run(multi).slots[h - 1].signing && Run(single).slots[k - 1].signing
    requires Parts(single, k) == [] && Mechanism(single, k) == Mechanism(multi, h)
    requires Run(single).cache == Run(multi).cache
    ensures |Parts(multi, h)| <= MAX_FRAME
    ensures Apply(Run(multi), SignFinal(h, sig, net)).1
         == Apply(Run(single), Sign(k, Mem(Parts(multi, h)), sig, net)).1
  {
    hide Apply;
    BufferIsParts(multi, h);
    BufferIsParts(single, k);
    SameBufferSameReply(Run(multi), h, Run(single), k, sig, net);
  }

  lemma SameBufferSameReply(m: State, h: nat, n: State, k: nat, sig: SigBuf, net: Net)
    requires Inv(m) && Inv(n) && 1 <= h <= MAX_SESSIONS && 1 <= k <= MAX_SESSIONS
    requires m.slots[h - 1].signing && n.slots[k - 1].signing && n.slots[k - 1].data == []
    requires m.slots[h - 1].mech == n.slots[k - 1].mech && m.cache == n.cache
    ensures |m.slots[h - 1].data| <= MAX_FRAME
    ensures Apply(m, SignFinal(h, sig, net)).1 == Apply(n, Sign(k, Mem(m.slots[h - 1].data), sig, net)).1
  {
    hide SignRpc, SigLen, KnownMech, Doubling, CacheInv;
  }

  // ----- claims that look natural and are false

  lemma RunSnoc(calls: seq<Call>, c: Call)
    ensures Run(calls + [c]) == Apply(Run(calls), c).0
  {
    assert (calls + [c])[..|calls|] == calls;
  }

  // The run Initialize, OpenSession, Login against a server describing i.
  function LoginRun(i: Info, pin: Memory): seq<Call>
    requires Acceptable(i)
  {
    [Initialize(false)] + [OpenSession(0, 4, true)]
    + [Login(1, CKU_USER, Mem(pin), Answer(Frame(STATUS_OK, EncodeInfo(i))))]
  }

  const READY := State(true, LOADED.cache, LOADED.slots[0 := ZEROED.(open := true)])

  lemma OpenedRun()
    ensures Run([Initialize(false)] + [OpenSession(0, 4, true)]) == READY
  {
    var a := [Initialize(false)];
    var m := LOADED.(initialized := true);
    assert DoOpen(m, 0, 4, true).0 == READY;
    hide DoFinalize, DoOpen, DoClose, DoCloseAll, DoLogin, DoLogout, DoFindInit, DoFind, DoFindFinal;
    hide DoSignInit, DoSign, DoSignUpdate, DoSignFinal;
    assert Run([]) == LOADED && [] + a == a;
    hide Run;
    RunSnoc([], Initialize(false));
    RunSnoc(a, OpenSession(0, 4, true));
  }

  // Against a server describing i, a login caches exactly i.
  lemma LoginCaches(m: State, h: nat, i: Info, pin: Memory)
    requires m.initialized && IsOpen(m, h) && !m.cache.loggedIn
    requires Acceptable(i) && |pin| == PIN_LEN && |EncodeInfo(i)| <= MAX_FRAME
    ensures var r := DoLogin(m, h, CKU_USER, Mem(pin), Answer(Frame(STATUS_OK, EncodeInfo(i))));
      r.0 == m.(cache := CacheOf(i, pin)) && r.1.rv == CKR_OK
  {
    hide Frame, Unframe, EncodeInfo, ParseInfo, CacheOf;
    FrameRoundTrip(STATUS_OK, EncodeInfo(i), []);
    assert Frame(STATUS_OK, EncodeInfo(i)) + [] == Frame(STATUS_OK, EncodeInfo(i));
    InfoRoundTrip(i);
    assert ParsedInfo(EncodeInfo(i)) == Some(i);
    hide ParsedInfo;
  }

  lemma LoginRunWorks(i: Info, pin: Memory)
    requires Acceptable(i) && |pin| == PIN_LEN && |EncodeInfo(i)| <= MAX_FRAME
    ensures Run(LoginRun(i, pin)) == State(true, CacheOf(i, pin), LOADED.slots[0 := ZEROED.(open := true)])
  {
    assert IsOpen(READY, 1);
    hide EncodeInfo, CacheOf, Frame, Acceptable, Run, IsOpen, DoLogin;
    OpenedRun();
    LoginCaches(READY, 1, i, pin);
    var login := Login(1, CKU_USER, Mem(pin), Answer(Frame(STATUS_OK, EncodeInfo(i))));
    RunSnoc([Initialize(false)] + [OpenSession(0, 4, true)], login);
    LoginApplies(READY, 1, Mem(pin), Answer(Frame(STATUS_OK, EncodeInfo(i))));
  }

  lemma LoginApplies(m: State, h: nat, pin: Ptr, net: Net)
    ensures Apply(m, Login(h, CKU_USER, pin, net)).0 == DoLogin(m, h, CKU_USER, pin, net).0
  {
    hide DoLogin;
  }

  // A session can believe it is signing while nobody is logged in, and the module
  // can be logged in while no session is open.
  lemma LogoutAndCloseAreIndependent(i: Info, pin: Memory, mech: nat)
    requires Acceptable(i) && |pin| == PIN_LEN && |EncodeInfo(i)| <= MAX_FRAME
    requires if i.kind == KEY_RSA then RsaMech(mech) else EcMech(mech)
    ensures var m := DoLogout(DoSignInit(Run(LoginRun(i, pin)), 1, Some(mech), KEY_HANDLE).0, 1).0;
      m.slots[0].signing && !m.cache.loggedIn
    ensures var m := DoClose(Run(LoginRun(i, pin)), 1).0;
      m.cache.loggedIn && forall k :: 0 <= k < MAX_SESSIONS ==> !m.slots[k].open
  {
    LoginRunWorks(i, pin);
    var m := Run(LoginRun(i, pin));
    assert m.cache.loggedIn && m.cache.keyType == i.kind;
    hide LoginRun, Run, CacheOf, EncodeInfo, Acceptable;
  }

  // A certificate authority's label is the alias and ".ca<n>" exactly when the
  // alias holds no NUL byte.
  lemma CaLabelIff(alias: bytes, n: nat)
    requires 1 <= n < MAX_CERTS
    ensures Label(alias, n) == alias + [0x2e, 0x63, 0x61, 0x30 + n] <==> 0 !in alias
  {
    var tail: bytes := [0x2e, 0x63, 0x61, 0x30 + n];
    var r := UpToNul(alias);
    hide UpToNul;
    if 0 !in alias {
      assert r == alias;
    } else {
      assert |r + tail| < |alias + tail|;
    }
  }

  // ----- what leaves a session alone

  predicate Targets(c: Call, h: nat) {
    match c
    case CloseSession(k) => k == h
    case FindInit(k, _, _) => k == h
    case Find(k, _, _) => k == h
    case FindFinal(k) => k == h
    case SignInit(k, _, _) => k == h
    case Sign(k, _, _, _) => k == h
    case SignUpdate(k, _, _) => k == h
    case SignFinal(k, _, _) => k == h
    case CloseAllSessions(_) => true
    case Finalize(_) => true
    case _ => false
  }

  // No call on another session, and no login or logout, changes an open session.
  lemma OthersLeaveSlot(m: State, c: Call, h: nat, m': State)
    requires Inv(m) && IsOpen(m, h) && !Targets(c, h) && m' == Apply(m, c).0 && Inv(m')
    ensures m'.slots[h - 1] == m.slots[h - 1]
  {
    hide CacheInv, SlotInv, SignRpc, LoginRpc, MatchesBelow, CapFor, KnownMech, SigLen;
  }

  // Asking for the length, offering too small a buffer, and a refused part change nothing.
  lemma AskingIsFree(m: State, h: nat, data: Ptr, sig: SigBuf, net: Net, memory: bool)
    requires Inv(m)
    ensures sig.Query? || (sig.Room? && sig.cap < SigLen(m.cache)) ==>
      Apply(m, Sign(h, data, sig, net)).0 == m && Apply(m, SignFinal(h, sig, net)).0 == m
    ensures Apply(m, SignUpdate(h, data, memory)).1.rv != CKR_OK ==> Apply(m, SignUpdate(h, data, memory)).0 == m
  {
    hide SignRpc, SigLen, KnownMech, CapFor, CacheInv, SlotInv;
    if IsOpen(m, h) {
      assert m.slots[h - 1 := m.slots[h - 1]] == m.slots;
    }
  }

  // ----- object search

  // The handles matching the template of the last successful C_FindObjectsInit on
  // h, judged in the state that call found.
  function Wanted(calls: seq<Call>, h: nat): seq<nat> {
    if calls == [] then []
    else
      var before := calls[..|calls| - 1];
      match calls[|calls| - 1]
      case FindInit(h', tmpl, _) =>
        if h' == h && LastReply(calls).rv == CKR_OK then FoundFor(Run(before).cache, tmpl) else Wanted(before, h)
      case _ => Wanted(before, h)
  }

  // Everything C_FindObjects has returned on h since then.
  function Returned(calls: seq<Call>, h: nat): seq<nat> {
    if calls == [] then []
    else
      var before := Returned(calls[..|calls| - 1], h);
      var r := LastReply(calls);
      match calls[|calls| - 1]
      case FindInit(h', _, _) => if h' == h && r.rv == CKR_OK then [] else before
      case Find(h', _, _) => if h' == h && r.out.Handles? then before + r.out.hs else before
      case _ => before
  }

  predicate FindingMove(s: Slot, cache: Cache, c: Call, r: Reply, s': Slot, h: nat) {
    match c
    case FindInit(h', tmpl, _) =>
      if h' == h && r.rv == CKR_OK then s'.found == FoundFor(cache, tmpl) && s'.sent == 0 && s'.finding
      else s' == s
    case Find(h', _, max) =>
      if h' == h && r.out.Handles? then
        && s.finding && s.sent <= s'.sent <= |s.found| && s' == s.(sent := s'.sent)
        && r.out.hs == s.found[s.sent..s'.sent]
        && |r.out.hs| <= max && (|r.out.hs| < max ==> s'.sent == |s.found|)
      else s' == s
    case _ => s'.finding ==> s.finding && s'.found == s.found && s'.sent == s.sent
  }

  lemma FindingStep(m: State, c: Call, h: nat, m': State)
    requires Inv(m) && 1 <= h <= MAX_SESSIONS && m' == Apply(m, c).0 && Inv(m')
    ensures FindingMove(m.slots[h - 1], m.cache, c, Apply(m, c).1, m'.slots[h - 1], h)
  {
    if Lifecycle(c) {
      LifecycleStep(m, c, h, m');
    } else if c.Sign? || c.SignUpdate? || c.SignFinal? || c.SignInit? {
      hide Apply, CacheInv, SlotInv;
      SignCallsKeepSearch(m, c, h, m');
    } else {
      FindCallsMove(m, c, h, m');
    }
  }

  lemma FindCallsMove(m: State, c: Call, h: nat, m': State)
    requires Inv(m) && 1 <= h <= MAX_SESSIONS && m' == Apply(m, c).0 && Inv(m')
    requires !Lifecycle(c) && !(c.Sign? || c.SignUpdate? || c.SignFinal? || c.SignInit?)
    ensures FindingMove(m.slots[h - 1], m.cache, c, Apply(m, c).1, m'.slots[h - 1], h)
  {
    hide CacheInv, Doubling, KnownMech, SignRpc, FoundFor, CapFor, SigLen;
  }

  lemma SignCallsKeepSearch(m: State, c: Call, h: nat, m': State)
    requires Inv(m) && 1 <= h <= MAX_SESSIONS && m' == Apply(m, c).0 && Inv(m')
    requires c.Sign? || c.SignUpdate? || c.SignFinal? || c.SignInit?
    ensures var s, s' := m.slots[h - 1], m'.slots[h - 1];
      s'.finding == s.finding && s'.found == s.found && s'.sent == s.sent
  {
    hide CacheInv, SlotInv, KnownMech, AppendSign, FinishSign;
    match c {
      case Sign(h', data, sig, net) => FinishKeepsSearch(m, h', Contents(data), sig, net, h);
      case SignFinal(h', sig, net) =>
        if IsOpen(m, h') {
          FinishKeepsSearch(m, h', m.slots[h' - 1].data, sig, net, h);
        }
      case SignUpdate(h', part, memory) =>
        if IsOpen(m, h') {
          AppendKeepsSearch(m.slots[h' - 1], Contents(part), memory);
        }
      case _ =>
    }
  }

  lemma AppendKeepsSearch(s: Slot, p: bytes, memory: bool)
    ensures var s' := AppendSign(s, p, memory).0; s'.finding == s.finding && s'.found == s.found && s'.sent == s.sent
  {
    hide CapFor;
  }

  lemma FinishKeepsSearch(m: State, h: nat, data: bytes, sig: SigBuf, net: Net, k: nat)
    requires |m.slots| == MAX_SESSIONS && 1 <= k <= MAX_SESSIONS
    ensures IsOpen(m, h) && !sig.NoLength? ==>
      var s, s' := m.slots[k - 1], FinishSign(m, h, data, sig, net).0.slots[k - 1];
      s'.finding == s.finding && s'.found == s.found && s'.sent == s.sent
  {
    hide SignRpc, SigLen;
  }

  // Wanted and Returned after one more call, from the move that call made.
  lemma PrefixStep(calls: seq<Call>, h: nat, s: Slot, cache: Cache, s': Slot)
    requires calls != [] && cache == Run(calls[..|calls| - 1]).cache
    requires FindingMove(s, cache, calls[|calls| - 1], LastReply(calls), s', h) && s.sent <= |s.found|
      && s'.sent <= |s'.found|
    requires var before := calls[..|calls| - 1];
      s.finding ==> s.found == Wanted(before, h) && Returned(before, h) == s.found[..s.sent]
    ensures s'.finding ==> s'.found == Wanted(calls, h) && Returned(calls, h) == s'.found[..s'.sent]
  {
    hide Run, LastReply, FoundFor;
  }

  lemma {:induction false} SearchIsPrefix(calls: seq<Call>, h: nat)
    requires 1 <= h <= MAX_SESSIONS
    ensures var s := Run(calls).slots[h - 1];
      s.sent <= |s.found| && (s.finding ==> s.found == Wanted(calls, h) && Returned(calls, h) == s.found[..s.sent])
  {
    SearchBounds(Run(calls), h);
    if calls != [] {
      RunStep(calls);
      hide Apply, Inv, Run, LastReply, FindingMove, Wanted, Returned;
      var before, c := calls[..|calls| - 1], calls[|calls| - 1];
      SearchIsPrefix(before, h);
      FindingStep(Run(before), c, h, Run(calls));
      PrefixStep(calls, h, Run(before).slots[h - 1], Run(before).cache, Run(calls).slots[h - 1]);
    }
  }

  lemma SearchBounds(m: State, h: nat)
    requires Inv(m) && 1 <= h <= MAX_SESSIONS
    ensures m.slots[h - 1].sent <= |m.slots[h - 1].found|
  {
    assert SlotInv(m.slots[h - 1]);
  }

  // In every run, what a search has returned is a prefix of what it should return,
  // and a call that returns fewer handles than asked for completes it.
  lemma SearchIsComplete(calls: seq<Call>, h: nat, max: nat)
    requires 1 <= h <= MAX_SESSIONS
    ensures var more := calls + [Find(h, true, max)];
      LastReply(more).out.Handles? ==>
        && Returned(more, h) <= Wanted(more, h)
        && |LastReply(more).out.hs| <= max
        && (|LastReply(more).out.hs| < max ==> Returned(more, h) == Wanted(more, h))
  {
    var more := calls + [Find(h, true, max)];
    assert more[..|more| - 1] == calls;
    SearchIsPrefix(calls, h);
    SearchIsPrefix(more, h);
    FindingStep(Run(calls), Find(h, true, max), h, Run(more));
  }

  // The list a search works from holds every matching handle below top and nothing else.
  lemma {:induction false} MatchesExact(c: Cache, tmpl: seq<Attr>, top: nat)
    requires 1 <= top <= 2 + |c.certs|
    ensures forall x :: x in MatchesBelow(c, tmpl, top) <==> 1 <= x < top && Matches(c, x, tmpl)
  {
    if top > 1 {
      hide Matches;
      MatchesExact(c, tmpl, top - 1);
    }
  }

  predicate Ascending(l: seq<nat>) {
    forall i, j :: 0 <= i < j < |l| ==> l[i] < l[j]
  }

  // It is in strictly ascending order, so it holds each handle once.
  lemma {:induction false} MatchesAscend(c: Cache, tmpl: seq<Attr>, top: nat)
    requires 1 <= top <= 2 + |c.certs|
    ensures Ascending(MatchesBelow(c, tmpl, top))
  {
    if top > 1 {
      hide Matches, Ascending;
      MatchesAscend(c, tmpl, top - 1);
      MatchesExact(c, tmpl, top - 1);
      AscendingSnoc(MatchesBelow(c, tmpl, top - 1), top - 1);
    }
  }

  lemma AscendingSnoc(l: seq<nat>, x: nat)
    requires Ascending(l) && forall y :: y in l ==> y < x
    ensures Ascending(l + [x])
  {
    assert forall i :: 0 <= i < |l| ==> l[i] in l;
  }
}
