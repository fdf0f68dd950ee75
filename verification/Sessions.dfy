// What the calls of the PKCS#11 module undo, refuse and leave behind, and which
// objects a template selects. Each holds in every state a run can reach.

module Sessions {
  import opened Bytes
  import opened Frames
  import opened InfoCodec
  import opened Pkcs11
  import opened Runs

  // C_OpenSession succeeds exactly on slot 0, for a serial session, while one of the
  // four is closed. The handle it gives belonged to no open session, the new session
  // starts from zero whatever C_Finalize left there, and no other session moves.
  lemma OpensIff(m: State, slot: nat, flags: nat, hasOut: bool)
    requires Inv(m)
    ensures var (m', r) := DoOpen(m, slot, flags, hasOut);
      && (r.rv == CKR_OK <==>
        && m.initialized && slot == 0 && hasOut && (flags / 4) % 2 == 1
        && exists h :: 1 <= h <= MAX_SESSIONS && !IsOpen(m, h))
      && (r.rv != CKR_OK ==> m' == m && r.out == Nothing)
      && (r.rv == CKR_OK ==> r.out.Opened? && OpenedOnly(m, m', r.out.h))
  {
    hide Inv;
    assert |m.slots| == MAX_SESSIONS by { SlotCount(m); }
    var k := FirstClosed(m.slots);
    assert k < MAX_SESSIONS ==> !IsOpen(m, k + 1);
  }

  predicate OpenedOnly(m: State, m': State, h: nat) {
    && !IsOpen(m, h) && IsOpen(m', h) && m'.slots[h - 1].(open := false, rw := false) == ZEROED
    && m'.cache == m.cache && |m'.slots| == |m.slots|
    && forall k :: 0 <= k < |m.slots| && k != h - 1 ==> m'.slots[k] == m.slots[k]
  }

  lemma SlotCount(m: State)
    requires Inv(m)
    ensures |m.slots| == MAX_SESSIONS
  {
  }

  // Closing the session just opened leaves everything as it was, its slot zeroed.
  lemma CloseUndoesOpen(m: State, flags: nat)
    requires Inv(m) && DoOpen(m, 0, flags, true).1.rv == CKR_OK
    ensures var (m', r) := DoOpen(m, 0, flags, true);
      && DoClose(m', r.out.h).1.rv == CKR_OK && DoClose(m', r.out.h).0 == Set(m, r.out.h, ZEROED)
  {
    OpensIff(m, 0, flags, true);
    SlotCount(m);
    hide Inv;
    var (m', r) := DoOpen(m, 0, flags, true);
    assert Set(m', r.out.h, ZEROED).slots == Set(m, r.out.h, ZEROED).slots;
  }

  // A login that is not accepted, for whatever reason, leaves the module as it was,
  // logged out with nothing cached. One that is accepted is undone by C_Logout.
  lemma LoginOrNothing(m: State, h: nat, user: nat, pin: Ptr, net: Net, k: nat)
    requires Inv(m) && !m.cache.loggedIn && IsOpen(m, k)
    ensures var (m', r) := DoLogin(m, h, user, pin, net);
      && (r.rv == CKR_OK <==> m'.cache.loggedIn)
      && (r.rv != CKR_OK ==> m' == m)
      && (r.rv == CKR_OK ==> DoLogout(m', k) == (m, Fail(CKR_OK)))
  {
    hide LoginRpc, CacheInv;
    Forgotten(m);
    assert m.initialized;
    if pin.Mem? {
      LoginGivesCache(pin.data, net);
      RejectedIsFreed(pin.data, net);
    }
  }

  lemma Forgotten(m: State)
    requires Inv(m) && !m.cache.loggedIn
    ensures m.cache == FREED
  {
  }

  lemma RejectedIsFreed(pin: bytes, net: Net)
    ensures LoginRpc(pin, net).rv != CKR_OK ==> LoginRpc(pin, net).cache == FREED
  {
    hide ParsedInfo, Rpc, CacheOf;
  }

  predicate AttemptsSign(m: State, c: Call) {
    (c.Sign? || c.SignFinal?) && IsOpen(m, c.h) && m.slots[c.h - 1].signing && c.sig.Room?
      && c.sig.cap >= SigLen(m.cache)
  }

  function Ended(m: State, h: nat): State
    requires IsOpen(m, h)
  {
    Set(m, h, ClearSign(m.slots[h - 1]))
  }

  // A call that fails changes nothing at all, with one exception: a signature that was
  // attempted ends the session's operation however it turns out.
  lemma FailureChangesNothing(m: State, c: Call)
    requires Inv(m)
    ensures var (m', r) := Apply(m, c); r.rv != CKR_OK ==> m' == m || (AttemptsSign(m, c) && m' == Ended(m, c.h))
  {
    match c {
      case Login(h, user, pin, net) => FailedLogin(m, h, user, pin, net);
      case SignUpdate(h, part, memory) => FailedUpdate(m, h, part, memory);
      case Sign(h, data, sig, net) => FailedSign(m, h, data, sig, net);
      case SignFinal(h, sig, net) => FailedSign(m, h, Mem([]), sig, net);
      case _ => hide Inv;
    }
  }

  lemma FailedSign(m: State, h: nat, data: Ptr, sig: SigBuf, net: Net)
    ensures var (m', r) := DoSign(m, h, data, sig, net);
      r.rv != CKR_OK ==> m' == m || (AttemptsSign(m, Sign(h, data, sig, net)) && m' == Ended(m, h))
    ensures var (m', r) := DoSignFinal(m, h, sig, net);
      r.rv != CKR_OK ==> m' == m || (AttemptsSign(m, SignFinal(h, sig, net)) && m' == Ended(m, h))
  {
    hide SignRpc, SigLen, ClearSign;
  }

  lemma FailedLogin(m: State, h: nat, user: nat, pin: Ptr, net: Net)
    requires Inv(m)
    ensures DoLogin(m, h, user, pin, net).1.rv != CKR_OK ==> DoLogin(m, h, user, pin, net).0 == m
  {
    if IsOpen(m, h) && !m.cache.loggedIn {
      LoginOrNothing(m, h, user, pin, net, h);
    }
    hide LoginRpc, Inv;
  }

  lemma FailedUpdate(m: State, h: nat, part: Ptr, memory: bool)
    requires Inv(m)
    ensures DoSignUpdate(m, h, part, memory).1.rv != CKR_OK ==> DoSignUpdate(m, h, part, memory).0 == m
  {
    hide CapFor, Inv;
    if IsOpen(m, h) {
      assert Set(m, h, m.slots[h - 1]) == m;
    }
  }

  // Too small a buffer leaves the operation running if and only if it is smaller than
  // the predicted length; a server whose signature is longer than predicted ends it.
  lemma TooSmallKeepsIff(m: State, h: nat, sig: SigBuf, net: Net)
    requires Inv(m) && IsOpen(m, h) && m.slots[h - 1].signing && sig.Room?
    requires DoSignFinal(m, h, sig, net).1.rv == CKR_BUFFER_TOO_SMALL
    ensures DoSignFinal(m, h, sig, net).0.slots[h - 1].signing <==> sig.cap < SigLen(m.cache)
  {
    hide SignRpc, SigLen, Inv;
  }

  // ----- three claims that look natural: exactly which call breaks each

  // "Signing implies logged in."
  predicate SigningIsLoggedIn(m: State) {
    (exists k :: 0 <= k < |m.slots| && m.slots[k].signing) ==> m.cache.loggedIn
  }

  // A successful C_Logout while some session is signing.
  predicate OrphansSigning(m: State, c: Call) {
    c.Logout? && Apply(m, c).1.rv == CKR_OK && exists k :: 0 <= k < |m.slots| && m.slots[k].signing
  }

  lemma SigningBreaksIff(m: State, c: Call)
    requires Inv(m) && SigningIsLoggedIn(m)
    ensures SigningIsLoggedIn(Apply(m, c).0) <==> !OrphansSigning(m, c)
  {
    hide CacheInv, SlotInv, SigLen, SignRpc, FoundFor, CapFor, KnownMech, RsaMech, EcMech, LoginRpc;
    match c {
      case SignInit(h, mech, key) => SignInitLoggedIn(m, h, mech, key);
      case Login(h, user, pin, net) => LoginKeepsClaim(m, h, user, pin, net);
      case Finalize(args) => assert Inv(Apply(m, c).0) by { FinalizeKeepsInv(m, args); }
      case _ =>
    }
  }

  lemma SignInitLoggedIn(m: State, h: nat, mech: Option<nat>, key: nat)
    requires SigningIsLoggedIn(m)
    ensures SigningIsLoggedIn(DoSignInit(m, h, mech, key).0)
  {
    hide KnownMech, RsaMech, EcMech;
  }

  lemma LoginKeepsClaim(m: State, h: nat, user: nat, pin: Ptr, net: Net)
    requires Inv(m) && SigningIsLoggedIn(m)
    ensures SigningIsLoggedIn(DoLogin(m, h, user, pin, net).0)
  {
    if DoLogin(m, h, user, pin, net).1.rv != CKR_OK {
      FailedLogin(m, h, user, pin, net);
    } else {
      hide CacheInv, SlotInv;
      LoginGivesCache(pin.data, net);
      hide LoginRpc;
    }
  }

  // Over runs: it holds all along exactly when no call of the run is such a logout.
  lemma SigningHoldsIff(calls: seq<Call>)
    ensures (forall n :: 0 <= n <= |calls| ==> SigningIsLoggedIn(Run(calls[..n])))
       <==> (forall n :: 0 <= n < |calls| ==> !OrphansSigning(Run(calls[..n]), calls[n]))
  {
    hide SigningIsLoggedIn, OrphansSigning, Run, Inv;
    if forall n :: 0 <= n < |calls| ==> !OrphansSigning(Run(calls[..n]), calls[n]) {
      forall n | 0 <= n <= |calls|
        ensures SigningIsLoggedIn(Run(calls[..n]))
      {
        SigningHolds(calls, n);
      }
    } else {
      var n :| 0 <= n < |calls| && OrphansSigning(Run(calls[..n]), calls[n]);
      Prefix(calls, n);
      if SigningIsLoggedIn(Run(calls[..n])) {
        SigningBreaksIff(Run(calls[..n]), calls[n]);
      }
    }
  }

  lemma {:induction false} SigningHolds(calls: seq<Call>, n: nat)
    requires n <= |calls| && forall i :: 0 <= i < |calls| ==> !OrphansSigning(Run(calls[..i]), calls[i])
    ensures SigningIsLoggedIn(Run(calls[..n]))
  {
    ClaimsAtStart();
    hide *;
    if n == 0 {
      assert calls[..0] == [];
    } else {
      assert !OrphansSigning(Run(calls[..n - 1]), calls[n - 1]);
      SigningHolds(calls, n - 1);
      Prefix(calls, n - 1);
      SigningBreaksIff(Run(calls[..n - 1]), calls[n - 1]);
    }
  }

  // The three claims of this section hold when the module is loaded.
  lemma ClaimsAtStart()
    ensures SigningIsLoggedIn(Run([])) && LoginNeedsSession(Run([])) && ClosedAreZero(Run([]))
  {
    assert Run([]) == LOADED;
    hide Run, Inv;
  }

  lemma Prefix(calls: seq<Call>, n: nat)
    requires n < |calls|
    ensures Run(calls[..n + 1]) == Apply(Run(calls[..n]), calls[n]).0
  {
    hide Apply;
    assert calls[..n + 1] == calls[..n] + [calls[n]];
    RunSnoc(calls[..n], calls[n]);
  }

  // "No open session implies logged out."
  predicate LoginNeedsSession(m: State) {
    m.cache.loggedIn ==> exists k :: 0 <= k < |m.slots| && m.slots[k].open
  }

  // Closing the last session, or all of them, while logged in.
  predicate OrphansLogin(m: State, c: Call) {
    && m.cache.loggedIn && Apply(m, c).1.rv == CKR_OK
    && (c.CloseAllSessions? || (c.CloseSession? && forall k :: 0 <= k < |m.slots| && m.slots[k].open ==> k == c.h - 1))
  }

  lemma LoginBreaksIff(m: State, c: Call)
    requires Inv(m) && LoginNeedsSession(m)
    ensures LoginNeedsSession(Apply(m, c).0) <==> !OrphansLogin(m, c)
  {
    hide CacheInv, SlotInv, SigLen, SignRpc, FoundFor, CapFor, KnownMech, RsaMech, EcMech, LoginRpc;
    var m' := Apply(m, c).0;
    if c.CloseSession? {
      CloseBreaksIff(m, c.h);
    } else if !c.CloseAllSessions? && m'.cache.loggedIn {
      StillOpen(m, c);
    }
  }

  lemma CloseBreaksIff(m: State, h: nat)
    requires Inv(m) && LoginNeedsSession(m)
    ensures LoginNeedsSession(DoClose(m, h).0) <==> !OrphansLogin(m, CloseSession(h))
  {
    hide CacheInv, SlotInv;
    var m' := DoClose(m, h).0;
    if IsOpen(m, h) && m.initialized {
      assert forall k :: 0 <= k < |m.slots| && k != h - 1 ==> m'.slots[k] == m.slots[k];
    }
  }

  // Every call but a close that leaves the module logged in leaves a session open.
  lemma StillOpen(m: State, c: Call)
    requires Inv(m) && LoginNeedsSession(m) && !c.CloseSession? && !c.CloseAllSessions? && Apply(m, c).0.cache.loggedIn
    ensures exists k :: 0 <= k < |Apply(m, c).0.slots| && Apply(m, c).0.slots[k].open
  {
    hide CacheInv, SlotInv, SigLen, SignRpc, FoundFor, CapFor, KnownMech, RsaMech, EcMech, LoginRpc;
    var m' := Apply(m, c).0;
    var k := if c.Login? && IsOpen(m, c.h) then c.h - 1
             else if m.cache.loggedIn then (var k :| 0 <= k < |m.slots| && m.slots[k].open; k) else 0;
    assert m'.slots[k].open;
  }

  lemma LoginHoldsIff(calls: seq<Call>)
    ensures (forall n :: 0 <= n <= |calls| ==> LoginNeedsSession(Run(calls[..n])))
       <==> (forall n :: 0 <= n < |calls| ==> !OrphansLogin(Run(calls[..n]), calls[n]))
  {
    hide LoginNeedsSession, OrphansLogin, Run, Inv;
    if forall n :: 0 <= n < |calls| ==> !OrphansLogin(Run(calls[..n]), calls[n]) {
      forall n | 0 <= n <= |calls|
        ensures LoginNeedsSession(Run(calls[..n]))
      {
        LoginHolds(calls, n);
      }
    } else {
      var n :| 0 <= n < |calls| && OrphansLogin(Run(calls[..n]), calls[n]);
      Prefix(calls, n);
      if LoginNeedsSession(Run(calls[..n])) {
        LoginBreaksIff(Run(calls[..n]), calls[n]);
      }
    }
  }

  lemma {:induction false} LoginHolds(calls: seq<Call>, n: nat)
    requires n <= |calls| && forall i :: 0 <= i < |calls| ==> !OrphansLogin(Run(calls[..i]), calls[i])
    ensures LoginNeedsSession(Run(calls[..n]))
  {
    ClaimsAtStart();
    hide *;
    if n == 0 {
      assert calls[..0] == [];
    } else {
      assert !OrphansLogin(Run(calls[..n - 1]), calls[n - 1]);
      LoginHolds(calls, n - 1);
      Prefix(calls, n - 1);
      LoginBreaksIff(Run(calls[..n - 1]), calls[n - 1]);
    }
  }

  // "Closed slots are all zero."
  predicate ClosedAreZero(m: State) {
    forall k :: 0 <= k < |m.slots| && !m.slots[k].open ==> m.slots[k] == ZEROED
  }

  // What C_Finalize does not clear: the read-write flag, a search, and the mechanism of
  // a signature that was ever started.
  predicate Leftover(s: Slot) {
    s.rw || s.finding || s.found != [] || s.sent != 0 || s.mech != 0
  }

  // A successful C_Finalize while some session has such a leftover.
  predicate LeavesBehind(m: State, c: Call) {
    c.Finalize? && Apply(m, c).1.rv == CKR_OK && exists k :: 0 <= k < |m.slots| && Leftover(m.slots[k])
  }

  lemma FinalizedIsZeroIff(m: State, k: nat)
    requires Inv(m) && m.initialized && k < MAX_SESSIONS
    ensures var m' := DoFinalize(m, false).0; !m'.slots[k].open && (m'.slots[k] == ZEROED <==> !Leftover(m.slots[k]))
  {
    hide CacheInv, SlotInv;
  }

  lemma ClosedBreaksIff(m: State, c: Call)
    requires Inv(m) && ClosedAreZero(m)
    ensures ClosedAreZero(Apply(m, c).0) <==> !LeavesBehind(m, c)
  {
    hide CacheInv, SlotInv, SigLen, SignRpc, FoundFor, CapFor, KnownMech, RsaMech, EcMech, LoginRpc;
    if c.Finalize? {
      hide Leftover;
      FinalizeBreaksIff(m, c.args);
    }
  }

  lemma FinalizeBreaksIff(m: State, args: bool)
    requires Inv(m) && ClosedAreZero(m)
    ensures ClosedAreZero(DoFinalize(m, args).0) <==> !LeavesBehind(m, Finalize(args))
  {
    var m' := DoFinalize(m, args).0;
    if m.initialized && !args {
      forall k | 0 <= k < MAX_SESSIONS
        ensures !m'.slots[k].open && (m'.slots[k] == ZEROED <==> !Leftover(m.slots[k]))
      {
        FinalizedIsZeroIff(m, k);
      }
      hide CacheInv, SlotInv, Leftover, Finalized;
    }
  }

  lemma ClosedHoldsIff(calls: seq<Call>)
    ensures (forall n :: 0 <= n <= |calls| ==> ClosedAreZero(Run(calls[..n])))
       <==> (forall n :: 0 <= n < |calls| ==> !LeavesBehind(Run(calls[..n]), calls[n]))
  {
    hide ClosedAreZero, LeavesBehind, Run, Inv;
    if forall n :: 0 <= n < |calls| ==> !LeavesBehind(Run(calls[..n]), calls[n]) {
      forall n | 0 <= n <= |calls|
        ensures ClosedAreZero(Run(calls[..n]))
      {
        ClosedHolds(calls, n);
      }
    } else {
      var n :| 0 <= n < |calls| && LeavesBehind(Run(calls[..n]), calls[n]);
      Prefix(calls, n);
      if ClosedAreZero(Run(calls[..n])) {
        ClosedBreaksIff(Run(calls[..n]), calls[n]);
      }
    }
  }

  lemma {:induction false} ClosedHolds(calls: seq<Call>, n: nat)
    requires n <= |calls| && forall i :: 0 <= i < |calls| ==> !LeavesBehind(Run(calls[..i]), calls[i])
    ensures ClosedAreZero(Run(calls[..n]))
  {
    ClaimsAtStart();
    hide *;
    if n == 0 {
      assert calls[..0] == [];
    } else {
      assert !LeavesBehind(Run(calls[..n - 1]), calls[n - 1]);
      ClosedHolds(calls, n - 1);
      Prefix(calls, n - 1);
      ClosedBreaksIff(Run(calls[..n - 1]), calls[n - 1]);
    }
  }

  // A run that gets there: open a read-write session, finalize.
  lemma FinalizeLeaves()
    ensures var m := Run([Initialize(false)] + [OpenSession(0, 6, true)] + [Finalize(false)]);
      !m.slots[0].open && m.slots[0].rw && m.slots[0] != ZEROED
  {
    var a := [Initialize(false)];
    var m := LOADED.(initialized := true);
    var ready := DoOpen(m, 0, 6, true).0;
    assert ready.initialized && ready.slots[0].rw;
    assert Run([]) == LOADED && [] + a == a;
    hide Run, Inv, DoOpen;
    RunSnoc([], Initialize(false));
    RunSnoc(a, OpenSession(0, 6, true));
    RunSnoc(a + [OpenSession(0, 6, true)], Finalize(false));
  }

  // ----- what a template selects

  const CKO_CERTIFICATE := 0x1
  const CKO_PRIVATE_KEY := 0x3

  lemma {:induction false} LEInjective(a: nat, b: nat, k: nat)
    requires a < Pow256(k) && b < Pow256(k) && LE(a, k) == LE(b, k)
    ensures a == b
    decreases k
  {
    if k > 0 {
      assert LE(a, k)[0] == a % 256 && LE(b, k)[0] == b % 256;
      assert LE(a, k)[1..] == LE(a / 256, k - 1) && LE(b, k)[1..] == LE(b / 256, k - 1);
      LEInjective(a / 256, b / 256, k - 1);
    }
  }

  lemma BigEnough()
    ensures Pow256(8) > 3
  {
    assert Pow256(8) == 256 * Pow256(7);
  }

  // Asking for private keys selects handle 1, for certificates all the others, and for
  // any other class nothing.
  lemma ClassSelects(c: Cache, h: nat, class_: nat)
    requires ObjectOk(c, h) && class_ < Pow256(8)
    ensures Matches(c, h, [Attr(CKA_CLASS, Mem(ULong(class_)))]) <==>
      (class_ == CKO_PRIVATE_KEY && h == KEY_HANDLE) || (class_ == CKO_CERTIFICATE && h != KEY_HANDLE)
  {
    BigEnough();
    var own := if h == KEY_HANDLE then CKO_PRIVATE_KEY else CKO_CERTIFICATE;
    assert AttrOne(c, h, CKA_CLASS) == Value(ULong(own));
    if ULong(class_) == ULong(own) {
      LEInjective(class_, own, 8);
    }
    hide AttrOne, LE;
    var tmpl := [Attr(CKA_CLASS, Mem(ULong(class_)))];
    assert Matches(c, h, tmpl) <==> AttrEquals(c, h, tmpl[0]);
  }

  // While logged in, the alias as a label selects the key and the leaf, and never an
  // issuer's certificate: its label is longer than the alias or ends before its NUL.
  lemma LabelSelects(c: Cache, h: nat)
    requires CacheInv(c) && c.loggedIn && ObjectOk(c, h)
    ensures var name: Memory := c.alias;
      Matches(c, h, [Attr(CKA_LABEL, Mem(name))]) <==> h == KEY_HANDLE || h == 2
  {
    var tmpl := [Attr(CKA_LABEL, Mem(c.alias))];
    if h > 2 {
      assert c.certs[h - 2].name == Label(c.alias, h - 2);
      IssuerLabelDiffers(c.alias, h - 2);
    }
    hide Label;
    assert Matches(c, h, tmpl) <==> AttrEquals(c, h, tmpl[0]);
  }

  lemma IssuerLabelDiffers(alias: bytes, n: nat)
    requires 1 <= n < MAX_CERTS
    ensures Label(alias, n) != alias
  {
    var tail: bytes := [0x2e, 0x63, 0x61, 0x30 + n];
    assert Label(alias, n) == UpToNul(alias) + tail;
    if 0 !in alias {
      assert UpToNul(alias) == alias;
    } else {
      assert 0 !in UpToNul(alias) + tail;
    }
  }

  // The point a logged-in client offers decodes to the point the server described.
  lemma EcPointDecodes(c: Cache)
    requires CacheInv(c) && c.loggedIn && c.keyType == KEY_EC
    ensures TakeDerOctet(c.ecPoint) == Got(c.partB, [])
  {
    DerOctetReads(c.partB, []);
    assert DerOctet(c.partB) + [] == DerOctet(c.partB);
  }

  // No template that asks for a private part of the key matches anything.
  lemma SecretsMatchNothing(c: Cache, h: nat, tmpl: seq<Attr>, i: nat)
    requires ObjectOk(c, h) && i < |tmpl| && 0x123 <= tmpl[i].typ <= 0x128
    ensures !Matches(c, h, tmpl)
  {
    assert !AttrOne(c, h, tmpl[i].typ).Value?;
    assert !AttrEquals(c, h, tmpl[i]);
  }
}
