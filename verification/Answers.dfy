// What each call of the PKCS#11 module answers, said without its code: which check
// refuses it, which parts a signature takes, which objects a search finds, and what
// becomes of every reply the server can send.

module Answers {
  import opened Bytes
  import opened Frames
  import opened InfoCodec
  import opened Pkcs11
  import opened Runs
  import opened Sessions

  // ----- the checks of every call

  // A ground for refusing a call, and the code that reports it.
  datatype Check = Check(fails: bool, rv: nat)

  function SlotOf(m: State, h: nat): Slot {
    if 1 <= h <= |m.slots| then m.slots[h - 1] else ZEROED
  }

  function Live(m: State, h: nat): seq<Check> {
    [Check(!m.initialized, CKR_CRYPTOKI_NOT_INITIALIZED), Check(!IsOpen(m, h), CKR_SESSION_HANDLE_INVALID)]
  }

  // The grounds for refusing each call, in order of precedence.
  function Checks(m: State, c: Call): seq<Check> {
    match c
    case Initialize(reserved) =>
      [Check(m.initialized, CKR_CRYPTOKI_ALREADY_INITIALIZED), Check(reserved, CKR_ARGUMENTS_BAD)]
    case Finalize(args) =>
      [Check(args, CKR_ARGUMENTS_BAD), Check(!m.initialized, CKR_CRYPTOKI_NOT_INITIALIZED)]
    case OpenSession(slot, flags, hasOut) =>
      [Check(!m.initialized, CKR_CRYPTOKI_NOT_INITIALIZED), Check(slot != 0, CKR_SLOT_ID_INVALID),
       Check(!hasOut || flags / 4 % 2 == 0, CKR_ARGUMENTS_BAD),
       Check(forall h :: 1 <= h <= MAX_SESSIONS ==> IsOpen(m, h), CKR_HOST_MEMORY)]
    case CloseSession(h) => Live(m, h)
    case CloseAllSessions(slot) =>
      [Check(!m.initialized, CKR_CRYPTOKI_NOT_INITIALIZED), Check(slot != 0, CKR_SLOT_ID_INVALID)]
    case Login(h, user, pin, _) =>
      Live(m, h) + [Check(user != CKU_USER, CKR_USER_TYPE_INVALID),
                    Check(m.cache.loggedIn, CKR_USER_ALREADY_LOGGED_IN), Check(pin.Null?, CKR_ARGUMENTS_BAD),
                    Check(|Contents(pin)| != PIN_LEN, CKR_PIN_INCORRECT)]
    case Logout(h) => Live(m, h) + [Check(!m.cache.loggedIn, CKR_USER_NOT_LOGGED_IN)]
    case FindInit(h, tmpl, count) =>
      Live(m, h) + [Check(SlotOf(m, h).finding, CKR_OPERATION_ACTIVE),
                    Check(tmpl.None? && count != 0, CKR_ARGUMENTS_BAD)]
    case Find(h, hasOut, _) =>
      Live(m, h) + [Check(!SlotOf(m, h).finding, CKR_OPERATION_NOT_INITIALIZED), Check(!hasOut, CKR_ARGUMENTS_BAD)]
    case FindFinal(h) => Live(m, h)
    case SignInit(h, mech, key) =>
      Live(m, h) + [Check(!m.cache.loggedIn, CKR_USER_NOT_LOGGED_IN), Check(mech.None?, CKR_ARGUMENTS_BAD),
                    Check(SlotOf(m, h).signing, CKR_OPERATION_ACTIVE), Check(key != 1, CKR_KEY_HANDLE_INVALID),
                    Check(mech.Some? && mech.value !in RSA_MECHS + EC_MECHS, CKR_MECHANISM_INVALID),
                    Check(mech.Some? && mech.value !in (if m.cache.keyType == KEY_RSA then RSA_MECHS else EC_MECHS),
                          CKR_KEY_TYPE_INCONSISTENT)]
    case Sign(h, data, sig, _) =>
      Live(m, h) + [Check(!SlotOf(m, h).signing, CKR_OPERATION_NOT_INITIALIZED),
                    Check(sig.NoLength? || Missing(data), CKR_ARGUMENTS_BAD),
                    Check(SlotOf(m, h).data != [], CKR_OPERATION_ACTIVE)]
    case SignUpdate(h, part, memory) =>
      var need := |SlotOf(m, h).data| + |Contents(part)|;
      Live(m, h) + [Check(!SlotOf(m, h).signing, CKR_OPERATION_NOT_INITIALIZED),
                    Check(Missing(part), CKR_ARGUMENTS_BAD), Check(need > 0x10_0000, CKR_GENERAL_ERROR),
                    Check(need > SlotOf(m, h).cap && !memory, CKR_HOST_MEMORY)]
    case SignFinal(h, sig, _) =>
      Live(m, h) + [Check(!SlotOf(m, h).signing, CKR_OPERATION_NOT_INITIALIZED),
                    Check(sig.NoLength?, CKR_ARGUMENTS_BAD)]
  }

  // CKM_RSA_PKCS and its SHA-256, SHA-384 and SHA-512 forms, then the three PSS forms.
  const RSA_MECHS: set<nat> := {0x1, 0x40, 0x41, 0x42, 0x43, 0x44, 0x45}

  // CKM_ECDSA and its SHA-256, SHA-384 and SHA-512 forms.
  const EC_MECHS: set<nat> := {0x1041, 0x1044, 0x1045, 0x1046}

  predicate FirstToFail(cs: seq<Check>, k: nat) {
    k < |cs| && cs[k].fails && forall j :: 0 <= j < k ==> !cs[j].fails
  }

  predicate AllPass(cs: seq<Check>) {
    forall j :: 0 <= j < |cs| ==> !cs[j].fails
  }

  // The checks one by one.
  lemma OneByOne(cs: seq<Check>, k: nat)
    requires |cs| <= 8 && FirstToFail(cs, k)
    ensures k == 0 || !cs[0].fails
    ensures k <= 1 || !cs[1].fails
    ensures k <= 2 || !cs[2].fails
    ensures k <= 3 || !cs[3].fails
    ensures k <= 4 || !cs[4].fails
    ensures k <= 5 || !cs[5].fails
    ensures k <= 6 || !cs[6].fails
    ensures cs[k].fails
  {
  }

  // The first check that fails decides the code; the module stays as it was, nothing
  // is stored for the caller and nothing is sent.
  lemma RefusedByFirst(m: State, c: Call, k: nat)
    requires Inv(m) && FirstToFail(Checks(m, c), k)
    ensures Apply(m, c) == (m, Fail(Checks(m, c)[k].rv))
  {
    hide Checks, Apply, Inv, FirstToFail, CacheInv, SlotInv;
    match c {
      case OpenSession(slot, flags, hasOut) => OpenRefused(m, slot, flags, hasOut, k);
      case Login(h, user, pin, net) => LoginRefused(m, h, user, pin, net, k);
      case SignInit(h, mech, key) => SignInitRefused(m, h, mech, key, k);
      case SignUpdate(h, part, memory) => UpdateRefused(m, h, part, memory, k);
      case _ =>
        if c.Sign? || c.SignFinal? {
          SignRefused(m, c, k);
        } else {
          OtherRefused(m, c, k);
        }
    }
  }

  lemma SignRefused(m: State, c: Call, k: nat)
    requires (c.Sign? || c.SignFinal?) && FirstToFail(Checks(m, c), k)
    ensures Apply(m, c) == (m, Fail(Checks(m, c)[k].rv))
  {
    OneByOne(Checks(m, c), k);
    hide FinishSign;
  }

  lemma OtherRefused(m: State, c: Call, k: nat)
    requires FirstToFail(Checks(m, c), k)
    requires !c.OpenSession? && !c.Login? && !c.SignInit? && !c.Sign? && !c.SignUpdate? && !c.SignFinal?
    ensures Apply(m, c) == (m, Fail(Checks(m, c)[k].rv))
  {
    OneByOne(Checks(m, c), k);
    hide FoundFor;
  }

  lemma OpenRefused(m: State, slot: nat, flags: nat, hasOut: bool, k: nat)
    requires Inv(m) && FirstToFail(Checks(m, OpenSession(slot, flags, hasOut)), k)
    ensures Apply(m, OpenSession(slot, flags, hasOut)) == (m, Fail(Checks(m, OpenSession(slot, flags, hasOut))[k].rv))
  {
    OneByOne(Checks(m, OpenSession(slot, flags, hasOut)), k);
    SlotCount(m);
    hide Inv;
    var free := FirstClosed(m.slots);
    assert free < |m.slots| ==> !IsOpen(m, free + 1);
  }

  lemma LoginRefused(m: State, h: nat, user: nat, pin: Ptr, net: Net, k: nat)
    requires Inv(m) && FirstToFail(Checks(m, Login(h, user, pin, net)), k)
    ensures Apply(m, Login(h, user, pin, net)) == (m, Fail(Checks(m, Login(h, user, pin, net))[k].rv))
  {
    OneByOne(Checks(m, Login(h, user, pin, net)), k);
    if !m.cache.loggedIn {
      Forgotten(m);
    }
    hide Inv, Frame, Outgoing, Rpc, ParsedInfo;
  }

  lemma SignInitRefused(m: State, h: nat, mech: Option<nat>, key: nat, k: nat)
    requires Inv(m) && FirstToFail(Checks(m, SignInit(h, mech, key)), k)
    ensures Apply(m, SignInit(h, mech, key)) == (m, Fail(Checks(m, SignInit(h, mech, key))[k].rv))
  {
    OneByOne(Checks(m, SignInit(h, mech, key)), k);
    if m.cache.loggedIn {
      KeyTypes(m);
    }
    hide Inv;
  }

  lemma KeyTypes(m: State)
    requires Inv(m) && m.cache.loggedIn
    ensures m.cache.keyType == KEY_RSA || m.cache.keyType == KEY_EC
  {
    hide SlotInv;
  }

  lemma UpdateRefused(m: State, h: nat, part: Ptr, memory: bool, k: nat)
    requires Inv(m) && FirstToFail(Checks(m, SignUpdate(h, part, memory)), k)
    ensures Apply(m, SignUpdate(h, part, memory)) == (m, Fail(Checks(m, SignUpdate(h, part, memory))[k].rv))
  {
    OneByOne(Checks(m, SignUpdate(h, part, memory)), k);
    hide Inv, CapFor;
    if IsOpen(m, h) {
      assert Set(m, h, m.slots[h - 1]) == m;
    }
  }

  // What a call that passes its checks does, for the calls that do not use the socket:
  // it changes only what it is for.
  predicate Effect(m: State, c: Call, m': State, r: Reply) {
    match c
    case Initialize(_) => m' == m.(initialized := true) && r == Fail(CKR_OK)
    case Finalize(_) => !m'.initialized && m'.cache == FREED && AllFinalized(m.slots, m'.slots) && r == Fail(CKR_OK)
    case OpenSession(_, flags, _) =>
      && r.rv == CKR_OK && r.sent == [] && r.out.Opened? && 1 <= r.out.h <= |m.slots| && !IsOpen(m, r.out.h)
      && (forall k :: 1 <= k < r.out.h ==> IsOpen(m, k))
      && m' == Set(m, r.out.h, ZEROED.(open := true, rw := flags / 2 % 2 == 1))
    case CloseSession(h) => IsOpen(m, h) && m' == Set(m, h, ZEROED) && r == Fail(CKR_OK)
    case CloseAllSessions(_) => m' == m.(slots := [ZEROED, ZEROED, ZEROED, ZEROED]) && r == Fail(CKR_OK)
    case Logout(_) => m' == m.(cache := FREED) && r == Fail(CKR_OK)
    case FindInit(h, _, _) =>
      && IsOpen(m, h) && r == Fail(CKR_OK)
      && m' == Set(m, h, m.slots[h - 1].(finding := true, found := SlotOf(m', h).found, sent := 0))
    case Find(h, _, max) =>
      && IsOpen(m, h) && r.rv == CKR_OK && r.sent == [] && r.out.Handles?
      && Handed(m.slots[h - 1], max, r.out.hs)
      && m' == Set(m, h, m.slots[h - 1].(sent := m.slots[h - 1].sent + |r.out.hs|))
    case FindFinal(h) =>
      IsOpen(m, h) && m' == Set(m, h, m.slots[h - 1].(finding := false, found := [], sent := 0)) && r == Fail(CKR_OK)
    case SignInit(h, mech, _) =>
      && IsOpen(m, h) && mech.Some? && r == Fail(CKR_OK)
      && m' == Set(m, h, m.slots[h - 1].(signing := true, mech := mech.value))
    case SignUpdate(h, part, _) =>
      && IsOpen(m, h) && r == Fail(CKR_OK)
      && m' == Set(m, h, m.slots[h - 1].(data := m.slots[h - 1].data + Contents(part), cap := SlotOf(m', h).cap))
    case Login(_, _, _, _) => true
    case Sign(_, _, _, _) => true
    case SignFinal(_, _, _) => true
  }

  // Closed, no longer signing, and otherwise as it was.
  predicate AllFinalized(slots: seq<Slot>, slots': seq<Slot>) {
    && |slots'| == |slots|
    && forall k :: 0 <= k < |slots| ==> slots'[k] == slots[k].(open := false, signing := false, data := [], cap := 0)
  }

  // As many of the handles that are left as were asked for, and not one fewer.
  predicate Handed(s: Slot, max: nat, hs: seq<nat>) {
    && |hs| <= max && s.sent + |hs| <= |s.found| && hs == s.found[s.sent..s.sent + |hs|]
    && (|hs| < max ==> s.sent + |hs| == |s.found|)
  }

  lemma AcceptedHasEffect(m: State, c: Call)
    requires Inv(m) && AllPass(Checks(m, c))
    ensures Effect(m, c, Apply(m, c).0, Apply(m, c).1)
  {
    hide Checks, Apply, Inv, Effect, AllPass, CacheInv, SlotInv;
    match c {
      case OpenSession(slot, flags, hasOut) => OpenAccepted(m, slot, flags, hasOut);
      case SignInit(h, mech, key) => SignInitAccepted(m, h, mech, key);
      case Find(h, hasOut, max) => FindAccepted(m, h, hasOut, max);
      case SignUpdate(h, part, memory) => UpdateAccepted(m, h, part, memory);
      case _ => OtherAccepted(m, c);
    }
  }

  lemma OtherAccepted(m: State, c: Call)
    requires Inv(m) && AllPass(Checks(m, c))
    requires !c.OpenSession? && !c.SignInit? && !c.Find? && !c.SignUpdate?
    ensures Effect(m, c, Apply(m, c).0, Apply(m, c).1)
  {
    EachPasses(Checks(m, c));
    SlotCount(m);
    hide Inv, FoundFor, FinishSign, LoginRpc;
  }

  lemma EachPasses(cs: seq<Check>)
    requires |cs| <= 8 && AllPass(cs)
    ensures |cs| > 0 ==> !cs[0].fails
    ensures |cs| > 1 ==> !cs[1].fails
    ensures |cs| > 2 ==> !cs[2].fails
    ensures |cs| > 3 ==> !cs[3].fails
    ensures |cs| > 4 ==> !cs[4].fails
    ensures |cs| > 5 ==> !cs[5].fails
    ensures |cs| > 6 ==> !cs[6].fails
    ensures |cs| > 7 ==> !cs[7].fails
  {
  }

  lemma OpenAccepted(m: State, slot: nat, flags: nat, hasOut: bool)
    requires Inv(m) && AllPass(Checks(m, OpenSession(slot, flags, hasOut)))
    ensures Effect(m, OpenSession(slot, flags, hasOut), Apply(m, OpenSession(slot, flags, hasOut)).0,
      Apply(m, OpenSession(slot, flags, hasOut)).1)
  {
    EachPasses(Checks(m, OpenSession(slot, flags, hasOut)));
    SlotCount(m);
    hide Inv;
    var free := FirstClosed(m.slots);
    assert forall k :: 1 <= k < free + 1 ==> IsOpen(m, k);
  }

  lemma SignInitAccepted(m: State, h: nat, mech: Option<nat>, key: nat)
    requires Inv(m) && AllPass(Checks(m, SignInit(h, mech, key)))
    ensures Effect(m, SignInit(h, mech, key), Apply(m, SignInit(h, mech, key)).0, Apply(m, SignInit(h, mech, key)).1)
  {
    EachPasses(Checks(m, SignInit(h, mech, key)));
    KeyTypes(m);
    IdleIsEmpty(m, h);
    hide Inv;
  }

  lemma UpdateAccepted(m: State, h: nat, part: Ptr, memory: bool)
    requires Inv(m) && AllPass(Checks(m, SignUpdate(h, part, memory)))
    ensures Effect(m, SignUpdate(h, part, memory), Apply(m, SignUpdate(h, part, memory)).0,
      Apply(m, SignUpdate(h, part, memory)).1)
  {
    EachPasses(Checks(m, SignUpdate(h, part, memory)));
    hide Inv, CapFor;
  }

  lemma IdleIsEmpty(m: State, h: nat)
    requires Inv(m) && IsOpen(m, h) && !m.slots[h - 1].signing
    ensures m.slots[h - 1].data == []
  {
    hide CacheInv;
  }

  lemma FindAccepted(m: State, h: nat, hasOut: bool, max: nat)
    requires Inv(m) && AllPass(Checks(m, Find(h, hasOut, max)))
    ensures Effect(m, Find(h, hasOut, max), Apply(m, Find(h, hasOut, max)).0, Apply(m, Find(h, hasOut, max)).1)
  {
    EachPasses(Checks(m, Find(h, hasOut, max)));
    assert m.initialized && IsOpen(m, h) && m.slots[h - 1].finding && hasOut by { hide Inv; }
    hide Checks, AllPass;
    SearchBounds(m, h);
    hide Inv;
    HandsOut(m, h, max);
    hide DoFind, Handed;
  }

  lemma HandsOut(m: State, h: nat, max: nat)
    requires m.initialized && IsOpen(m, h) && m.slots[h - 1].finding && m.slots[h - 1].sent <= |m.slots[h - 1].found|
    ensures var (m', r) := DoFind(m, h, true, max); var s := m.slots[h - 1];
      && r.rv == CKR_OK && r.sent == [] && r.out.Handles? && Handed(s, max, r.out.hs)
      && m' == Set(m, h, s.(sent := s.sent + |r.out.hs|))
  {
  }

  // ----- the parts of a message

  // C_SignUpdate takes a part exactly when the message stays within 2^20 bytes and either
  // memory is to be had or the part fits the buffer as it is; nothing but the message
  // grows, by that part, in the smallest buffer of 256, 512, 1024, ... bytes that holds it
  // when the old one does not. A message that would be too long is a general error
  // whatever the memory; only want of memory is reported as such.
  lemma UpdateIff(m: State, h: nat, part: Ptr, memory: bool)
    requires Inv(m) && IsOpen(m, h) && m.slots[h - 1].signing && !Missing(part)
    ensures var (m', r) := Apply(m, SignUpdate(h, part, memory));
      var s, s' := m.slots[h - 1], SlotOf(m', h);
      var p: bytes := if part.Mem? then part.data else [];
      var need := |s.data| + |p|;
      && (r.rv == CKR_OK <==> need <= 0x10_0000 && (memory || need <= s.cap))
      && (r.rv == CKR_GENERAL_ERROR <==> need > 0x10_0000)
      && (r.rv == CKR_HOST_MEMORY <==> need <= 0x10_0000 && !memory && need > s.cap)
      && (r.rv == CKR_OK ==>
        && m' == Set(m, h, s.(data := s.data + p, cap := s'.cap))
        && (need <= s.cap ==> s'.cap == s.cap) && (need > s.cap ==> LeastDoubling(s'.cap, need)))
  {
    assert m.initialized by { SigningIsOn(m, h); }
    var p: bytes := if part.Mem? then part.data else [];
    if |m.slots[h - 1].data| + |p| <= MAX_FRAME {
      SlotFits(m, h);
      CapIsLeast(m.slots[h - 1].cap, |m.slots[h - 1].data| + |p|);
    }
    hide Inv, CapFor, LeastDoubling;
  }

  // The least of 256, 512, 1024, ... that is at least need.
  ghost predicate LeastDoubling(cap: nat, need: nat) {
    Doubling(cap) && cap >= need && forall c {:trigger Doubling(c)} :: c >= need && Doubling(c) ==> cap <= c
  }

  lemma SigningIsOn(m: State, h: nat)
    requires Inv(m) && IsOpen(m, h)
    ensures m.initialized
  {
    hide CacheInv, SlotInv;
  }

  lemma SlotFits(m: State, h: nat)
    requires Inv(m) && IsOpen(m, h)
    ensures var s := m.slots[h - 1]; |s.data| <= s.cap <= MAX_FRAME && (s.cap == 0 || Doubling(s.cap))
  {
    hide CacheInv;
  }

  lemma CapIsLeast(cap: nat, need: nat)
    requires cap == 0 || Doubling(cap)
    ensures need > cap ==> LeastDoubling(CapFor(cap, need), need)
  {
    if need > cap {
      var start := if cap == 0 then 256 else cap * 2;
      AtLeast256(start);
      GrownDoubles(start, need);
      forall c {:trigger Doubling(c)} | c >= need && Doubling(c)
        ensures Grown(start, need) <= c
      {
        AtLeast256(c);
        if cap > 0 {
          DoublingGap(cap, c);
        }
        GrownLeast(start, need, c);
      }
    }
  }

  lemma {:induction false} AtLeast256(c: nat)
    requires Doubling(c)
    ensures c >= 256
  {
  }

  lemma {:induction false} GrownDoubles(cap: nat, need: nat)
    requires Doubling(cap)
    ensures Doubling(Grown(cap, need))
    decreases need - cap
  {
    if cap < need {
      AtLeast256(cap);
      assert Doubling(cap * 2);
      GrownDoubles(cap * 2, need);
    }
  }

  lemma {:induction false} GrownLeast(cap: nat, need: nat, c: nat)
    requires Doubling(cap) && Doubling(c) && cap <= c && need <= c
    ensures Grown(cap, need) <= c
    decreases need - cap
  {
    if cap < need {
      AtLeast256(cap);
      DoublingGap(cap, c);
      assert Doubling(cap * 2);
      GrownLeast(cap * 2, need, c);
    }
  }

  // The parts given to h by a run of calls, accepted or not.
  function Streamed(more: seq<Call>, h: nat): bytes {
    if more == [] then []
    else
      Streamed(more[..|more| - 1], h) + PartOf(more[|more| - 1], h)
  }

  function PartOf(c: Call, h: nat): bytes {
    if c.SignUpdate? && c.h == h then Contents(c.data) else []
  }

  // Every call either gives h a part, with memory to be had, or does not concern h.
  predicate Streams(more: seq<Call>, h: nat) {
    forall k :: 0 <= k < |more| ==> Part(more[k], h) || !Targets(more[k], h)
  }

  predicate Part(c: Call, h: nat) {
    c.SignUpdate? && c.h == h && c.data.Mem? && c.memory
  }

  // Every part was accepted, and h holds them behind what it held, under its mechanism.
  predicate Taken(calls: seq<Call>, more: seq<Call>, h: nat)
    requires 1 <= h <= MAX_SESSIONS
  {
    && Run(calls + more).slots[h - 1].signing
    && Parts(calls + more, h) == Parts(calls, h) + Streamed(more, h)
    && Mechanism(calls + more, h) == Mechanism(calls, h)
    && AllOk(calls, more, h)
  }

  predicate AllOk(calls: seq<Call>, more: seq<Call>, h: nat) {
    forall k :: 0 <= k < |more| && Part(more[k], h) ==> LastReply(calls + more[..k + 1]).rv == CKR_OK
  }

  // However a message of at most 2^20 bytes is cut into parts, and whatever is done on
  // other sessions, and whoever logs in or out, between them: every part is accepted and
  // the session holds exactly the parts before it and these, under the same mechanism.
  lemma {:induction false} StreamAccepted(calls: seq<Call>, more: seq<Call>, h: nat)
    requires 1 <= h <= MAX_SESSIONS && Run(calls).slots[h - 1].signing && Streams(more, h)
    requires |Parts(calls, h)| + |Streamed(more, h)| <= 0x10_0000
    ensures Taken(calls, more, h)
  {
    if more == [] {
      assert calls + more == calls && Parts(calls, h) + [] == Parts(calls, h);
      hide Run, Parts, Mechanism;
    } else {
      var front, c := more[..|more| - 1], more[|more| - 1];
      LastPart(more, h);
      hide *;
      StreamAccepted(calls, front, h);
      StreamGrows(calls, front, c, h);
    }
  }

  lemma LastPart(more: seq<Call>, h: nat)
    requires more != [] && Streams(more, h)
    ensures var front, c := more[..|more| - 1], more[|more| - 1];
      && Streams(front, h) && (Part(c, h) || !Targets(c, h)) && more == front + [c]
      && Streamed(more, h) == Streamed(front, h) + PartOf(c, h)
  {
  }

  lemma StreamGrows(calls: seq<Call>, front: seq<Call>, c: Call, h: nat)
    requires 1 <= h <= MAX_SESSIONS && Taken(calls, front, h) && (Part(c, h) || !Targets(c, h))
    requires |Parts(calls, h)| + |Streamed(front + [c], h)| <= 0x10_0000
    requires Streamed(front + [c], h) == Streamed(front, h) + PartOf(c, h)
    ensures Taken(calls, front + [c], h)
  {
    hide *;
    TakenMeans(calls, front, h);
    assert calls + (front + [c]) == (calls + front) + [c];
    StreamStep(calls + front, c, h);
    OneMoreOk(calls, front, c, h);
    TakenMeans(calls, front + [c], h);
    assert (Parts(calls, h) + Streamed(front, h)) + PartOf(c, h) ==
      Parts(calls, h) + (Streamed(front, h) + PartOf(c, h));
  }

  lemma TakenMeans(calls: seq<Call>, more: seq<Call>, h: nat)
    requires 1 <= h <= MAX_SESSIONS
    ensures Taken(calls, more, h) <==>
      && Run(calls + more).slots[h - 1].signing
      && Parts(calls + more, h) == Parts(calls, h) + Streamed(more, h)
      && Mechanism(calls + more, h) == Mechanism(calls, h)
      && AllOk(calls, more, h)
  {
    hide Run, Parts, Mechanism, Streamed, AllOk;
  }

  lemma OneMoreOk(calls: seq<Call>, front: seq<Call>, c: Call, h: nat)
    requires AllOk(calls, front, h) && (Part(c, h) ==> LastReply((calls + front) + [c]).rv == CKR_OK)
    ensures AllOk(calls, front + [c], h)
  {
    hide LastReply, Part;
    var more := front + [c];
    forall k | 0 <= k < |more| && Part(more[k], h)
      ensures LastReply(calls + more[..k + 1]).rv == CKR_OK
    {
      if k < |front| {
        assert front[k] == more[k] && more[..k + 1] == front[..k + 1];
      } else {
        assert calls + more[..k + 1] == (calls + front) + [c];
      }
    }
  }

  lemma StreamStep(calls: seq<Call>, c: Call, h: nat)
    requires 1 <= h <= MAX_SESSIONS && Run(calls).slots[h - 1].signing
    requires Part(c, h) || !Targets(c, h)
    requires |Parts(calls, h)| + |PartOf(c, h)| <= 0x10_0000
    ensures var more := calls + [c];
      && Run(more).slots[h - 1].signing && Mechanism(more, h) == Mechanism(calls, h)
      && Parts(more, h) == Parts(calls, h) + PartOf(c, h)
      && (Part(c, h) ==> LastReply(more).rv == CKR_OK)
  {
    var more := calls + [c];
    assert more[..|more| - 1] == calls && more[|more| - 1] == c;
    BufferIsParts(calls, h);
    SigningIsLiveIn(Run(calls), h);
    RunStep(more);
    hide Run, LastReply, Inv, Apply, SlotInv, CacheInv;
    if Part(c, h) {
      UpdateIff(Run(calls), h, c.data, true);
    } else {
      OthersLeaveSlot(Run(calls), c, h, Run(more));
      assert Parts(calls, h) + [] == Parts(calls, h);
    }
  }

  lemma SigningIsLiveIn(m: State, h: nat)
    requires Inv(m) && 1 <= h <= MAX_SESSIONS && m.slots[h - 1].signing
    ensures IsOpen(m, h)
  {
    hide CacheInv;
  }

  // ----- what becomes of the server's reply

  // The peer answered with one whole frame of this status and body, whatever follows it.
  ghost predicate Replied(net: Net, status: byte, body: bytes) {
    net.Answer? && |body| <= 0x10_0000 && exists rest :: net.stream == Frame(status, body) + rest
  }

  lemma RepliedIff(net: Net, status: byte, body: bytes)
    ensures Replied(net, status, body) <==> Rpc(net) == RpcReply(status, body)
  {
    hide Frame, Unframe;
    if Replied(net, status, body) {
      var rest :| net.stream == Frame(status, body) + rest;
      FrameRoundTrip(status, body, rest);
    }
    if Rpc(net) == RpcReply(status, body) {
      OnlyFramesRead(net.stream);
    }
  }

  // An exchange without an answer to read: the code is that of its cause.
  lemma NotReplied(net: Net)
    requires forall status, body :: !Replied(net, status, body)
    ensures Rpc(net) == RpcError(if net.NoMemory? then CKR_HOST_MEMORY else CKR_DEVICE_ERROR)
  {
    if Rpc(net).RpcReply? {
      RepliedIff(net, Rpc(net).status, Rpc(net).body);
    }
    hide Replied;
  }

  // The peer answered with the description of i.
  ghost predicate Describes(net: Net, i: Info) {
    Acceptable(i) && Replied(net, STATUS_OK, EncodeInfo(i))
  }

  // A login that passes its checks sends the PIN, and caches a description exactly when
  // the reply has status OK and its body is the encoding of one within the client's
  // limits; the cache is then that description under that PIN. A PIN status is reported
  // as a wrong PIN, want of memory as such, and everything else as a device error, with
  // nothing cached.
  lemma LoginIff(m: State, h: nat, user: nat, pin: Ptr, net: Net)
    requires Inv(m) && AllPass(Checks(m, Login(h, user, pin, net)))
    ensures var (m', r) := Apply(m, Login(h, user, pin, net));
      && pin.Mem? && r.out == Nothing && r.sent == Outgoing(net, Frame(OP_INFO, [0, 32] + pin.data))
      && (r.rv == CKR_OK <==> exists i :: Describes(net, i))
      && (forall i :: Describes(net, i) ==> m' == m.(cache := CacheOf(i, pin.data)))
      && (r.rv == CKR_PIN_INCORRECT <==> exists body :: Replied(net, STATUS_PIN, body))
      && (r.rv == CKR_HOST_MEMORY <==> net.NoMemory?)
      && (r.rv != CKR_OK ==> m' == m.(cache := FREED))
      && (r.rv == CKR_OK || r.rv == CKR_PIN_INCORRECT || r.rv == CKR_HOST_MEMORY || r.rv == CKR_DEVICE_ERROR)
  {
    EachPasses(Checks(m, Login(h, user, pin, net)));
    LoginRpcIff(pin.data, net);
    hide Inv, Frame, CacheOf, Describes, Replied, LoginRpc;
  }

  lemma LoginRpcIff(pin: bytes, net: Net)
    requires |pin| == PIN_LEN
    ensures var r := LoginRpc(pin, net);
      && r.sent == Outgoing(net, Frame(OP_INFO, [0, 32] + pin))
      && (r.rv == CKR_OK <==> exists i :: Describes(net, i))
      && (forall i :: Describes(net, i) ==> r.cache == CacheOf(i, pin))
      && (r.rv == CKR_PIN_INCORRECT <==> exists body :: Replied(net, STATUS_PIN, body))
      && (r.rv == CKR_HOST_MEMORY <==> net.NoMemory?)
      && (r.rv != CKR_OK ==> r.cache == FREED)
      && (r.rv == CKR_OK || r.rv == CKR_PIN_INCORRECT || r.rv == CKR_HOST_MEMORY || r.rv == CKR_DEVICE_ERROR)
  {
    assert InfoRequest(pin) == [0, 32] + pin by { assert BE(32, 2) == [0, 32]; }
    match Rpc(net) {
      case RpcError(rv) => NoReply(net);
      case RpcReply(status, body) =>
        OnlyReply(net, status, body);
        assert Replied(net, status, body);
        Described(net, status, body);
    }
    hide InfoRequest, Frame, CacheOf, EncodeInfo, Acceptable, Replied, Rpc, ParsedInfo, Describes;
  }

  lemma NoReply(net: Net)
    requires Rpc(net).RpcError?
    ensures forall status, body :: !Replied(net, status, body)
    ensures forall i :: !Describes(net, i)
    ensures Rpc(net).rv == if net.NoMemory? then CKR_HOST_MEMORY else CKR_DEVICE_ERROR
  {
    hide Replied, Rpc;
    forall status, body
      ensures !Replied(net, status, body)
    {
      RepliedIff(net, status, body);
    }
    NotReplied(net);
  }

  lemma OnlyReply(net: Net, status: byte, body: bytes)
    requires Rpc(net) == RpcReply(status, body)
    ensures net.Answer? && forall s, b :: Replied(net, s, b) <==> s == status && b == body
  {
    hide Replied, Unframe;
    forall s, b
      ensures Replied(net, s, b) <==> s == status && b == body
    {
      RepliedIff(net, s, b);
    }
  }

  // A body is parsed as the description it encodes, and no other.
  lemma Described(net: Net, status: byte, body: bytes)
    requires Rpc(net) == RpcReply(status, body)
    ensures forall i :: Describes(net, i) <==> status == STATUS_OK && ParsedInfo(body) == Some(i)
  {
    OnlyReply(net, status, body);
    hide ParseInfo, EncodeInfo, Rpc, Replied;
    if ParseInfo(body).Some? {
      OnlyEncodingsParse(body);
    }
    forall i
      ensures Describes(net, i) <==> status == STATUS_OK && ParsedInfo(body) == Some(i)
    {
      if Describes(net, i) {
        InfoRoundTrip(i);
      }
    }
  }

  // The peer answered with a signature.
  ghost predicate Signs(net: Net, sg: bytes) {
    |sg| < 0x1_0000_0000 && Replied(net, STATUS_OK, Field(sg, 4))
  }

  ghost predicate RepliedWith(net: Net, status: byte) {
    exists body :: Replied(net, status, body)
  }

  // Every other status.
  predicate Unusual(status: byte) {
    status != STATUS_OK && status != STATUS_PIN && status != STATUS_MECHANISM
  }

  // Why an exchange that asked for a signature ends with this code.
  ghost predicate Cause(net: Net, cap: nat, rv: nat) {
    if rv == CKR_OK then exists sg :: Signs(net, sg) && |sg| <= cap
    else if rv == CKR_BUFFER_TOO_SMALL then exists sg :: Signs(net, sg) && |sg| > cap
    else if rv == CKR_PIN_INCORRECT then RepliedWith(net, STATUS_PIN)
    else if rv == CKR_MECHANISM_INVALID then RepliedWith(net, STATUS_MECHANISM)
    else if rv == CKR_GENERAL_ERROR then exists status :: Unusual(status) && RepliedWith(net, status)
    else if rv == CKR_HOST_MEMORY then net.NoMemory?
    else rv == CKR_DEVICE_ERROR && Unusable(net)
  }

  // No answer, or one that claims success and holds no signature.
  ghost predicate Unusable(net: Net) {
    && !net.NoMemory? && (forall sg :: !Signs(net, sg))
    && forall status :: status != STATUS_OK ==> !RepliedWith(net, status)
  }

  // A signature that is attempted ends the operation. The request holds the login's PIN,
  // the mechanism and the whole message, and is sent only while logged in and for at most
  // 2^20 bytes; the code is that of its cause, and what the caller gets on success is the
  // peer's signature, never longer than the caller's buffer.
  lemma FinishIff(m: State, c: Call, h: nat, sig: SigBuf, net: Net)
    requires Inv(m) && AllPass(Checks(m, c))
    requires (c.Sign? && c == Sign(h, c.data, sig, net)) || c == SignFinal(h, sig, net)
    requires sig.Room? && sig.cap >= SigLen(m.cache)
    ensures IsOpen(m, h)
    ensures var (m', r) := Apply(m, c);
      var s, message := m.slots[h - 1], if c.Sign? then Contents(c.data) else m.slots[h - 1].data;
      && m' == Set(m, h, s.(signing := false, data := [], cap := 0))
      && (!m.cache.loggedIn || |message| > 0x10_0000 ==> r == Fail(CKR_ARGUMENTS_BAD))
      && (m.cache.loggedIn && |message| <= 0x10_0000 ==>
        && r.sent == Outgoing(net, Frame(OP_SIGN, [0, 32] + m.cache.pin + BE(s.mech, 4) + BE(|message|, 4) + message))
        && Cause(net, sig.cap, r.rv)
        && (r.rv == CKR_OK ==> r.out.Signature? && Signs(net, r.out.sig) && |r.out.sig| <= sig.cap)
        && (r.rv != CKR_OK ==> !r.out.Signature?))
  {
    EachPasses(Checks(m, c));
    PinLength(m);
    var s, message := m.slots[h - 1], if c.Sign? then Contents(c.data) else m.slots[h - 1].data;
    if m.cache.loggedIn && |message| <= MAX_FRAME {
      SignRpcIff(m.cache.pin, s.mech, message, net, sig.cap);
    } else {
      NotAsked(m.cache.pin, s.mech, message, net);
    }
    hide Inv, SlotInv, CacheInv, Frame, Replied, Signs, Cause, SigLen, SignRpc, Checks, AllPass, Outgoing, BE, Missing;
  }

  lemma NotAsked(pin: bytes, mech: nat, data: bytes, net: Net)
    requires |pin| != PIN_LEN || |data| > MAX_FRAME
    ensures SignRpc(pin, mech, data, net) == SignResult(CKR_ARGUMENTS_BAD, [], [])
  {
    hide SignAnswer, Rpc, Frame, SignRequest;
  }

  lemma PinLength(m: State)
    requires Inv(m)
    ensures m.cache.loggedIn <==> |m.cache.pin| == PIN_LEN
  {
    hide SlotInv;
  }

  // The code of a finished exchange, given how much the caller can hold.
  function Outcome(r: SignResult, cap: nat): nat {
    if r.rv == CKR_OK && |r.sig| > cap then CKR_BUFFER_TOO_SMALL else r.rv
  }

  lemma SignRpcIff(pin: bytes, mech: nat, data: bytes, net: Net, cap: nat)
    requires |pin| == PIN_LEN && |data| <= MAX_FRAME
    ensures var r := SignRpc(pin, mech, data, net);
      && r.sent == Outgoing(net, Frame(OP_SIGN, [0, 32] + pin + BE(mech, 4) + BE(|data|, 4) + data))
      && Cause(net, cap, Outcome(r, cap))
      && (r.rv == CKR_OK ==> Signs(net, r.sig))
  {
    assert SignRequest(pin, mech, data) == [0, 32] + pin + BE(mech, 4) + BE(|data|, 4) + data by {
      assert BE(32, 2) == [0, 32];
    }
    hide SignRequest, Frame, Cause;
    var sent := Outgoing(net, Frame(OP_SIGN, SignRequest(pin, mech, data)));
    match Rpc(net) {
      case RpcError(rv) => ErrorCause(net, sent, cap);
      case RpcReply(status, body) => ReplyCause(net, status, body, sent, cap);
    }
    hide Rpc, Signs, SignAnswer;
  }

  lemma ErrorCause(net: Net, sent: bytes, cap: nat)
    requires Rpc(net).RpcError?
    ensures var r := SignAnswer(Rpc(net), sent); r.rv != CKR_OK && Cause(net, cap, r.rv)
  {
    NoReply(net);
    NoSignature(net);
    hide Rpc, Replied, Signs, RepliedWith;
  }

  lemma ReplyCause(net: Net, status: byte, body: bytes, sent: bytes, cap: nat)
    requires Rpc(net) == RpcReply(status, body)
    ensures var r := SignAnswer(Rpc(net), sent);
      Cause(net, cap, Outcome(r, cap)) && (r.rv == CKR_OK ==> Signs(net, r.sig))
  {
    OnlyReply(net, status, body);
    SignatureIff(net, status, body);
    hide Rpc, Replied, Signs, RepliedWith, Num;
    var r := SignAnswer(RpcReply(status, body), sent);
    assert RepliedWith(net, status);
    if r.rv == CKR_OK {
      assert Signs(net, r.sig);
    } else if Unusual(status) {
      assert r.rv == CKR_GENERAL_ERROR;
    } else if status == STATUS_OK {
      assert Unusable(net);
    }
  }

  lemma NoSignature(net: Net)
    requires forall status, body :: !Replied(net, status, body)
    ensures (forall sg :: !Signs(net, sg)) && forall status :: !RepliedWith(net, status)
  {
    hide Replied;
  }

  lemma SignatureIff(net: Net, status: byte, body: bytes)
    requires forall s, b :: Replied(net, s, b) <==> s == status && b == body
    ensures forall s :: RepliedWith(net, s) <==> s == status
    ensures forall sg :: Signs(net, sg) <==>
      status == STATUS_OK && |body| >= 4 && Num(body[..4]) == |body| - 4 && sg == body[4..]
  {
    assert Replied(net, status, body);
    hide Replied;
    forall s
      ensures RepliedWith(net, s) <==> s == status
    {
    }
    SmallPowers();
    forall sg
      ensures Signs(net, sg) <==>
        status == STATUS_OK && |body| >= 4 && Num(body[..4]) == |body| - 4 && sg == body[4..]
    {
      if |sg| < 0x1_0000_0000 {
        NumBE(|sg|, 4);
        assert Field(sg, 4)[..4] == BE(|sg|, 4) && Field(sg, 4)[4..] == sg;
      }
      if |body| >= 4 && Num(body[..4]) == |body| - 4 && sg == body[4..] {
        BENum(body[..4]);
        NumBound(body[..4]);
        assert body == body[..4] + body[4..];
      }
    }
  }

  // Asking for the length, or offering less than it, answers with the predicted length
  // and leaves the operation running.
  lemma AskingAnswers(m: State, c: Call, h: nat, sig: SigBuf, net: Net)
    requires Inv(m) && AllPass(Checks(m, c))
    requires (c.Sign? && c == Sign(h, c.data, sig, net)) || c == SignFinal(h, sig, net)
    requires sig.Query? || (sig.Room? && sig.cap < SigLen(m.cache))
    ensures Apply(m, c)
         == (m, Reply(if sig.Query? then CKR_OK else CKR_BUFFER_TOO_SMALL, Length(SigLen(m.cache)), []))
  {
    EachPasses(Checks(m, c));
    hide Inv, SigLen, SignRpc;
  }

  // ----- what a search finds

  // What a template asks of an object: to be there, and to have every attribute named
  // with exactly the bytes given.
  ghost predicate Selected(c: Cache, tmpl: Option<seq<Attr>>, x: nat) {
    && c.loggedIn && ObjectOk(c, x)
    && (tmpl.Some? ==> forall i :: 0 <= i < |tmpl.value| ==> HasAttr(c, x, tmpl.value[i]))
  }

  predicate HasAttr(c: Cache, x: nat, a: Attr)
    requires ObjectOk(c, x)
  {
    a.value.Mem? && AttrOne(c, x, a.typ) == Value(a.value.data)
  }

  // The handles a template selects, each once, in ascending order.
  ghost predicate Lists(f: seq<nat>, c: Cache, tmpl: Option<seq<Attr>>) {
    Ascending(f) && forall x :: x in f <==> Selected(c, tmpl, x)
  }

  // A search starts from exactly the objects its template selects: every object when there
  // is no template, none when nobody is logged in.
  lemma FoundIff(m: State, h: nat, tmpl: Option<seq<Attr>>, count: nat)
    requires Inv(m) && Apply(m, FindInit(h, tmpl, count)).1.rv == CKR_OK
    ensures IsOpen(m, h) && |Apply(m, FindInit(h, tmpl, count)).0.slots| == |m.slots|
    ensures Lists(Apply(m, FindInit(h, tmpl, count)).0.slots[h - 1].found, m.cache, tmpl)
  {
    FoundLists(m.cache, tmpl);
    hide Inv, FoundFor, Lists;
  }

  lemma FoundLists(c: Cache, tmpl: Option<seq<Attr>>)
    ensures Lists(FoundFor(c, tmpl), c, tmpl)
  {
    if c.loggedIn {
      var t := if tmpl.None? then [] else tmpl.value;
      MatchesExact(c, t, 2 + |c.certs|);
      MatchesAscend(c, t, 2 + |c.certs|);
      forall x | ObjectOk(c, x)
        ensures Matches(c, x, t) <==> Selected(c, tmpl, x)
      {
        hide MatchesBelow, Ascending, AttrOne;
        forall i | 0 <= i < |t|
          ensures AttrEquals(c, x, t[i]) <==> HasAttr(c, x, t[i])
        {
        }
      }
      hide Matches, Selected;
    }
  }

  // A successful C_FindObjectsInit on h that no other has followed.
  predicate LastSearch(calls: seq<Call>, h: nat, k: nat) {
    && k < |calls| && StartsSearch(calls, h, k)
    && forall j :: k < j < |calls| ==> !StartsSearch(calls, h, j)
  }

  predicate StartsSearch(calls: seq<Call>, h: nat, k: nat)
    requires k < |calls|
  {
    calls[k].FindInit? && calls[k].h == h && LastReply(calls[..k + 1]).rv == CKR_OK
  }

  // The list is what the template of the last search started on h selected at that time.
  ghost predicate FoundBy(calls: seq<Call>, h: nat, k: nat, list: seq<nat>) {
    LastSearch(calls, h, k) && Lists(list, Run(calls[..k]).cache, calls[k].tmpl)
  }

  // Over a whole run: all that C_FindObjects has given since the search was started is the
  // beginning of the list of exactly the objects the template selected then, each once and
  // in ascending order, whatever happened on other sessions and to the login since; and it
  // is the whole list once fewer handles are given than were asked for.
  lemma SearchFinds(calls: seq<Call>, h: nat, max: nat)
    requires 1 <= h <= MAX_SESSIONS && LastReply(calls + [Find(h, true, max)]).out.Handles?
    ensures exists k: nat, list: seq<nat> ::
      && FoundBy(calls, h, k, list) && Returned(calls + [Find(h, true, max)], h) <= list
      && |LastReply(calls + [Find(h, true, max)]).out.hs| <= max
      && (|LastReply(calls + [Find(h, true, max)]).out.hs| < max ==>
        Returned(calls + [Find(h, true, max)], h) == list)
  {
    SearchIsComplete(calls, h, max);
    FindKeepsWanted(calls, h, max);
    hide *;
    var k := WantedIsSearch(calls, h);
    FoundLists(Run(calls[..k]).cache, calls[k].tmpl);
    FoundByMeans(calls, h, k, Wanted(calls, h));
    assert FoundBy(calls, h, k, Wanted(calls, h));
  }

  lemma FoundByMeans(calls: seq<Call>, h: nat, k: nat, list: seq<nat>)
    requires LastSearch(calls, h, k)
    ensures calls[k].FindInit?
    ensures FoundBy(calls, h, k, list) <==> Lists(list, Run(calls[..k]).cache, calls[k].tmpl)
  {
    hide Lists, Run, LastReply;
  }

  lemma FindKeepsWanted(calls: seq<Call>, h: nat, max: nat)
    requires 1 <= h <= MAX_SESSIONS && LastReply(calls + [Find(h, true, max)]).out.Handles?
    ensures Wanted(calls + [Find(h, true, max)], h) == Wanted(calls, h) && Run(calls).slots[h - 1].finding
  {
    hide Run, LastReply, Wanted;
    WantedSnoc(calls, h, max);
    SearchMoves(calls, Find(h, true, max), h);
  }

  lemma SearchMoves(calls: seq<Call>, c: Call, h: nat)
    requires 1 <= h <= MAX_SESSIONS
    ensures FindingMove(Run(calls).slots[h - 1], Run(calls).cache, c, LastReply(calls + [c]),
                        Run(calls + [c]).slots[h - 1], h)
  {
    hide *;
    assert (calls + [c])[..|calls + [c]| - 1] == calls;
    RunStep(calls + [c]);
    FindingStep(Run(calls), c, h, Run(calls + [c]));
  }

  lemma WantedSnoc(calls: seq<Call>, h: nat, max: nat)
    ensures Wanted(calls + [Find(h, true, max)], h) == Wanted(calls, h)
  {
    hide Run, LastReply, FoundFor;
    assert (calls + [Find(h, true, max)])[..|calls|] == calls;
  }

  lemma {:induction false} WantedIsSearch(calls: seq<Call>, h: nat) returns (k: nat)
    requires 1 <= h <= MAX_SESSIONS && Run(calls).slots[h - 1].finding
    ensures LastSearch(calls, h, k) && calls[k].FindInit?
    ensures Wanted(calls, h) == FoundFor(Run(calls[..k]).cache, calls[k].tmpl)
  {
    NoSearchAtFirst(h);
    var last := |calls| - 1;
    var before, c := calls[..last], calls[last];
    assert calls[..last + 1] == calls;
    WantedStep(calls, h);
    if StartsSearch(calls, h, last) {
      k := last;
    } else {
      hide *;
      k := WantedIsSearch(before, h);
      SearchLasts(calls, h, k);
      assert before[..k] == calls[..k] && before[k] == calls[k];
    }
  }

  lemma NoSearchAtFirst(h: nat)
    requires 1 <= h <= MAX_SESSIONS
    ensures !Run([]).slots[h - 1].finding
  {
  }

  lemma WantedStep(calls: seq<Call>, h: nat)
    requires 1 <= h <= MAX_SESSIONS && calls != [] && Run(calls).slots[h - 1].finding
    ensures var last := |calls| - 1;
      if StartsSearch(calls, h, last) then
        LastSearch(calls, h, last) && Wanted(calls, h) == FoundFor(Run(calls[..last]).cache, calls[last].tmpl)
      else Run(calls[..last]).slots[h - 1].finding && Wanted(calls, h) == Wanted(calls[..last], h)
  {
    var last := |calls| - 1;
    assert calls[..last + 1] == calls;
    RunStep(calls);
    FindingStep(Run(calls[..last]), calls[last], h, Run(calls));
    hide Run, Apply, Inv, LastReply, FoundFor;
  }

  lemma SearchLasts(calls: seq<Call>, h: nat, k: nat)
    requires calls != [] && LastSearch(calls[..|calls| - 1], h, k) && !StartsSearch(calls, h, |calls| - 1)
    ensures LastSearch(calls, h, k)
  {
    hide StartsSearch;
    forall j | k <= j < |calls| - 1
      ensures StartsSearch(calls, h, j) == (j == k)
    {
      SamePrefix(calls, h, j);
    }
  }

  lemma SamePrefix(calls: seq<Call>, h: nat, j: nat)
    requires j < |calls| - 1
    ensures StartsSearch(calls[..|calls| - 1], h, j) == StartsSearch(calls, h, j)
  {
    hide LastReply;
    assert calls[..|calls| - 1][..j + 1] == calls[..j + 1];
  }
}

