// That the relay never stands still (bunker/bunker.go): a handler is admitted while there
// is room, takes any message when it is idle, and otherwise always has a step of its own
// that brings it closer to rest, whatever the others do.

module Progress {
  import opened Relay

  // A connection is admitted exactly while fewer than eight clients are connected, with no
  // subscriptions and nothing written to it; otherwise nothing changes.
  lemma ConnectIff(s: State, c: nat)
    requires Shape(s) && c !in s.conns
    ensures Enabled(s, Connect(c))
    ensures var t := Do(s, Connect(c));
      && (c in t.clients <==> |s.clients| < 8)
      && (c in t.clients ==> t.conns == s.conns[c := Conn(map[], [], Idle, [])] && t.clients == s.clients + {c})
      && (c !in t.clients ==> t == s)
      && t.log == s.log && t.recent == s.recent
  {
    hide ConnOk;
  }

  // An idle handler takes every message, and the end of its connection.
  lemma IdleTakesAll(s: State, c: nat, id: SubId, filters: Filters, e: Event)
    requires c in s.conns && s.conns[c].pc.Idle?
    ensures Enabled(s, Req(c, id, filters)) && Enabled(s, CloseSub(c, id)) && Enabled(s, Publish(c, e))
      && Enabled(s, Disconnect(c))
  {
  }

  ghost predicate AtRest(s: State, c: nat)
    requires c in s.conns
  {
    s.conns[c].pc.Idle? || s.conns[c].pc.Gone?
  }

  // A step that goes on with a message already taken.
  predicate Continues(step: Step) {
    !step.Connect? && !step.Disconnect? && !step.Req? && !step.CloseSub? && !step.Publish?
  }

  // How many steps a handler can still take before it is at rest, at most.
  function Left(pc: Pc): nat {
    match pc
    case Idle => 0
    case Gone => 0
    case Refused(_) => 1
    case Installed(_, _) => MAX_RECENT + 2
    case Replaying(_, _, todo, _) => |todo| + 1
    case Scanning(_, _, targets) => 1 + (MAX_SUBS + 2) * |targets|
    case Sending(_, _, targets, _, ids) => 2 + |ids| + (MAX_SUBS + 2) * |targets|
  }

  // A walk goes to connections that were admitted.
  lemma WalksAmong(s: State, c: nat)
    requires Shape(s) && c in s.conns
    ensures var pc := s.conns[c].pc;
      && (pc.Scanning? ==> pc.targets <= s.conns.Keys) && (pc.Sending? ==> pc.to in s.conns)
  {
    assert ConnOk(s, c);
    hide Shape, SubOk, Match;
  }

  // A handler that is not at rest can always take one of its own steps.
  lemma NeverStuck(s: State, c: nat) returns (step: Step)
    requires Shape(s) && c in s.conns && !AtRest(s, c)
    ensures step.c == c && Continues(step) && Enabled(s, step)
  {
    WalksAmong(s, c);
    hide Shape;
    match s.conns[c].pc {
      case Refused(_) => step := Refuse(c);
      case Installed(_, _) => step := Snapshot(c);
      case Replaying(_, _, todo, _) => step := if todo == [] then EndReplay(c) else ReplayOne(c);
      case _ => step := WalksOn(s, c);
    }
  }

  lemma WalksOn(s: State, c: nat) returns (step: Step)
    requires c in s.conns && (s.conns[c].pc.Scanning? || s.conns[c].pc.Sending?)
    requires s.conns[c].pc.Scanning? ==> s.conns[c].pc.targets <= s.conns.Keys
    requires s.conns[c].pc.Sending? ==> s.conns[c].pc.to in s.conns
    ensures step.c == c && Continues(step) && Enabled(s, step)
  {
    var pc := s.conns[c].pc;
    if pc.Scanning? && pc.targets == {} {
      step := Published(c);
    } else if pc.Scanning? {
      var to :| to in pc.targets;
      step := Scan(c, to);
    } else if pc.ids == {} {
      step := NextTarget(c);
    } else {
      var id :| id in pc.ids;
      step := Send(c, id);
    }
  }

  lemma FewWanted(conn: Conn, e: Event)
    requires |conn.subs| <= MAX_SUBS
    ensures |Wanting(conn.subs, e)| <= MAX_SUBS
  {
    hide Match;
    Fewer(Wanting(conn.subs, e), conn.subs.Keys);
  }

  // Each such step, of whatever handler, brings that handler closer to rest and leaves
  // every other exactly as far from it as it was. So however the handlers interleave, once
  // no new message is taken all of them are at rest after as many steps as they have left.
  lemma CloserToRest(s: State, step: Step, d: nat)
    requires Shape(s) && Enabled(s, step) && Continues(step) && d in s.conns
    ensures d in Do(s, step).conns
    ensures var was, now := Left(s.conns[d].pc), Left(Do(s, step).conns[d].pc);
      if d == step.c then now < was else now == was
  {
    if d != step.c {
      OthersKept(s, step, d);
    } else {
      hide Shape, Match, Wanting;
      match step {
        case Scan(_, to) => CloserByScan(s, d, to);
        case Send(_, id) => CloserBySend(s, d, id);
        case Snapshot(_) => CloserBySnapshot(s, d);
        case _ => CloserByOther(s, step);
      }
      hide Left, Do;
    }
  }

  lemma CloserByOther(s: State, step: Step)
    requires Enabled(s, step) && Continues(step) && !step.Scan? && !step.Send? && !step.Snapshot?
    ensures step.c in Do(s, step).conns && Left(Do(s, step).conns[step.c].pc) < Left(s.conns[step.c].pc)
  {
    hide Match, Wanting;
  }

  lemma CloserByScan(s: State, c: nat, to: nat)
    requires Shape(s) && Enabled(s, Scan(c, to))
    ensures c in Do(s, Scan(c, to)).conns && Left(Do(s, Scan(c, to)).conns[c].pc) < Left(s.conns[c].pc)
  {
    FewSubs(s, to);
    hide Shape;
    ScanPc(s, c, to);
    hide Enabled, Do;
    FewWanted(s.conns[to], s.conns[c].pc.e);
    LeftAfterScan(s.conns[c].pc, to, Wanting(s.conns[to].subs, s.conns[c].pc.e));
  }

  lemma ScanPc(s: State, c: nat, to: nat)
    requires Enabled(s, Scan(c, to))
    ensures c in s.conns && s.conns[c].pc.Scanning? && to in s.conns && to in s.conns[c].pc.targets
    ensures var pc := s.conns[c].pc;
      c in Do(s, Scan(c, to)).conns
      && Do(s, Scan(c, to)).conns[c].pc == Sending(pc.at, pc.e, pc.targets - {to}, to, Wanting(s.conns[to].subs, pc.e))
  {
    hide Match, Wanting;
  }

  lemma LeftAfterScan(pc: Pc, to: nat, ids: set<SubId>)
    requires pc.Scanning? && to in pc.targets && |ids| <= MAX_SUBS
    ensures Left(Sending(pc.at, pc.e, pc.targets - {to}, to, ids)) < Left(pc)
  {
    assert |pc.targets - {to}| == |pc.targets| - 1;
  }

  lemma FewSubs(s: State, c: nat)
    requires Shape(s) && c in s.conns
    ensures |s.conns[c].subs| <= MAX_SUBS
  {
    assert ConnOk(s, c);
    hide Shape, SubOk, PcOk;
  }

  lemma CloserBySend(s: State, c: nat, id: SubId)
    requires Enabled(s, Send(c, id))
    ensures c in Do(s, Send(c, id)).conns && Left(Do(s, Send(c, id)).conns[c].pc) < Left(s.conns[c].pc)
  {
    var ids := s.conns[c].pc.ids;
    assert |ids - {id}| == |ids| - 1;
  }

  lemma CloserBySnapshot(s: State, c: nat)
    requires Shape(s) && Enabled(s, Snapshot(c))
    ensures c in Do(s, Snapshot(c)).conns && Left(Do(s, Snapshot(c)).conns[c].pc) < Left(s.conns[c].pc)
  {
    RecentFew(s);
    hide Shape;
  }

  lemma RecentFew(s: State)
    requires Shape(s)
    ensures |s.recent| <= MAX_RECENT
  {
    hide ConnOk;
  }

  // ----- and so it always can come to rest

  ghost predicate AllContinue(steps: seq<Step>) {
    forall n :: 0 <= n < |steps| ==> Continues(steps[n])
  }

  // What going on with messages already taken does not change: who is connected, what was
  // published, and the name, filters and age of every subscription.
  ghost predicate SameService(s: State, t: State) {
    && t.log == s.log && t.clients == s.clients && t.conns.Keys == s.conns.Keys
    && forall c :: c in s.conns ==> SameSubs(s.conns[c].subs, t.conns[c].subs)
  }

  ghost predicate SameSubs(a: map<SubId, Sub>, b: map<SubId, Sub>) {
    a.Keys == b.Keys && forall id :: id in a ==> b[id].filters == a[id].filters && b[id].since == a[id].since
  }

  lemma ContinueKeeps(s: State, step: Step)
    requires Enabled(s, step) && Continues(step) && Shape(s)
    ensures SameService(s, Do(s, step))
  {
    hide Shape, Do, Enabled, SameSubs;
    var t := Do(s, step);
    assert s.clients <= s.conns.Keys by { ClientsAdmitted(s); }
    MembersKept(s, step);
    LogGrows(s, step);
    SameClients(s, step);
    forall c | c in s.conns
      ensures SameSubs(s.conns[c].subs, t.conns[c].subs)
    {
      SubsKept(s, step, c);
    }
  }

  lemma ClientsAdmitted(s: State)
    requires Shape(s)
    ensures s.clients <= s.conns.Keys
  {
    hide ConnOk;
  }

  lemma SubsKept(s: State, step: Step, c: nat)
    requires Enabled(s, step) && Continues(step) && c in s.conns
    ensures c in Do(s, step).conns && SameSubs(s.conns[c].subs, Do(s, step).conns[c].subs)
  {
    hide Do, Enabled;
    if c == step.c {
      OwnSubs(s, step);
    } else {
      OthersKept(s, step, c);
    }
  }

  lemma SameClients(s: State, step: Step)
    requires Enabled(s, step) && Continues(step)
    ensures Do(s, step).clients == s.clients
  {
    hide Match, Wanting;
  }

  lemma OwnSubs(s: State, step: Step)
    requires Enabled(s, step) && Continues(step)
    ensures step.c in Do(s, step).conns && SameSubs(s.conns[step.c].subs, Do(s, step).conns[step.c].subs)
  {
    hide Match, Wanting;
  }

  lemma SameTrans(r: State, s: State, t: State)
    requires SameService(r, s) && SameService(s, t)
    ensures SameService(r, t)
  {
    forall c | c in r.conns
      ensures SameSubs(r.conns[c].subs, t.conns[c].subs)
    {
      assert SameSubs(r.conns[c].subs, s.conns[c].subs) && SameSubs(s.conns[c].subs, t.conns[c].subs);
    }
    hide SameSubs;
  }

  lemma {:induction false} FromHead(s: State, step: Step, rest: seq<Step>)
    requires Enabled(s, step)
    ensures From(s, [step] + rest) == From(Do(s, step), rest)
  {
    hide Do, Enabled;
    var all := [step] + rest;
    if rest == [] {
      assert all == [step] && all[..0] == [];
    } else {
      FromHead(s, step, rest[..|rest| - 1]);
      assert all[..|all| - 1] == [step] + rest[..|rest| - 1];
    }
  }

  lemma {:induction false} FromJoin(s: State, a: seq<Step>, b: seq<Step>)
    ensures From(s, a + b) == From(From(s, a), b)
  {
    hide Do, Enabled;
    if b == [] {
      assert a + b == a;
    } else {
      FromJoin(s, a, b[..|b| - 1]);
      assert (a + b)[..|a + b| - 1] == a + b[..|b| - 1];
    }
  }

  // Handler c has come to rest, and every other stands where it did.
  ghost predicate Finished(s: State, c: nat, t: State) {
    && Shape(t) && SameService(s, t) && c in t.conns && AtRest(t, c)
    && forall d :: d in s.conns && d != c ==> d in t.conns && t.conns[d].pc == s.conns[d].pc
  }

  lemma FinishedAtOnce(s: State, c: nat)
    requires Shape(s) && c in s.conns && AtRest(s, c)
    ensures Finished(s, c, s)
  {
    hide Shape;
  }

  lemma StepFirst(s: State, step: Step)
    requires Shape(s) && Enabled(s, step) && Continues(step)
    ensures var t := Do(s, step);
      Shape(t) && SameService(s, t) && step.c in t.conns && Left(t.conns[step.c].pc) < Left(s.conns[step.c].pc)
    ensures var t := Do(s, step);
      forall d :: d in s.conns && d != step.c ==> d in t.conns && t.conns[d].pc == s.conns[d].pc
  {
    assert step.c in s.conns;
    hide Shape, Do, Enabled, SameService, Left;
    CloserToRest(s, step, step.c);
    ShapeKept(s, step);
    ContinueKeeps(s, step);
    forall d | d in s.conns && d != step.c
      ensures d in Do(s, step).conns && Do(s, step).conns[d].pc == s.conns[d].pc
    {
      OthersKept(s, step, d);
    }
  }

  lemma FinishedAfter(s: State, c: nat, t: State, u: State)
    requires SameService(s, t) && c in t.conns && Finished(t, c, u)
    requires forall d :: d in s.conns && d != c ==> d in t.conns && t.conns[d].pc == s.conns[d].pc
    ensures Finished(s, c, u)
  {
    SameTrans(s, t, u);
    hide Shape, SameService, AtRest;
  }

  // One handler alone can finish what it is doing.
  lemma {:induction false} FinishOne(s: State, c: nat) returns (steps: seq<Step>)
    requires Shape(s) && c in s.conns
    ensures AllContinue(steps) && Finished(s, c, From(s, steps))
    decreases Left(s.conns[c].pc)
  {
    if AtRest(s, c) {
      steps := [];
      assert From(s, steps) == s && AllContinue(steps);
      hide *;
      FinishedAtOnce(s, c);
    } else {
      hide *;
      var step := NeverStuck(s, c);
      StepFirst(s, step);
      var rest := FinishOne(Do(s, step), c);
      steps := [step] + rest;
      Onwards(step, rest);
      FromHead(s, step, rest);
      FinishedAfter(s, c, Do(s, step), From(Do(s, step), rest));
    }
  }

  lemma Onwards(step: Step, rest: seq<Step>)
    requires Continues(step) && AllContinue(rest)
    ensures AllContinue([step] + rest)
  {
  }

  ghost function Busy(s: State): set<nat> {
    set c | c in s.conns && !AtRest(s, c)
  }

  lemma OneFewer(s: State, c: nat, t: State)
    requires c in Busy(s) && Finished(s, c, t)
    ensures |Busy(t)| < |Busy(s)| && Shape(t) && SameService(s, t)
  {
    assert Shape(t) && SameService(s, t);
    assert t.conns.Keys == s.conns.Keys by { hide Shape, SameSubs; }
    hide Shape, SameService;
    BusyLess(s, c, t);
  }

  lemma BusyLess(s: State, c: nat, t: State)
    requires c in Busy(s) && t.conns.Keys == s.conns.Keys && AtRest(t, c)
    requires forall d :: d in s.conns && d != c ==> t.conns[d].pc == s.conns[d].pc
    ensures |Busy(t)| < |Busy(s)|
  {
    assert Busy(t) == Busy(s) - {c};
  }

  lemma NoneBusy(s: State)
    requires Busy(s) == {}
    ensures Quiet(s) && SameService(s, s)
  {
    forall c | c in s.conns
      ensures AtRest(s, c)
    {
      assert c !in Busy(s);
    }
  }

  // And so can all of them, one after another.
  lemma {:induction false} FinishAll(s: State) returns (steps: seq<Step>)
    requires Shape(s)
    ensures AllContinue(steps)
    ensures var t := From(s, steps); Quiet(t) && Shape(t) && SameService(s, t)
    decreases |Busy(s)|
  {
    if Busy(s) == {} {
      steps := [];
      NoneBusy(s);
      assert From(s, steps) == s;
      hide Shape, Quiet, SameService;
    } else {
      var c :| c in Busy(s);
      assert c in s.conns;
      hide *;
      var first := FinishOne(s, c);
      var t := From(s, first);
      OneFewer(s, c, t);
      var rest := FinishAll(t);
      steps := first + rest;
      FromJoin(s, first, rest);
      SameTrans(s, t, From(t, rest));
      Both(first, rest);
    }
  }

  lemma Both(a: seq<Step>, b: seq<Step>)
    requires AllContinue(a) && AllContinue(b)
    ensures AllContinue(a + b)
  {
  }

  // From every state that any interleaving can reach, going on with the messages already
  // taken can bring all handlers to rest; and then every event that was published since a
  // subscription of a connected client was installed, and that it wants, has been written.
  lemma EveryEventArrives(steps: seq<Step>) returns (more: seq<Step>)
    ensures AllContinue(more) && Quiet(After(steps + more)) && SameService(After(steps), After(steps + more))
    ensures forall c, id, k :: Due(After(steps), c, id, k) ==> Arrived(After(steps + more), c, id, k)
  {
    var s := After(steps);
    AlwaysInv(steps);
    assert Shape(s);
    more := FinishAll(s);
    FromJoin(EMPTY, steps, more);
    var t := After(steps + more);
    hide Shape, From, After, Quiet;
    forall c, id, k | Due(s, c, id, k)
      ensures Arrived(t, c, id, k)
    {
      assert SameSubs(s.conns[c].subs, t.conns[c].subs);
      NoLostEvent(steps + more, c, id, k);
    }
  }

  // Event k is one that a subscription of a connected client has been waiting for.
  ghost predicate Due(s: State, c: nat, id: SubId, k: nat) {
    && c in s.clients && c in s.conns && id in s.conns[c].subs && s.conns[c].subs[id].since <= k < |s.log|
    && Match(s.conns[c].subs[id].filters, s.log[k])
  }

  ghost predicate Arrived(t: State, c: nat, id: SubId, k: nat) {
    c in t.conns && id in t.conns[c].subs && k < |t.log| && Sent(t.conns[c], id, t.log[k], k)
  }
}
