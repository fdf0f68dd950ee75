// The loopback relay inside the bunker (bunker/bunker.go): handlers, one for each
// connection, that interleave. Each step below is what a handler does while it holds
// one lock once: b.mu for the list of clients and the recent events, or one
// client's c.mu for its subscriptions and its socket.

module Relay {
  import opened Bytes

  const MAX_CLIENTS := 8
  const MAX_SUBS := 8
  const MAX_RECENT := 32

  datatype Event = Event(id: string, body: string)

  type Filters = seq<Event -> bool>

  type SubId = string

  ghost predicate Match(fs: Filters, e: Event) {
    fs == [] || exists i :: 0 <= i < |fs| && fs[i](e)
  }

  // What a handler writes to a socket.
  datatype Frame = Deliver(id: SubId, e: Event) | Eose(id: SubId) | Closed(id: SubId)

  // Which published event a frame carries, and whether it came live or by a replay.
  // Kept beside the socket to count by; the program does not keep it.
  datatype Mark = ByPublish(k: nat) | ByReplay(k: nat) | NoEvent

  // A subscription. since and base record how many events had been published and how
  // many frames written when it was installed; snap how many events had been
  // published when its replay took its snapshot. The program keeps only the filters.
  datatype Sub = Sub(filters: Filters, since: nat, base: nat, snap: Option<nat>)

  // Where a handler stands between two critical sections. Maps are walked in any order,
  // so what is left of a walk is a set. at is the number of the event being published,
  // next that of the first event still to be replayed.
  datatype Pc =
    | Idle
    | Gone
    | Refused(id: SubId)
    | Installed(id: SubId, filters: Filters)
    | Replaying(id: SubId, filters: Filters, todo: seq<Event>, next: nat)
    | Scanning(at: nat, e: Event, targets: set<nat>)
    | Sending(at: nat, e: Event, targets: set<nat>, to: nat, ids: set<SubId>)

  datatype Conn = Conn(subs: map<SubId, Sub>, wire: seq<Frame>, pc: Pc, marks: seq<Mark>)

  // conns remembers every connection ever admitted, clients those still connected.
  // log is every event ever published, in order; the program keeps recent only.
  datatype State = State(log: seq<Event>, recent: seq<Event>, clients: set<nat>, conns: map<nat, Conn>)

  datatype Step =
    | Connect(c: nat)
    | Disconnect(c: nat)
    | Req(c: nat, id: SubId, filters: Filters)
    | Refuse(c: nat)
    | Snapshot(c: nat)
    | ReplayOne(c: nat)
    | EndReplay(c: nat)
    | CloseSub(c: nat, id: SubId)
    | Publish(c: nat, e: Event)
    | Scan(c: nat, to: nat)
    | Send(c: nat, id: SubId)
    | NextTarget(c: nat)
    | Published(c: nat)

  const EMPTY := State([], [], {}, map[])

  // append, then drop all but the last MAX_RECENT.
  function Recall(recent: seq<Event>, e: Event): seq<Event> {
    var all := recent + [e];
    if |all| > MAX_RECENT then all[|all| - MAX_RECENT..] else all
  }

  // The first event a snapshot taken after n events holds.
  function Oldest(n: nat): nat {
    if n > MAX_RECENT then n - MAX_RECENT else 0
  }

  ghost function Wanting(subs: map<SubId, Sub>, e: Event): set<SubId> {
    set id | id in subs && Match(subs[id].filters, e)
  }

  function Write(s: State, to: nat, f: Frame, m: Mark): State
    requires to in s.conns
  {
    s.(conns := s.conns[to := s.conns[to].(wire := s.conns[to].wire + [f], marks := s.conns[to].marks + [m])])
  }

  function Jump(s: State, c: nat, pc: Pc): State
    requires c in s.conns
  {
    s.(conns := s.conns[c := s.conns[c].(pc := pc)])
  }

  ghost predicate Enabled(s: State, step: Step) {
    if step.Connect? then step.c !in s.conns else step.c in s.conns && Ready(s, s.conns[step.c].pc, step)
  }

  ghost predicate Ready(s: State, pc: Pc, step: Step) {
    match step
    case Connect(_) => true
    case Disconnect(_) => pc.Idle?
    case Req(_, _, _) => pc.Idle?
    case Refuse(_) => pc.Refused?
    case Snapshot(_) => pc.Installed?
    case ReplayOne(_) => pc.Replaying? && pc.todo != []
    case EndReplay(_) => pc.Replaying? && pc.todo == []
    case CloseSub(_, _) => pc.Idle?
    case Publish(_, _) => pc.Idle?
    case Scan(_, to) => pc.Scanning? && to in pc.targets && to in s.conns
    case Send(_, id) => pc.Sending? && id in pc.ids && pc.to in s.conns
    case NextTarget(_) => pc.Sending? && pc.ids == {}
    case Published(_) => pc.Scanning? && pc.targets == {}
  }

  // A connection past the limit is closed at once and leaves nothing behind.
  function DoConnect(s: State, c: nat): State {
    if |s.clients| >= MAX_CLIENTS then s
    else s.(clients := s.clients + {c}, conns := s.conns[c := Conn(map[], [], Idle, [])])
  }

  function DoReq(s: State, c: nat, id: SubId, filters: Filters): State
    requires c in s.conns
  {
    var conn := s.conns[c];
    if |conn.subs| < MAX_SUBS then
      var subs := conn.subs[id := Sub(filters, |s.log|, |conn.wire|, None)];
      s.(conns := s.conns[c := conn.(subs := subs, pc := Installed(id, filters))])
    else Jump(s, c, Refused(id))
  }

  function DoSnapshot(s: State, c: nat): State
    requires c in s.conns && s.conns[c].pc.Installed?
  {
    var conn := s.conns[c];
    var id := conn.pc.id;
    var subs := if id in conn.subs then conn.subs[id := conn.subs[id].(snap := Some(|s.log|))] else conn.subs;
    s.(conns := s.conns[c := conn.(subs := subs, pc := Replaying(id, conn.pc.filters, s.recent, Oldest(|s.log|)))])
  }

  ghost function DoReplayOne(s: State, c: nat): State
    requires c in s.conns && s.conns[c].pc.Replaying? && s.conns[c].pc.todo != []
  {
    var pc := s.conns[c].pc;
    var s1 := Jump(s, c, pc.(todo := pc.todo[1..], next := pc.next + 1));
    if Match(pc.filters, pc.todo[0]) then Write(s1, c, Deliver(pc.id, pc.todo[0]), ByReplay(pc.next)) else s1
  }

  ghost function Do(s: State, step: Step): State
    requires Enabled(s, step)
  {
    var c := step.c;
    match step
    case Connect(_) => DoConnect(s, c)
    case Disconnect(_) => Jump(s, c, Gone).(clients := s.clients - {c})
    case Req(_, id, filters) => DoReq(s, c, id, filters)
    case Refuse(_) => Write(Jump(s, c, Idle), c, Closed(s.conns[c].pc.id), NoEvent)
    case Snapshot(_) => DoSnapshot(s, c)
    case ReplayOne(_) => DoReplayOne(s, c)
    case EndReplay(_) => Write(Jump(s, c, Idle), c, Eose(s.conns[c].pc.id), NoEvent)
    case CloseSub(_, id) => s.(conns := s.conns[c := s.conns[c].(subs := s.conns[c].subs - {id})])
    case Publish(_, e) =>
      Jump(s, c, Scanning(|s.log|, e, s.clients)).(log := s.log + [e], recent := Recall(s.recent, e))
    case Scan(_, to) =>
      var pc := s.conns[c].pc;
      Jump(s, c, Sending(pc.at, pc.e, pc.targets - {to}, to, Wanting(s.conns[to].subs, pc.e)))
    case Send(_, id) =>
      var pc := s.conns[c].pc;
      Write(Jump(s, c, pc.(ids := pc.ids - {id})), pc.to, Deliver(id, pc.e), ByPublish(pc.at))
    case NextTarget(_) => Jump(s, c, Scanning(s.conns[c].pc.at, s.conns[c].pc.e, s.conns[c].pc.targets))
    case Published(_) => Jump(s, c, Idle)
  }

  // Any interleaving from a state on: a step that cannot be taken is skipped.
  ghost function From(s: State, steps: seq<Step>): State {
    if steps == [] then s
    else
      var t := From(s, steps[..|steps| - 1]);
      var step := steps[|steps| - 1];
      if Enabled(t, step) then Do(t, step) else t
  }

  ghost function After(steps: seq<Step>): State {
    From(EMPTY, steps)
  }

  // The lock a step takes: none, b.mu, or the c.mu of one client.
  datatype Lock = NoLock | BunkerLock | ClientLock(c: nat)

  ghost function LockOf(s: State, step: Step): Lock
    requires Enabled(s, step)
  {
    match step
    case Connect(_) => BunkerLock
    case Disconnect(_) => BunkerLock
    case Snapshot(_) => BunkerLock
    case Publish(_, _) => BunkerLock
    case Scan(_, to) => ClientLock(to)
    case Send(_, _) => ClientLock(s.conns[step.c].pc.to)
    case NextTarget(_) => NoLock
    case Published(_) => NoLock
    case _ => ClientLock(step.c)
  }

  // A client's socket and the filters of its subscriptions: what its lock guards.
  ghost predicate Untouched(s: State, t: State, d: nat)
    requires d in s.conns
  {
    && d in t.conns && t.conns[d].wire == s.conns[d].wire && t.conns[d].subs.Keys == s.conns[d].subs.Keys
    && forall id :: id in s.conns[d].subs ==> t.conns[d].subs[id].filters == s.conns[d].subs[id].filters
  }

  // ----- what always holds

  ghost predicate SubOk(s: State, conn: Conn, id: SubId)
    requires id in conn.subs
  {
    var sub := conn.subs[id];
    && sub.since <= |s.log| && sub.base <= |conn.wire|
    && (sub.snap.Some? ==> sub.since <= sub.snap.value <= |s.log|)
    && (sub.snap.None? ==> conn.pc == Installed(id, sub.filters))
  }

  ghost predicate PcOk(s: State, conn: Conn) {
    match conn.pc
    case Installed(id, filters) => id in conn.subs && conn.subs[id].snap.None? && conn.subs[id].filters == filters
    case Replaying(id, filters, todo, next) =>
      && id in conn.subs && conn.subs[id].snap == Some(next + |todo|) && conn.subs[id].filters == filters
      && next + |todo| <= |s.log| && todo == s.log[next..next + |todo|]
    case Scanning(at, e, targets) => at < |s.log| && e == s.log[at] && targets <= s.conns.Keys
    case Sending(at, e, targets, to, ids) => at < |s.log| && e == s.log[at] && targets <= s.conns.Keys && to in s.conns
    case _ => true
  }

  ghost predicate ConnOk(s: State, c: nat)
    requires c in s.conns
  {
    var conn := s.conns[c];
    && |conn.subs| <= MAX_SUBS && (c in s.clients <==> !conn.pc.Gone?) && |conn.marks| == |conn.wire|
    && PcOk(s, conn) && forall id :: id in conn.subs ==> SubOk(s, conn, id)
  }

  ghost predicate Shape(s: State) {
    && s.clients <= s.conns.Keys && |s.clients| <= MAX_CLIENTS
    && s.recent == s.log[Oldest(|s.log|)..]
    && forall c :: c in s.conns ==> ConnOk(s, c)
  }

  // Frame j carries event k.
  ghost predicate CarriesEvent(conn: Conn, j: int, id: SubId, e: Event, k: nat) {
    0 <= j < |conn.wire| && j < |conn.marks| && conn.wire[j] == Deliver(id, e)
      && conn.marks[j] in {ByPublish(k), ByReplay(k)}
  }

  // Event k, which is e, was written to the socket since the subscription was installed.
  ghost predicate Sent(conn: Conn, id: SubId, e: Event, k: nat)
    requires id in conn.subs
  {
    exists j :: conn.subs[id].base <= j && CarriesEvent(conn, j, id, e, k)
  }

  // A handler in the middle of publishing event k has yet to write it for id at c.
  ghost predicate OnItsWay(pc: Pc, c: nat, id: SubId, k: nat) {
    || (pc.Scanning? && pc.at == k && c in pc.targets)
    || (pc.Sending? && pc.at == k && (c in pc.targets || (pc.to == c && id in pc.ids)))
  }

  // Event k was published while the subscription was in place, and it wants it.
  ghost predicate Since(s: State, sub: Sub, k: int) {
    sub.since <= k < |s.log| && Match(sub.filters, s.log[k])
  }

  // Event k was among those its replay went through, and it wants it.
  ghost predicate InSnapshot(s: State, sub: Sub, k: int) {
    sub.snap.Some? && Oldest(sub.snap.value) <= k < sub.snap.value <= |s.log| && Match(sub.filters, s.log[k])
  }

  ghost predicate Live(s: State, c: nat, id: SubId, k: nat)
    requires c in s.conns && id in s.conns[c].subs && k < |s.log|
  {
    Sent(s.conns[c], id, s.log[k], k) || exists p :: p in s.conns && OnItsWay(s.conns[p].pc, c, id, k)
  }

  // The events published since the subscription was installed reach it live.
  ghost predicate AllLive(s: State)
    requires Shape(s)
  {
    forall c, id, k :: c in s.clients && id in s.conns[c].subs && Since(s, s.conns[c].subs[id], k) ==> Live(s, c, id, k)
  }

  ghost predicate Replayed(s: State, conn: Conn, id: SubId, k: nat)
    requires id in conn.subs && k < |s.log|
  {
    Sent(conn, id, s.log[k], k) || (conn.pc.Replaying? && conn.pc.id == id && conn.pc.next <= k)
  }

  // Those its snapshot holds are replayed.
  ghost predicate AllReplayed(s: State)
    requires Shape(s)
  {
    forall c, id, k :: c in s.conns && id in s.conns[c].subs && InSnapshot(s, s.conns[c].subs[id], k) ==>
      Replayed(s, s.conns[c], id, k)
  }

  ghost predicate Inv(s: State) {
    Shape(s) && AllLive(s) && AllReplayed(s)
  }

  lemma EventNumber(log: seq<Event>, e: Event)
    ensures Recall(log[Oldest(|log|)..], e) == (log + [e])[Oldest(|log| + 1)..]
  {
  }

  // Another handler's connection stays well formed, and so does one only written to.
  lemma ConnFrame(s: State, t: State, d: nat)
    requires d in s.conns && ConnOk(s, d) && d in t.conns
    requires OnlyWritten(s.conns[d], t.conns[d])
    requires s.log <= t.log && s.conns.Keys <= t.conns.Keys && (d in s.clients <==> d in t.clients)
    ensures ConnOk(t, d)
  {
    hide Match, Wanting;
    var conn, conn' := s.conns[d], t.conns[d];
    forall id | id in conn'.subs
      ensures SubOk(t, conn', id)
    {
      assert SubOk(s, conn, id);
    }
    assert PcOk(s, conn);
  }

  ghost predicate OnlyWritten(conn: Conn, conn': Conn) {
    && conn'.subs == conn.subs && conn'.pc == conn.pc
    && conn.wire <= conn'.wire && conn.marks <= conn'.marks
    && |conn'.wire| - |conn.wire| == |conn'.marks| - |conn.marks|
  }

  // Everyone but c is only written to or left alone.
  lemma ShapeFrame(s: State, t: State, c: nat)
    requires Shape(s) && c in s.conns && c in t.conns && ConnOk(t, c)
    requires s.log <= t.log && s.conns.Keys <= t.conns.Keys <= s.conns.Keys + {c}
    requires s.clients <= t.clients + {c} && t.clients <= s.clients
    requires t.recent == t.log[Oldest(|t.log|)..]
    requires forall d :: d in s.conns && d != c ==> OnlyWritten(s.conns[d], t.conns[d])
    ensures Shape(t)
  {
    hide ConnOk, Match, Wanting;
    Fewer(t.clients, s.clients);
    forall d | d in t.conns && d != c
      ensures ConnOk(t, d)
    {
      ConnFrame(s, t, d);
    }
  }

  lemma Fewer<T>(a: set<T>, b: set<T>)
    requires a <= b
    ensures |a| <= |b|
  {
    assert b == a + (b - a);
  }

  lemma ReqOk(s: State, c: nat, id: SubId, filters: Filters)
    requires Shape(s) && c in s.conns && s.conns[c].pc.Idle?
    ensures ConnOk(DoReq(s, c, id, filters), c)
  {
    assert ConnOk(s, c);
    hide Match, Wanting, Shape;
    var t := DoReq(s, c, id, filters);
    var subs, subs' := s.conns[c].subs, t.conns[c].subs;
    assert |subs'| <= MAX_SUBS by {
      assert |subs| < MAX_SUBS ==> subs'.Keys == subs.Keys + {id};
    }
    forall i | i in subs'
      ensures SubOk(t, t.conns[c], i)
    {
      if i in subs {
        assert SubOk(s, s.conns[c], i);
      }
    }
  }

  lemma SnapshotOk(s: State, c: nat)
    requires Shape(s) && c in s.conns && s.conns[c].pc.Installed?
    ensures ConnOk(DoSnapshot(s, c), c)
  {
    assert ConnOk(s, c) && s.recent == s.log[Oldest(|s.log|)..];
    hide Match, Wanting, Shape;
    var t := DoSnapshot(s, c);
    var subs, subs' := s.conns[c].subs, t.conns[c].subs;
    assert |subs'| <= MAX_SUBS by {
      assert subs'.Keys == subs.Keys;
    }
    forall i | i in subs'
      ensures SubOk(t, t.conns[c], i)
    {
      assert SubOk(s, s.conns[c], i);
    }
  }

  lemma ReplayOk(s: State, c: nat)
    requires Shape(s) && c in s.conns && s.conns[c].pc.Replaying? && s.conns[c].pc.todo != []
    ensures ConnOk(DoReplayOne(s, c), c)
  {
    assert ConnOk(s, c);
    hide Match, Wanting, Shape;
    var t := DoReplayOne(s, c);
    forall i | i in t.conns[c].subs
      ensures SubOk(t, t.conns[c], i)
    {
      assert SubOk(s, s.conns[c], i);
    }
  }

  lemma CloseOk(s: State, c: nat, id: SubId)
    requires Shape(s) && Enabled(s, CloseSub(c, id))
    ensures ConnOk(Do(s, CloseSub(c, id)), c)
  {
    assert ConnOk(s, c);
    hide Match, Wanting, Shape;
    var t := Do(s, CloseSub(c, id));
    Fewer(t.conns[c].subs.Keys, s.conns[c].subs.Keys);
    assert t.log == s.log && t.clients == s.clients && t.conns[c] == s.conns[c].(subs := s.conns[c].subs - {id});
    hide Do, Enabled;
    forall i | i in t.conns[c].subs
      ensures SubOk(t, t.conns[c], i)
    {
      assert SubOk(s, s.conns[c], i);
    }
  }

  // Outside a REQ, moving on and writing keep a connection's subscriptions well formed.
  lemma MovedOn(s: State, t: State, c: nat)
    requires c in s.conns && ConnOk(s, c) && c in t.conns && s.log <= t.log
    requires !s.conns[c].pc.Installed?
    requires t.conns[c].subs == s.conns[c].subs
    requires |s.conns[c].wire| <= |t.conns[c].wire|
      && |t.conns[c].wire| - |s.conns[c].wire| == |t.conns[c].marks| - |s.conns[c].marks|
    requires PcOk(t, t.conns[c]) && (c in t.clients <==> !t.conns[c].pc.Gone?)
    ensures ConnOk(t, c)
  {
    hide Match, PcOk;
    forall i | i in t.conns[c].subs
      ensures SubOk(t, t.conns[c], i)
    {
      assert SubOk(s, s.conns[c], i);
    }
  }

  predicate Walks(step: Step) {
    step.Scan? || step.Send? || step.NextTarget? || step.Published?
  }

  lemma WalkPc(s: State, step: Step)
    requires Enabled(s, step) && Walks(step) && PcOk(s, s.conns[step.c])
    ensures step.c in Do(s, step).conns && PcOk(Do(s, step), Do(s, step).conns[step.c])
  {
    hide Match, Wanting;
    assert s.conns.Keys == Do(s, step).conns.Keys by {
      assert step.Send? ==> s.conns[step.c].pc.to in s.conns;
    }
  }

  lemma WalkOwn(s: State, step: Step)
    requires Enabled(s, step) && Walks(step)
    ensures var t, c := Do(s, step), step.c;
      && c in t.conns && t.conns[c].subs == s.conns[c].subs && |s.conns[c].wire| <= |t.conns[c].wire|
      && |t.conns[c].wire| - |s.conns[c].wire| == |t.conns[c].marks| - |s.conns[c].marks|
      && t.clients == s.clients && t.log == s.log && !t.conns[c].pc.Gone? && !s.conns[c].pc.Gone?
        && !s.conns[c].pc.Installed?
  {
    hide Match, Wanting;
  }

  lemma WalkOk(s: State, step: Step)
    requires Shape(s) && Enabled(s, step) && Walks(step)
    ensures ConnOk(Do(s, step), step.c)
  {
    assert ConnOk(s, step.c);
    hide SubOk, PcOk, Shape, Do, Enabled;
    WalkPc(s, step);
    WalkOwn(s, step);
    MovedOn(s, Do(s, step), step.c);
  }

  lemma PublishOk(s: State, c: nat, e: Event)
    requires Shape(s) && Enabled(s, Publish(c, e))
    ensures ConnOk(Do(s, Publish(c, e)), c)
  {
    hide Match, Wanting, SubOk;
    assert ConnOk(s, c);
    MovedOn(s, Do(s, Publish(c, e)), c);
  }

  lemma EndOk(s: State, step: Step)
    requires Shape(s) && Enabled(s, step)
    requires step.Disconnect? || step.Refuse? || step.EndReplay?
    ensures ConnOk(Do(s, step), step.c)
  {
    hide Match, SubOk;
    assert ConnOk(s, step.c);
    MovedOn(s, Do(s, step), step.c);
  }

  lemma TouchedOk(s: State, step: Step)
    requires Shape(s) && Enabled(s, step) && !step.Connect?
    ensures step.c in Do(s, step).conns && ConnOk(Do(s, step), step.c)
  {
    match step {
      case Req(c, id, filters) => ReqOk(s, c, id, filters);
      case Snapshot(c) => SnapshotOk(s, c);
      case ReplayOne(c) => ReplayOk(s, c);
      case CloseSub(c, id) => CloseOk(s, c, id);
      case Publish(c, e) => PublishOk(s, c, e);
      case Scan(_, _) => WalkOk(s, step);
      case Send(_, _) => WalkOk(s, step);
      case NextTarget(_) => WalkOk(s, step);
      case Published(_) => WalkOk(s, step);
      case _ => EndOk(s, step);
    }
  }

  // A step changes no connection but its own, except by writing to it.
  lemma OthersKept(s: State, step: Step, d: nat)
    requires Enabled(s, step) && !step.Connect? && d in s.conns && d != step.c
    ensures d in Do(s, step).conns && OnlyWritten(s.conns[d], Do(s, step).conns[d])
  {
    hide Match, Wanting;
  }

  lemma RecentKept(s: State, step: Step)
    requires s.recent == s.log[Oldest(|s.log|)..] && Enabled(s, step)
    ensures var t := Do(s, step); s.log <= t.log && t.recent == t.log[Oldest(|t.log|)..]
  {
    hide Match, Wanting, Recall, Oldest;
    if step.Publish? {
      EventNumber(s.log, step.e);
    }
  }

  lemma MembersKept(s: State, step: Step)
    requires Enabled(s, step) && !step.Connect? && s.clients <= s.conns.Keys
    ensures var t := Do(s, step);
      s.conns.Keys == t.conns.Keys && s.clients <= t.clients + {step.c} && t.clients <= s.clients
  {
    hide Match, Wanting, Recall;
  }

  lemma ShapeKept(s: State, step: Step)
    requires Shape(s) && Enabled(s, step)
    ensures Shape(Do(s, step))
  {
    var t, c := Do(s, step), step.c;
    if step.Connect? {
      ConnectOk(s, c);
    } else {
      hide Do, Enabled, ConnOk;
      TouchedOk(s, step);
      RecentKept(s, step);
      MembersKept(s, step);
      forall d | d in s.conns && d != c
        ensures OnlyWritten(s.conns[d], t.conns[d])
      {
        OthersKept(s, step, d);
      }
      ShapeFrame(s, t, c);
    }
  }

  lemma NewConnOk(s: State, c: nat)
    requires c !in s.conns
    ensures c in DoConnect(s, c).conns ==> ConnOk(DoConnect(s, c), c)
  {
  }

  lemma ConnectOk(s: State, c: nat)
    requires Shape(s) && c !in s.conns
    ensures Shape(DoConnect(s, c))
  {
    hide ConnOk, Oldest;
    NewConnOk(s, c);
    if |s.clients| < MAX_CLIENTS {
      var t := DoConnect(s, c);
      forall d | d in s.conns
        ensures ConnOk(t, d)
      {
        ConnFrame(s, t, d);
      }
    }
  }

  // One lock is enough for each step: without b.mu it leaves the clients and the recent
  // events alone, without a client's lock that client's socket and subscriptions.
  lemma OneLock(s: State, step: Step, d: nat)
    requires Enabled(s, step) && d in s.conns
    ensures var t := Do(s, step);
      && (LockOf(s, step) != BunkerLock ==> t.clients == s.clients && t.recent == s.recent && t.log == s.log)
      && (LockOf(s, step) != ClientLock(d) ==> Untouched(s, t, d))
  {
    if LockOf(s, step) != BunkerLock {
      GlobalsGuarded(s, step);
    }
    if step.Connect? {
      hide Match, Wanting;
    } else if d != step.c {
      OthersKept(s, step, d);
      if LockOf(s, step) != ClientLock(d) {
        WritesGuarded(s, step, d);
      }
      hide Do, Enabled, LockOf;
    } else if LockOf(s, step) != ClientLock(d) {
      OwnGuarded(s, step);
      hide Do, Enabled, LockOf;
    }
  }

  lemma GlobalsGuarded(s: State, step: Step)
    requires Enabled(s, step) && LockOf(s, step) != BunkerLock
    ensures var t := Do(s, step); t.clients == s.clients && t.recent == s.recent && t.log == s.log
  {
    hide Match, Wanting;
  }

  lemma WritesGuarded(s: State, step: Step, d: nat)
    requires Enabled(s, step) && !step.Connect? && d in s.conns && d != step.c && LockOf(s, step) != ClientLock(d)
    ensures d in Do(s, step).conns && Do(s, step).conns[d].wire == s.conns[d].wire
  {
    hide Match, Wanting;
  }

  lemma OwnGuarded(s: State, step: Step)
    requires Enabled(s, step) && !step.Connect? && LockOf(s, step) != ClientLock(step.c)
    ensures Untouched(s, Do(s, step), step.c)
  {
    hide Match, Wanting;
  }

  // ----- no event is lost

  // A subscription that a step leaves in place, apart from taking its snapshot.
  ghost predicate Stays(s: State, t: State, c: nat, id: SubId) {
    && c in s.conns && c in t.conns && id in s.conns[c].subs && id in t.conns[c].subs
    && s.conns[c].subs[id].filters == t.conns[c].subs[id].filters
    && s.conns[c].subs[id].since == t.conns[c].subs[id].since
    && s.conns[c].subs[id].base == t.conns[c].subs[id].base
    && s.conns[c].wire <= t.conns[c].wire && s.conns[c].marks <= t.conns[c].marks
  }

  // Whatever is in place after a step was there before, or a REQ has just put it there.
  lemma WhereFrom(s: State, step: Step, c: nat, id: SubId)
    requires Shape(s) && Enabled(s, step) && c in Do(s, step).conns && id in Do(s, step).conns[c].subs
    ensures var t := Do(s, step);
      || Stays(s, t, c, id)
      || (step.Req? && step.c == c && step.id == id
        && t.conns[c].subs[id] == Sub(step.filters, |s.log|, |s.conns[c].wire|, None))
  {
    if step.Connect? {
      hide Match, Wanting, ConnOk;
    } else {
      StillThere(s, step, c);
      hide Shape;
      if c == step.c {
        OwnFrom(s, step, id);
      } else {
        OthersKept(s, step, c);
      }
      hide Do, Enabled;
    }
  }

  lemma StillThere(s: State, step: Step, c: nat)
    requires Enabled(s, step) && !step.Connect? && c in Do(s, step).conns
    ensures c in s.conns
  {
    hide Match, Wanting;
  }

  lemma OwnFrom(s: State, step: Step, id: SubId)
    requires Enabled(s, step) && !step.Connect? && step.c in Do(s, step).conns && id in Do(s, step).conns[step.c].subs
    ensures var t, c := Do(s, step), step.c;
      || Stays(s, t, c, id)
      || (step.Req? && step.id == id && t.conns[c].subs[id] == Sub(step.filters, |s.log|, |s.conns[c].wire|, None))
  {
    hide Match, Wanting;
  }

  lemma SentStays(s: State, t: State, c: nat, id: SubId, e: Event, k: nat)
    requires Stays(s, t, c, id) && Sent(s.conns[c], id, e, k)
    ensures Sent(t.conns[c], id, e, k)
  {
    var j :| s.conns[c].subs[id].base <= j && CarriesEvent(s.conns[c], j, id, e, k);
    assert CarriesEvent(t.conns[c], j, id, e, k);
  }

  lemma Mover(s: State, step: Step, p: nat)
    requires Enabled(s, step) && p in s.conns && p != step.c
    ensures p in Do(s, step).conns && Do(s, step).conns[p].pc == s.conns[p].pc
  {
    hide Match, Wanting;
  }

  // An event on its way stays on its way until it is written.
  lemma WayGoesOn(s: State, step: Step, p: nat, c: nat, id: SubId, k: nat)
    requires Shape(s) && Enabled(s, step) && Stays(s, Do(s, step), c, id)
    requires p in s.conns && k < |s.log| && Match(s.conns[c].subs[id].filters, s.log[k])
    requires OnItsWay(s.conns[p].pc, c, id, k)
    ensures var t := Do(s, step);
      p in t.conns && (OnItsWay(t.conns[p].pc, c, id, k) || Sent(t.conns[c], id, s.log[k], k))
  {
    hide Match, SubOk;
    var t := Do(s, step);
    if p != step.c {
      Mover(s, step, p);
    } else {
      assert ConnOk(s, p) && ConnOk(s, c);
      if step.Send? && s.conns[p].pc.to == c && step.id == id {
        assert s.conns[c].subs[id].base <= |s.conns[c].wire| by { BaseOk(s, c, id); }
        assert CarriesEvent(t.conns[c], |s.conns[c].wire|, id, s.log[k], k);
      }
    }
  }

  lemma BaseOk(s: State, c: nat, id: SubId)
    requires Shape(s) && c in s.conns && id in s.conns[c].subs
    ensures SubOk(s, s.conns[c], id)
  {
    assert ConnOk(s, c);
  }

  lemma LiveStays(s: State, step: Step, c: nat, id: SubId, k: nat)
    requires Shape(s) && Enabled(s, step) && Stays(s, Do(s, step), c, id)
    requires k < |s.log| <= |Do(s, step).log| && Do(s, step).log[k] == s.log[k]
    requires Match(s.conns[c].subs[id].filters, s.log[k]) && Live(s, c, id, k)
    ensures Live(Do(s, step), c, id, k)
  {
    var t := Do(s, step);
    hide Match, Do, Enabled, Sent, Stays, Shape;
    if Sent(s.conns[c], id, s.log[k], k) {
      SentStays(s, t, c, id, s.log[k], k);
    } else {
      var p :| p in s.conns && OnItsWay(s.conns[p].pc, c, id, k);
      WayGoesOn(s, step, p, c, id, k);
    }
  }

  lemma LogGrows(s: State, step: Step)
    requires Enabled(s, step)
    ensures var t := Do(s, step); s.log <= t.log && t.clients <= s.clients + (if step.Connect? then {step.c} else {})
    ensures step.Publish? ==> Do(s, step).log == s.log + [step.e]
    ensures !step.Publish? ==> Do(s, step).log == s.log
  {
    hide Match, Wanting;
  }

  lemma PublishStarts(s: State, step: Step, c: nat)
    requires Enabled(s, step) && step.Publish? && c in s.clients
    ensures var t := Do(s, step);
      step.c in t.conns && t.conns[step.c].pc.Scanning? && t.conns[step.c].pc.at == |s.log|
        && c in t.conns[step.c].pc.targets
  {
    hide Match, Wanting;
  }

  lemma LiveKept(s: State, step: Step)
    requires Shape(s) && AllLive(s) && Enabled(s, step) && Shape(Do(s, step))
    ensures AllLive(Do(s, step))
  {
    var t := Do(s, step);
    LogGrows(s, step);
    forall c, id, k | c in t.clients && id in t.conns[c].subs && Since(t, t.conns[c].subs[id], k)
      ensures Live(t, c, id, k)
    {
      WhereFrom(s, step, c, id);
      if Stays(s, t, c, id) {
        BaseOk(s, c, id);
        assert c in s.clients by { Connected(s, step, c); }
        if k < |s.log| {
          hide Do, Enabled, Match, Shape, Sent, SubOk;
          assert Since(s, s.conns[c].subs[id], k);
          LiveStays(s, step, c, id, k);
        } else {
          PublishStarts(s, step, c);
          hide Do, Enabled, Match, Shape, Sent, SubOk;
          assert OnItsWay(t.conns[step.c].pc, c, id, k);
        }
      }
    }
  }

  lemma Connected(s: State, step: Step, c: nat)
    requires Enabled(s, step) && c in s.conns && c in Do(s, step).clients
    ensures c in s.clients
  {
    hide Match, Wanting;
  }

  lemma ReplayGoesOn(s: State, step: Step, c: nat, id: SubId, k: nat)
    requires Shape(s) && Enabled(s, step) && Stays(s, Do(s, step), c, id)
    requires InSnapshot(s, s.conns[c].subs[id], k)
    requires s.conns[c].pc.Replaying? && s.conns[c].pc.id == id && s.conns[c].pc.next <= k
    ensures var t := Do(s, step);
      || Sent(t.conns[c], id, s.log[k], k)
      || (t.conns[c].pc.Replaying? && t.conns[c].pc.id == id && t.conns[c].pc.next <= k)
  {
    hide SubOk;
    var t := Do(s, step);
    if c != step.c {
      Mover(s, step, c);
    } else {
      assert ConnOk(s, c);
      BaseOk(s, c, id);
      var pc := s.conns[c].pc;
      if step.ReplayOne? && pc.next == k {
        hide Match;
        assert pc.todo[0] == s.log[k];
        assert CarriesEvent(t.conns[c], |s.conns[c].wire|, id, s.log[k], k);
      }
    }
  }

  lemma SnapshotStarts(s: State, step: Step, c: nat, id: SubId)
    requires Shape(s) && Enabled(s, step) && Stays(s, Do(s, step), c, id)
    ensures var t := Do(s, step); var old', new' := s.conns[c].subs[id], t.conns[c].subs[id];
      || old'.snap == new'.snap || new'.snap.None?
      || (new'.snap.Some? && t.conns[c].pc.Replaying? && t.conns[c].pc.id == id
        && t.conns[c].pc.next == Oldest(new'.snap.value))
  {
    hide Match, Wanting, ConnOk;
  }

  lemma ReplayedKept(s: State, step: Step)
    requires Shape(s) && AllReplayed(s) && Enabled(s, step) && Shape(Do(s, step))
    ensures AllReplayed(Do(s, step))
  {
    var t := Do(s, step);
    LogGrows(s, step);
    forall c, id, k | c in t.conns && id in t.conns[c].subs && InSnapshot(t, t.conns[c].subs[id], k)
      ensures Replayed(t, t.conns[c], id, k)
    {
      WhereFrom(s, step, c, id);
      assert Stays(s, t, c, id);
      BaseOk(s, c, id);
      SnapshotStarts(s, step, c, id);
      hide Do, Enabled, Match, Shape, Sent, SubOk;
      if s.conns[c].subs[id].snap == t.conns[c].subs[id].snap {
        assert InSnapshot(s, s.conns[c].subs[id], k) by { BaseOk(s, c, id); }
        assert Replayed(s, s.conns[c], id, k);
        if Sent(s.conns[c], id, s.log[k], k) {
          SentStays(s, t, c, id, s.log[k], k);
        } else {
          ReplayGoesOn(s, step, c, id, k);
        }
      }
    }
  }

  // The invariant holds after every interleaving.
  lemma {:induction false} AlwaysInv(steps: seq<Step>)
    ensures Inv(After(steps))
  {
    hide Shape, AllLive, AllReplayed, Do, Enabled;
    if steps == [] {
      EmptyInv();
    } else {
      var s, step := After(steps[..|steps| - 1]), steps[|steps| - 1];
      AlwaysInv(steps[..|steps| - 1]);
      if Enabled(s, step) {
        ShapeKept(s, step);
        LiveKept(s, step);
        ReplayedKept(s, step);
      }
    }
  }

  lemma EmptyInv()
    ensures Inv(EMPTY)
  {
  }

  ghost predicate Quiet(s: State) {
    forall c :: c in s.conns ==> s.conns[c].pc.Idle? || s.conns[c].pc.Gone?
  }

  // No lost event. Once the handlers have come to rest, an open subscription of a
  // connected client has been written every event it wants that was published after
  // it was installed, and every one among the last MAX_RECENT when its replay began.
  lemma NoLostEvent(steps: seq<Step>, c: nat, id: SubId, k: nat)
    requires var s := After(steps); Quiet(s) && c in s.clients && c in s.conns && id in s.conns[c].subs && k < |s.log|
    requires var s := After(steps); var sub := s.conns[c].subs[id];
      Match(sub.filters, s.log[k]) && (sub.since <= k || (sub.snap.Some? && Oldest(sub.snap.value) <= k))
    ensures var s := After(steps); Sent(s.conns[c], id, s.log[k], k) && s.conns[c].subs[id].snap.Some?
  {
    AlwaysInv(steps);
    hide After, Match;
    var s := After(steps);
    var sub := s.conns[c].subs[id];
    BaseOk(s, c, id);
    if sub.since <= k {
      assert Since(s, sub, k);
    } else {
      assert InSnapshot(s, sub, k);
    }
  }

  // recent is always exactly the last MAX_RECENT published events, in order, and the
  // limits on clients and subscriptions are never exceeded.
  lemma AlwaysBounded(steps: seq<Step>)
    ensures var s := After(steps);
      && s.recent == s.log[Oldest(|s.log|)..] && |s.clients| <= MAX_CLIENTS
      && forall c :: c in s.conns ==> |s.conns[c].subs| <= MAX_SUBS
  {
    AlwaysInv(steps);
    hide After, Match, PcOk, SubOk;
    var s := After(steps);
    forall c | c in s.conns
      ensures |s.conns[c].subs| <= MAX_SUBS
    {
      assert ConnOk(s, c);
    }
  }

  // ----- nothing else is written

  ghost predicate Wants(s: State, c: nat, id: SubId, e: Event) {
    c in s.conns && id in s.conns[c].subs && Match(s.conns[c].subs[id].filters, e)
  }

  // At some point of the run c had a subscription of that name that wanted e.
  ghost predicate Ever(steps: seq<Step>, c: nat, id: SubId, e: Event) {
    exists n :: 0 <= n <= |steps| && Wants(After(steps[..n]), c, id, e)
  }

  ghost predicate WiresJustified(steps: seq<Step>, s: State) {
    forall c, j :: c in s.conns && 0 <= j < |s.conns[c].wire| ==> FrameJustified(steps, s, c, s.conns[c].wire[j])
  }

  ghost predicate FrameJustified(steps: seq<Step>, s: State, c: nat, f: Frame) {
    f.Deliver? ==> f.e in s.log && Ever(steps, c, f.id, f.e)
  }

  ghost predicate QueuesJustified(steps: seq<Step>, s: State) {
    forall p, id :: p in s.conns && s.conns[p].pc.Sending? && id in s.conns[p].pc.ids ==>
      Ever(steps, s.conns[p].pc.to, id, s.conns[p].pc.e)
  }

  lemma EverBefore(steps: seq<Step>, step: Step, c: nat, id: SubId, e: Event)
    requires Ever(steps, c, id, e)
    ensures Ever(steps + [step], c, id, e)
  {
    hide After, Wants;
    var n :| 0 <= n <= |steps| && Wants(After(steps[..n]), c, id, e);
    assert (steps + [step])[..n] == steps[..n];
  }

  lemma EverNow(steps: seq<Step>, step: Step, c: nat, id: SubId, e: Event)
    requires Wants(After(steps), c, id, e)
    ensures Ever(steps + [step], c, id, e)
  {
    hide After, Wants;
    assert (steps + [step])[..|steps|] == steps;
  }

  // What a step adds to a socket: the head of a replay, or one live event.
  lemma WhatIsWritten(s: State, step: Step, c: nat)
    requires Shape(s) && Enabled(s, step) && c in Do(s, step).conns
    ensures var wire := if c in s.conns then s.conns[c].wire else [];
      Do(s, step).conns[c].wire == wire || exists f :: Do(s, step).conns[c].wire == wire + [f] && Fresh(s, step, c, f)
  {
    hide Wanting, Match, ConnOk;
    if c in s.conns && Do(s, step).conns[c].wire != s.conns[c].wire {
      var f := Do(s, step).conns[c].wire[|s.conns[c].wire|];
      assert Do(s, step).conns[c].wire == s.conns[c].wire + [f];
      if step.ReplayOne? {
        HeadWanted(s, c);
      } else if step.Send? {
        QueuePublished(s, step.c);
      }
      assert Fresh(s, step, c, f);
    }
  }

  lemma HeadWanted(s: State, c: nat)
    requires Shape(s) && c in s.conns && s.conns[c].pc.Replaying? && s.conns[c].pc.todo != []
    ensures var pc := s.conns[c].pc;
      pc.todo[0] in s.log && (Match(pc.filters, pc.todo[0]) ==> Wants(s, c, pc.id, pc.todo[0]))
  {
    hide Match, SubOk;
    assert ConnOk(s, c);
    assert s.conns[c].pc.todo[0] == s.log[s.conns[c].pc.next];
  }

  lemma QueuePublished(s: State, p: nat)
    requires Shape(s) && p in s.conns && s.conns[p].pc.Sending?
    ensures s.conns[p].pc.e in s.log
  {
    hide SubOk;
    assert ConnOk(s, p);
  }

  ghost predicate Fresh(s: State, step: Step, c: nat, f: Frame) {
    f.Deliver? ==> f.e in s.log && FromStep(s, step, c, f.id, f.e)
  }

  ghost predicate FromStep(s: State, step: Step, c: nat, id: SubId, e: Event) {
    || Wants(s, c, id, e)
    || (step.c in s.conns && s.conns[step.c].pc.Sending? && s.conns[step.c].pc.to == c && s.conns[step.c].pc.e == e
      && id in s.conns[step.c].pc.ids)
  }

  // A handler about to write an event learned of the subscription by scanning for it.
  lemma WhatIsQueued(s: State, step: Step, p: nat, id: SubId)
    requires Shape(s) && Enabled(s, step) && p in Do(s, step).conns
    requires Do(s, step).conns[p].pc.Sending? && id in Do(s, step).conns[p].pc.ids
    ensures var pc := Do(s, step).conns[p].pc;
      || Wants(s, pc.to, id, pc.e)
      || (p in s.conns && s.conns[p].pc.Sending? && s.conns[p].pc.to == pc.to && s.conns[p].pc.e == pc.e
        && id in s.conns[p].pc.ids)
  {
    hide Match, ConnOk;
  }

  lemma FreshJustified(steps: seq<Step>, step: Step, c: nat, f: Frame)
    requires QueuesJustified(steps, After(steps)) && Fresh(After(steps), step, c, f)
    ensures f.Deliver? ==> f.e in After(steps).log && Ever(steps + [step], c, f.id, f.e)
  {
    hide After, Ever, Wants;
    if f.Deliver? {
      if Wants(After(steps), c, f.id, f.e) {
        EverNow(steps, step, c, f.id, f.e);
      } else {
        EverBefore(steps, step, c, f.id, f.e);
      }
    }
  }

  lemma OldFrameKept(steps: seq<Step>, step: Step, c: nat, f: Frame)
    requires FrameJustified(steps, After(steps), c, f) && Enabled(After(steps), step)
    ensures FrameJustified(steps + [step], Do(After(steps), step), c, f)
  {
    LogGrows(After(steps), step);
    hide Do, Enabled, After, Ever;
    if f.Deliver? {
      EverBefore(steps, step, c, f.id, f.e);
    }
  }

  lemma NewFrameKept(steps: seq<Step>, step: Step, c: nat, f: Frame)
    requires QueuesJustified(steps, After(steps)) && Enabled(After(steps), step) && Fresh(After(steps), step, c, f)
    ensures FrameJustified(steps + [step], Do(After(steps), step), c, f)
  {
    LogGrows(After(steps), step);
    hide Do, Enabled, After, Ever, Fresh;
    FreshJustified(steps, step, c, f);
  }

  lemma WireKept(steps: seq<Step>, step: Step, c: nat, j: nat)
    requires var s := After(steps);
      Shape(s) && WiresJustified(steps, s) && QueuesJustified(steps, s) && Enabled(s, step)
    requires var t := Do(After(steps), step); c in t.conns && j < |t.conns[c].wire|
    ensures var t := Do(After(steps), step); FrameJustified(steps + [step], t, c, t.conns[c].wire[j])
  {
    hide Do, Enabled, Shape, After, Fresh, QueuesJustified, FrameJustified;
    var s, t := After(steps), Do(After(steps), step);
    WhatIsWritten(s, step, c);
    if c in s.conns && j < |s.conns[c].wire| {
      OldFrameKept(steps, step, c, s.conns[c].wire[j]);
    } else {
      NewFrameKept(steps, step, c, t.conns[c].wire[j]);
    }
  }

  lemma WiresKept(steps: seq<Step>, step: Step)
    requires var s := After(steps);
      Shape(s) && WiresJustified(steps, s) && QueuesJustified(steps, s) && Enabled(s, step)
    ensures WiresJustified(steps + [step], Do(After(steps), step))
  {
    var t := Do(After(steps), step);
    hide Do, Enabled, Shape, After, QueuesJustified, FrameJustified;
    forall c, j | c in t.conns && 0 <= j < |t.conns[c].wire|
      ensures FrameJustified(steps + [step], t, c, t.conns[c].wire[j])
    {
      WireKept(steps, step, c, j);
    }
  }

  lemma QueuesKept(steps: seq<Step>, step: Step)
    requires var s := After(steps); Shape(s) && QueuesJustified(steps, s) && Enabled(s, step)
    ensures QueuesJustified(steps + [step], Do(After(steps), step))
  {
    var s := After(steps);
    var t := Do(s, step);
    hide Do, Enabled, Match, Shape, After, Ever, Wants;
    forall p, id | p in t.conns && t.conns[p].pc.Sending? && id in t.conns[p].pc.ids
      ensures Ever(steps + [step], t.conns[p].pc.to, id, t.conns[p].pc.e)
    {
      WhatIsQueued(s, step, p, id);
      var pc := t.conns[p].pc;
      if Wants(s, pc.to, id, pc.e) {
        EverNow(steps, step, pc.to, id, pc.e);
      } else {
        EverBefore(steps, step, pc.to, id, pc.e);
      }
    }
  }

  // Every event on a socket was published, and the client had asked for it under that name.
  lemma {:induction false} OnlyWanted(steps: seq<Step>)
    ensures WiresJustified(steps, After(steps)) && QueuesJustified(steps, After(steps))
  {
    if steps != [] {
      var front, step := steps[..|steps| - 1], steps[|steps| - 1];
      OnlyWanted(front);
      AlwaysInv(front);
      hide Shape, AllLive, AllReplayed, Do, Enabled, Ever;
      assert steps == front + [step];
      if Enabled(After(front), step) {
        WiresKept(front, step);
        QueuesKept(front, step);
      } else {
        forall c: nat, id: SubId, e: Event | Ever(front, c, id, e)
          ensures Ever(steps, c, id, e)
        {
          EverBefore(front, step, c, id, e);
        }
      }
    }
  }

  // Closing a subscription and asking for it again, with nothing in between.
  ghost function Reopened(s: State, c: nat, id: SubId, filters: Filters): State
    requires Enabled(s, CloseSub(c, id))
  {
    Do(Do(s, CloseSub(c, id)), Req(c, id, filters))
  }

  lemma Reopens(s: State, p: nat, c: nat, id: SubId, filters: Filters)
    requires Shape(s) && Enabled(s, CloseSub(c, id)) && id in s.conns[c].subs && p in s.conns && p != c
    ensures var t := Reopened(s, c, id, filters);
      c in t.conns && id in t.conns[c].subs && t.conns[c].subs[id].filters == filters && p in t.conns
        && t.conns[p] == s.conns[p]
  {
    assert ConnOk(s, c);
    hide Match, Shape;
    var subs := s.conns[c].subs;
    assert |subs - {id}| < MAX_SUBS by {
      assert subs.Keys == (subs - {id}).Keys + {id};
    }
  }

  // What holds is not that the present filters want every event written under their
  // name: if c closes id and asks for it again with other filters while p is between
  // its scan and its write, p still writes the event.
  lemma StaleDelivery(s: State, p: nat, c: nat, id: SubId, filters: Filters)
    requires Shape(s) && p in s.conns && p != c && Enabled(s, CloseSub(c, id)) && id in s.conns[c].subs
    requires s.conns[p].pc.Sending? && s.conns[p].pc.to == c && id in s.conns[p].pc.ids
    requires !Match(filters, s.conns[p].pc.e)
    ensures var r := Reopened(s, c, id, filters);
      c in r.conns && Enabled(r, Send(p, id)) && StaleOn(r.conns[c], Do(r, Send(p, id)), c, id, s.conns[p].pc.e)
  {
    Reopens(s, p, c, id, filters);
    hide Match, Shape, Reopened;
  }

  ghost predicate StaleOn(was: Conn, t: State, c: nat, id: SubId, e: Event) {
    && c in t.conns && t.conns[c].wire == was.wire + [Deliver(id, e)]
    && id in t.conns[c].subs && t.conns[c].subs == was.subs && !Match(t.conns[c].subs[id].filters, e)
  }

  // ----- exactly when a late event is still wanted

  // A CLOSE of the name, or a REQ for it that finds room: nothing else changes what
  // is wanted under it.
  ghost predicate Touches(s: State, step: Step, c: nat, id: SubId) {
    && Enabled(s, step)
    && (step == CloseSub(c, id) || (step.Req? && step.c == c && step.id == id && |s.conns[c].subs| < MAX_SUBS))
  }

  ghost predicate Grants(step: Step, e: Event) {
    step.Req? && Match(step.filters, e)
  }

  lemma TouchedWantsIff(s: State, step: Step, c: nat, id: SubId, e: Event)
    requires Touches(s, step, c, id)
    ensures Wants(Do(s, step), c, id, e) <==> Grants(step, e)
  {
    hide Match;
  }

  lemma UntouchedWantsIff(s: State, step: Step, c: nat, id: SubId, e: Event)
    requires Enabled(s, step) && !Touches(s, step, c, id)
    ensures Wants(Do(s, step), c, id, e) <==> Wants(s, c, id, e)
  {
    hide Match, Wanting;
  }

  // For one step: a subscription stops wanting an event exactly by being closed, or by
  // a REQ that finds room and whose filters do not match it.
  lemma WithdrawsIff(s: State, step: Step, c: nat, id: SubId, e: Event)
    requires Enabled(s, step) && Wants(s, c, id, e)
    ensures !Wants(Do(s, step), c, id, e) <==>
      step == CloseSub(c, id)
      || (step.Req? && step.c == c && step.id == id && |s.conns[c].subs| < MAX_SUBS && !Match(step.filters, e))
  {
    if Touches(s, step, c, id) {
      TouchedWantsIff(s, step, c, id, e);
    } else {
      UntouchedWantsIff(s, step, c, id, e);
    }
    hide Do, Wants, Match;
  }

  // Step n is the last one to touch the name.
  ghost predicate LastTouch(s: State, steps: seq<Step>, c: nat, id: SubId, n: int) {
    && 0 <= n < |steps| && Touches(From(s, steps[..n]), steps[n], c, id)
    && forall m :: n < m < |steps| ==> !Touches(From(s, steps[..m]), steps[m], c, id)
  }

  ghost predicate LastGrants(s: State, steps: seq<Step>, c: nat, id: SubId, e: Event) {
    forall n :: LastTouch(s, steps, c, id, n) ==> Grants(steps[n], e)
  }

  lemma {:induction false} WantedIff(s: State, steps: seq<Step>, c: nat, id: SubId, e: Event)
    requires Wants(s, c, id, e)
    ensures Wants(From(s, steps), c, id, e) <==> LastGrants(s, steps, c, id, e)
  {
    if steps != [] {
      hide Do, Enabled, Touches, Grants, Wants;
      var front, step := steps[..|steps| - 1], steps[|steps| - 1];
      var t := From(s, front);
      WantedIff(s, front, c, id, e);
      LastTouchOf(s, steps, c, id);
      if Touches(t, step, c, id) {
        TouchedIsEnabled(t, step, c, id);
        TouchedWantsIff(t, step, c, id, e);
        assert LastTouch(s, steps, c, id, |front|);
      } else {
        if Enabled(t, step) {
          UntouchedWantsIff(t, step, c, id, e);
        }
        assert forall n :: LastTouch(s, steps, c, id, n) ==> steps[n] == front[n];
        assert forall n :: LastTouch(s, front, c, id, n) ==> steps[n] == front[n];
      }
    }
  }

  lemma TouchedIsEnabled(s: State, step: Step, c: nat, id: SubId)
    requires Touches(s, step, c, id)
    ensures Enabled(s, step)
  {
  }

  // The last touch is the last step, if that touches the name, or else it is where it was.
  lemma LastTouchOf(s: State, steps: seq<Step>, c: nat, id: SubId)
    requires steps != []
    ensures var front, step := steps[..|steps| - 1], steps[|steps| - 1];
      if Touches(From(s, front), step, c, id) then forall n :: LastTouch(s, steps, c, id, n) <==> n == |front|
      else forall n :: LastTouch(s, steps, c, id, n) <==> LastTouch(s, front, c, id, n)
  {
    hide Touches, From;
    var front := steps[..|steps| - 1];
    forall n | 0 <= n <= |front|
      ensures steps[..n] == front[..n]
    {
    }
    assert steps[..|front|] == front;
  }

  ghost predicate Pending(s: State, p: nat, c: nat, id: SubId, e: Event) {
    p in s.conns && s.conns[p].pc.Sending? && s.conns[p].pc.to == c && s.conns[p].pc.e == e && id in s.conns[p].pc.ids
  }

  lemma PendingStep(s: State, step: Step, p: nat, c: nat, id: SubId, e: Event)
    requires Enabled(s, step) && Pending(s, p, c, id, e) && step != Send(p, id)
    ensures Pending(Do(s, step), p, c, id, e)
  {
    if p != step.c {
      Mover(s, step, p);
    }
    hide Match, Wanting;
  }

  lemma {:induction false} PendingStays(s: State, steps: seq<Step>, p: nat, c: nat, id: SubId, e: Event)
    requires Pending(s, p, c, id, e) && forall n :: 0 <= n < |steps| ==> steps[n] != Send(p, id)
    ensures Pending(From(s, steps), p, c, id, e)
  {
    if steps != [] {
      hide Do, Enabled, Pending;
      var front, step := steps[..|steps| - 1], steps[|steps| - 1];
      PendingStays(s, front, p, c, id, e);
      if Enabled(From(s, front), step) {
        PendingStep(From(s, front), step, p, c, id, e);
      }
    }
  }

  lemma {:induction false} ConnsStay(s: State, steps: seq<Step>)
    ensures s.conns.Keys <= From(s, steps).conns.Keys
  {
    if steps != [] {
      var t, step := From(s, steps[..|steps| - 1]), steps[|steps| - 1];
      ConnsStay(s, steps[..|steps| - 1]);
      if Enabled(t, step) && step.c !in t.conns {
        hide Match, Wanting;
      }
    }
  }

  // From a scan to the write: whatever happens in between, the event is written, and the
  // filters then present under that name want it exactly when the last step to touch
  // the name, if any did, was a REQ whose filters match it.
  lemma DeliveredWantedIff(r: State, p: nat, c: nat, id: SubId, steps: seq<Step>)
    requires Enabled(r, Scan(p, c)) && id in Do(r, Scan(p, c)).conns[p].pc.ids
    requires forall n :: 0 <= n < |steps| ==> steps[n] != Send(p, id)
    ensures var s := Do(r, Scan(p, c)); var e := r.conns[p].pc.e; var t := From(s, steps);
      && c in t.conns && Enabled(t, Send(p, id))
      && var t' := Do(t, Send(p, id));
      && t'.conns[c].wire == t.conns[c].wire + [Deliver(id, e)]
      && (Wants(t', c, id, e) <==> LastGrants(s, steps, c, id, e))
  {
    var s := Do(r, Scan(p, c));
    var e := r.conns[p].pc.e;
    ScanWants(r, p, c, id);
    hide Match, Do, LastGrants, Wanting;
    ConnsStay(s, steps);
    PendingStays(s, steps, p, c, id, e);
    WantedIff(s, steps, c, id, e);
    SendWrites(From(s, steps), p, c, id, e);
  }

  lemma ScanWants(r: State, p: nat, c: nat, id: SubId)
    requires Enabled(r, Scan(p, c)) && id in Do(r, Scan(p, c)).conns[p].pc.ids
    ensures var s := Do(r, Scan(p, c));
      c in s.conns && Wants(s, c, id, r.conns[p].pc.e) && Pending(s, p, c, id, r.conns[p].pc.e)
  {
    hide Match;
  }

  lemma SendWrites(t: State, p: nat, c: nat, id: SubId, e: Event)
    requires Pending(t, p, c, id, e) && c in t.conns
    ensures Enabled(t, Send(p, id))
    ensures var t' := Do(t, Send(p, id));
      c in t'.conns && t'.conns[c].wire == t.conns[c].wire + [Deliver(id, e)]
        && (Wants(t', c, id, e) <==> Wants(t, c, id, e))
  {
    hide Match, Wanting;
  }
}
