// How often the relay delivers one event (bunker/bunker.go). Events are counted by
// their number in the history, not by their value.

module Delivery {
  import opened Relay

  ghost predicate IsLive(conn: Conn, j: int, id: SubId, k: nat) {
    0 <= j < |conn.wire| && j < |conn.marks| && conn.marks[j] == ByPublish(k) && conn.wire[j].Deliver?
      && conn.wire[j].id == id
  }

  ghost predicate IsReplay(conn: Conn, j: int, id: SubId, k: nat) {
    0 <= j < |conn.wire| && j < |conn.marks| && conn.marks[j] == ByReplay(k) && conn.wire[j].Deliver?
      && conn.wire[j].id == id
  }

  // A frame is a delivery exactly when it is marked with an event, and then with one
  // that was published and is the event it carries.
  ghost predicate Marked(s: State, f: Frame, m: Mark) {
    match m
    case NoEvent => !f.Deliver?
    case ByPublish(k) => f.Deliver? && k < |s.log| && f.e == s.log[k]
    case ByReplay(k) => f.Deliver? && k < |s.log| && f.e == s.log[k]
  }

  ghost predicate MarksOk(s: State) {
    forall c, j :: c in s.conns && 0 <= j < |s.conns[c].wire| && j < |s.conns[c].marks| ==>
      Marked(s, s.conns[c].wire[j], s.conns[c].marks[j])
  }

  ghost predicate Publishing(pc: Pc, k: nat) {
    (pc.Scanning? || pc.Sending?) && pc.at == k
  }

  // Each event is published by one handler, which is done with a client it writes to.
  ghost predicate OnePublisher(s: State) {
    && (forall p, q, k ::
      p in s.conns && q in s.conns && Publishing(s.conns[p].pc, k) && Publishing(s.conns[q].pc, k) ==> p == q)
    && (forall p :: p in s.conns ==> !LeftOver(s.conns[p].pc))
  }

  ghost predicate LiveOnce(s: State) {
    forall c, id, k, i, j :: c in s.conns && IsLive(s.conns[c], i, id, k) && IsLive(s.conns[c], j, id, k) ==> i == j
  }

  // What is on its way has not arrived.
  ghost predicate NotYet(s: State) {
    forall p, c, id, k, j :: p in s.conns && c in s.conns && OnItsWay(s.conns[p].pc, c, id, k) ==>
      !IsLive(s.conns[c], j, id, k)
  }

  // The present subscription of that name has had event k replayed by frame j.
  ghost predicate Replayed(conn: Conn, j: int, id: SubId, k: nat)
    requires id in conn.subs
  {
    conn.subs[id].base <= j && IsReplay(conn, j, id, k)
  }

  ghost predicate ReplayOnce(s: State) {
    forall c, id, k, i, j ::
      c in s.conns && id in s.conns[c].subs && Replayed(s.conns[c], i, id, k) && Replayed(s.conns[c], j, id, k) ==>
        i == j
  }

  // What a replay has written lies behind it; before the snapshot it has written nothing.
  ghost predicate Behind(conn: Conn, id: SubId, k: nat)
    requires id in conn.subs
  {
    conn.subs[id].snap.Some? && (conn.pc.Replaying? && conn.pc.id == id ==> k < conn.pc.next)
  }

  ghost predicate ReplayBehind(s: State) {
    forall c, id, k, j :: c in s.conns && id in s.conns[c].subs && Replayed(s.conns[c], j, id, k) ==>
      Behind(s.conns[c], id, k)
  }

  ghost predicate Once(s: State) {
    MarksOk(s) && OnePublisher(s) && LiveOnce(s) && NotYet(s) && ReplayOnce(s) && ReplayBehind(s)
  }

  // ----- what one step adds

  // Where the frame that a step adds to c comes from.
  ghost predicate Origin(s: State, step: Step, c: nat, f: Frame, m: Mark) {
    match m
    case NoEvent => !f.Deliver?
    case ByPublish(k) =>
      && step.Send? && step.c in s.conns && s.conns[step.c].pc.Sending?
      && s.conns[step.c].pc.to == c && s.conns[step.c].pc.at == k && step.id in s.conns[step.c].pc.ids
      && f == Deliver(step.id, s.conns[step.c].pc.e)
    case ByReplay(k) =>
      && step == ReplayOne(c) && c in s.conns && s.conns[c].pc.Replaying? && s.conns[c].pc.todo != []
      && s.conns[c].pc.next == k && f == Deliver(s.conns[c].pc.id, s.conns[c].pc.todo[0])
  }

  ghost predicate Grown(s: State, step: Step, c: nat, conn: Conn) {
    var wire := if c in s.conns then s.conns[c].wire else [];
    var marks := if c in s.conns then s.conns[c].marks else [];
    || (conn.wire == wire && conn.marks == marks)
    || (exists f, m :: conn.wire == wire + [f] && conn.marks == marks + [m] && Origin(s, step, c, f, m))
  }

  lemma Grows(s: State, step: Step, c: nat)
    requires Shape(s) && Enabled(s, step) && c in Do(s, step).conns
    ensures |Do(s, step).conns[c].wire| == |Do(s, step).conns[c].marks| && Grown(s, step, c, Do(s, step).conns[c])
  {
    if c in s.conns {
      assert ConnOk(s, c);
      hide Shape, PcOk, SubOk, Do, Enabled, Grown;
      if step.Send? {
        SendGrows(s, step, c);
      } else if step.ReplayOne? {
        ReplayGrows(s, step.c, c);
      } else {
        OtherGrows(s, step, c);
      }
    } else {
      NewIsEmpty(s, step, c);
      hide Do, Enabled, Shape;
    }
  }

  lemma NewIsEmpty(s: State, step: Step, c: nat)
    requires Enabled(s, step) && c !in s.conns && c in Do(s, step).conns
    ensures Do(s, step).conns[c].wire == [] && Do(s, step).conns[c].marks == []
  {
    hide Match, Wanting;
  }

  lemma SendGrows(s: State, step: Step, c: nat)
    requires Enabled(s, step) && step.Send? && c in s.conns && |s.conns[c].wire| == |s.conns[c].marks|
    ensures c in Do(s, step).conns
    ensures |Do(s, step).conns[c].wire| == |Do(s, step).conns[c].marks| && Grown(s, step, c, Do(s, step).conns[c])
  {
    hide Match, Wanting;
    var pc := s.conns[step.c].pc;
    assert pc.to == c ==> Origin(s, step, c, Deliver(step.id, pc.e), ByPublish(pc.at));
  }

  lemma ReplayGrows(s: State, p: nat, c: nat)
    requires Enabled(s, ReplayOne(p)) && c in s.conns && |s.conns[c].wire| == |s.conns[c].marks|
    ensures var t := Do(s, ReplayOne(p));
      c in t.conns && |t.conns[c].wire| == |t.conns[c].marks| && Grown(s, ReplayOne(p), c, t.conns[c])
  {
    hide Match, Wanting;
    var pc := s.conns[p].pc;
    assert p == c ==> Origin(s, ReplayOne(p), c, Deliver(pc.id, pc.todo[0]), ByReplay(pc.next));
  }

  lemma OtherGrows(s: State, step: Step, c: nat)
    requires Enabled(s, step) && !step.Send? && !step.ReplayOne? && c in s.conns
      && |s.conns[c].wire| == |s.conns[c].marks|
    ensures c in Do(s, step).conns
    ensures |Do(s, step).conns[c].wire| == |Do(s, step).conns[c].marks| && Grown(s, step, c, Do(s, step).conns[c])
  {
    hide Match, Wanting;
    var conn := Do(s, step).conns[c];
    if step.Refuse? && step.c == c {
      assert Origin(s, step, c, Closed(s.conns[c].pc.id), NoEvent);
    } else if step.EndReplay? && step.c == c {
      assert Origin(s, step, c, Eose(s.conns[c].pc.id), NoEvent);
    } else {
      assert conn.wire == s.conns[c].wire && conn.marks == s.conns[c].marks;
    }
  }

  // Frame j of c after a step: an old one, or the one just added.
  ghost predicate Old(s: State, c: nat, j: int) {
    c in s.conns && j < |s.conns[c].wire|
  }

  lemma FrameOf(s: State, step: Step, c: nat, j: nat)
    requires Shape(s) && Enabled(s, step) && c in Do(s, step).conns && j < |Do(s, step).conns[c].wire|
    ensures var conn := Do(s, step).conns[c];
      && |conn.marks| == |conn.wire|
      && if Old(s, c, j) then
           j < |s.conns[c].marks| && conn.wire[j] == s.conns[c].wire[j] && conn.marks[j] == s.conns[c].marks[j]
         else j == |conn.wire| - 1 && Origin(s, step, c, conn.wire[j], conn.marks[j])
  {
    Grows(s, step, c);
    if c in s.conns {
      assert ConnOk(s, c);
    }
    hide Do, Enabled, Shape, Origin, ConnOk;
  }

  lemma MarksKept(s: State, step: Step)
    requires Shape(s) && Enabled(s, step) && MarksOk(s)
    ensures MarksOk(Do(s, step))
  {
    var t := Do(s, step);
    LogGrows(s, step);
    hide Do, Enabled, Shape, Origin;
    forall c, j | c in t.conns && 0 <= j < |t.conns[c].wire| && j < |t.conns[c].marks|
      ensures Marked(t, t.conns[c].wire[j], t.conns[c].marks[j])
    {
      FrameOf(s, step, c, j);
      if !Old(s, c, j) {
        OriginMarked(s, step, c, t.conns[c].wire[j], t.conns[c].marks[j]);
      } else {
        assert Marked(s, s.conns[c].wire[j], s.conns[c].marks[j]);
      }
    }
  }

  lemma OriginMarked(s: State, step: Step, c: nat, f: Frame, m: Mark)
    requires Shape(s) && Origin(s, step, c, f, m)
    ensures Marked(s, f, m)
  {
    hide SubOk;
    if m.ByPublish? {
      assert ConnOk(s, step.c);
    } else if m.ByReplay? {
      assert ConnOk(s, c);
      assert s.conns[c].pc.todo[0] == s.log[s.conns[c].pc.next];
    }
  }

  // ----- live deliveries

  // Who publishes event k after a step published it before, or has just begun to.
  lemma PublisherFrom(s: State, step: Step, p: nat, k: nat)
    requires Shape(s) && Enabled(s, step) && p in Do(s, step).conns && Publishing(Do(s, step).conns[p].pc, k)
    ensures p in s.conns
    ensures if step.Publish? && p == step.c then k == |s.log| else k < |s.log| && Publishing(s.conns[p].pc, k)
    ensures !LeftOver(s.conns[p].pc) ==> !LeftOver(Do(s, step).conns[p].pc)
  {
    WasThere(s, step, p);
    assert ConnOk(s, p);
    hide Match, Wanting, SubOk, Shape;
    if p != step.c {
      Mover(s, step, p);
      hide Do;
    }
  }

  // A handler that has yet to scan the client it is writing to.
  ghost predicate LeftOver(pc: Pc) {
    pc.Sending? && pc.to in pc.targets
  }

  lemma WasThere(s: State, step: Step, p: nat)
    requires Enabled(s, step) && p in Do(s, step).conns && !Do(s, step).conns[p].pc.Idle?
    ensures p in s.conns
  {
    hide Match, Wanting;
  }

  lemma PublisherKept(s: State, step: Step)
    requires Shape(s) && Enabled(s, step) && OnePublisher(s)
    ensures OnePublisher(Do(s, step))
  {
    var t := Do(s, step);
    hide Do, Enabled, Shape;
    forall p, q, k | p in t.conns && q in t.conns && Publishing(t.conns[p].pc, k) && Publishing(t.conns[q].pc, k)
      ensures p == q
    {
      PublisherFrom(s, step, p, k);
      PublisherFrom(s, step, q, k);
    }
    forall p | p in t.conns
      ensures !LeftOver(t.conns[p].pc)
    {
      if t.conns[p].pc.Sending? {
        PublisherFrom(s, step, p, t.conns[p].pc.at);
      }
    }
  }

  // What is on its way after a step was so before, unless the step has just begun to
  // publish it; and the step has not written it.
  lemma WayFrom(s: State, step: Step, p: nat, c: nat, id: SubId, k: nat)
    requires Enabled(s, step) && p in Do(s, step).conns && OnItsWay(Do(s, step).conns[p].pc, c, id, k)
    requires p in s.conns ==> !LeftOver(s.conns[p].pc)
    ensures p in s.conns
    ensures OnItsWay(s.conns[p].pc, c, id, k) || (step.Publish? && k == |s.log|)
    ensures p == step.c && step.Send? && step.id == id ==> s.conns[p].pc.Sending? && s.conns[p].pc.to != c
  {
    WasThere(s, step, p);
    if p != step.c {
      Mover(s, step, p);
    } else {
      hide Match, Wanting;
    }
  }

  lemma NotThere(s: State, p: nat, c: nat, id: SubId, k: nat, j: int)
    requires NotYet(s) && p in s.conns && c in s.conns && OnItsWay(s.conns[p].pc, c, id, k)
    ensures !IsLive(s.conns[c], j, id, k)
  {
  }

  lemma NotPublished(s: State, c: nat, id: SubId, j: int)
    requires MarksOk(s) && c in s.conns
    ensures !IsLive(s.conns[c], j, id, |s.log|)
  {
    assert 0 <= j < |s.conns[c].wire| && j < |s.conns[c].marks| ==> Marked(s, s.conns[c].wire[j], s.conns[c].marks[j]);
  }

  lemma LiveKept(s: State, step: Step)
    requires Shape(s) && Enabled(s, step) && LiveOnce(s) && NotYet(s)
    ensures LiveOnce(Do(s, step))
  {
    var t := Do(s, step);
    hide Do, Enabled, Shape, NotYet;
    forall c, id, k, i, j | c in t.conns && IsLive(t.conns[c], i, id, k) && IsLive(t.conns[c], j, id, k)
      ensures i == j
    {
      FrameOf(s, step, c, i);
      FrameOf(s, step, c, j);
      if Old(s, c, i) && Old(s, c, j) {
        assert IsLive(s.conns[c], i, id, k) && IsLive(s.conns[c], j, id, k);
      } else if Old(s, c, i) || Old(s, c, j) {
        NotThere(s, step.c, c, id, k, if Old(s, c, i) then i else j);
      }
    }
  }

  lemma NotYetKept(s: State, step: Step)
    requires Shape(s) && Enabled(s, step) && MarksOk(s) && OnePublisher(s) && NotYet(s)
    ensures NotYet(Do(s, step))
  {
    var t := Do(s, step);
    hide Do, Enabled, Shape, MarksOk, NotYet, OnItsWay, OnePublisher, Origin;
    forall p, c, id, k, j | p in t.conns && c in t.conns && OnItsWay(t.conns[p].pc, c, id, k)
      ensures !IsLive(t.conns[c], j, id, k)
    {
      Arrives(s, step, p, c, id, k, j);
    }
  }

  lemma Arrives(s: State, step: Step, p: nat, c: nat, id: SubId, k: nat, j: int)
    requires Shape(s) && Enabled(s, step) && MarksOk(s) && OnePublisher(s) && NotYet(s)
    requires var t := Do(s, step); p in t.conns && c in t.conns && OnItsWay(t.conns[p].pc, c, id, k)
    ensures !IsLive(Do(s, step).conns[c], j, id, k)
  {
    var t := Do(s, step);
    assert p in s.conns ==> !LeftOver(s.conns[p].pc);
    WayFrom(s, step, p, c, id, k);
    hide Do, Enabled, Shape, MarksOk, NotYet;
    if 0 <= j < |t.conns[c].wire| {
      FrameOf(s, step, c, j);
      if Old(s, c, j) {
        if OnItsWay(s.conns[p].pc, c, id, k) {
          NotThere(s, p, c, id, k, j);
        } else {
          NotPublished(s, c, id, j);
        }
      } else if t.conns[c].marks[j] == ByPublish(k) {
        OnlyPublisher(s, step.c, p, k);
      }
    }
  }

  lemma OnlyPublisher(s: State, p: nat, q: nat, k: nat)
    requires OnePublisher(s) && p in s.conns && q in s.conns && Publishing(s.conns[p].pc, k)
      && Publishing(s.conns[q].pc, k)
    ensures p == q
  {
  }

  // ----- replays

  ghost predicate MovedOn(pc: Pc, pc': Pc, one: bool)
    requires pc'.Replaying?
  {
    pc.Replaying? && pc.id == pc'.id && pc'.next == pc.next + if one then 1 else 0
  }

  // A subscription that was there already, and whose replay, if it is under way, was
  // so before: it has moved on by what the step replayed.
  ghost predicate Unmoved(s: State, step: Step, c: nat, conn: Conn, id: SubId)
    requires id in conn.subs
  {
    && c in s.conns && id in s.conns[c].subs && conn.subs[id] == s.conns[c].subs[id] && conn.subs[id].snap.Some?
    && (conn.pc.Replaying? && conn.pc.id == id ==> MovedOn(s.conns[c].pc, conn.pc, step == ReplayOne(c)))
  }

  // One that had not taken its snapshot before the step.
  ghost predicate Waiting(s: State, c: nat, conn: Conn, id: SubId)
    requires id in conn.subs
  {
    c in s.conns && id in s.conns[c].subs && conn.subs[id].base == s.conns[c].subs[id].base
      && s.conns[c].subs[id].snap.None?
  }

  // The rest have just been installed, behind everything written.
  lemma SubFrom(s: State, step: Step, c: nat, id: SubId)
    requires Shape(s) && Enabled(s, step) && c in Do(s, step).conns && id in Do(s, step).conns[c].subs
    ensures var conn := Do(s, step).conns[c];
      Unmoved(s, step, c, conn, id) || Waiting(s, c, conn, id) || conn.subs[id].base == |conn.wire|
  {
    if c !in s.conns {
      hide Match, Wanting, ConnOk;
    } else {
      assert ConnOk(s, c);
      if c != step.c {
        SubOfOther(s, step, c, id);
      } else if step.Req? {
        SubAfterReq(s, c, step.id, step.filters, id);
      } else if step.Snapshot? {
        SubAfterSnapshot(s, c, id);
      } else {
        SubAfterRest(s, step, id);
      }
    }
  }

  lemma SubOfOther(s: State, step: Step, c: nat, id: SubId)
    requires Enabled(s, step) && c != step.c && c in s.conns && id in Do(s, step).conns[c].subs
    ensures var conn := Do(s, step).conns[c]; Unmoved(s, step, c, conn, id) || Waiting(s, c, conn, id)
  {
    if !step.Connect? {
      OthersKept(s, step, c);
      hide Do;
    }
    hide Match, Wanting;
  }

  lemma SubAfterReq(s: State, c: nat, new': SubId, filters: Filters, id: SubId)
    requires Enabled(s, Req(c, new', filters)) && id in Do(s, Req(c, new', filters)).conns[c].subs
    ensures var conn := Do(s, Req(c, new', filters)).conns[c];
      Unmoved(s, Req(c, new', filters), c, conn, id) || Waiting(s, c, conn, id) || conn.subs[id].base == |conn.wire|
  {
    hide Match;
  }

  lemma SubAfterSnapshot(s: State, c: nat, id: SubId)
    requires Enabled(s, Snapshot(c)) && PcOk(s, s.conns[c]) && id in Do(s, Snapshot(c)).conns[c].subs
    ensures var conn := Do(s, Snapshot(c)).conns[c]; Unmoved(s, Snapshot(c), c, conn, id) || Waiting(s, c, conn, id)
  {
    hide Match;
  }

  lemma SubAfterRest(s: State, step: Step, id: SubId)
    requires Enabled(s, step) && !step.Connect? && !step.Req? && !step.Snapshot? && id in Do(s, step).conns[step.c].subs
    ensures var conn := Do(s, step).conns[step.c]; Unmoved(s, step, step.c, conn, id) || Waiting(s, step.c, conn, id)
  {
    hide Match, Wanting;
  }

  // A replay only writes for the subscription whose snapshot it has.
  lemma ReplaysOwn(s: State, step: Step, c: nat, f: Frame, m: Mark)
    requires Shape(s) && Origin(s, step, c, f, m) && m.ByReplay?
    ensures f.id in s.conns[c].subs && s.conns[c].subs[f.id].snap.Some?
  {
    hide SubOk;
    assert ConnOk(s, c);
  }

  lemma ReplayBehindKept(s: State, step: Step)
    requires Shape(s) && Enabled(s, step) && ReplayBehind(s)
    ensures ReplayBehind(Do(s, step))
  {
    var t := Do(s, step);
    hide Do, Enabled, Shape, Origin;
    forall c, id, k, j | c in t.conns && id in t.conns[c].subs && Replayed(t.conns[c], j, id, k)
      ensures Behind(t.conns[c], id, k)
    {
      SubFrom(s, step, c, id);
      FrameOf(s, step, c, j);
      if Old(s, c, j) {
        assert id in s.conns[c].subs && s.conns[c].subs[id].base <= j ==> Replayed(s.conns[c], j, id, k);
      } else {
        ReplaysOwn(s, step, c, t.conns[c].wire[j], t.conns[c].marks[j]);
        OriginReplay(s, step, c, t.conns[c].wire[j], k);
      }
    }
  }

  lemma OriginReplay(s: State, step: Step, c: nat, f: Frame, k: nat)
    requires Origin(s, step, c, f, ByReplay(k))
    ensures step == ReplayOne(c) && s.conns[c].pc.Replaying? && f.Deliver? && s.conns[c].pc.id == f.id
      && s.conns[c].pc.next == k
  {
  }

  // The event a replay writes next it has not written before.
  lemma NotReplayed(s: State, step: Step, c: nat, id: SubId, f: Frame, k: nat, j: int)
    requires ReplayBehind(s) && Origin(s, step, c, f, ByReplay(k)) && f.id == id && id in s.conns[c].subs
    ensures !Replayed(s.conns[c], j, id, k)
  {
    OriginReplay(s, step, c, f, k);
    assert Replayed(s.conns[c], j, id, k) ==> Behind(s.conns[c], id, k);
  }

  lemma ReplayOnceKept(s: State, step: Step)
    requires Shape(s) && Enabled(s, step) && ReplayBehind(s) && ReplayOnce(s)
    ensures ReplayOnce(Do(s, step))
  {
    var t := Do(s, step);
    hide Do, Enabled, Shape, Origin, ReplayBehind, ConnOk, Match, Wanting;
    forall c, id, k, i, j | c in t.conns && id in t.conns[c].subs && Replayed(t.conns[c], i, id, k)
      && Replayed(t.conns[c], j, id, k)
      ensures i == j
    {
      SubFrom(s, step, c, id);
      FrameOf(s, step, c, i);
      FrameOf(s, step, c, j);
      if Old(s, c, i) && Old(s, c, j) {
        assert Replayed(s.conns[c], i, id, k) && Replayed(s.conns[c], j, id, k);
      } else if Old(s, c, i) {
        NotReplayed(s, step, c, id, t.conns[c].wire[j], k, i);
      } else if Old(s, c, j) {
        NotReplayed(s, step, c, id, t.conns[c].wire[i], k, j);
      }
    }
  }

  lemma {:induction false} AlwaysOnce(steps: seq<Step>)
    ensures Once(After(steps))
  {
    hide Shape, AllLive, AllReplayed, MarksOk, OnePublisher, LiveOnce, NotYet, ReplayOnce, ReplayBehind, Do, Enabled;
    if steps == [] {
      OnceEmpty();
    } else {
      var s, step := After(steps[..|steps| - 1]), steps[|steps| - 1];
      AlwaysOnce(steps[..|steps| - 1]);
      AlwaysInv(steps[..|steps| - 1]);
      if Enabled(s, step) {
        MarksKept(s, step);
        PublisherKept(s, step);
        LiveKept(s, step);
        NotYetKept(s, step);
        ReplayBehindKept(s, step);
        ReplayOnceKept(s, step);
      }
    }
  }

  lemma OnceEmpty()
    ensures Once(EMPTY)
  {
  }

  // A delivery of event k under that name.
  ghost predicate Delivers(conn: Conn, j: int, id: SubId, k: nat) {
    IsLive(conn, j, id, k) || IsReplay(conn, j, id, k)
  }

  // An event is delivered live at most once under a name, whatever happens to the name.
  lemma LiveAtMostOnce(steps: seq<Step>, c: nat, id: SubId, k: nat, i: int, j: int)
    requires var s := After(steps); c in s.conns && IsLive(s.conns[c], i, id, k) && IsLive(s.conns[c], j, id, k)
    ensures i == j
  {
    AlwaysOnce(steps);
    hide After, MarksOk, OnePublisher, NotYet, ReplayBehind, ReplayOnce, IsLive;
  }

  // After every interleaving an event has been delivered to a subscription at most
  // twice: once live and once by its replay.
  lemma AtMostTwice(steps: seq<Step>, c: nat, id: SubId, k: nat, h: int, i: int, j: int)
    requires var s := After(steps); c in s.conns && id in s.conns[c].subs
    requires var conn := After(steps).conns[c]; var base := conn.subs[id].base;
      base <= h && base <= i && base <= j && Delivers(conn, h, id, k) && Delivers(conn, i, id, k)
        && Delivers(conn, j, id, k)
    ensures h == i || i == j || h == j
  {
    hide After, IsLive, IsReplay;
    TwoOfAKind(steps, c, id, k, h, i);
    TwoOfAKind(steps, c, id, k, i, j);
    TwoOfAKind(steps, c, id, k, h, j);
  }

  // Two deliveries of one event to a subscription that came the same way are the same.
  lemma TwoOfAKind(steps: seq<Step>, c: nat, id: SubId, k: nat, i: int, j: int)
    requires var s := After(steps); c in s.conns && id in s.conns[c].subs
    requires var conn := After(steps).conns[c]; conn.subs[id].base <= i && conn.subs[id].base <= j
    ensures var conn := After(steps).conns[c];
      (IsLive(conn, i, id, k) && IsLive(conn, j, id, k)) || (IsReplay(conn, i, id, k) && IsReplay(conn, j, id, k)) ==>
        i == j
  {
    AlwaysOnce(steps);
    hide After, MarksOk, OnePublisher, NotYet, ReplayBehind, IsLive, IsReplay;
    var conn := After(steps).conns[c];
    assert IsReplay(conn, i, id, k) && IsReplay(conn, j, id, k) ==>
      Replayed(conn, i, id, k) && Replayed(conn, j, id, k);
  }

  // Each event frame carries the event it is counted as.
  lemma CountedAsCarried(steps: seq<Step>, c: nat, j: nat)
    requires var s := After(steps); c in s.conns && j < |s.conns[c].wire|
    ensures var s := After(steps);
      && j < |s.conns[c].marks|
      && (s.conns[c].wire[j].Deliver? <==> !s.conns[c].marks[j].NoEvent?)
      && (s.conns[c].wire[j].Deliver? ==>
        s.conns[c].marks[j].k < |s.log| && s.conns[c].wire[j].e == s.log[s.conns[c].marks[j].k])
  {
    AlwaysOnce(steps);
    AlwaysInv(steps);
    assert ConnOk(After(steps), c);
    hide After, OnePublisher, NotYet, ReplayBehind, ReplayOnce, LiveOnce, ConnOk;
    var s := After(steps);
    assert |s.conns[c].marks| == |s.conns[c].wire| ==> Marked(s, s.conns[c].wire[j], s.conns[c].marks[j]);
  }
}
