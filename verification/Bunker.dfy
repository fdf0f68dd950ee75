// The relay's objects (bunker/bunker.go): one for each critical section, and the
// sequences of them that handle a message when no other handler interferes.

module Bunker {
  import opened Relay

  ghost function Wanted(subs: map<SubId, Filters>, e: Event): set<SubId> {
    set id | id in subs && Match(subs[id], e)
  }

  ghost function Plain(subs: map<SubId, Sub>): map<SubId, Filters> {
    map id | id in subs :: subs[id].filters
  }

  // The program's maps select the same subscriptions as the steps of the relay.
  lemma SameWanted(subs: map<SubId, Sub>, e: Event)
    ensures Wanted(Plain(subs), e) == Wanting(subs, e)
  {
    hide Match;
  }

  // What a replay writes.
  ghost function History(id: SubId, filters: Filters, events: seq<Event>): seq<Frame> {
    if events == [] then []
    else
      History(id, filters, events[..|events| - 1])
      + if Match(filters, events[|events| - 1]) then [Deliver(id, events[|events| - 1])] else []
  }

  // ids lists the set, each member once: a map is walked in any order.
  ghost predicate Lists(ids: seq<SubId>, s: set<SubId>) {
    (forall id :: id in ids <==> id in s) && forall i, j :: 0 <= i < j < |ids| ==> ids[i] != ids[j]
  }

  function Deliveries(ids: seq<SubId>, e: Event): seq<Frame> {
    seq(|ids|, i requires 0 <= i < |ids| => Deliver(ids[i], e))
  }

  // A replay left alone: event after event, then EOSE.
  ghost function Drain(s: State, c: nat): State
    requires c in s.conns && s.conns[c].pc.Replaying?
    decreases |s.conns[c].pc.todo|
  {
    if s.conns[c].pc.todo == [] then Do(s, EndReplay(c)) else Drain(Do(s, ReplayOne(c)), c)
  }

  lemma {:induction false} HistoryHead(id: SubId, filters: Filters, events: seq<Event>)
    requires events != []
    ensures History(id, filters, events) ==
      (if Match(filters, events[0]) then [Deliver(id, events[0])] else []) + History(id, filters, events[1..])
  {
    hide Match;
    if |events| > 1 {
      var front := events[..|events| - 1];
      HistoryHead(id, filters, front);
      assert front[1..] == events[1..][..|events| - 2];
    }
  }

  lemma {:induction false} DrainWrites(s: State, c: nat)
    requires c in s.conns && s.conns[c].pc.Replaying?
    ensures var t := Drain(s, c); var pc := s.conns[c].pc;
      && c in t.conns && t.conns[c].subs == s.conns[c].subs && t.conns[c].pc.Idle?
      && t.conns[c].wire == s.conns[c].wire + History(pc.id, pc.filters, pc.todo) + [Eose(pc.id)]
    decreases |s.conns[c].pc.todo|
  {
    hide Match;
    var pc := s.conns[c].pc;
    if pc.todo != [] {
      HistoryHead(pc.id, pc.filters, pc.todo);
      DrainWrites(Do(s, ReplayOne(c)), c);
    }
  }

  // The steps of a REQ that nothing interrupts do what Request does.
  lemma UndisturbedRequest(s: State, c: nat, id: SubId, filters: Filters)
    requires c in s.conns && s.conns[c].pc.Idle? && |s.conns[c].subs| < MAX_SUBS
    ensures var s1 := Do(s, Req(c, id, filters)); var t := Drain(Do(s1, Snapshot(c)), c);
      && c in t.conns && Plain(t.conns[c].subs) == Plain(s.conns[c].subs)[id := filters]
      && t.conns[c].wire == s.conns[c].wire + History(id, filters, s.recent) + [Eose(id)]
  {
    hide Match, History;
    DrainWrites(Do(Do(s, Req(c, id, filters)), Snapshot(c)), c);
  }

  ghost predicate OnlyClosed(conn: Conn, conn': Conn, id: SubId) {
    conn'.subs == conn.subs && conn'.wire == conn.wire + [Closed(id)] && conn'.pc.Idle?
  }

  // A REQ for a name puts its filters in force exactly when there is room, unless they
  // were in force already: with eight subscriptions open even a repeated name keeps its
  // old filters. The refusal is answered with CLOSED and changes nothing else.
  lemma RequestTakesIff(s: State, c: nat, id: SubId, filters: Filters)
    requires Enabled(s, Req(c, id, filters))
    ensures var t := Do(s, Req(c, id, filters)); var was, now := Plain(s.conns[c].subs), Plain(t.conns[c].subs);
      && (now == was[id := filters] <==> |s.conns[c].subs| < MAX_SUBS || (id in was && was[id] == filters))
      && (|s.conns[c].subs| >= MAX_SUBS ==>
        Enabled(t, Refuse(c)) && OnlyClosed(s.conns[c], Do(t, Refuse(c)).conns[c], id))
  {
    hide Match;
    var was, now := Plain(s.conns[c].subs), Plain(Do(s, Req(c, id, filters)).conns[c].subs);
    if |s.conns[c].subs| < MAX_SUBS {
      assert now == was[id := filters];
    } else {
      assert was[id := filters][id] == filters;
      assert id in was && was[id] == filters ==> was[id := filters] == was;
    }
  }

  method Matches(filters: Filters, e: Event) returns (ok: bool)
    ensures ok == Match(filters, e)
    ensures ok <==> |filters| == 0 || exists i :: 0 <= i < |filters| && filters[i](e)
  {
    if |filters| == 0 {
      return true;
    }
    for i := 0 to |filters|
      invariant forall j :: 0 <= j < i ==> !filters[j](e)
    {
      if filters[i](e) {
        return true;
      }
    }
    ok := false;
  }

  class Client {
    var subs: map<SubId, Filters>
    var wire: seq<Frame>

    constructor ()
      ensures subs == map[] && wire == []
    {
      subs, wire := map[], [];
    }

    // The REQ branch under c.mu. A repeated id is refused too when there is no room.
    method Install(id: SubId, filters: Filters) returns (room: bool)
      modifies this`subs
      ensures room == (|old(subs)| < MAX_SUBS)
      ensures subs == if room then old(subs)[id := filters] else old(subs)
    {
      room := |subs| < MAX_SUBS;
      if room {
        subs := subs[id := filters];
      }
    }

    method Drop(id: SubId)
      modifies this`subs
      ensures subs == old(subs) - {id}
    {
      subs := subs - {id};
    }

    method Write(f: Frame)
      modifies this`wire
      ensures wire == old(wire) + [f]
    {
      wire := wire + [f];
    }

    // The scan of send, under c.mu.
    method Select(e: Event) returns (ids: seq<SubId>)
      ensures Lists(ids, Wanted(subs, e))
    {
      ids := [];
      var rest := subs.Keys;
      while rest != {}
        invariant rest <= subs.Keys && Lists(ids, Wanted(subs, e) - rest)
        decreases |rest|
      {
        var id :| id in rest;
        var wanted := Matches(subs[id], e);
        if wanted {
          ids := ids + [id];
        }
        rest := rest - {id};
      }
    }

    method Send(e: Event)
      modifies this`wire
      ensures Reached(this, old(wire), e)
    {
      var ids := Select(e);
      for i := 0 to |ids|
        invariant wire == old(wire) + Deliveries(ids[..i], e)
      {
        Write(Deliver(ids[i], e));
        assert Deliveries(ids[..i + 1], e) == Deliveries(ids[..i], e) + [Deliver(ids[i], e)];
      }
      assert ids[..|ids|] == ids;
    }
  }

  // c has been written e once for each subscription that wants it, and nothing else.
  ghost predicate Reached(c: Client, was: seq<Frame>, e: Event)
    reads c
  {
    exists ids :: Lists(ids, Wanted(c.subs, e)) && c.wire == was + Deliveries(ids, e)
  }

  class Room {
    var clients: set<Client>
    var recent: seq<Event>
    ghost var log: seq<Event>

    ghost predicate Valid()
      reads this
    {
      |clients| <= MAX_CLIENTS && recent == log[Oldest(|log|)..]
    }

    constructor ()
      ensures Valid() && clients == {} && recent == [] && log == []
    {
      clients, recent, log := {}, [], [];
    }

    method Admit(c: Client) returns (ok: bool)
      requires Valid() && c !in clients
      modifies this`clients
      ensures Valid() && ok == (|old(clients)| < MAX_CLIENTS)
      ensures clients == if ok then old(clients) + {c} else old(clients)
    {
      ok := |clients| < MAX_CLIENTS;
      if ok {
        clients := clients + {c};
      }
    }

    method Leave(c: Client)
      requires Valid()
      modifies this`clients
      ensures Valid() && clients == old(clients) - {c}
    {
      Fewer(clients - {c}, clients);
      clients := clients - {c};
    }

    // The critical section of publish: remember the event, forget the oldest, and
    // list the clients it goes to.
    method Remember(e: Event) returns (targets: set<Client>)
      requires Valid()
      modifies this`recent, this`log
      ensures Valid() && log == old(log) + [e] && recent == Recall(old(recent), e)
      ensures targets == clients
    {
      EventNumber(log, e);
      log := log + [e];
      recent := recent + [e];
      if |recent| > MAX_RECENT {
        recent := recent[|recent| - MAX_RECENT..];
      }
      targets := clients;
    }

    // publish from end to end: every connected client is written the event once for
    // each of its subscriptions that wants it, and no other client hears of it.
    method Publish(e: Event)
      requires Valid()
      modifies this`recent, this`log, clients`wire
      ensures Valid() && log == old(log) + [e]
      ensures forall c :: c in clients ==> Reached(c, old(c.wire), e)
    {
      hide Lists, Wanted;
      var targets := Remember(e);
      var rest := targets;
      while rest != {}
        invariant Valid() && log == old(log) + [e]
        invariant rest <= clients && forall c :: c in rest ==> c.wire == old(c.wire)
        invariant forall c :: c in clients && c !in rest ==> Reached(c, old(c.wire), e)
        decreases |rest|
      {
        var c :| c in rest;
        c.Send(e);
        rest := rest - {c};
      }
    }

    // replay: what the snapshot holds and the filters want, in the order it was
    // published, then EOSE.
    method Replay(c: Client, id: SubId, filters: Filters)
      requires Valid()
      modifies c`wire
      ensures c.wire == old(c.wire) + History(id, filters, recent) + [Eose(id)]
    {
      var events := recent;
      for i := 0 to |events|
        invariant c.wire == old(c.wire) + History(id, filters, events[..i])
      {
        assert events[..i + 1][..i] == events[..i];
        var wanted := Matches(filters, events[i]);
        if wanted {
          c.Write(Deliver(id, events[i]));
        }
      }
      assert events[..|events|] == events;
      c.Write(Eose(id));
    }

    // A whole REQ.
    method Request(c: Client, id: SubId, filters: Filters)
      requires Valid()
      modifies c
      ensures |old(c.subs)| < MAX_SUBS ==>
        c.subs == old(c.subs)[id := filters] && c.wire == old(c.wire) + History(id, filters, recent) + [Eose(id)]
      ensures |old(c.subs)| >= MAX_SUBS ==> c.subs == old(c.subs) && c.wire == old(c.wire) + [Closed(id)]
    {
      var room := c.Install(id, filters);
      if !room {
        c.Write(Closed(id));
        return;
      }
      Replay(c, id, filters);
    }
  }
}
