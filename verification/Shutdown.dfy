// Closing the bunker while its key is in use (bunker/bunker.go): useKey, Close, the
// two serve goroutines and Wait, interleaved at every point where one can block.

module Shutdown {
  const SERVERS := 2

  // Who holds b.mu.
  datatype Holder = Free | Handler(h: nat) | Closer(t: nat)

  // useKey: Checking has the lock and has not looked at use yet, Calling is in the callback.
  datatype HandlerPc = Resting | Checking | Calling

  // Close: Blocked waits inside once.Do for another caller, Stopping is in
  // server.Shutdown, Clearing holds the lock, Cleared has let go of it.
  datatype CloserPc = Blocked | Stopping | Clearing | Cleared | Returned

  datatype Once = Unused | Running(first: nat) | Done

  datatype ServerPc = Serving | Reporting | Reported

  datatype Waiter = Waiting | Receiving | Finished

  // errs is the buffered channel, got what Wait has taken from it. A result stands for
  // the server it came from. A second close of exited would panic.
  datatype State = State(
    mu: Holder, open: bool, once: Once, exited: bool, panicked: bool,
    handlers: map<nat, HandlerPc>, closers: map<nat, CloserPc>,
    servers: seq<ServerPc>, errs: seq<nat>, got: seq<nat>, waiter: Waiter)

  datatype Step =
    | Lock(h: nat)
    | Look(h: nat)
    | CallbackReturns(h: nat)
    | CallClose(t: nat)
    | Unblock(t: nat)
    | LockToClear(t: nat)
    | Clear(t: nat)
    | CloseExited(t: nat)
    | ServeReturns(i: nat)
    | Report(i: nat)
    | SeeExited
    | Receive

  const START := State(Free, true, Unused, false, false, map[], map[], [Serving, Serving], [], [], Waiting)

  function Pc(s: State, h: nat): HandlerPc {
    if h in s.handlers then s.handlers[h] else Resting
  }

  predicate Enabled(s: State, step: Step) {
    match step
    case Lock(h) => Pc(s, h).Resting? && s.mu.Free?
    case Look(h) => Pc(s, h).Checking?
    case CallbackReturns(h) => Pc(s, h).Calling?
    case CallClose(t) => t !in s.closers
    case Unblock(t) => t in s.closers && s.closers[t].Blocked? && s.once.Done?
    case LockToClear(t) => t in s.closers && s.closers[t].Stopping? && s.mu.Free?
    case Clear(t) => t in s.closers && s.closers[t].Clearing?
    case CloseExited(t) => t in s.closers && s.closers[t].Cleared?
    case ServeReturns(i) => i < |s.servers| && s.servers[i].Serving?
    case Report(i) => i < |s.servers| && s.servers[i].Reporting? && |s.errs| < SERVERS
    case SeeExited => s.waiter.Waiting? && s.exited
    case Receive => s.waiter.Receiving? && s.errs != []
  }

  function Do(s: State, step: Step): State
    requires Enabled(s, step)
  {
    match step
    case Lock(h) => s.(mu := Handler(h), handlers := s.handlers[h := Checking])
    case Look(h) =>
      if s.open then s.(handlers := s.handlers[h := Calling]) else s.(mu := Free, handlers := s.handlers[h := Resting])
    case CallbackReturns(h) => s.(mu := Free, handlers := s.handlers[h := Resting])
    case CallClose(t) =>
      (match s.once
       case Unused => s.(once := Running(t), closers := s.closers[t := Stopping])
       case Running(_) => s.(closers := s.closers[t := Blocked])
       case Done => s.(closers := s.closers[t := Returned]))
    case Unblock(t) => s.(closers := s.closers[t := Returned])
    case LockToClear(t) => s.(mu := Closer(t), closers := s.closers[t := Clearing])
    case Clear(t) => s.(mu := Free, open := false, closers := s.closers[t := Cleared])
    case CloseExited(t) =>
      s.(exited := true, panicked := s.panicked || s.exited, once := Done, closers := s.closers[t := Returned])
    case ServeReturns(i) => s.(servers := s.servers[i := Reporting])
    case Report(i) => s.(servers := s.servers[i := Reported], errs := s.errs + [i])
    case SeeExited => s.(waiter := Receiving)
    case Receive =>
      s.(errs := s.errs[1..], got := s.got + [s.errs[0]],
         waiter := if |s.got| + 1 == SERVERS then Finished else Receiving)
  }

  function From(s: State, steps: seq<Step>): State {
    if steps == [] then s
    else
      var t := From(s, steps[..|steps| - 1]);
      if Enabled(t, steps[|steps| - 1]) then Do(t, steps[|steps| - 1]) else t
  }

  // ----- what always holds

  // The lock is held by exactly those who think they hold it, and the callback runs
  // only while the bunker is open.
  predicate LockOk(s: State) {
    && (forall h :: h in s.handlers && !s.handlers[h].Resting? ==> s.mu == Handler(h))
    && (forall t :: t in s.closers && s.closers[t].Clearing? ==> s.mu == Closer(t))
    && (s.mu.Handler? ==> s.mu.h in s.handlers && !s.handlers[s.mu.h].Resting?)
    && (s.mu.Closer? ==> s.mu.t in s.closers && s.closers[s.mu.t].Clearing?)
    && (forall h :: h in s.handlers && s.handlers[h].Calling? ==> s.open)
  }

  // The first caller does the work, once; the others wait for it.
  predicate OnceOk(s: State) {
    && !s.panicked && (s.exited <==> s.once.Done?) && (s.once.Done? ==> !s.open)
    && (s.once.Running? ==> s.once.first in s.closers && s.closers[s.once.first] in {Stopping, Clearing, Cleared})
    && (forall t :: t in s.closers && s.closers[t] in {Stopping, Clearing, Cleared} ==> s.once == Running(t))
    && (forall t :: t in s.closers && s.closers[t].Cleared? ==> !s.open)
    && (forall t :: t in s.closers && s.closers[t].Returned? ==> s.once.Done?)
    && (forall t :: t in s.closers && s.closers[t].Blocked? ==> !s.once.Unused?)
  }

  // The two results: each server's is in got, in errs, or still to come.
  predicate ResultsOk(s: State) {
    var all := s.got + s.errs;
    && |s.servers| == SERVERS
    && (forall i :: 0 <= i < SERVERS ==> (s.servers[i].Reported? <==> i in all))
    && (forall i :: i in all ==> i < SERVERS)
    && (forall i, j :: 0 <= i < j < |all| ==> all[i] != all[j])
    && (s.waiter.Finished? <==> |s.got| == SERVERS) && (s.waiter.Waiting? ==> s.got == [])
      && (!s.waiter.Waiting? ==> s.exited)
  }

  predicate Inv(s: State) {
    LockOk(s) && OnceOk(s) && ResultsOk(s)
  }

  lemma LockKept(s: State, step: Step)
    requires Inv(s) && Enabled(s, step)
    ensures LockOk(Do(s, step))
  {
    hide ResultsOk;
  }

  lemma OnceKept(s: State, step: Step)
    requires Inv(s) && Enabled(s, step)
    ensures OnceOk(Do(s, step))
  {
    hide ResultsOk;
  }

  lemma ReportKept(s: State, i: nat)
    requires ResultsOk(s) && Enabled(s, Report(i))
    ensures ResultsOk(Do(s, Report(i)))
  {
    hide LockOk, OnceOk;
    var t := Do(s, Report(i));
    var all := s.got + s.errs;
    assert t.got + t.errs == all + [i];
    assert !s.servers[i].Reported?;
  }

  lemma ReceiveKept(s: State)
    requires ResultsOk(s) && Enabled(s, Receive)
    ensures ResultsOk(Do(s, Receive))
  {
    hide LockOk, OnceOk;
    assert Do(s, Receive).got + Do(s, Receive).errs == s.got + s.errs;
    TwoAtMost(s.got + s.errs);
  }

  // Distinct numbers below two: there are at most two of them.
  lemma TwoAtMost(all: seq<nat>)
    requires (forall i :: i in all ==> i < 2) && forall i, j :: 0 <= i < j < |all| ==> all[i] != all[j]
    ensures |all| <= 2 && (|all| == 2 ==> all == [0, 1] || all == [1, 0])
  {
    assert forall i :: 0 <= i < |all| ==> all[i] in all;
    var a, b := if |all| > 0 then all[0] else 0, if |all| > 1 then all[1] else 0;
    var c := if |all| > 2 then all[2] else 2;
    assert c < 2 ==> c == a || c == b || a == b;
  }

  lemma ResultsKept(s: State, step: Step)
    requires Inv(s) && Enabled(s, step)
    ensures ResultsOk(Do(s, step))
  {
    hide LockOk;
    match step {
      case Report(i) => ReportKept(s, i);
      case Receive => ReceiveKept(s);
      case _ =>
    }
  }

  lemma {:induction false} InvFrom(s: State, steps: seq<Step>)
    requires Inv(s)
    ensures Inv(From(s, steps))
  {
    hide LockOk, OnceOk, ResultsOk, Do, Enabled;
    if steps != [] {
      var t, step := From(s, steps[..|steps| - 1]), steps[|steps| - 1];
      InvFrom(s, steps[..|steps| - 1]);
      if Enabled(t, step) {
        LockKept(t, step);
        OnceKept(t, step);
        ResultsKept(t, step);
      }
    }
  }

  lemma AlwaysInv(steps: seq<Step>)
    ensures Inv(From(START, steps))
  {
    assert START.got + START.errs == [];
    InvFrom(START, steps);
  }

  lemma {:induction false} StaysClosed(s: State, steps: seq<Step>)
    requires !s.open
    ensures !From(s, steps).open
  {
    if steps != [] {
      StaysClosed(s, steps[..|steps| - 1]);
    }
  }

  lemma {:induction false} FromFrom(s: State, a: seq<Step>, b: seq<Step>)
    ensures From(s, a + b) == From(From(s, a), b)
  {
    hide Do, Enabled;
    if b == [] {
      assert a + b == a;
    } else {
      FromFrom(s, a, b[..|b| - 1]);
      assert (a + b)[..|a + b| - 1] == a + b[..|b| - 1];
    }
  }

  // In every interleaving the key callback runs only under the lock and with the
  // bunker open, for one handler at a time.
  lemma CallbackUnderLock(steps: seq<Step>, h: nat)
    requires Pc(From(START, steps), h).Calling?
    ensures var s := From(START, steps);
      s.mu == Handler(h) && s.open && !s.once.Done? && forall g :: g != h ==> !Pc(s, g).Calling?
  {
    AlwaysInv(steps);
  }

  // Once some Close has cleared the key, or any Close has returned, the callback is
  // not running, and it never runs again whatever happens next.
  lemma NeverAfterClose(steps: seq<Step>, more: seq<Step>, t: nat, h: nat)
    requires var s := From(START, steps); t in s.closers && (s.closers[t].Cleared? || s.closers[t].Returned?)
    ensures !Pc(From(START, steps), h).Calling? && !Pc(From(START, steps + more), h).Calling?
  {
    AlwaysInv(steps);
    AlwaysInv(steps + more);
    var s := From(START, steps);
    assert !s.open;
    StaysClosed(s, more);
    FromFrom(START, steps, more);
  }

  // exited is closed once, and by then the key is gone.
  lemma ExitedOnce(steps: seq<Step>)
    ensures var s := From(START, steps); !s.panicked && (s.exited ==> !s.open)
  {
    AlwaysInv(steps);
  }

  // A server goroutine can always send its result, and Wait gets each result once.
  lemma ResultsArrive(steps: seq<Step>)
    ensures var s := From(START, steps);
      && (forall i :: 0 <= i < |s.servers| && s.servers[i].Reporting? ==> Enabled(s, Report(i)))
      && (s.waiter.Finished? ==>
        (s.got == [0, 1] || s.got == [1, 0]) && s.errs == [] && s.servers == [Reported, Reported])
      && |s.got| <= SERVERS
  {
    AlwaysInv(steps);
    hide From, LockOk, OnceOk;
    var s := From(START, steps);
    var all := s.got + s.errs;
    TwoAtMost(all);
    if |s.got| == SERVERS {
      assert all == s.got && all[0] in all && all[1] in all;
    }
    forall i | 0 <= i < |s.servers| && s.servers[i].Reporting?
      ensures |s.errs| < SERVERS
    {
      assert 0 in [0, 1] && 1 in [0, 1] && 0 in [1, 0] && 1 in [1, 0];
    }
  }

  ghost predicate CanMove(s: State, steps: set<Step>) {
    exists step :: step in steps && Enabled(s, step)
  }

  // A Close under way is never stuck: it, the Close it waits for, or the callback
  // that holds the lock can take a step.
  lemma CloseMovesOn(steps: seq<Step>, t: nat)
    requires var s := From(START, steps); t in s.closers && !s.closers[t].Returned?
    ensures var s := From(START, steps);
      var u := if s.once.Running? then s.once.first else t;
      var h := if s.mu.Handler? then s.mu.h else 0;
      CanMove(s, {Unblock(t), LockToClear(u), Clear(u), CloseExited(u), Look(h), CallbackReturns(h)})
  {
    AlwaysInv(steps);
    hide From, ResultsOk;
    var s := From(START, steps);
    var u := if s.once.Running? then s.once.first else t;
    var h := if s.mu.Handler? then s.mu.h else 0;
    var moves := {Unblock(t), LockToClear(u), Clear(u), CloseExited(u), Look(h), CallbackReturns(h)};
    assert Enabled(s, Unblock(t)) || Enabled(s, LockToClear(u)) || Enabled(s, Clear(u)) || Enabled(s, CloseExited(u))
      || Enabled(s, Look(h)) || Enabled(s, CallbackReturns(h));
    assert Unblock(t) in moves && LockToClear(u) in moves && Clear(u) in moves && CloseExited(u) in moves
      && Look(h) in moves && CallbackReturns(h) in moves;
  }

  // useKey calls back exactly when the bunker is open at the moment it looks, keeping the
  // lock; otherwise it lets go of the lock and is done.
  lemma LookCallsIff(s: State, h: nat)
    requires LockOk(s) && Enabled(s, Look(h))
    ensures var t := Do(s, Look(h));
      && (Pc(t, h).Calling? <==> s.open) && (s.open ==> t.mu == Handler(h))
        && (!s.open ==> t.mu.Free? && Pc(t, h).Resting?)
      && t.open == s.open
  {
  }

  // ----- once Close has been called, everything can finish

  // Steps that go on with what was begun: no new use of the key, no new Close.
  predicate Finishes(step: Step) {
    !step.Lock? && !step.CallClose?
  }

  function BlockedSet(s: State): set<nat> {
    set t | t in s.closers && s.closers[t].Blocked?
  }

  // Steps left to the handler in the lock, to the first Close, to a server, to Wait.
  function HandlerLeft(s: State): nat {
    if s.mu.Handler? then (match Pc(s, s.mu.h) case Resting => 0 case Checking => 2 case Calling => 1) else 0
  }

  function CloserLeft(s: State): nat {
    if s.once.Running? && s.once.first in s.closers then
      match s.closers[s.once.first]
      case Stopping => 3
      case Clearing => 2
      case Cleared => 1
      case _ => 0
    else 0
  }

  function ServerLeft(s: State, i: nat): nat {
    if i >= |s.servers| then 0 else match s.servers[i] case Serving => 2 case Reporting => 1 case Reported => 0
  }

  function WaiterLeft(s: State): nat {
    if s.waiter.Waiting? then 3 else if |s.got| < SERVERS then SERVERS - |s.got| else 0
  }

  function Left(s: State): nat {
    HandlerLeft(s) + CloserLeft(s) + |BlockedSet(s)| + ServerLeft(s, 0) + ServerLeft(s, 1) + WaiterLeft(s)
  }

  // Every such step brings the end closer, in whatever order they come.
  lemma CloserToEnd(s: State, step: Step)
    requires Inv(s) && Enabled(s, step) && Finishes(step)
    ensures Left(Do(s, step)) < Left(s)
  {
    match step {
      case Look(h) => CloserByHandler(s, step, h);
      case CallbackReturns(h) => CloserByHandler(s, step, h);
      case LockToClear(t) => CloserByFirst(s, step, t);
      case Clear(t) => CloserByFirst(s, step, t);
      case CloseExited(t) => CloserByFirst(s, step, t);
      case Unblock(t) => CloserByBlocked(s, t);
      case _ => CloserByResults(s, step);
    }
  }

  lemma CloserByHandler(s: State, step: Step, h: nat)
    requires LockOk(s) && Enabled(s, step) && (step == Look(h) || step == CallbackReturns(h))
    ensures Left(Do(s, step)) < Left(s)
  {
    assert BlockedSet(Do(s, step)) == BlockedSet(s);
    hide BlockedSet, CloserLeft, ServerLeft, WaiterLeft;
    assert CloserLeft(Do(s, step)) == CloserLeft(s) && WaiterLeft(Do(s, step)) == WaiterLeft(s)
      && ServerLeft(Do(s, step), 0) == ServerLeft(s, 0) && ServerLeft(Do(s, step), 1) == ServerLeft(s, 1)
      by { SameLeft(s, step); }
  }

  lemma SameLeft(s: State, step: Step)
    requires Enabled(s, step) && (step.Look? || step.CallbackReturns?)
    ensures var t := Do(s, step);
      && CloserLeft(t) == CloserLeft(s) && WaiterLeft(t) == WaiterLeft(s)
      && ServerLeft(t, 0) == ServerLeft(s, 0) && ServerLeft(t, 1) == ServerLeft(s, 1)
  {
  }

  lemma CloserByFirst(s: State, step: Step, t: nat)
    requires LockOk(s) && OnceOk(s) && Enabled(s, step)
    requires step == LockToClear(t) || step == Clear(t) || step == CloseExited(t)
    ensures Left(Do(s, step)) < Left(s)
  {
    assert s.once == Running(t) && !s.closers[t].Blocked?;
    assert BlockedSet(Do(s, step)) == BlockedSet(s);
    hide BlockedSet, OnceOk;
  }

  lemma CloserByBlocked(s: State, t: nat)
    requires Enabled(s, Unblock(t))
    ensures Left(Do(s, Unblock(t))) < Left(s)
  {
    assert BlockedSet(Do(s, Unblock(t))) == BlockedSet(s) - {t};
    assert t in BlockedSet(s);
    hide BlockedSet, Enabled;
  }

  lemma CloserByResults(s: State, step: Step)
    requires ResultsOk(s) && Enabled(s, step)
    requires step.ServeReturns? || step.Report? || step.SeeExited? || step.Receive?
    ensures Left(Do(s, step)) < Left(s)
  {
    assert BlockedSet(Do(s, step)) == BlockedSet(s);
    FewGot(s);
    hide ResultsOk;
    SameClose(s, step);
    hide BlockedSet, HandlerLeft, CloserLeft;
  }

  lemma FewGot(s: State)
    requires ResultsOk(s)
    ensures |s.servers| == SERVERS && (s.waiter.Waiting? ==> s.got == []) && (s.waiter.Receiving? ==> |s.got| < SERVERS)
  {
    TwoAtMost(s.got + s.errs);
  }

  lemma SameClose(s: State, step: Step)
    requires Enabled(s, step) && (step.ServeReturns? || step.Report? || step.SeeExited? || step.Receive?)
    ensures HandlerLeft(Do(s, step)) == HandlerLeft(s) && CloserLeft(Do(s, step)) == CloserLeft(s)
  {
  }

  // Until it is reached there is one.
  lemma SomeStep(s: State) returns (step: Step)
    requires Inv(s) && !s.once.Unused? && Left(s) > 0
    ensures Enabled(s, step) && Finishes(step)
  {
    if s.mu.Handler? {
      step := if Pc(s, s.mu.h).Checking? then Look(s.mu.h) else CallbackReturns(s.mu.h);
    } else if s.once.Running? {
      var t := s.once.first;
      step := match s.closers[t] case Stopping => LockToClear(t) case Clearing => Clear(t) case _ => CloseExited(t);
    } else if t :| t in BlockedSet(s) {
      step := Unblock(t);
    } else {
      hide LockOk, OnceOk;
      assert BlockedSet(s) == {} && s.exited;
      step := SomeResult(s);
    }
  }

  lemma SomeResult(s: State) returns (step: Step)
    requires ResultsOk(s) && s.exited && ServerLeft(s, 0) + ServerLeft(s, 1) + WaiterLeft(s) > 0
    ensures Enabled(s, step) && Finishes(step)
  {
    if i :| 0 <= i < |s.servers| && s.servers[i].Serving? {
      step := ServeReturns(i);
    } else if i: nat :| i < |s.servers| && s.servers[i].Reporting? {
      step := Report(i);
      RoomToReport(s, i);
    } else if s.waiter.Waiting? {
      step := SeeExited;
    } else {
      step := Receive;
      BothReported(s);
    }
  }

  lemma RoomToReport(s: State, i: nat)
    requires ResultsOk(s) && i < |s.servers| && s.servers[i].Reporting?
    ensures |s.errs| < SERVERS
  {
    var all := s.got + s.errs;
    TwoAtMost(all);
    assert i !in all;
    assert 0 in [0, 1] && 1 in [0, 1] && 0 in [1, 0] && 1 in [1, 0];
  }

  lemma BothReported(s: State)
    requires ResultsOk(s) && s.servers[0].Reported? && s.servers[1].Reported? && |s.got| < SERVERS
    ensures s.errs != []
  {
    var all := s.got + s.errs;
    assert 0 in all && 1 in all;
    var i :| 0 <= i < |all| && all[i] == 0;
    var j :| 0 <= j < |all| && all[j] == 1;
  }

  // Every Close has returned, both servers have reported, Wait has both results, and
  // nobody is using the key.
  ghost predicate AllOver(s: State) {
    && (forall t :: t in s.closers ==> s.closers[t].Returned?) && (forall h :: !Pc(s, h).Calling?)
    && s.exited && !s.open && s.waiter.Finished? && (s.got == [0, 1] || s.got == [1, 0])
  }

  lemma NothingLeft(s: State)
    requires Inv(s) && !s.once.Unused? && Left(s) == 0
    ensures AllOver(s)
  {
    assert s.once.Done?;
    TwoAtMost(s.got + s.errs);
    if |s.got| == SERVERS {
      assert s.got + s.errs == s.got;
    }
    forall t | t in s.closers
      ensures s.closers[t].Returned?
    {
      assert t !in BlockedSet(s);
    }
  }

  lemma {:induction false} CanFinish(s: State) returns (steps: seq<Step>)
    requires Inv(s) && !s.once.Unused?
    ensures (forall n :: 0 <= n < |steps| ==> Finishes(steps[n])) && AllOver(From(s, steps))
    decreases Left(s)
  {
    if Left(s) == 0 {
      steps := [];
      NothingLeft(s);
      assert From(s, steps) == s;
    } else {
      var step := SomeStep(s);
      CloserToEnd(s, step);
      StaysCalled(s, step);
      hide Inv, Left, AllOver, Enabled, Do;
      var rest := CanFinish(Do(s, step));
      steps := [step] + rest;
      FromOne(s, step);
      FromFrom(s, [step], rest);
    }
  }

  lemma FromOne(s: State, step: Step)
    requires Enabled(s, step)
    ensures From(s, [step]) == Do(s, step)
  {
    hide Do, Enabled;
    assert [step][..0] == [] && From(s, []) == s;
  }

  lemma StaysCalled(s: State, step: Step)
    requires Inv(s) && !s.once.Unused? && Enabled(s, step)
    ensures Inv(Do(s, step)) && !Do(s, step).once.Unused?
  {
    hide LockOk, OnceOk, ResultsOk;
    LockKept(s, step);
    OnceKept(s, step);
    ResultsKept(s, step);
  }

  // From every state any interleaving reaches with a Close under way, the steps already
  // begun can bring everything to its end, and however they come they do so within Left
  // steps: no deadlock between Close, the callback, the servers and Wait.
  lemma EverythingEnds(steps: seq<Step>) returns (more: seq<Step>)
    requires exists t :: t in From(START, steps).closers
    ensures (forall n :: 0 <= n < |more| ==> Finishes(more[n])) && AllOver(From(START, steps + more))
  {
    AlwaysInv(steps);
    CalledOnce(START, steps);
    hide Inv, AllOver;
    more := CanFinish(From(START, steps));
    FromFrom(START, steps, more);
  }

  // A Close that was called used the once.
  lemma {:induction false} CalledOnce(s: State, steps: seq<Step>)
    requires s.once.Unused? ==> s.closers == map[]
    ensures From(s, steps).once.Unused? ==> From(s, steps).closers == map[]
  {
    if steps != [] {
      var t, step := From(s, steps[..|steps| - 1]), steps[|steps| - 1];
      CalledOnce(s, steps[..|steps| - 1]);
      hide From;
      if Enabled(t, step) {
        CalledStep(t, step);
      }
      hide Do, Enabled;
    }
  }

  lemma CalledStep(s: State, step: Step)
    requires Enabled(s, step) && (s.once.Unused? ==> s.closers == map[])
    ensures Do(s, step).once.Unused? ==> Do(s, step).closers == map[]
  {
  }
}
