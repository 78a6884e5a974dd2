/**
 What the steps do get done: which event ends a registration and how, which
 moves a request's task on, and that a late answer reaches the hook. The other
 modules say what never happens; this one says what does.
 */
module BridgeProgress {
  import opened Wrappers
  import opened BridgeRegistry
  import opened BridgePending
  import opened BridgeLate
  import BridgeSettlement

  // ------------------------------------------------------------ registrations

  /** The one event that ends a pending registration, and its end. */
  ghost predicate Ends(s: State, e: Event, reg: RegId, end: End)
    requires reg in s.pend.requests
  {
    var r := s.pend.requests[reg];
    match end
    case ByReply(reply) => e == PageReply(r.conn, r.id, reply) && IsServing(s.reg, r.conn)
    case ByRejection =>
      e == Registered(RejectPending(r.conn)) && r.conn in s.reg.sockets
      && s.reg.sockets[r.conn].phase == Unregistered
    case ByCleanup =>
      (e == GuardDrop(reg) && (r.waiter.Armed? || r.waiter.Waiting?)) || (e == LateCleanup(reg) && r.waiter.Settling?)
  }

  /** A pending registration ends by exactly these events, in exactly these ways;
      the late mark plays no part. */
  lemma EndsIff(s: State, e: Event, reg: RegId, end: End)
    requires PendingInv(s.pend) && reg in s.pend.requests && reg !in s.pend.ended
    ensures EndedBy(Next(s, e).pend, reg, end) <==> Ends(s, e, reg, end)
  {
    var p := s.pend;
    assert RequestInv(p, reg);
    forall id | id in p.entries && p.entries[id].reg == reg ensures id == p.requests[reg].id {
      assert EntryInv(p, id);
    }
    NextKeepsRequest(s, e, reg);
  }

  /** In every reachable state: an answer on the connection that a pending id was
      sent to, while that connection serves, settles the request and nothing
      else; any other message settles nothing. */
  lemma ReplySettlesIff(events: seq<Event>, conn: ConnId, id: ReqId, reply: Reply)
    ensures
      var s := Run(InitState(), events);
      var t := Next(s, PageReply(conn, id, reply));
      if id in s.pend.entries && s.pend.entries[id].conn == conn && IsServing(s.reg, conn)
      then
        var reg := s.pend.entries[id].reg;
        && id !in t.pend.entries && reg !in s.pend.ended && EndedBy(t.pend, reg, ByReply(reply))
        && t.pend.requests == s.pend.requests && t.reg == s.reg && t.pend.hookCalls == s.pend.hookCalls
        && (forall i :: i != id ==> (i in t.pend.entries <==> i in s.pend.entries))
        && (forall i :: i != id && i in t.pend.entries ==> t.pend.entries[i] == s.pend.entries[i])
        && (forall r :: r != reg ==> (r in t.pend.ended <==> r in s.pend.ended))
        && (forall r :: r != reg && r in t.pend.ended ==> t.pend.ended[r] == s.pend.ended[r])
      else t == s
  {
    BridgeSettlement.RunKeepsInv(InitState(), events);
    var p := Run(InitState(), events).pend;
    if id in p.entries {
      assert EntryInv(p, id);
      assert RequestInv(p, p.entries[id].reg);
    }
  }

  // --------------------------------------------------------------------- tasks

  /** The events of a registration's own task. */
  predicate IsOwn(e: Event, reg: RegId) {
    || e == Send(reg) || e == GuardDrop(reg) || e == Timeout(reg)
    || e == Settle(reg) || e == LateCleanup(reg) || e == LateHook(reg) || (e.Watch? && e.r == reg)
  }

  /** Where each event takes a task from each place; `over` says the registration
      has ended. What a watcher finds when it looks is not said here. */
  function Moved(r: Request, over: bool, e: Event, reg: RegId): Waiter {
    var was := r.waiter;
    if !IsOwn(e, reg) then was
    else
      match was
      case Armed => if e.Send? then Waiting else if e.GuardDrop? then Released else was
      case Waiting => if e.GuardDrop? then Released else if e.Timeout? && r.ws && !over then TimedOut else was
      case TimedOut => if e.Watch? then Watching(e.hook) else was
      case Settling(hook, outcome, expired) => if e.LateCleanup? then Cleaned(hook, outcome, expired) else was
      case Cleaned(hook, outcome, expired) => if e.LateHook? then Reported(hook, outcome, expired) else was
      case _ => was
  }

  function WaiterIn(s: State, reg: RegId): Waiter {
    if reg in s.pend.requests then s.pend.requests[reg].waiter else Released
  }

  /** A task moves exactly so; a watcher that looks settles on expiry exactly when
      nothing has come. */
  lemma TaskMovesIff(s: State, e: Event, reg: RegId)
    requires PendingInv(s.pend) && reg in s.pend.requests
    ensures
      var r, over, now := s.pend.requests[reg], reg in s.pend.ended, WaiterIn(Next(s, e), reg);
      if e == Settle(reg) && r.waiter.Watching?
      then now.Settling? && now.hook == r.waiter.hook && (now.expired <==> !over)
      else now == Moved(r, over, e, reg)
  {
    if IsOwn(e, reg) {
      OwnEventMoves(s, e, reg);
    } else {
      NextMovesWaiter(s, e, reg);
      hide Next;
    }
  }

  lemma OwnEventMoves(s: State, e: Event, reg: RegId)
    requires PendingInv(s.pend) && reg in s.pend.requests && IsOwn(e, reg)
    ensures
      var r, over, now := s.pend.requests[reg], reg in s.pend.ended, WaiterIn(Next(s, e), reg);
      if e == Settle(reg) && r.waiter.Watching?
      then now.Settling? && now.hook == r.waiter.hook && (now.expired <==> !over)
      else now == Moved(r, over, e, reg)
  {
    hide PendingInv, Step, DoReply, DoReject, DoRegister, FlagById, CleanUp;
  }

  /** The class of an end, as the hook is told. */
  predicate IsClass(outcome: LateOutcome, end: End) {
    && (outcome == Succeeded <==> end == ByReply(Value))
    && (outcome == FailedWithoutEffect <==> end == ByReply(Error(NoEffect)))
    && (outcome == Failed <==> end == ByReply(Error(PossibleEffect)))
  }

  /** The request's watcher has this to report, or finds it when it looks. */
  ghost predicate Delivers(p: Pending, reg: RegId, outcome: LateOutcome, expired: bool) {
    && reg in p.requests
    && var w := p.requests[reg].waiter;
       || (w == Watching(true) && !expired && reg in p.ended && IsClass(outcome, p.ended[reg]))
       || (HasOutcome(w) && w.hook && w.outcome == outcome && w.expired == expired)
  }

  lemma NextDelivers(s: State, e: Event, reg: RegId, outcome: LateOutcome, expired: bool)
    requires PendingInv(s.pend) && Delivers(s.pend, reg, outcome, expired)
    ensures Delivers(Next(s, e).pend, reg, outcome, expired)
  {
    if reg in s.pend.ended { BridgeSettlement.StepKeepsEnd(s, e, reg); }
    TaskMovesIff(s, e, reg);
    NextMovesWaiter(s, e, reg);
    if e == Settle(reg) { NextKeepsPendingInv(s, e); assert RequestInv(Next(s, e).pend, reg); }
  }

  /** How far a watcher has come. */
  function Progress(w: Waiter): nat {
    match w
    case Settling(_, _, _) => 1
    case Cleaned(_, _, _) => 2
    case Reported(_, _, _) => 3
    case _ => 0
  }

  ghost predicate Delivering(s: State, reg: RegId, outcome: LateOutcome, expired: bool, id: ReqId, least: nat) {
    && PendingInv(s.pend) && Inv(s.reg) && LateInv(s.pend) && Delivers(s.pend, reg, outcome, expired)
    && s.pend.requests[reg].id == id && Progress(s.pend.requests[reg].waiter) >= least
  }

  lemma NextKeepsDelivering(s: State, e: Event, reg: RegId, outcome: LateOutcome, expired: bool, id: ReqId, least: nat)
    requires Delivering(s, reg, outcome, expired, id, least)
    ensures Delivering(Next(s, e), reg, outcome, expired, id, least)
  {
    NextDelivers(s, e, reg, outcome, expired);
    TaskMovesIff(s, e, reg);
    NextMovesWaiter(s, e, reg);
    NextKeepsLateInv(s, e);
    NextKeepsPendingInv(s, e);
    NextKeepsRegistry(s, e);
    hide Next, PendingInv, LateInv, Inv, Delivers;
  }

  lemma {:induction false} RunKeepsDelivering(s: State, events: seq<Event>, reg: RegId,
                                              outcome: LateOutcome, expired: bool, id: ReqId, least: nat)
    requires Delivering(s, reg, outcome, expired, id, least)
    ensures Delivering(Run(s, events), reg, outcome, expired, id, least)
    decreases events
  {
    hide Delivering;
    if events != [] {
      NextKeepsDelivering(s, events[0], reg, outcome, expired, id, least);
      RunKeepsDelivering(Next(s, events[0]), events[1..], reg, outcome, expired, id, least);
    }
  }

  /** The watcher's next own event takes it one stage on. */
  lemma OwnEventHelps(s: State, e: Event, reg: RegId, outcome: LateOutcome, expired: bool, id: ReqId, least: nat)
    requires Delivering(s, reg, outcome, expired, id, least)
    requires (least == 0 && e == Settle(reg)) || (least == 1 && e == LateCleanup(reg)) ||
             (least == 2 && e == LateHook(reg))
    ensures Delivering(Next(s, e), reg, outcome, expired, id, least + 1)
  {
    NextKeepsDelivering(s, e, reg, outcome, expired, id, least);
    TaskMovesIff(s, e, reg);
  }

  lemma {:induction false} RunSplits(s: State, a: seq<Event>, e: Event, rest: seq<Event>)
    ensures Run(s, a + [e] + rest) == Run(Next(Run(s, a), e), rest)
    decreases a
  {
    var all := a + [e] + rest;
    if a == [] {
      assert all[0] == e && all[1..] == rest;
    } else {
      assert all[0] == a[0] && all[1..] == a[1..] + [e] + rest;
      RunSplits(Next(s, a[0]), a[1..], e, rest);
    }
  }

  /** A watcher's last two steps, whatever else goes on around them. */
  function Finishing(reg: RegId, b: seq<Event>, c: seq<Event>, d: seq<Event>): seq<Event> {
    b + [LateCleanup(reg)] + (c + [LateHook(reg)] + d)
  }

  /** All three. */
  function Watcher(reg: RegId, a: seq<Event>, b: seq<Event>, c: seq<Event>, d: seq<Event>): seq<Event> {
    a + [Settle(reg)] + Finishing(reg, b, c, d)
  }

  lemma FinishDelivers(s: State, reg: RegId, outcome: LateOutcome, expired: bool, id: ReqId,
                       b: seq<Event>, c: seq<Event>, d: seq<Event>)
    requires Delivering(s, reg, outcome, expired, id, 1)
    ensures ToldOnce(Run(s, Finishing(reg, b, c, d)).pend, reg, id, outcome, expired)
  {
    hide Delivering, Next, Run;
    RunKeepsDelivering(s, b, reg, outcome, expired, id, 1);
    var s2 := Run(s, b);
    OwnEventHelps(s2, LateCleanup(reg), reg, outcome, expired, id, 1);
    var t2 := Next(s2, LateCleanup(reg));
    RunKeepsDelivering(t2, c, reg, outcome, expired, id, 2);
    var s3 := Run(t2, c);
    OwnEventHelps(s3, LateHook(reg), reg, outcome, expired, id, 2);
    RunKeepsDelivering(Next(s3, LateHook(reg)), d, reg, outcome, expired, id, 3);
    RunSplits(s, b, LateCleanup(reg), c + [LateHook(reg)] + d);
    RunSplits(t2, c, LateHook(reg), d);
    IsTold(Run(s, Finishing(reg, b, c, d)), reg, outcome, expired, id);
  }

  lemma IsTold(s: State, reg: RegId, outcome: LateOutcome, expired: bool, id: ReqId)
    requires Delivering(s, reg, outcome, expired, id, 3)
    ensures ToldOnce(s.pend, reg, id, outcome, expired)
  {
    ReportedIsTold(s.pend, reg);
  }

  lemma WatcherDelivers(s: State, reg: RegId, outcome: LateOutcome, expired: bool, id: ReqId,
                        a: seq<Event>, b: seq<Event>, c: seq<Event>, d: seq<Event>)
    requires Delivering(s, reg, outcome, expired, id, 0)
    ensures ToldOnce(Run(s, Watcher(reg, a, b, c, d)).pend, reg, id, outcome, expired)
  {
    hide Delivering, Next, Run;
    RunKeepsDelivering(s, a, reg, outcome, expired, id, 0);
    OwnEventHelps(Run(s, a), Settle(reg), reg, outcome, expired, id, 0);
    FinishDelivers(Next(Run(s, a), Settle(reg)), reg, outcome, expired, id, b, c, d);
    RunSplits(s, a, Settle(reg), Finishing(reg, b, c, d));
  }

  /** Exactly one call concerns the registration: this one. */
  ghost predicate ToldOnce(p: Pending, reg: RegId, id: ReqId, outcome: LateOutcome, expired: bool) {
    CallsFor(p.hookCalls, reg) == 1 && HookCall(reg, id, outcome, expired) in p.hookCalls
  }

  lemma {:induction false} SomeCall(calls: seq<HookCall>, reg: RegId) returns (i: nat)
    requires CallsFor(calls, reg) > 0
    ensures i < |calls| && calls[i].reg == reg
  {
    var n := |calls| - 1;
    if calls[n].reg == reg { i := n; } else { i := SomeCall(calls[..n], reg); }
  }

  lemma ReportedIsTold(p: Pending, reg: RegId)
    requires LateInv(p) && WasReported(p, reg)
    ensures var w := p.requests[reg].waiter; ToldOnce(p, reg, p.requests[reg].id, w.outcome, w.expired)
  {
    assert CountMatches(p, reg);
    var i := SomeCall(p.hookCalls, reg);
    assert CallMatches(p, p.hookCalls[i]);
  }

  ghost predicate Waits(s: State, reg: RegId) {
    IsIn(s.pend, reg, Watching(true)) && Holds(s.pend, s.pend.requests[reg].id, reg)
  }

  lemma WaitingEnds(s: State, e: Event, reg: RegId, end: End)
    requires PendingInv(s.pend) && Waits(s, reg) && Ends(s, e, reg, end)
    ensures var p := Next(s, e).pend;
            reg in p.requests && p.requests[reg] == s.pend.requests[reg] && EndedBy(p, reg, end)
  {
    assert RequestInv(s.pend, reg);
    EndsIff(s, e, reg, end);
    TaskMovesIff(s, e, reg);
    NextMovesWaiter(s, e, reg);
  }

  lemma EndingDelivers(events: seq<Event>, e: Event, reg: RegId, end: End, outcome: LateOutcome)
    requires var s := Run(InitState(), events); Waits(s, reg) && Ends(s, e, reg, end) && IsClass(outcome, end)
    ensures var s := Run(InitState(), events);
            Delivering(Next(s, e), reg, outcome, false, s.pend.requests[reg].id, 0)
  {
    var s := Run(InitState(), events);
    BridgeSettlement.RunKeepsInv(InitState(), events);
    RunKeepsLateInv(InitState(), events);
    NextKeepsPendingInv(s, e);
    NextKeepsLateInv(s, e);
    NextKeepsRegistry(s, e);
    WaitingEnds(s, e, reg, end);
    hide Next, Run, PendingInv, LateInv, Inv;
  }

  lemma NextKeepsRegistry(s: State, e: Event)
    requires Inv(s.reg)
    ensures Inv(Next(s, e).reg)
  {
    if e.Registered? { StepKeepsInv(s.reg, e.a); }
  }

  /** In every reachable state: a timed-out request whose page answers on its own
      serving connection while the watcher still waits is reported, once and with
      the class of that answer, as soon as the watcher has taken its three steps,
      whatever happens before, between and after them. */
  lemma LateAnswerIsReported(events: seq<Event>, reg: RegId, reply: Reply,
                             a: seq<Event>, b: seq<Event>, c: seq<Event>, d: seq<Event>)
    requires var s := Run(InitState(), events); Waits(s, reg) && IsServing(s.reg, s.pend.requests[reg].conn)
    ensures var s := Run(InitState(), events);
            var r := s.pend.requests[reg];
            var p := Run(Next(s, PageReply(r.conn, r.id, reply)), Watcher(reg, a, b, c, d)).pend;
            match reply
            case Value => ToldOnce(p, reg, r.id, Succeeded, false)
            case Error(NoEffect) => ToldOnce(p, reg, r.id, FailedWithoutEffect, false)
            case Error(PossibleEffect) => ToldOnce(p, reg, r.id, Failed, false)
  {
    var s := Run(InitState(), events);
    var r := s.pend.requests[reg];
    var e := PageReply(r.conn, r.id, reply);
    var outcome := match reply
                   case Value => Succeeded
                   case Error(NoEffect) => FailedWithoutEffect
                   case Error(PossibleEffect) => Failed;
    EndingDelivers(events, e, reg, ByReply(reply), outcome);
    hide Next, Run;
    WatcherDelivers(Next(s, e), reg, outcome, false, r.id, a, b, c, d);
  }

  /** The same for a teardown that comes first: the request is reported lost. */
  lemma LateRejectionIsReported(events: seq<Event>, reg: RegId,
                                a: seq<Event>, b: seq<Event>, c: seq<Event>, d: seq<Event>)
    requires var s := Run(InitState(), events);
             Waits(s, reg) && Rejects(s.reg, RejectPending(s.pend.requests[reg].conn))
    ensures var s := Run(InitState(), events);
            var r := s.pend.requests[reg];
            var t := Next(s, Registered(RejectPending(r.conn)));
            ToldOnce(Run(t, Watcher(reg, a, b, c, d)).pend, reg, r.id, Lost, false)
  {
    var s := Run(InitState(), events);
    var r := s.pend.requests[reg];
    var e := Registered(RejectPending(r.conn));
    EndingDelivers(events, e, reg, ByRejection, Lost);
    hide Next, Run;
    WatcherDelivers(Next(s, e), reg, Lost, false, r.id, a, b, c, d);
  }

  /** And when nothing has come by the time the window is over, it is reported as
      expired. */
  lemma ExpiryIsReported(events: seq<Event>, reg: RegId, b: seq<Event>, c: seq<Event>, d: seq<Event>)
    requires Waits(Run(InitState(), events), reg)
    ensures var s := Run(InitState(), events);
            ToldOnce(Run(Next(s, Settle(reg)), Finishing(reg, b, c, d)).pend, reg, s.pend.requests[reg].id, Lost, true)
  {
    var s := Run(InitState(), events);
    var t := Next(s, Settle(reg));
    BridgeSettlement.RunKeepsInv(InitState(), events);
    RunKeepsLateInv(InitState(), events);
    NextKeepsPendingInv(s, Settle(reg));
    NextKeepsLateInv(s, Settle(reg));
    EmptyHanded(s, reg);
    assert Delivering(t, reg, Lost, true, s.pend.requests[reg].id, 1);
    hide Next, Run;
    FinishDelivers(t, reg, Lost, true, s.pend.requests[reg].id, b, c, d);
  }

  lemma EmptyHanded(s: State, reg: RegId)
    requires PendingInv(s.pend) && Waits(s, reg)
    ensures var t := Next(s, Settle(reg));
            reg in t.pend.requests && t.pend.requests[reg].id == s.pend.requests[reg].id && t.reg == s.reg &&
            t.pend.requests[reg].waiter == Settling(true, Lost, true)
  {
    assert RequestInv(s.pend, reg);
  }
}
