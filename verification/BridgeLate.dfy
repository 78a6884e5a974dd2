/**
 Late settlement: every `execute_js_ws` request whose caller timed out after
 the send is reported to the hook exactly once, with what its page answered in
 time, or as lost.
 */
module BridgeLate {
  import opened Wrappers
  import opened BridgeRegistry
  import opened BridgePending
  import BridgeSettlement

  /** How many hook calls concern this registration. */
  function CallsFor(calls: seq<HookCall>, reg: RegId): nat {
    if calls == [] then 0
    else CallsFor(calls[..|calls| - 1], reg) + (if calls[|calls| - 1].reg == reg then 1 else 0)
  }

  predicate WasReported(p: Pending, reg: RegId) {
    reg in p.requests && p.requests[reg].waiter.Reported? && p.requests[reg].waiter.hook
  }

  ghost predicate CallMatches(p: Pending, call: HookCall) {
    WasReported(p, call.reg)
    && p.requests[call.reg].id == call.id
    && p.requests[call.reg].waiter == Reported(true, call.outcome, call.expired)
  }

  ghost predicate CountMatches(p: Pending, reg: RegId) {
    CallsFor(p.hookCalls, reg) == if WasReported(p, reg) then 1 else 0
  }

  ghost predicate LateInv(p: Pending) {
    && (forall r :: CountMatches(p, r))
    && (forall i :: 0 <= i < |p.hookCalls| ==> CallMatches(p, p.hookCalls[i]))
  }

  /** A reported waiter stays as it is, and only the hook step reports. */
  lemma NextKeepsReports(s: State, e: Event, reg: RegId)
    requires PendingInv(s.pend)
    ensures var t := Next(s, e);
            && (WasReported(s.pend, reg) ==> WasReported(t.pend, reg) && t.pend.requests[reg] == s.pend.requests[reg])
            && (WasReported(t.pend, reg) && !WasReported(s.pend, reg) ==> e == LateHook(reg))
  {
    if reg in s.pend.requests {
      NextMovesWaiter(s, e, reg);
    } else if reg in Next(s, e).pend.requests {
      NewWaiterIsArmed(s, e, reg);
    }
  }

  lemma OthersCallNoHook(s: State, e: Event)
    requires !e.LateHook?
    ensures Next(s, e).pend.hookCalls == s.pend.hookCalls
  {
  }

  lemma HookKeepsLateInv(p: Pending, reg: RegId)
    requires LateInv(p)
    ensures LateInv(DoLateHook(p, reg))
  {
    var t := DoLateHook(p, reg);
    forall r ensures CountMatches(t, r) {
      assert CountMatches(p, r);
      assert |t.hookCalls| == |p.hookCalls| + 1 ==> t.hookCalls[..|t.hookCalls| - 1] == p.hookCalls;
    }
    forall i | 0 <= i < |t.hookCalls| ensures CallMatches(t, t.hookCalls[i]) {
      if i < |p.hookCalls| { assert CallMatches(p, p.hookCalls[i]); }
    }
  }

  lemma NextKeepsLateInv(s: State, e: Event)
    requires PendingInv(s.pend) && LateInv(s.pend)
    ensures LateInv(Next(s, e).pend)
  {
    if e.LateHook? {
      HookKeepsLateInv(s.pend, e.r);
    } else {
      OthersCallNoHook(s, e);
      var t := Next(s, e);
      forall r ensures CountMatches(t.pend, r) {
        assert CountMatches(s.pend, r);
        NextKeepsReports(s, e, r);
      }
      forall i | 0 <= i < |t.pend.hookCalls| ensures CallMatches(t.pend, t.pend.hookCalls[i]) {
        assert CallMatches(s.pend, s.pend.hookCalls[i]);
        NextKeepsReports(s, e, s.pend.hookCalls[i].reg);
      }
    }
  }

  lemma {:induction false} RunKeepsLateInv(s: State, events: seq<Event>)
    requires PendingInv(s.pend) && Inv(s.reg) && LateInv(s.pend)
    ensures LateInv(Run(s, events).pend)
    decreases events
  {
    if events != [] {
      NextKeepsLateInv(s, events[0]);
      BridgeSettlement.RunKeepsInv(s, events[..1]);
      assert Run(s, events[..1]) == Next(s, events[0]);
      RunKeepsLateInv(Next(s, events[0]), events[1..]);
    }
  }

  /** In every reachable state: no call for a request whose watcher has not
      reported, exactly one for one that has (none if no hook was installed),
      and its outcome is the class of the page's answer, or `Lost` for a
      rejection or an expired window. */
  lemma ReportedExactlyOnce(events: seq<Event>, reg: RegId)
    requires reg in Run(InitState(), events).pend.requests
    ensures
      var p := Run(InitState(), events).pend;
      var w := p.requests[reg].waiter;
      && CallsFor(p.hookCalls, reg) == (if w.Reported? && w.hook then 1 else 0)
      && (w.Reported? ==>
            if w.expired then w.outcome == Lost
            else reg in p.ended
                 && match p.ended[reg]
                    case ByReply(Value) => w.outcome == Succeeded
                    case ByReply(Error(NoEffect)) => w.outcome == FailedWithoutEffect
                    case ByReply(Error(PossibleEffect)) => w.outcome == Failed
                    case ByRejection => w.outcome == Lost
                    case ByCleanup => false)
      && (forall i :: 0 <= i < |p.hookCalls| && p.hookCalls[i].reg == reg ==>
            w.Reported? && p.hookCalls[i] == HookCall(reg, p.requests[reg].id, w.outcome, w.expired))
  {
    BridgeSettlement.RunKeepsInv(InitState(), events);
    RunKeepsLateInv(InitState(), events);
    var p := Run(InitState(), events).pend;
    assert RequestInv(p, reg) && CountMatches(p, reg);
    forall i | 0 <= i < |p.hookCalls| ensures CallMatches(p, p.hookCalls[i]) {
    }
  }

  /** A watcher gives up only on an empty channel: an answer or a rejection that
      came before it looked is what it reports. */
  lemma ExpiredOnlyIfNothingCame(p: Pending, reg: RegId)
    requires PendingInv(p) && reg in p.requests && p.requests[reg].waiter.Watching?
    ensures
      var w := DoSettle(p, reg).requests[reg].waiter;
      w.Settling? && (w.expired <==> Holds(p, p.requests[reg].id, reg))
  {
  }

  predicate PastDeadline(w: Waiter) {
    w.TimedOut? || w.Watching? || w.Settling? || w.Cleaned? || w.Reported?
  }

  lemma NextStaysPastDeadline(s: State, e: Event, reg: RegId)
    requires PendingInv(s.pend) && reg in s.pend.requests && PastDeadline(s.pend.requests[reg].waiter)
    ensures reg in Next(s, e).pend.requests && PastDeadline(Next(s, e).pend.requests[reg].waiter)
  {
    NextMovesWaiter(s, e, reg);
  }

  /** A request that timed out after its send never leaves by the guard: its
      task can only end by reporting. */
  lemma {:induction false} TimedOutEndsReported(s: State, events: seq<Event>, reg: RegId)
    requires PendingInv(s.pend) && Inv(s.reg)
    requires reg in s.pend.requests && PastDeadline(s.pend.requests[reg].waiter)
    ensures reg in Run(s, events).pend.requests
    ensures PastDeadline(Run(s, events).pend.requests[reg].waiter)
    decreases events
  {
    if events != [] {
      NextStaysPastDeadline(s, events[0], reg);
      BridgeSettlement.RunKeepsInv(s, events[..1]);
      assert Run(s, events[..1]) == Next(s, events[0]);
      TimedOutEndsReported(Next(s, events[0]), events[1..], reg);
    }
  }

  // --------------------------------------------------------- the flag by id

  /** The watcher's mark falls on no foreign registration exactly when its own
      is still pending or its id is free. */
  lemma FlagIsOwnIff(p: Pending, reg: RegId, hook: bool)
    requires IsIn(p, reg, TimedOut)
    ensures
      var t := DoWatch(p, reg, hook);
      var id := p.requests[reg].id;
      (forall i :: i in t.entries && t.entries[i].late ==>
         t.entries[i].reg == reg || (i in p.entries && p.entries[i].late))
      <==> Holds(p, id, reg) || id !in p.entries || p.entries[id].late
  {
  }

  lemma RunOne(s: State, e: Event, rest: seq<Event>)
    ensures Run(s, [e] + rest) == Run(Next(s, e), rest)
  {
    assert ([e] + rest)[1..] == rest;
  }

  /** A window, its page's socket and hello, and a request sent to it that runs
      past its deadline. */
  function UpToTimeout(window: Label, id: ReqId): seq<Event> {
    [Registered(EnsureWindow(window)), Registered(Accept), Registered(HelloVerify(2, window, Uuid(1), false)),
     Registered(HelloInstall), Registered(WsLock(window)), WsRegister(id), Registered(Unlock), Send(0), Timeout(0)]
  }

  /** The first request, sent under `id`, is past its deadline. */
  function TimedOutOnce(id: ReqId): Pending {
    Pending(1, map[id := PendingEntry(2, 0, false)], map[0 := Request(id, 2, true, TimedOut)], map[], [])
  }

  lemma FirstTimesOut(window: Label, id: ReqId)
    ensures var s := Run(InitState(), UpToTimeout(window, id));
            s.reg.section.Free? && Owns(s.reg, window, 2) && IsServing(s.reg, 2) &&
            Verify(s.reg, window, s.reg.clients[window].bridgeKey) &&
            s.pend == TimedOutOnce(id)
  {
    var s0 := InitState();
    var s1 := Next(s0, Registered(EnsureWindow(window)));
    var s2 := Next(s1, Registered(Accept));
    var hello := Registered(HelloVerify(2, window, Uuid(1), false));
    var s3 := Next(s2, hello);
    var s4 := Next(s3, Registered(HelloInstall));
    assert s4.reg.section.Free? && s4.reg.clients == map[window := Client(window, Uuid(1), 2, false)];
    assert Verify(s4.reg, window, Uuid(1)) && IsServing(s4.reg, 2) && s4.pend == InitPending();
    RequestTimesOut(s4, window, id);
    var more := [Registered(WsLock(window)), WsRegister(id), Registered(Unlock), Send(0), Timeout(0)];
    assert UpToTimeout(window, id) ==
           [Registered(EnsureWindow(window))] + ([Registered(Accept)] +
           ([hello] + ([Registered(HelloInstall)] + more)));
    hide Next, Run, UpToTimeout;
    RunOne(s3, Registered(HelloInstall), more);
    RunOne(s2, hello, [Registered(HelloInstall)] + more);
    RunOne(s1, Registered(Accept), [hello] + ([Registered(HelloInstall)] + more));
    RunOne(s0, Registered(EnsureWindow(window)),
           [Registered(Accept)] + ([hello] + ([Registered(HelloInstall)] + more)));
  }

  lemma RequestIsSent(s: State, window: Label, id: ReqId)
    requires s.reg.section.Free? && Owns(s.reg, window, 2) && s.pend == InitPending()
    requires Verify(s.reg, window, s.reg.clients[window].bridgeKey)
    ensures var t := Next(Next(Next(s, Registered(WsLock(window))), WsRegister(id)), Registered(Unlock));
            t.reg == s.reg && t.pend == DoRegister(InitPending(), id, 2, true)
  {
  }

  lemma RequestTimesOut(s: State, window: Label, id: ReqId)
    requires s.reg.section.Free? && Owns(s.reg, window, 2) && s.pend == InitPending()
    requires Verify(s.reg, window, s.reg.clients[window].bridgeKey)
    ensures var t := Run(s, [Registered(WsLock(window)), WsRegister(id), Registered(Unlock), Send(0), Timeout(0)]);
            t.reg == s.reg && t.pend == TimedOutOnce(id)
  {
    var s1 := Next(s, Registered(WsLock(window)));
    var s2 := Next(s1, WsRegister(id));
    var s3 := Next(s2, Registered(Unlock));
    var s4 := Next(s3, Send(0));
    var s5 := Next(s4, Timeout(0));
    RequestIsSent(s, window, id);
    assert s5.reg == s.reg && s5.pend.requests == map[0 := Request(id, 2, true, TimedOut)];
    hide Next;
    var e1, e2, e3, e4, e5 := Registered(WsLock(window)), WsRegister(id), Registered(Unlock), Send(0), Timeout(0);
    assert [e1, e2, e3, e4, e5] == [e1] + ([e2] + ([e3] + ([e4] + [e5])));
    RunOne(s, e1, [e2] + ([e3] + ([e4] + [e5])));
    RunOne(s1, e2, [e3] + ([e4] + [e5]));
    RunOne(s2, e3, [e4] + [e5]);
    RunOne(s3, e4, [e5]);
    assert [e5] + [] == [e5];
    RunOne(s4, e5, []);
  }

  /** The guard of `FlagIsOwnIff` can fail, in a run from the start: the page
      answers between the timeout and the mark, the id is used again, and the
      new request is marked late while its caller is still about to send. */
  lemma ReusedIdIsFlagged(window: Label, id: ReqId, reply: Reply)
    ensures var more := [PageReply(2, id, reply), Registered(WsLock(window)), WsRegister(id), Watch(0, true)];
            var p := Run(Run(InitState(), UpToTimeout(window, id)), more).pend;
            && id in p.entries && p.entries[id] == PendingEntry(2, 1, true)
            && IsIn(p, 1, Armed) && IsIn(p, 0, Watching(true))
  {
    FirstTimesOut(window, id);
    hide UpToTimeout;
    var s := Run(InitState(), UpToTimeout(window, id));
    var e1, e2, e3, e4 := PageReply(2, id, reply), Registered(WsLock(window)), WsRegister(id), Watch(0, true);
    var s1 := Next(s, e1);
    var s2 := Next(s1, e2);
    var s3 := Next(s2, e3);
    var s4 := Next(s3, e4);
    assert s2.reg.section.WsSection? && s3.pend.entries == map[id := PendingEntry(2, 1, false)];
    hide Next;
    assert [e1, e2, e3, e4] == [e1] + ([e2] + ([e3] + [e4]));
    RunOne(s, e1, [e2] + ([e3] + [e4]));
    RunOne(s1, e2, [e3] + [e4]);
    RunOne(s2, e3, [e4]);
    assert [e4] + [] == [e4];
    RunOne(s3, e4, []);
  }
}
