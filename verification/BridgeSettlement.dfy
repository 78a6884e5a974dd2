/**
 What the pending map promises over whole runs of the bridge: a registration
 ends once and only by its own socket or its own guard, a torn-down connection
 leaves nothing pending, and a late result is reported exactly once.
 */
module BridgeSettlement {
  import opened Wrappers
  import opened BridgeRegistry
  import opened BridgePending

  lemma {:induction false} RunKeepsInv(s: State, events: seq<Event>)
    requires PendingInv(s.pend) && Inv(s.reg)
    ensures PendingInv(Run(s, events).pend) && Inv(Run(s, events).reg)
    decreases events
  {
    if events != [] {
      NextKeepsPendingInv(s, events[0]);
      if events[0].Registered? { StepKeepsInv(s.reg, events[0].a); }
      RunKeepsInv(Next(s, events[0]), events[1..]);
    }
  }

  // ------------------------------------------------------- each ends just once

  /** In every reachable state a registration is either still pending, under
      its own id and connection, or has ended: never both, never neither. */
  lemma PendingOrEnded(events: seq<Event>, reg: RegId)
    requires reg in Run(InitState(), events).pend.requests
    ensures
      var p := Run(InitState(), events).pend;
      var r := p.requests[reg];
      && (reg in p.ended <==> !Holds(p, r.id, reg))
      && (Holds(p, r.id, reg) ==> p.entries[r.id].conn == r.conn)
      && (r.waiter.Released? || r.waiter.Reported? ==> reg in p.ended)
  {
    RunKeepsInv(InitState(), events);
    assert RequestInv(Run(InitState(), events).pend, reg);
  }

  lemma StepKeepsEnd(s: State, e: Event, reg: RegId)
    requires PendingInv(s.pend) && reg in s.pend.ended
    ensures EndedBy(Next(s, e).pend, reg, s.pend.ended[reg])
  {
    var p := s.pend;
    assert RequestInv(p, reg);
    forall id | id in p.entries ensures p.entries[id].reg != reg {
      assert EntryInv(p, id);
    }
  }

  /** The way a registration ended is final. */
  lemma {:induction false} EndsOnlyOnce(s: State, events: seq<Event>, reg: RegId)
    requires PendingInv(s.pend) && Inv(s.reg) && reg in s.pend.ended
    ensures EndedBy(Run(s, events).pend, reg, s.pend.ended[reg])
    decreases events
  {
    if events != [] {
      StepKeepsEnd(s, events[0], reg);
      RunKeepsInv(s, events[..1]);
      assert Run(s, events[..1]) == Next(s, events[0]);
      EndsOnlyOnce(Next(s, events[0]), events[1..], reg);
    }
  }

  /** Who may end a registration, and how: the socket it was sent to, that
      socket's teardown, or the registration's own guard or watcher. */
  lemma EndsOnlyByItsOwn(s: State, e: Event, reg: RegId)
    requires PendingInv(s.pend) && reg in s.pend.requests && reg !in s.pend.ended
    requires reg in Next(s, e).pend.ended
    ensures
      var r := s.pend.requests[reg];
      match Next(s, e).pend.ended[reg]
      case ByReply(reply) => e == PageReply(r.conn, r.id, reply) && IsServing(s.reg, r.conn)
      case ByRejection => e == Registered(RejectPending(r.conn)) && Rejects(s.reg, e.a)
      case ByCleanup => e == GuardDrop(reg) || e == LateCleanup(reg)
  {
    var p := s.pend;
    assert RequestInv(p, reg);
    forall id | id in p.entries && p.entries[id].reg == reg ensures id == p.requests[reg].id {
      assert EntryInv(p, id);
    }
  }

  // ------------------------------------------------------------------ teardown

  /** Every hello of a socket names the label it announced first, as the
      injected page script does. */
  ghost predicate AnnouncesOneLabel(s: State, events: seq<Event>)
    decreases events
  {
    events == []
    || ((events[0].Registered? ==> KeepsLabel(s.reg, events[0].a))
        && AnnouncesOneLabel(Next(s, events[0]), events[1..]))
  }

  ghost predicate KeepsLabel(s: Registry, a: Action) {
    a.HelloVerify? && a.conn in s.sockets ==> s.sockets[a.conn].announced in {None, Some(a.window)}
  }

  ghost predicate ClientServed(s: Registry, window: Label)
    requires window in s.clients
  {
    IsServing(s, s.clients[window].connId)
    && s.sockets[s.clients[window].connId].announced == Some(window)
  }

  ghost predicate LabelInv(s: Registry) {
    && (forall l :: l in s.clients ==> ClientServed(s, l))
    && (s.section.HelloSection? ==>
          IsServing(s, s.section.hello.connId)
          && s.sockets[s.section.hello.connId].announced in {None, Some(s.section.hello.windowId)})
  }

  ghost predicate NotTornDown(s: Registry, conn: ConnId) {
    conn in s.sockets && (s.sockets[conn].phase == Serving || s.sockets[conn].phase == Unregistered)
  }

  ghost predicate WsEntriesLive(s: State) {
    forall id :: id in s.pend.entries && IsWs(s.pend, id) ==> NotTornDown(s.reg, s.pend.entries[id].conn)
  }

  ghost predicate IsWs(p: Pending, id: ReqId)
    requires id in p.entries
  {
    p.entries[id].reg in p.requests && p.requests[p.entries[id].reg].ws
  }

  lemma HelloKeepsLabels(s: Registry)
    requires Inv(s) && LabelInv(s)
    ensures LabelInv(DoHelloInstall(s))
  {
  }

  lemma UnregisterKeepsLabels(s: Registry, conn: ConnId)
    requires Inv(s) && LabelInv(s)
    ensures LabelInv(DoUnregister(s, conn))
  {
  }

  lemma OthersKeepServing(s: Registry, a: Action)
    requires Inv(s) && !a.HelloInstall? && !a.Unregister?
    ensures var t := Step(s, a);
            && (forall c :: IsServing(s, c) ==> IsServing(t, c) && t.sockets[c] == s.sockets[c])
            && (forall l :: l in t.clients ==> l in s.clients && t.clients[l] == s.clients[l])
  {
  }

  lemma StepKeepsLabels(s: Registry, a: Action)
    requires Inv(s) && LabelInv(s) && KeepsLabel(s, a)
    ensures LabelInv(Step(s, a))
  {
    if a.HelloInstall? {
      HelloKeepsLabels(s);
    } else if a.Unregister? {
      UnregisterKeepsLabels(s, a.conn);
    } else {
      OthersKeepServing(s, a);
      var t := Step(s, a);
      forall l | l in t.clients ensures ClientServed(t, l) {
        assert ClientServed(s, l);
      }
      assert t.section.HelloSection? ==> a.HelloVerify? || t.section == s.section;
    }
  }

  lemma StepKeepsSocketsLive(s: Registry, a: Action, conn: ConnId)
    requires Inv(s) && NotTornDown(s, conn) && !(a == RejectPending(conn) && Rejects(s, a))
    ensures NotTornDown(Step(s, a), conn)
  {
  }

  /** A new entry is a probe's, or a request's on the client just selected. */
  lemma NewEntries(s: State, e: Event, id: ReqId)
    requires PendingInv(s.pend) && id in Next(s, e).pend.entries
    requires !(id in s.pend.entries && s.pend.entries[id].reg == Next(s, e).pend.entries[id].reg)
    ensures
      var entry := Next(s, e).pend.entries[id];
      || (e == WsRegister(id) && s.reg.section.WsSection? && entry.conn == s.reg.section.selected.connId)
      || (e == ProbeRegister(id, entry.conn) && !IsWs(Next(s, e).pend, id))
  {
  }

  lemma KeptEntries(s: State, e: Event, id: ReqId)
    requires PendingInv(s.pend) && id in Next(s, e).pend.entries && id in s.pend.entries
    requires s.pend.entries[id].reg == Next(s, e).pend.entries[id].reg
    ensures Next(s, e).pend.entries[id].conn == s.pend.entries[id].conn
  {
    var reg := s.pend.entries[id].reg;
    NextKeepsPendingInv(s, e);
    assert EntryInv(s.pend, id) && EntryInv(Next(s, e).pend, id);
    NextMovesWaiter(s, e, reg);
    assert RequestInv(s.pend, reg) && RequestInv(Next(s, e).pend, reg);
  }

  lemma RejectedEntriesGo(s: State, conn: ConnId, id: ReqId)
    requires Rejects(s.reg, RejectPending(conn))
    requires id in Next(s, Registered(RejectPending(conn))).pend.entries
    ensures Next(s, Registered(RejectPending(conn))).pend.entries[id].conn != conn
  {
  }

  lemma NextKeepsEntriesLive(s: State, e: Event)
    requires PendingInv(s.pend) && Inv(s.reg) && LabelInv(s.reg) && WsEntriesLive(s)
    ensures WsEntriesLive(Next(s, e))
  {
    var t := Next(s, e);
    forall id | id in t.pend.entries && IsWs(t.pend, id)
      ensures NotTornDown(t.reg, t.pend.entries[id].conn)
    {
      if id in s.pend.entries && s.pend.entries[id].reg == t.pend.entries[id].reg {
        assert EntryInv(s.pend, id);
        NextMovesWaiter(s, e, s.pend.entries[id].reg);
        KeptEntries(s, e, id);
        if e.Registered? {
          if Rejects(s.reg, e.a) { RejectedEntriesGo(s, e.a.conn, id); }
          StepKeepsSocketsLive(s.reg, e.a, s.pend.entries[id].conn);
        }
      } else {
        NewEntries(s, e, id);
        assert ClientServed(s.reg, s.reg.section.target);
      }
    }
  }

  lemma {:induction false} RunKeepsEntriesLive(s: State, events: seq<Event>)
    requires PendingInv(s.pend) && Inv(s.reg) && LabelInv(s.reg) && WsEntriesLive(s)
    requires AnnouncesOneLabel(s, events)
    ensures var t := Run(s, events); LabelInv(t.reg) && WsEntriesLive(t)
    decreases events
  {
    if events != [] {
      NextKeepsEntriesLive(s, events[0]);
      if events[0].Registered? { StepKeepsLabels(s.reg, events[0].a); }
      RunKeepsInv(s, events[..1]);
      assert Run(s, events[..1]) == Next(s, events[0]);
      RunKeepsEntriesLive(Next(s, events[0]), events[1..]);
    }
  }

  /** Once a connection has rejected its requests, no `execute_js_ws` request
      is pending on it, in that state or any later one. */
  lemma TeardownLeavesNothingPending(events: seq<Event>, conn: ConnId, id: ReqId)
    requires AnnouncesOneLabel(InitState(), events)
    requires
      var s := Run(InitState(), events);
      && conn in s.reg.sockets && (s.reg.sockets[conn].phase == Rejected || s.reg.sockets[conn].phase == Closed)
      && id in s.pend.entries && s.pend.entries[id].conn == conn
    ensures !IsWs(Run(InitState(), events).pend, id)
  {
    RunKeepsEntriesLive(InitState(), events);
  }

  /** Unregistering removes every client of the socket exactly when it has none
      under a label other than the last one it announced. */
  lemma UnregisterIsCompleteIff(s: Registry, conn: ConnId)
    requires Inv(s) && IsServing(s, conn) && s.section.Free?
    ensures
      var t := DoUnregister(s, conn);
      (forall l :: !Owns(t, l, conn)) <==> (forall l :: Owns(s, l, conn) ==> s.sockets[conn].announced == Some(l))
  {
    var t := DoUnregister(s, conn);
    forall l ensures Owns(t, l, conn) <==> Owns(s, l, conn) && s.sockets[conn].announced != Some(l) {
    }
  }

  function Hello(s: State, conn: ConnId, window: Label): State
    requires window in s.reg.windows
  {
    Next(Next(s, Registered(HelloVerify(conn, window, s.reg.windows[window].key, false))), Registered(HelloInstall))
  }

  function TearDown(s: State, conn: ConnId): State {
    Next(Next(s, Registered(Unregister(conn))), Registered(RejectPending(conn)))
  }

  lemma HelloRegisters(s: State, conn: ConnId, window: Label)
    requires s.reg.section.Free? && IsServing(s.reg, conn) && window in s.reg.windows
    ensures
      var t := Hello(s, conn, window);
      && t.pend == s.pend && t.reg.section.Free? && t.reg.windows == s.reg.windows
      && IsServing(t.reg, conn) && t.reg.sockets[conn].announced == Some(window)
      && t.reg.clients == s.reg.clients[window := Client(window, s.reg.windows[window].key, conn, false)]
  {
  }

  lemma TearDownKeepsOthers(s: State, conn: ConnId, window: Label)
    requires s.reg.section.Free? && IsServing(s.reg, conn) && window in s.reg.clients
    requires s.reg.sockets[conn].announced.Some? && s.reg.sockets[conn].announced != Some(window)
    ensures
      var t := TearDown(s, conn);
      && t.reg.section.Free? && t.reg.windows == s.reg.windows && t.pend.entries.Keys <= s.pend.entries.Keys
      && conn in t.reg.sockets && t.reg.sockets[conn].phase == Rejected
      && window in t.reg.clients && t.reg.clients[window] == s.reg.clients[window]
      && t.pend.requests == s.pend.requests
  {
  }

  lemma RequestGoesPending(s: State, window: Label, id: ReqId)
    requires s.reg.section.Free? && window in s.reg.clients && id !in s.pend.entries
    requires Verify(s.reg, window, s.reg.clients[window].bridgeKey)
    ensures
      var t := Next(Next(s, Registered(WsLock(window))), WsRegister(id));
      && t.reg.sockets == s.reg.sockets
      && id in t.pend.entries && t.pend.entries[id].conn == s.reg.clients[window].connId && IsWs(t.pend, id)
  {
  }

  /** Without the one-label rule `TeardownLeavesNothingPending` fails, in any
      state with two windows and a free lock: a socket says hello for both and
      is torn down, and a request then goes pending on it under the first. */
  lemma TwoLabelsOutliveTeardown(s: State, conn: ConnId, one: Label, two: Label, id: ReqId)
    requires s.reg.section.Free? && IsServing(s.reg, conn) && id !in s.pend.entries
    requires one in s.reg.windows && two in s.reg.windows && one != two
    ensures
      var torn := TearDown(Hello(Hello(s, conn, one), conn, two), conn);
      var t := Next(Next(torn, Registered(WsLock(one))), WsRegister(id));
      && conn in t.reg.sockets && t.reg.sockets[conn].phase == Rejected
      && id in t.pend.entries && t.pend.entries[id].conn == conn && IsWs(t.pend, id)
  {
    HelloRegisters(s, conn, one);
    HelloRegisters(Hello(s, conn, one), conn, two);
    TearDownKeepsOthers(Hello(Hello(s, conn, one), conn, two), conn, one);
    RequestGoesPending(TearDown(Hello(Hello(s, conn, one), conn, two), conn), one, id);
  }
}
