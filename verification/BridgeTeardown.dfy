/**
 Exactly when a connection's teardown leaves nothing pending on it for good,
 connection by connection.
 */
module BridgeTeardown {
  import opened Wrappers
  import opened BridgeRegistry
  import opened BridgePending
  import opened BridgeSettlement
  import opened BridgeChanges

  /** The connection's requests have been rejected. */
  predicate TornDown(s: Registry, conn: ConnId) {
    conn in s.sockets && (s.sockets[conn].phase == Rejected || s.sockets[conn].phase == Closed)
  }

  ghost predicate NoWsOn(s: State, conn: ConnId) {
    forall id :: id in s.pend.entries && s.pend.entries[id].conn == conn ==> !IsWs(s.pend, id)
  }

  /** However things go on from here, no `execute_js_ws` request is pending on
      the connection once its requests have been rejected. */
  ghost predicate CleanForGood(s: State, conn: ConnId) {
    forall events :: TornDown(Run(s, events).reg, conn) ==> NoWsOn(Run(s, events), conn)
  }

  /** The socket is the client of no label but the last it announced, unless
      under a key that has been replaced. */
  ghost predicate LeavesNoClient(s: Registry, conn: ConnId)
    requires conn in s.sockets
  {
    forall l :: Owns(s, l, conn) && Verify(s, l, s.clients[l].bridgeKey) ==> s.sockets[conn].announced == Some(l)
  }

  // ------------------------------------------------------------- harmless

  /** Nothing can be dispatched to the connection any more. */
  ghost predicate Harmless(s: Registry, conn: ConnId) {
    && conn in s.sockets && s.sockets[conn].phase != Serving
    && (forall l :: Owns(s, l, conn) ==> !Verify(s, l, s.clients[l].bridgeKey))
    && !(s.section.WsSection? && s.section.selected.connId == conn)
  }

  lemma UnregisterIsHarmless(s: Registry, conn: ConnId)
    requires Inv(s) && IsServing(s, conn) && s.section.Free? && LeavesNoClient(s, conn)
    ensures Harmless(DoUnregister(s, conn), conn)
  {
    var t := DoUnregister(s, conn);
    forall l | Owns(t, l, conn) ensures !Verify(t, l, t.clients[l].bridgeKey) {
      assert Owns(s, l, conn);
    }
  }

  /** A step adds no client of the connection, and none of its keys comes back. */
  lemma StepKeepsHarmless(s: Registry, a: Action, conn: ConnId)
    requires Inv(s) && Harmless(s, conn)
    ensures Harmless(Step(s, a), conn)
  {
    var t := Step(s, a);
    forall l | Owns(t, l, conn) ensures !Verify(t, l, t.clients[l].bridgeKey) {
      StepKeepsClient(s, a, conn, l);
    }
    StaysUnserved(s, a, conn);
  }

  lemma StaysUnserved(s: Registry, a: Action, conn: ConnId)
    requires Inv(s) && conn in s.sockets && s.sockets[conn].phase != Serving
    ensures conn in Step(s, a).sockets && Step(s, a).sockets[conn].phase != Serving
  {
  }

  lemma StepKeepsClient(s: Registry, a: Action, conn: ConnId, l: Label)
    requires Inv(s) && Harmless(s, conn) && Owns(Step(s, a), l, conn)
    ensures Owns(s, l, conn) && Step(s, a).clients[l] == s.clients[l]
    ensures !Verify(Step(s, a), l, s.clients[l].bridgeKey)
  {
    assert Mirrored(s, l);
  }

  // -------------------------------------------------------- from then on

  ghost predicate Torn(s: State, conn: ConnId) {
    Harmless(s.reg, conn) && (TornDown(s.reg, conn) ==> NoWsOn(s, conn))
  }

  lemma NextKeepsTorn(s: State, e: Event, conn: ConnId)
    requires PendingInv(s.pend) && Inv(s.reg) && Torn(s, conn)
    ensures Torn(Next(s, e), conn)
  {
    var t := Next(s, e);
    if e.Registered? { StepKeepsHarmless(s.reg, e.a, conn); }
    if TornDown(t.reg, conn) {
      forall id | id in t.pend.entries && t.pend.entries[id].conn == conn ensures !IsWs(t.pend, id) {
        EntryIsNoWs(s, e, conn, id);
      }
    }
  }

  lemma EntryIsNoWs(s: State, e: Event, conn: ConnId, id: ReqId)
    requires PendingInv(s.pend) && Inv(s.reg) && Torn(s, conn) && TornDown(Next(s, e).reg, conn)
    requires id in Next(s, e).pend.entries && Next(s, e).pend.entries[id].conn == conn
    ensures !IsWs(Next(s, e).pend, id)
  {
    var t := Next(s, e);
    if id in s.pend.entries && s.pend.entries[id].reg == t.pend.entries[id].reg {
      KeptEntries(s, e, id);
      assert EntryInv(s.pend, id);
      NextMovesWaiter(s, e, s.pend.entries[id].reg);
      if !TornDown(s.reg, conn) {
        BecomesTornDown(s, e, conn);
        RejectedEntriesGo(s, conn, id);
      }
    } else {
      NewEntries(s, e, id);
    }
  }

  lemma BecomesTornDown(s: State, e: Event, conn: ConnId)
    requires Inv(s.reg) && Harmless(s.reg, conn) && !TornDown(s.reg, conn) && TornDown(Next(s, e).reg, conn)
    ensures e == Registered(RejectPending(conn)) && Rejects(s.reg, e.a)
  {
    hide Inv;
    match e
    case Registered(a) => SocketPhaseIff(s.reg, a, conn);
  }

  lemma {:induction false} RunKeepsTorn(s: State, events: seq<Event>, conn: ConnId)
    requires PendingInv(s.pend) && Inv(s.reg) && Torn(s, conn)
    ensures Torn(Run(s, events), conn)
    decreases events
  {
    if events != [] {
      NextKeepsTorn(s, events[0], conn);
      RunKeepsInv(s, events[..1]);
      assert Run(s, events[..1]) == Next(s, events[0]);
      RunKeepsTorn(Next(s, events[0]), events[1..], conn);
    }
  }

  // ------------------------------------------------------- and otherwise

  lemma UnusedId(ids: set<ReqId>) returns (id: ReqId)
    ensures id !in ids
  {
    var longest: nat := 0;
    var rest := ids;
    while rest != {}
      invariant rest <= ids && forall x :: x in ids && x !in rest ==> |x| <= longest
    {
      var x :| x in rest;
      longest := if |x| > longest then |x| else longest;
      rest := rest - {x};
    }
    id := seq(longest + 1, i => 'x');
  }

  /** A client left behind takes a request after the teardown. */
  lemma ClientLeftBehind(s: State, conn: ConnId, l: Label, id: ReqId)
    requires Inv(s.reg) && IsServing(s.reg, conn) && s.reg.section.Free?
    requires Owns(s.reg, l, conn) && Verify(s.reg, l, s.reg.clients[l].bridgeKey)
    requires s.reg.sockets[conn].announced != Some(l)
    requires id !in Next(Next(s, Registered(Unregister(conn))), Registered(RejectPending(conn))).pend.entries
    ensures var u := Next(s, Registered(Unregister(conn)));
            var t := Run(u, [Registered(RejectPending(conn)), Registered(WsLock(l)), WsRegister(id)]);
            TornDown(t.reg, conn) && !NoWsOn(t, conn)
  {
    hide Run, Inv;
    var u := Next(s, Registered(Unregister(conn)));
    var e1, e2, e3 := Registered(RejectPending(conn)), Registered(WsLock(l)), WsRegister(id);
    var t1 := Next(u, e1);
    var t2 := Next(t1, e2);
    var t3 := Next(t2, e3);
    assert Owns(t1.reg, l, conn) && t1.reg.section.Free? && Verify(t1.reg, l, t1.reg.clients[l].bridgeKey);
    assert t2.reg.section == WsSection(l, t1.reg.clients[l]);
    assert id in t3.pend.entries && t3.pend.entries[id].conn == conn && IsWs(t3.pend, id);
    ThreeSteps(u, e1, e2, e3);
  }

  lemma ThreeSteps(s: State, e1: Event, e2: Event, e3: Event)
    ensures Run(s, [e1, e2, e3]) == Next(Next(Next(s, e1), e2), e3)
  {
    hide Next;
    assert [e1, e2, e3][1..] == [e2, e3] && [e2, e3][1..] == [e3];
    var t := Next(Next(s, e1), e2);
    assert Run(t, [e3]) == Run(Next(t, e3), []);
    assert Run(Next(s, e1), [e2, e3]) == Run(t, [e3]);
  }

  /** For every reachable state and every serving connection: once it has
      unregistered, nothing can ever stay pending on it exactly when it was the
      client of no label but its last, current keys only. */
  lemma TeardownIsCleanIff(events: seq<Event>, conn: ConnId)
    requires var s := Run(InitState(), events); IsServing(s.reg, conn) && s.reg.section.Free?
    ensures var s := Run(InitState(), events);
            CleanForGood(Next(s, Registered(Unregister(conn))), conn) <==> LeavesNoClient(s.reg, conn)
  {
    hide Run, Inv, PendingInv, NoWsOn, Verify;
    var s := Run(InitState(), events);
    var u := Next(s, Registered(Unregister(conn)));
    StartHolds();
    RunKeepsInv(InitState(), events);
    StepKeepsInv(s.reg, Unregister(conn));
    NextKeepsPendingInv(s, Registered(Unregister(conn)));
    if LeavesNoClient(s.reg, conn) {
      UnregisterIsHarmless(s.reg, conn);
      UnregisteredIsNotTorn(s.reg, conn);
      forall more | TornDown(Run(u, more).reg, conn) ensures NoWsOn(Run(u, more), conn) {
        RunKeepsTorn(u, more, conn);
      }
    } else {
      var l :| Owns(s.reg, l, conn) && Verify(s.reg, l, s.reg.clients[l].bridgeKey) &&
               s.reg.sockets[conn].announced != Some(l);
      var id := UnusedId(Next(u, Registered(RejectPending(conn))).pend.entries.Keys);
      ClientLeftBehind(s, conn, l, id);
    }
  }

  lemma StartHolds()
    ensures PendingInv(InitState().pend) && Inv(InitState().reg)
  {
  }

  lemma UnregisteredIsNotTorn(s: Registry, conn: ConnId)
    requires IsServing(s, conn) && s.section.Free?
    ensures !TornDown(DoUnregister(s, conn), conn)
  {
  }
}
