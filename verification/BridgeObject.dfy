/**
 The bridge as the object the source keeps: maps changed in place, one method
 per critical section. Each method's new state is the step of the machine in
 BridgeRegistry and BridgePending, so the theorems about runs are about any
 interleaving of these calls. `Valid()` is what holds of every reachable state;
 every such method keeps it, and what a caller learns from it is ensured beside
 the step.
 */
module BridgeObject {
  import opened Wrappers
  import opened BridgeRegistry
  import opened BridgePending
  import BridgeLate
  import BridgePins

  /** What holds of every reachable state. */
  ghost predicate Healthy(s: State) {
    Inv(s.reg) && PendingInv(s.pend) && BridgeLate.LateInv(s.pend)
  }

  lemma NextKeepsHealthy(s: State, e: Event)
    requires Healthy(s)
    ensures Healthy(Next(s, e))
  {
    NextKeepsPendingInv(s, e);
    BridgeLate.NextKeepsLateInv(s, e);
    if e.Registered? { StepKeepsInv(s.reg, e.a); }
  }

  // ------------------------------------------------ what callers can rely on

  /** A registered client and its label's entry agree. */
  lemma EntryAgrees(s: State, window: Label)
    requires Healthy(s) && window in s.reg.clients
    ensures window in s.reg.connections
    ensures s.reg.connections[window].connId == Some(s.reg.clients[window].connId)
    ensures s.reg.connections[window].bridgeKey == s.reg.clients[window].bridgeKey
  {
    assert Mirrored(s.reg, window);
  }

  lemma FreshNumbers(s: State)
    requires Healthy(s)
    ensures s.reg.nextId !in s.reg.sockets
    ensures forall l :: l in s.reg.windows ==> s.reg.windows[l].key != Uuid(s.reg.nextId)
  {
  }

  /** The new pin is the label's entry, with the client's socket. */
  lemma PinHolds(s: State)
    requires Healthy(s) && s.reg.section.PinKeyed?
    ensures BridgePins.PinInv(DoPinFinish(s.reg), TakenPin(s.reg))
    ensures BridgePins.ConnectionUnchanged(DoPinFinish(s.reg), TakenPin(s.reg))
  {
    BridgePins.TakenPinHolds(s.reg);
  }

  lemma NothingLeftOn(p: Pending, conn: ConnId)
    ensures forall id :: id in DoReject(p, conn).entries ==> DoReject(p, conn).entries[id].conn != conn
  {
  }

  /** A pending entry stands for a request that has not ended, sent to its own
      connection. */
  lemma EntryIsOwn(s: State, id: ReqId)
    requires Healthy(s) && id in s.pend.entries
    ensures var e := s.pend.entries[id];
            e.reg in s.pend.requests && e.reg !in s.pend.ended &&
            s.pend.requests[e.reg].id == id && s.pend.requests[e.reg].conn == e.conn
  {
    assert EntryInv(s.pend, id);
    assert RequestInv(s.pend, s.pend.entries[id].reg);
  }

  lemma HookCalledOnce(s: State, reg: RegId)
    requires Healthy(s) && reg in s.pend.requests
    ensures BridgeLate.CallsFor(s.pend.hookCalls, reg) == if BridgeLate.WasReported(s.pend, reg) then 1 else 0
  {
    assert BridgeLate.CountMatches(s.pend, reg);
  }

  class Bridge {
    var nextId: nat
    var windows: map<Label, WindowIdentity>
    var sockets: map<ConnId, Socket>
    var clients: map<Label, Client>
    var connections: map<Label, ConnectionState>
    var section: Section
    var nextReg: RegId
    var pending: map<ReqId, PendingEntry>
    var requests: map<RegId, Request>
    var ended: map<RegId, End>
    var hookCalls: seq<HookCall>

    ghost function View(): State
      reads this
    {
      State(Registry(nextId, windows, sockets, clients, connections, section),
            Pending(nextReg, pending, requests, ended, hookCalls))
    }

    ghost predicate Valid()
      reads this
    {
      Healthy(View())
    }

    constructor ()
      ensures Valid() && View() == InitState()
    {
      nextId, windows, sockets, clients, connections, section := 0, map[], map[], map[], map[], Free;
      nextReg, pending, requests, ended, hookCalls := 0, map[], map[], map[], [];
    }

    // -------------------------------------------------------------- identity

    method WindowInstanceId(window: Label) returns (instance: nat)
      requires Valid()
      modifies this
      ensures Valid()
      ensures View() == Next(old(View()), Registered(EnsureWindow(window)))
      ensures window in windows && windows[window].instance == instance
    {
      hide Healthy;
      NextKeepsHealthy(View(), Registered(EnsureWindow(window)));
      if window !in windows {
        windows := windows[window := WindowIdentity(nextId, Uuid(nextId + 1), false)];
        nextId := nextId + 2;
      }
      instance := windows[window].instance;
    }

    method PageNavigation(window: Label)
      requires Valid()
      modifies this
      ensures Valid()
      ensures View() == Next(old(View()), Registered(Navigate(window)))
      ensures window in windows ==>
        forall l :: l in old(windows) ==> windows[window].key != old(windows)[l].key
    {
      hide Healthy;
      NextKeepsHealthy(View(), Registered(Navigate(window)));
      FreshNumbers(View());
      if window in windows {
        windows := windows[window := windows[window].(key := Uuid(nextId), loading := true)];
        nextId := nextId + 1;
      }
    }

    method PageLoaded(window: Label)
      requires Valid()
      modifies this
      ensures Valid()
      ensures View() == Next(old(View()), Registered(Loaded(window)))
    {
      hide Healthy;
      NextKeepsHealthy(View(), Registered(Loaded(window)));
      if window in windows {
        windows := windows[window := windows[window].(loading := false)];
      }
    }

    method WindowDestroyed(window: Label)
      requires Valid()
      modifies this
      ensures Valid()
      ensures View() == Next(old(View()), Registered(Destroy(window)))
    {
      hide Healthy;
      NextKeepsHealthy(View(), Registered(Destroy(window)));
      windows := windows - {window};
    }

    method VerifyBridgeKey(window: Label, supplied: Key) returns (ok: bool)
      ensures ok == Verify(View().reg, window, supplied)
    {
      ok := window in windows && windows[window].key == supplied;
    }

    // ---------------------------------------------------------- registration

    method AcceptSocket() returns (conn: ConnId)
      requires Valid()
      modifies this
      ensures Valid()
      ensures View() == Next(old(View()), Registered(Accept))
      ensures conn !in old(sockets)
    {
      hide Healthy;
      NextKeepsHealthy(View(), Registered(Accept));
      FreshNumbers(View());
      conn := nextId;
      sockets := sockets[conn := Socket(Serving, None)];
      nextId := nextId + 1;
    }

    /** The start of a hello once it has the clients lock. */
    method BeginHello(conn: ConnId, window: Label, key: Key, blocked: bool)
      requires Valid()
      modifies this
      ensures Valid()
      ensures View() == Next(old(View()), Registered(HelloVerify(conn, window, key, blocked)))
    {
      hide Healthy;
      NextKeepsHealthy(View(), Registered(HelloVerify(conn, window, key, blocked)));
      if section.Free? && conn in sockets && sockets[conn].phase == Serving {
        var ok := VerifyBridgeKey(window, key);
        if ok {
          section := HelloSection(Client(window, key, conn, blocked));
        }
      }
    }

    method FinishHello()
      requires Valid()
      modifies this
      ensures Valid()
      ensures View() == Next(old(View()), Registered(HelloInstall))
      ensures old(section).HelloSection? ==>
        var c := old(section).hello;
        c.windowId in clients && clients[c.windowId] == c && c.windowId in connections &&
        connections[c.windowId].connId == Some(c.connId) && connections[c.windowId].bridgeKey == c.bridgeKey
    {
      hide Healthy;
      NextKeepsHealthy(View(), Registered(HelloInstall));
      if section.HelloSection? {
        EntryAgrees(Next(View(), Registered(HelloInstall)), section.hello.windowId);
      }
      if !section.HelloSection? {
        return;
      }
      var client := section.hello;
      var connection := if client.windowId in connections then connections[client.windowId] else DEFAULT_CONNECTION;
      connection := connection.(bridgeKey := client.bridgeKey);
      if connection.connId != Some(client.connId) {
        connection := connection.(connId := Some(client.connId), revision := connection.revision + 1);
      }
      connections := connections[client.windowId := connection];
      clients := clients[client.windowId := client];
      if client.connId in sockets {
        sockets := sockets[client.connId := sockets[client.connId].(announced := Some(client.windowId))];
      }
      section := Free;
    }

    // ------------------------------------------------------------------ pins

    method BeginPin(window: Label)
      requires Valid()
      modifies this
      ensures Valid()
      ensures View() == Next(old(View()), Registered(PinLock(window)))
    {
      hide Healthy;
      NextKeepsHealthy(View(), Registered(PinLock(window)));
      if !section.Free? {
        return;
      }
      if window in clients {
        section := PinKeyed(window, clients[window].bridgeKey);
      } else {
        var _ := WindowInstanceId(window);
        section := PinReading(window);
      }
    }

    method ReadPinKey()
      requires Valid()
      modifies this
      ensures Valid()
      ensures View() == Next(old(View()), Registered(PinReadKey))
    {
      hide Healthy;
      NextKeepsHealthy(View(), Registered(PinReadKey));
      if section.PinReading? {
        section := if section.reading in windows
                   then PinKeyed(section.reading, windows[section.reading].key)
                   else Free;
      }
    }

    method FinishPin() returns (pin: Option<Pin>)
      requires Valid()
      modifies this
      ensures Valid()
      ensures View() == Next(old(View()), Registered(PinFinish))
      ensures pin == if old(section).PinKeyed? then Some(TakenPin(old(View()).reg)) else None
      ensures pin.Some? ==>
        BridgePins.PinInv(View().reg, pin.value) && BridgePins.ConnectionUnchanged(View().reg, pin.value)
    {
      hide Healthy;
      NextKeepsHealthy(View(), Registered(PinFinish));
      if section.PinKeyed? { PinHolds(View()); }
      if !section.PinKeyed? {
        return None;
      }
      var window, key := section.pinned, section.key;
      var conn: Option<ConnId> := None;
      if window in clients {
        conn := Some(clients[window].connId);
      }
      var connection := if window in connections then connections[window] else DEFAULT_CONNECTION;
      if connection.bridgeKey != key {
        connection := ConnectionState(key, conn, 0);
      }
      connections := connections[window := connection];
      section := Free;
      return Some(Pin(window, key, connection, conn));
    }

    // ------------------------------------------------ cleanup and disconnects

    method BeginCleanup(window: Label)
      requires Valid()
      modifies this
      ensures Valid()
      ensures View() == Next(old(View()), Registered(CleanupVerify(window)))
    {
      hide Healthy;
      NextKeepsHealthy(View(), Registered(CleanupVerify(window)));
      if section.Free? && window in connections {
        var ok := VerifyBridgeKey(window, connections[window].bridgeKey);
        if !ok {
          section := CleanupSection(window);
        }
      }
    }

    method FinishCleanup()
      requires Valid()
      modifies this
      ensures Valid()
      ensures View() == Next(old(View()), Registered(CleanupRemove))
    {
      hide Healthy;
      NextKeepsHealthy(View(), Registered(CleanupRemove));
      if section.CleanupSection? {
        clients := clients - {section.destroyed};
        connections := connections - {section.destroyed};
        section := Free;
      }
    }

    /** `removed` tells a stale socket from the registered one. */
    method Disconnect(conn: ConnId) returns (removed: bool)
      requires Valid()
      modifies this
      ensures Valid()
      ensures View() == Next(old(View()), Registered(Unregister(conn)))
      ensures removed <==> clients != old(clients)
      ensures removed ==> exists l :: Owns(old(View()).reg, l, conn) && clients == old(clients) - {l}
    {
      hide Healthy;
      NextKeepsHealthy(View(), Registered(Unregister(conn)));
      removed := false;
      if !(conn in sockets && sockets[conn].phase == Serving)
         || (section.HelloSection? && section.hello.connId == conn) {
        return;
      }
      if sockets[conn].announced.Some? {
        if !section.Free? {
          return;
        }
        var window := sockets[conn].announced.value;
        if window in clients && clients[window].connId == conn {
          assert Owns(old(View()).reg, window, conn);
          clients := clients - {window};
          var connection := if window in connections then connections[window] else DEFAULT_CONNECTION;
          connections := connections[window := connection.SetConnection(None)];
          removed := true;
        }
      }
      sockets := sockets[conn := sockets[conn].(phase := Unregistered)];
    }

    /** `reject_connection_pending`: the ids first, then one removal after the
        other, all under the pending lock. */
    method RejectConnectionPending(conn: ConnId)
      modifies this`pending, this`ended
      ensures View() == State(old(View()).reg, DoReject(old(View()).pend, conn))
    {
      ghost var was := View().pend;
      var ids := set id | id in pending && pending[id].conn == conn;
      ghost var all := ids;
      while ids != {}
        invariant ids <= all == PendingOn(was, conn)
        invariant View() == State(old(View()).reg, RejectAll(was, all - ids))
        decreases ids
      {
        var id :| id in ids;
        RejectOneMore(was, all - ids, id);
        assert all - (ids - {id}) == (all - ids) + {id};
        ended := ended[pending[id].reg := ByRejection];
        pending := pending - {id};
        ids := ids - {id};
      }
      assert all - ids == all;
    }

    /** The guard of a socket's task drops once the task has unregistered. */
    method TearDown(conn: ConnId)
      requires Valid()
      modifies this
      ensures Valid()
      ensures View() == Next(old(View()), Registered(RejectPending(conn)))
      ensures conn in old(sockets) && old(sockets)[conn].phase == Unregistered ==>
        forall id :: id in pending ==> pending[id].conn != conn
    {
      hide Healthy;
      NextKeepsHealthy(View(), Registered(RejectPending(conn)));
      NothingLeftOn(View().pend, conn);
      if conn in sockets && sockets[conn].phase == Unregistered {
        RejectConnectionPending(conn);
        sockets := sockets[conn := sockets[conn].(phase := Rejected)];
      }
    }

    /** The socket's receiver is dropped last. */
    method CloseSocket(conn: ConnId)
      requires Valid()
      modifies this`sockets
      ensures Valid()
      ensures View() == Next(old(View()), Registered(DropReceiver(conn)))
    {
      hide Healthy;
      NextKeepsHealthy(View(), Registered(DropReceiver(conn)));
      if conn in sockets && sockets[conn].phase == Rejected {
        sockets := sockets[conn := sockets[conn].(phase := Closed)];
      }
    }

    // -------------------------------------------------------------- dispatch

    method BeginWsDispatch(window: Label) returns (client: Option<Client>)
      requires Valid()
      modifies this
      ensures Valid()
      ensures View() == Next(old(View()), Registered(WsLock(window)))
      ensures client.Some? ==>
                section == WsSection(window, client.value) && Owns(View().reg, window, client.value.connId)
      ensures client.Some? ==>
        window in connections && connections[window].connId == Some(client.value.connId) &&
        connections[window].bridgeKey == client.value.bridgeKey && Verify(View().reg, window, client.value.bridgeKey)
    {
      hide Healthy;
      NextKeepsHealthy(View(), Registered(WsLock(window)));
      if window in clients { EntryAgrees(View(), window); }
      client := None;
      if section.Free? && window in clients {
        var ok := VerifyBridgeKey(window, clients[window].bridgeKey);
        if ok {
          client := Some(clients[window]);
          section := WsSection(window, clients[window]);
        }
      }
    }

    /** An injection takes the lock without selecting a client. */
    method BeginEvalDispatch()
      requires Valid()
      modifies this`section
      ensures Valid()
      ensures View() == Next(old(View()), Registered(EvalLock))
    {
      hide Healthy;
      NextKeepsHealthy(View(), Registered(EvalLock));
      if section.Free? {
        section := EvalSection;
      }
    }

    method ReleaseDispatch()
      requires Valid()
      modifies this
      ensures Valid()
      ensures View() == Next(old(View()), Registered(Unlock))
    {
      hide Healthy;
      NextKeepsHealthy(View(), Registered(Unlock));
      if section.WsSection? || section.EvalSection? {
        section := Free;
      }
    }

    /** Registers a request for the selected client unless its id is taken. */
    method RegisterRequest(id: ReqId) returns (reg: Option<RegId>)
      requires Valid()
      modifies this
      ensures Valid()
      ensures View() == Next(old(View()), WsRegister(id))
      ensures reg == if old(section).WsSection? && id !in old(pending) then Some(old(nextReg)) else None
      ensures reg.Some? ==> id in pending && pending[id] == PendingEntry(section.selected.connId, reg.value, false)
    {
      hide Healthy;
      NextKeepsHealthy(View(), WsRegister(id));
      if !section.WsSection? || id in pending {
        return None;
      }
      var conn := section.selected.connId;
      pending := pending[id := PendingEntry(conn, nextReg, false)];
      requests := requests[nextReg := Request(id, conn, true, Armed)];
      reg := Some(nextReg);
      nextReg := nextReg + 1;
    }

    /** A liveness probe registers without the clients lock. */
    method RegisterProbe(id: ReqId, conn: ConnId)
      requires Valid()
      modifies this
      ensures Valid()
      ensures View() == Next(old(View()), ProbeRegister(id, conn))
    {
      hide Healthy;
      NextKeepsHealthy(View(), ProbeRegister(id, conn));
      if conn in sockets && id !in pending {
        pending := pending[id := PendingEntry(conn, nextReg, false)];
        requests := requests[nextReg := Request(id, conn, false, Armed)];
        nextReg := nextReg + 1;
      }
    }

    method MarkSent(reg: RegId)
      requires Valid()
      modifies this`requests
      ensures Valid()
      ensures View() == Next(old(View()), Send(reg))
    {
      hide Healthy;
      NextKeepsHealthy(View(), Send(reg));
      if reg in requests && requests[reg].waiter.Armed? {
        requests := requests[reg := requests[reg].(waiter := Waiting)];
      }
    }

    /** The caller's deadline passes while nothing has come back. */
    method PassDeadline(reg: RegId)
      requires Valid()
      modifies this`requests
      ensures Valid()
      ensures View() == Next(old(View()), Timeout(reg))
    {
      hide Healthy;
      NextKeepsHealthy(View(), Timeout(reg));
      if reg in requests && requests[reg].waiter.Waiting? && requests[reg].ws && reg !in ended {
        requests := requests[reg := requests[reg].(waiter := TimedOut)];
      }
    }

    /** Runs a registration's cleanup: the entry goes only if it is still its own. */
    method RemoveIfOwn(reg: RegId)
      requires reg in requests
      modifies this`pending, this`ended
      ensures View() == State(old(View()).reg, CleanUp(old(View()).pend, reg))
    {
      var id := requests[reg].id;
      if id in pending && pending[id].reg == reg {
        pending := pending - {id};
        ended := ended[reg := ByCleanup];
      }
    }

    method DropGuard(reg: RegId)
      requires Valid()
      modifies this
      ensures Valid()
      ensures View() == Next(old(View()), GuardDrop(reg))
      ensures forall id :: id in old(pending) && old(pending)[id].reg != reg ==>
        id in pending && pending[id] == old(pending)[id]
    {
      hide Healthy;
      NextKeepsHealthy(View(), GuardDrop(reg));
      if reg in requests && (requests[reg].waiter.Armed? || requests[reg].waiter.Waiting?) {
        RemoveIfOwn(reg);
        requests := requests[reg := requests[reg].(waiter := Released)];
      }
    }

    /** A result message from a page: a stale socket's answer is ignored. */
    method HandleResult(conn: ConnId, id: ReqId, reply: Reply)
      requires Valid()
      modifies this
      ensures Valid()
      ensures View() == Next(old(View()), PageReply(conn, id, reply))
      ensures if id in old(pending) && old(pending)[id].conn == conn
                 && conn in old(sockets) && old(sockets)[conn].phase == Serving
              then old(requests)[old(pending)[id].reg].conn == conn && pending == old(pending) - {id} &&
                   ended == old(ended)[old(pending)[id].reg := ByReply(reply)] && requests == old(requests)
              else View() == old(View())
    {
      hide Healthy;
      NextKeepsHealthy(View(), PageReply(conn, id, reply));
      if id in pending { EntryIsOwn(View(), id); }
      if conn in sockets && sockets[conn].phase == Serving && id in pending && pending[id].conn == conn {
        ended := ended[pending[id].reg := ByReply(reply)];
        pending := pending - {id};
      }
    }

    // ------------------------------------------------------- late settlement

    method WatchLateSettlement(reg: RegId, hook: bool)
      requires Valid()
      modifies this
      ensures Valid()
      ensures View() == Next(old(View()), Watch(reg, hook))
    {
      hide Healthy;
      NextKeepsHealthy(View(), Watch(reg, hook));
      if reg in requests && requests[reg].waiter.TimedOut? {
        var id := requests[reg].id;
        if id in pending {
          pending := pending[id := pending[id].(late := true)];
        }
        requests := requests[reg := requests[reg].(waiter := Watching(hook))];
      }
    }

    /** An injected request that timed out marks its id the same way. */
    method FlagLateById(id: ReqId)
      requires Valid()
      modifies this`pending
      ensures Valid()
      ensures View() == Next(old(View()), EvalFlag(id))
    {
      hide Healthy;
      NextKeepsHealthy(View(), EvalFlag(id));
      if id in pending {
        pending := pending[id := pending[id].(late := true)];
      }
    }

    /** The watcher wakes up with what its channel holds, or because the window
        is over. */
    method SettleLate(reg: RegId)
      requires Valid()
      modifies this
      ensures Valid()
      ensures View() == Next(old(View()), Settle(reg))
    {
      hide Healthy;
      NextKeepsHealthy(View(), Settle(reg));
      if reg in requests && requests[reg].waiter.Watching? {
        var hook := requests[reg].waiter.hook;
        var outcome, expired := Lost, true;
        if reg in ended {
          outcome, expired := OutcomeOf(ended[reg]), false;
        }
        requests := requests[reg := requests[reg].(waiter := Settling(hook, outcome, expired))];
      }
    }

    method CleanUpLate(reg: RegId)
      requires Valid()
      modifies this
      ensures Valid()
      ensures View() == Next(old(View()), LateCleanup(reg))
    {
      hide Healthy;
      NextKeepsHealthy(View(), LateCleanup(reg));
      if reg in requests && requests[reg].waiter.Settling? {
        var w := requests[reg].waiter;
        RemoveIfOwn(reg);
        requests := requests[reg := requests[reg].(waiter := Cleaned(w.hook, w.outcome, w.expired))];
      }
    }

    method CallLateHook(reg: RegId)
      requires Valid()
      modifies this
      ensures Valid()
      ensures View() == Next(old(View()), LateHook(reg))
      ensures reg in requests && requests[reg].waiter.Reported? && requests[reg].waiter.hook ==>
        BridgeLate.CallsFor(hookCalls, reg) == 1
    {
      hide Healthy;
      NextKeepsHealthy(View(), LateHook(reg));
      if reg in requests { HookCalledOnce(Next(View(), LateHook(reg)), reg); }
      if reg in requests && requests[reg].waiter.Cleaned? {
        var w := requests[reg].waiter;
        requests := requests[reg := requests[reg].(waiter := Reported(w.hook, w.outcome, w.expired))];
        if w.hook {
          hookCalls := hookCalls + [HookCall(reg, requests[reg].id, w.outcome, w.expired)];
        }
      }
    }
  }

  lemma RejectOneMore(p: Pending, done: set<ReqId>, id: ReqId)
    requires id in p.entries && id !in done
    ensures
      var q := RejectAll(p, done);
      && id in q.entries && q.entries[id] == p.entries[id]
      && RejectAll(p, done + {id})
         == q.(entries := q.entries - {id}, ended := q.ended[p.entries[id].reg := ByRejection])
  {
    assert RegsOf(p, done + {id}) == RegsOf(p, done) + {p.entries[id].reg};
  }
}
