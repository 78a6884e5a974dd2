/**
 Map by map, what a step changes: who may write each part of the registry, and
 what is there afterwards.
 */
module BridgeChanges {
  import opened Wrappers
  import opened BridgeRegistry
  import opened BridgePins

  /** The step gives the label a client. */
  predicate Installs(s: Registry, a: Action, window: Label) {
    a == HelloInstall && s.section.HelloSection? && s.section.hello.windowId == window
  }

  /** The step takes the label's client and connection away. */
  predicate Disconnects(s: Registry, a: Action, window: Label) {
    && a.Unregister? && a.conn in s.sockets && s.sockets[a.conn] == Socket(Serving, Some(window))
    && s.section == Free && window in s.clients && s.clients[window].connId == a.conn
  }

  predicate Removes(s: Registry, a: Action, window: Label) {
    a == CleanupRemove && s.section == CleanupSection(window)
  }

  /** A label's client comes by a hello and goes by a disconnect or a cleanup; no
      other step touches it. */
  lemma ClientChangesIff(s: Registry, a: Action, window: Label)
    requires Inv(s)
    ensures
      var t := Step(s, a);
      if Installs(s, a, window) then window in t.clients && t.clients[window] == s.section.hello
      else if Disconnects(s, a, window) || Removes(s, a, window) then window !in t.clients
      else (window in t.clients <==> window in s.clients) &&
           (window in s.clients ==> t.clients[window] == s.clients[window])
  {
  }

  /** Its entry changes with it, and when a pin is taken under another key. */
  lemma EntryChangesIff(s: Registry, a: Action, window: Label)
    requires Inv(s)
    ensures
      var t := Step(s, a);
      var e, f := Entry(s, window), Entry(t, window);
      if Installs(s, a, window) then
        && f.bridgeKey == s.section.hello.bridgeKey && f.connId == Some(s.section.hello.connId)
        && (f.revision == e.revision <==> e.connId == f.connId) && e.revision <= f.revision <= e.revision + 1
      else if Disconnects(s, a, window) then
        f == ConnectionState(e.bridgeKey, None, e.revision + 1)
      else if Removes(s, a, window) then window !in t.connections
      else if a == PinFinish && s.section.PinKeyed? && s.section.pinned == window && e.bridgeKey != s.section.key then
        && f.bridgeKey == s.section.key && f.revision == 0
        && (f.connId.Some? <==> window in s.clients)
        && (window in s.clients ==> f.connId == Some(s.clients[window].connId))
      else f == e
  {
    assert Mirrored(s, window);
    if !a.HelloInstall? && !a.PinFinish? && !a.CleanupRemove? && !a.Unregister? {
      OthersKeepEntries(s, a);
      hide Step;
    }
  }

  /** No other step touches a window's identity. */
  lemma OthersKeepWindows(s: Registry, a: Action)
    requires !a.EnsureWindow? && !a.PinLock? && !a.Destroy? && !a.Navigate? && !a.Loaded?
    ensures Step(s, a).windows == s.windows
  {
  }

  /** A window's identity: issued on first use, a new key with every navigation,
      gone when the window is. */
  lemma WindowChangesIff(s: Registry, a: Action, window: Label)
    requires Inv(s)
    ensures
      var t := Step(s, a);
      var uses := a == EnsureWindow(window) || (a == PinLock(window) && s.section == Free && window !in s.clients);
      if window !in s.windows then
        && (window in t.windows <==> uses)
        && (uses ==> t.windows[window].key.Uuid? && t.windows[window].key.n >= s.nextId &&
                     t.windows[window].instance >= s.nextId && !t.windows[window].loading)
      else if a == Destroy(window) then window !in t.windows
      else
        && window in t.windows && t.windows[window].instance == s.windows[window].instance
        && (if a == Navigate(window) then t.windows[window].key.Uuid? && t.windows[window].key.n >= s.nextId
            else t.windows[window].key == s.windows[window].key)
        && (t.windows[window].loading <==>
              a == Navigate(window) || (s.windows[window].loading && a != Loaded(window)))
  {
    if !a.EnsureWindow? && !a.PinLock? && !a.Destroy? && !a.Navigate? && !a.Loaded? {
      OthersKeepWindows(s, a);
      hide Step;
    }
  }

  /** Numbers that a step hands out are spent. */
  lemma NumbersAreSpent(s: Registry, a: Action)
    requires Inv(s)
    ensures
      var t := Step(s, a);
      && s.nextId <= t.nextId
      && (forall l :: l in t.windows && t.windows[l].key.Uuid? ==> t.windows[l].key.n < t.nextId)
      && (forall c :: c in t.sockets && c !in s.sockets ==> s.nextId <= c < t.nextId && a == Accept)
  {
    StepKeepsInv(s, a);
  }

  /** A socket's label is the one of its last hello. */
  lemma SocketLabelIff(s: Registry, a: Action, conn: ConnId)
    requires Inv(s) && conn in s.sockets
    ensures
      var t := Step(s, a);
      && conn in t.sockets
      && t.sockets[conn].announced == if a == HelloInstall && s.section.HelloSection? && s.section.hello.connId == conn
                                      then Some(s.section.hello.windowId) else s.sockets[conn].announced
  {
  }

  /** It closes stage by stage: it unregisters once it can have the lock it needs,
      then rejects what is pending, then drops its receiver. */
  lemma SocketPhaseIff(s: Registry, a: Action, conn: ConnId)
    requires Inv(s) && conn in s.sockets
    ensures
      var t, was := Step(s, a), s.sockets[conn];
      && conn in t.sockets
      && t.sockets[conn].phase ==
         (if a == Unregister(conn) && was.phase == Serving && (was.announced == None || s.section == Free)
             && !(s.section.HelloSection? && s.section.hello.connId == conn) then Unregistered
          else if a == RejectPending(conn) && was.phase == Unregistered then Rejected
          else if a == DropReceiver(conn) && was.phase == Rejected then Closed
          else was.phase)
  {
  }

  /** The clients lock is taken only while it is free, by the step of the task that
      then holds it, with what it read. */
  lemma LockIsTakenIff(s: Registry, a: Action)
    requires s.section == Free
    ensures
      var t := Step(s, a);
      match a
      case HelloVerify(conn, window, key, blocked) =>
        if IsServing(s, conn) && window in s.windows && s.windows[window].key == key
        then t.section == HelloSection(Client(window, key, conn, blocked)) else t == s
      case PinLock(window) =>
        if window in s.clients then t.section == PinKeyed(window, s.clients[window].bridgeKey)
        else t.section == PinReading(window) && window in t.windows
      case CleanupVerify(window) =>
        if window in s.connections &&
           !(window in s.windows && s.windows[window].key == s.connections[window].bridgeKey)
        then t.section == CleanupSection(window) else t == s
      case WsLock(window) =>
        if window in s.clients && window in s.windows && s.windows[window].key == s.clients[window].bridgeKey
        then t.section == WsSection(window, s.clients[window]) else t == s
      case EvalLock => t.section == EvalSection
      case _ => t.section == Free
  {
  }

  /** A held lock is passed on or released only by the step that its holder takes
      next. */
  lemma LockIsReleasedIff(s: Registry, a: Action)
    requires s.section != Free
    ensures
      var t := Step(s, a);
      match s.section
      case HelloSection(_) => t.section == if a == HelloInstall then Free else s.section
      case PinReading(window) =>
        t.section == if a != PinReadKey then s.section
                     else if window in s.windows then PinKeyed(window, s.windows[window].key) else Free
      case PinKeyed(_, _) => t.section == if a == PinFinish then Free else s.section
      case CleanupSection(_) => t.section == if a == CleanupRemove then Free else s.section
      case _ => t.section == if a == Unlock then Free else s.section
  {
  }

  /** What a pin says: the window, the key it was taken under, the connection that
      was registered then, and the entry as it is from now on. */
  lemma PinSays(s: Registry)
    requires Inv(s) && s.section.PinKeyed?
    ensures
      var p, l := TakenPin(s), s.section.pinned;
      && p.windowId == l && p.bridgeKey == s.section.key && p.connection == Entry(DoPinFinish(s), l)
      && (p.tx.Some? <==> l in s.clients) && (l in s.clients ==> p.tx == Some(s.clients[l].connId))
  {
    assert Mirrored(s, s.section.pinned);
  }

  // -------------------------------------------------------------- how pins end

  /** What ends a pin that is current: a navigation or the end of its window, a
      hello from another socket or under another key, a disconnect of its client,
      or the drop of its socket's receiver. */
  predicate EndsPin(s: Registry, a: Action, p: Pin) {
    || a == Navigate(p.windowId) || a == Destroy(p.windowId)
    || (Installs(s, a, p.windowId) &&
        (s.section.hello.bridgeKey != p.bridgeKey || p.tx != Some(s.section.hello.connId)))
    || Disconnects(s, a, p.windowId)
    || (a.DropReceiver? && p.tx == Some(a.conn) && a.conn in s.sockets && s.sockets[a.conn].phase == Rejected)
  }

  /** In every reachable state, these steps end a current pin and no other does. */
  lemma PinEndsIff(s: Registry, a: Action, p: Pin)
    requires Taken(s, p) && IsCurrentNow(s, p)
    ensures !IsCurrentNow(Step(s, a), p) <==> EndsPin(s, a, p)
  {
    TakenKeepsInv(s, p);
    SocketsEndIff(s, a, p);
    WindowChangesIff(s, a, p.windowId);
    EntryChangesIff(s, a, p.windowId);
    KeyIsKept(s, a, p);
    EntryIsKept(s, a, p);
    hide Step, Inv, Taken;
  }

  lemma SocketsEndIff(s: Registry, a: Action, p: Pin)
    requires Inv(s) && PinInv(s, p) && TxOpen(s, p)
    ensures !TxOpen(Step(s, a), p) <==>
              a.DropReceiver? && p.tx == Some(a.conn) && a.conn in s.sockets && s.sockets[a.conn].phase == Rejected
  {
    if p.tx.Some? { SocketPhaseIff(s, a, p.tx.value); }
    hide Step, Inv;
  }

  lemma KeyIsKept(s: Registry, a: Action, p: Pin)
    requires Inv(s) && PinInv(s, p) && KeyCurrent(s, p)
    ensures !KeyCurrent(Step(s, a), p) <==> a == Navigate(p.windowId) || a == Destroy(p.windowId)
  {
    WindowChangesIff(s, a, p.windowId);
    hide Step;
  }

  lemma EntryIsKept(s: Registry, a: Action, p: Pin)
    requires Inv(s) && PinInv(s, p) && KeyCurrent(s, p) && ConnectionUnchanged(s, p)
    ensures !ConnectionUnchanged(Step(s, a), p) <==>
              || (Installs(s, a, p.windowId) &&
                  (s.section.hello.bridgeKey != p.bridgeKey || p.tx != Some(s.section.hello.connId)))
              || Disconnects(s, a, p.windowId)
  {
    assert Mirrored(s, p.windowId);
    EntryChangesIff(s, a, p.windowId);
    hide Step;
  }
}
