/**
 The window identities, the client map and its synchronous mirror, as a step
 machine on values.

 One step is one critical section of the source, cut again wherever the source
 consults the window identities: those live under a lock of their own, so a
 navigation or a destruction may fall between the check and the update that
 follows it. `Section` names the task that holds the clients lock meanwhile.
 UUIDs come from a counter and are never issued twice.
 */
module BridgeRegistry {
  import opened Wrappers

  type Label = string
  type ConnId = nat

  /** A bridge key: the empty string of a default entry, or an issued UUID. */
  datatype Key = NoKey | Uuid(n: nat)

  datatype WindowIdentity = WindowIdentity(instance: nat, key: Key, loading: bool)

  datatype ConnectionState = ConnectionState(bridgeKey: Key, connId: Option<ConnId>, revision: nat)
  {
    function SetConnection(conn: Option<ConnId>): ConnectionState {
      if connId != conn then this.(connId := conn, revision := revision + 1) else this
    }
  }

  const DEFAULT_CONNECTION := ConnectionState(NoKey, None, 0)

  datatype Client = Client(windowId: Label, bridgeKey: Key, connId: ConnId, evalBlocked: bool)

  /** A socket's task: it serves, then unregisters its last announced label,
      then rejects what is pending on it, then drops its receiver. */
  datatype Phase = Serving | Unregistered | Rejected | Closed

  datatype Socket = Socket(phase: Phase, announced: Option<Label>)

  /** Which task holds the clients lock, and what it has read so far. */
  datatype Section =
    | Free
    | HelloSection(hello: Client)
    | PinReading(reading: Label)
    | PinKeyed(pinned: Label, key: Key)
    | CleanupSection(destroyed: Label)
    | WsSection(target: Label, selected: Client)
    | EvalSection

  datatype Registry = Registry(
    nextId: nat,
    windows: map<Label, WindowIdentity>,
    sockets: map<ConnId, Socket>,
    clients: map<Label, Client>,
    connections: map<Label, ConnectionState>,
    section: Section)

  datatype Pin = Pin(windowId: Label, bridgeKey: Key, connection: ConnectionState, tx: Option<ConnId>)

  datatype Action =
    | EnsureWindow(window: Label)
    | Navigate(window: Label)
    | Loaded(window: Label)
    | Destroy(window: Label)
    | Accept
    | HelloVerify(conn: ConnId, window: Label, key: Key, blocked: bool)
    | HelloInstall
    | PinLock(window: Label)
    | PinReadKey
    | PinFinish
    | CleanupVerify(window: Label)
    | CleanupRemove
    | WsLock(window: Label)
    | EvalLock
    | Unlock
    | Unregister(conn: ConnId)
    | RejectPending(conn: ConnId)
    | DropReceiver(conn: ConnId)

  function Init(): Registry {
    Registry(0, map[], map[], map[], map[], Free)
  }

  // ---------------------------------------------------------------- identity

  predicate Verify(s: Registry, window: Label, key: Key) {
    window in s.windows && s.windows[window].key == key
  }

  /** `window_instance_id`: a first use issues an instance id and a key. */
  function DoEnsureWindow(s: Registry, window: Label): Registry {
    if window in s.windows then s
    else s.(windows := s.windows[window := WindowIdentity(s.nextId, Uuid(s.nextId + 1), false)],
            nextId := s.nextId + 2)
  }

  function DoNavigate(s: Registry, window: Label): Registry {
    if window !in s.windows then s
    else s.(windows := s.windows[window := s.windows[window].(key := Uuid(s.nextId), loading := true)],
            nextId := s.nextId + 1)
  }

  function DoLoaded(s: Registry, window: Label): Registry {
    if window !in s.windows then s
    else s.(windows := s.windows[window := s.windows[window].(loading := false)])
  }

  function DoDestroy(s: Registry, window: Label): Registry {
    s.(windows := s.windows - {window})
  }

  // ------------------------------------------------------------ registration

  function DoAccept(s: Registry): Registry {
    s.(sockets := s.sockets[s.nextId := Socket(Serving, None)], nextId := s.nextId + 1)
  }

  predicate IsServing(s: Registry, conn: ConnId) {
    conn in s.sockets && s.sockets[conn].phase == Serving
  }

  /** The key check a hello repeats once it has the clients lock. */
  function DoHelloVerify(s: Registry, conn: ConnId, window: Label, key: Key, blocked: bool): Registry {
    if s.section.Free? && IsServing(s, conn) && Verify(s, window, key)
    then s.(section := HelloSection(Client(window, key, conn, blocked)))
    else s
  }

  function Entry(s: Registry, window: Label): ConnectionState {
    if window in s.connections then s.connections[window] else DEFAULT_CONNECTION
  }

  function DoHelloInstall(s: Registry): Registry {
    if !s.section.HelloSection? then s
    else
      var c := s.section.hello;
      s.(connections := s.connections[c.windowId :=
           Entry(s, c.windowId).(bridgeKey := c.bridgeKey).SetConnection(Some(c.connId))],
         clients := s.clients[c.windowId := c],
         sockets := if c.connId in s.sockets
                    then s.sockets[c.connId := s.sockets[c.connId].(announced := Some(c.windowId))]
                    else s.sockets,
         section := Free)
  }

  // -------------------------------------------------------------------- pins

  function DoPinLock(s: Registry, window: Label): Registry {
    if !s.section.Free? then s
    else if window in s.clients then s.(section := PinKeyed(window, s.clients[window].bridgeKey))
    else DoEnsureWindow(s, window).(section := PinReading(window))
  }

  /** The second half of `bridge_key`. Its map index panics when the window was
      destroyed since the first half; the unwinding task then frees the lock. */
  function DoPinReadKey(s: Registry): Registry {
    if !s.section.PinReading? then s
    else if s.section.reading in s.windows
    then s.(section := PinKeyed(s.section.reading, s.windows[s.section.reading].key))
    else s.(section := Free)
  }

  function PinnedEntry(s: Registry, window: Label, key: Key): ConnectionState {
    if Entry(s, window).bridgeKey != key
    then ConnectionState(key, if window in s.clients then Some(s.clients[window].connId) else None, 0)
    else Entry(s, window)
  }

  function DoPinFinish(s: Registry): Registry {
    if !s.section.PinKeyed? then s
    else s.(connections := s.connections[s.section.pinned := PinnedEntry(s, s.section.pinned, s.section.key)],
            section := Free)
  }

  /** The pin that `PinFinish` hands out in state `s`. */
  function TakenPin(s: Registry): Pin
    requires s.section.PinKeyed?
  {
    var l := s.section.pinned;
    Pin(l, s.section.key, PinnedEntry(s, l, s.section.key),
        if l in s.clients then Some(s.clients[l].connId) else None)
  }

  // ------------------------------------------------- cleanup and disconnects

  function DoCleanupVerify(s: Registry, window: Label): Registry {
    if s.section.Free? && window in s.connections && !Verify(s, window, s.connections[window].bridgeKey)
    then s.(section := CleanupSection(window))
    else s
  }

  function DoCleanupRemove(s: Registry): Registry {
    if !s.section.CleanupSection? then s
    else s.(clients := s.clients - {s.section.destroyed},
            connections := s.connections - {s.section.destroyed},
            section := Free)
  }

  predicate Owns(s: Registry, window: Label, conn: ConnId) {
    window in s.clients && s.clients[window].connId == conn
  }

  /** `disconnect_bridge_client` for the last label this socket announced. */
  function DoUnregister(s: Registry, conn: ConnId): Registry {
    if !IsServing(s, conn) || (s.section.HelloSection? && s.section.hello.connId == conn) then s
    else
      var gone := s.(sockets := s.sockets[conn := s.sockets[conn].(phase := Unregistered)]);
      match s.sockets[conn].announced
      case None => gone
      case Some(l) =>
        if !s.section.Free? then s  // waits for the clients lock
        else if !Owns(s, l, conn) then gone
        else gone.(clients := s.clients - {l},
                   connections := s.connections[l := Entry(s, l).SetConnection(None)])
  }

  function DoSetPhase(s: Registry, conn: ConnId, before: Phase, after: Phase): Registry {
    if conn in s.sockets && s.sockets[conn].phase == before
    then s.(sockets := s.sockets[conn := s.sockets[conn].(phase := after)])
    else s
  }

  // ---------------------------------------------------------------- dispatch

  /** `execute_js_ws` up to the key check: it selects a client under the lock. */
  function DoWsLock(s: Registry, window: Label): Registry {
    if s.section.Free? && window in s.clients && Verify(s, window, s.clients[window].bridgeKey)
    then s.(section := WsSection(window, s.clients[window]))
    else s
  }

  function DoEvalLock(s: Registry): Registry {
    if s.section.Free? then s.(section := EvalSection) else s
  }

  function DoUnlock(s: Registry): Registry {
    if s.section.WsSection? || s.section.EvalSection? then s.(section := Free) else s
  }

  function Step(s: Registry, a: Action): Registry {
    match a
    case EnsureWindow(l) => DoEnsureWindow(s, l)
    case Navigate(l) => DoNavigate(s, l)
    case Loaded(l) => DoLoaded(s, l)
    case Destroy(l) => DoDestroy(s, l)
    case Accept => DoAccept(s)
    case HelloVerify(c, l, k, b) => DoHelloVerify(s, c, l, k, b)
    case HelloInstall => DoHelloInstall(s)
    case PinLock(l) => DoPinLock(s, l)
    case PinReadKey => DoPinReadKey(s)
    case PinFinish => DoPinFinish(s)
    case CleanupVerify(l) => DoCleanupVerify(s, l)
    case CleanupRemove => DoCleanupRemove(s)
    case WsLock(l) => DoWsLock(s, l)
    case EvalLock => DoEvalLock(s)
    case Unlock => DoUnlock(s)
    case Unregister(c) => DoUnregister(s, c)
    case RejectPending(c) => DoSetPhase(s, c, Unregistered, Rejected)
    case DropReceiver(c) => DoSetPhase(s, c, Rejected, Closed)
  }

  /** The state after a whole interleaving of steps. */
  function Exec(s: Registry, acts: seq<Action>): Registry
    decreases acts
  {
    if acts == [] then s else Exec(Step(s, acts[0]), acts[1..])
  }

  // -------------------------------------------------------------- invariants

  ghost predicate Issued(s: Registry, key: Key) {
    key.Uuid? && key.n < s.nextId
  }

  /** A label has a client exactly when its entry carries that client's
      connection and key. */
  ghost predicate Mirrored(s: Registry, window: Label) {
    if window in s.clients
    then window in s.connections
         && s.connections[window].connId == Some(s.clients[window].connId)
         && s.connections[window].bridgeKey == s.clients[window].bridgeKey
    else window in s.connections ==> s.connections[window].connId == None
  }

  /** Installing `key` at `label` can only replace a key that is no longer current. */
  ghost predicate Supersedes(s: Registry, window: Label, key: Key) {
    (window in s.connections && s.connections[window].bridgeKey != key)
    ==> !Verify(s, window, s.connections[window].bridgeKey)
  }

  ghost predicate SectionInv(s: Registry) {
    match s.section
    case Free => true
    case EvalSection => true
    case PinReading(l) => l !in s.clients
    case HelloSection(c) =>
      Issued(s, c.bridgeKey) && IsServing(s, c.connId) && Supersedes(s, c.windowId, c.bridgeKey)
    case PinKeyed(l, k) =>
      Issued(s, k) && Supersedes(s, l, k) && (l in s.clients ==> s.clients[l].bridgeKey == k)
    case CleanupSection(l) => l in s.connections && !Verify(s, l, s.connections[l].bridgeKey)
    case WsSection(l, c) => l in s.clients && s.clients[l] == c
  }

  /** Every part of the invariant but `SectionInv`. */
  ghost predicate MapsInv(s: Registry) {
    && (forall l :: l in s.windows ==> Issued(s, s.windows[l].key))
    && (forall l :: l in s.connections ==> Issued(s, s.connections[l].bridgeKey))
    && (forall l :: l in s.clients ==> s.clients[l].windowId == l && s.clients[l].connId in s.sockets)
    && (forall c :: c in s.sockets ==> c < s.nextId)
    && (forall l :: Mirrored(s, l))
  }

  ghost predicate Inv(s: Registry) {
    MapsInv(s) && SectionInv(s)
  }

  /** A step that issues keys or drops them leaves the mirror alone, and no key
      becomes current again. */
  lemma WindowsKeepInv(s: Registry, t: Registry)
    requires Inv(s)
    requires t == s.(windows := t.windows, nextId := t.nextId) && s.nextId <= t.nextId
    requires forall l :: l in t.windows ==> Issued(t, t.windows[l].key)
    requires forall l, k :: Issued(s, k) && Verify(t, l, k) ==> Verify(s, l, k)
    ensures Inv(t)
  {
    forall l ensures Mirrored(t, l) {
      assert Mirrored(s, l);
    }
  }

  lemma EnsureKeepsInv(s: Registry, window: Label)
    requires Inv(s)
    ensures Inv(DoEnsureWindow(s, window))
  {
    WindowsKeepInv(s, DoEnsureWindow(s, window));
  }

  lemma IdentityKeepsInv(s: Registry, a: Action)
    requires Inv(s)
    requires a.Navigate? || a.Loaded? || a.Destroy?
    ensures Inv(Step(s, a))
  {
    WindowsKeepInv(s, Step(s, a));
  }

  lemma HelloKeepsInv(s: Registry)
    requires Inv(s)
    ensures Inv(DoHelloInstall(s))
  {
    var t := DoHelloInstall(s);
    forall l ensures Mirrored(t, l) {
      assert Mirrored(s, l);
    }
  }

  lemma PinLockKeepsInv(s: Registry, window: Label)
    requires Inv(s)
    ensures Inv(DoPinLock(s, window))
  {
    assert Mirrored(s, window);
    EnsureKeepsInv(s, window);
    var t := DoPinLock(s, window);
    forall l ensures Mirrored(t, l) {
      assert Mirrored(s, l);
    }
  }

  lemma PinKeepsInv(s: Registry, a: Action)
    requires Inv(s)
    requires a.PinReadKey? || a.PinFinish?
    ensures Inv(Step(s, a))
  {
    var t := Step(s, a);
    forall l ensures Mirrored(t, l) {
      assert Mirrored(s, l);
    }
  }

  lemma CleanupKeepsInv(s: Registry)
    requires Inv(s)
    ensures Inv(DoCleanupRemove(s))
  {
    var t := DoCleanupRemove(s);
    forall l ensures Mirrored(t, l) {
      assert Mirrored(s, l);
    }
  }

  lemma UnregisterKeepsInv(s: Registry, conn: ConnId)
    requires Inv(s)
    ensures Inv(DoUnregister(s, conn))
  {
    if IsServing(s, conn) && s.sockets[conn].announced.Some? {
      assert Mirrored(s, s.sockets[conn].announced.value);
    }
    var t := DoUnregister(s, conn);
    forall l ensures Mirrored(t, l) {
      assert Mirrored(s, l);
    }
  }

  /** Steps that only take or release the lock. */
  lemma LockKeepsInv(s: Registry, a: Action)
    requires Inv(s)
    requires a.HelloVerify? || a.CleanupVerify? || a.WsLock? || a.EvalLock? || a.Unlock?
    ensures Inv(Step(s, a))
  {
    var t := Step(s, a);
    forall l ensures Mirrored(t, l) {
      assert Mirrored(s, l);
    }
  }

  lemma SocketKeepsInv(s: Registry, a: Action)
    requires Inv(s)
    requires a.Accept? || a.RejectPending? || a.DropReceiver?
    ensures Inv(Step(s, a))
  {
    var t := Step(s, a);
    forall l ensures Mirrored(t, l) {
      assert Mirrored(s, l);
    }
  }

  lemma StepKeepsInv(s: Registry, a: Action)
    requires Inv(s)
    ensures Inv(Step(s, a))
  {
    match a
    case EnsureWindow(l) => EnsureKeepsInv(s, l);
    case Navigate(_) => IdentityKeepsInv(s, a);
    case Loaded(_) => IdentityKeepsInv(s, a);
    case Destroy(_) => IdentityKeepsInv(s, a);
    case Accept => SocketKeepsInv(s, a);
    case HelloVerify(_, _, _, _) => LockKeepsInv(s, a);
    case HelloInstall => HelloKeepsInv(s);
    case PinLock(l) => PinLockKeepsInv(s, l);
    case PinReadKey => PinKeepsInv(s, a);
    case PinFinish => PinKeepsInv(s, a);
    case CleanupVerify(_) => LockKeepsInv(s, a);
    case CleanupRemove => CleanupKeepsInv(s);
    case WsLock(_) => LockKeepsInv(s, a);
    case EvalLock => LockKeepsInv(s, a);
    case Unlock => LockKeepsInv(s, a);
    case Unregister(c) => UnregisterKeepsInv(s, c);
    case RejectPending(_) => SocketKeepsInv(s, a);
    case DropReceiver(_) => SocketKeepsInv(s, a);
  }

  lemma {:induction false} ExecKeepsInv(s: Registry, acts: seq<Action>)
    requires Inv(s)
    ensures Inv(Exec(s, acts))
    decreases acts
  {
    if acts != [] {
      StepKeepsInv(s, acts[0]);
      ExecKeepsInv(Step(s, acts[0]), acts[1..]);
    }
  }
}
