/**
 What a connection pin promises over whole runs: once it is not current it
 never is again, whatever interleaving follows, and what it authorizes goes to
 the pinned transport only.

 `is_current` takes no lock across its three reads, so the theorems let every
 read see a different state of the run.
 */
module BridgePins {
  import opened Wrappers
  import opened BridgeRegistry

  predicate TxOpen(s: Registry, p: Pin) {
    p.tx.Some? ==> !(p.tx.value in s.sockets && s.sockets[p.tx.value].phase == Closed)
  }

  predicate KeyCurrent(s: Registry, p: Pin) {
    Verify(s, p.windowId, p.bridgeKey)
  }

  predicate ConnectionUnchanged(s: Registry, p: Pin) {
    Entry(s, p.windowId) == p.connection
  }

  /** `is_current` when its reads happen in the states `a`, `b` and `c`. */
  predicate IsCurrent(a: Registry, b: Registry, c: Registry, p: Pin) {
    TxOpen(a, p) && KeyCurrent(b, p) && ConnectionUnchanged(c, p)
  }

  predicate IsCurrentNow(s: Registry, p: Pin) {
    IsCurrent(s, s, s, p)
  }

  // ------------------------------------------------------- the pin invariant

  /** No step can put `key` back into the entry of `window`. */
  ghost predicate Spent(s: Registry, window: Label, key: Key) {
    && !Verify(s, window, key)
    && !(s.section.HelloSection? && s.section.hello.windowId == window && s.section.hello.bridgeKey == key)
    && !(s.section.PinKeyed? && s.section.pinned == window && s.section.key == key)
  }

  /** The entry is the pinned one, or a later revision of it, or of a key that
      came after a spent one. */
  ghost predicate PinInv(s: Registry, p: Pin) {
    && Issued(s, p.bridgeKey)
    && p.connection.bridgeKey == p.bridgeKey
    && p.tx == p.connection.connId
    && (p.tx.Some? ==> p.tx.value in s.sockets)
    && var e := Entry(s, p.windowId);
       if e.bridgeKey == p.bridgeKey
       then e == p.connection || e.revision > p.connection.revision
       else Spent(s, p.windowId, p.bridgeKey)
  }

  lemma TakenPinHolds(s: Registry)
    requires Inv(s) && s.section.PinKeyed?
    ensures PinInv(DoPinFinish(s), TakenPin(s)) && ConnectionUnchanged(DoPinFinish(s), TakenPin(s))
  {
    assert Mirrored(s, s.section.pinned);
  }

  lemma StepKeepsPin(s: Registry, a: Action, p: Pin)
    requires Inv(s) && PinInv(s, p)
    ensures PinInv(Step(s, a), p)
  {
    assert Mirrored(s, p.windowId);
    match a
    case HelloInstall => InstallKeepsPin(s, p);
    case PinFinish => FinishKeepsPin(s, p);
    case CleanupRemove =>
    case Unregister(_) =>
    case _ => OthersKeepPin(s, a, p);
  }

  lemma InstallKeepsPin(s: Registry, p: Pin)
    requires Inv(s) && PinInv(s, p)
    ensures PinInv(DoHelloInstall(s), p)
  {
  }

  lemma FinishKeepsPin(s: Registry, p: Pin)
    requires Inv(s) && PinInv(s, p)
    ensures PinInv(DoPinFinish(s), p)
  {
  }

  /** Keys enter a section only while they are current or registered. */
  lemma SpentStaysSpent(s: Registry, a: Action, window: Label, key: Key)
    requires Inv(s) && Issued(s, key) && Spent(s, window, key) && Mirrored(s, window)
    requires window in s.clients ==> s.connections[window].bridgeKey != key
    requires !a.HelloInstall? && !a.PinFinish? && !a.CleanupRemove? && !a.Unregister?
    ensures Spent(Step(s, a), window, key)
  {
  }

  /** The steps that leave the connection entries alone. */
  lemma OthersKeepPin(s: Registry, a: Action, p: Pin)
    requires Inv(s) && PinInv(s, p) && Mirrored(s, p.windowId)
    requires !a.HelloInstall? && !a.PinFinish? && !a.CleanupRemove? && !a.Unregister?
    ensures PinInv(Step(s, a), p)
  {
    OthersKeepEntries(s, a);
    if Entry(s, p.windowId).bridgeKey != p.bridgeKey {
      SpentStaysSpent(s, a, p.windowId, p.bridgeKey);
    }
  }

  lemma OthersKeepEntries(s: Registry, a: Action)
    requires !a.HelloInstall? && !a.PinFinish? && !a.CleanupRemove? && !a.Unregister?
    ensures var t := Step(s, a);
            t.connections == s.connections && s.nextId <= t.nextId
            && (forall c :: c in s.sockets ==> c in t.sockets)
  {
  }

  lemma ClosedStaysClosed(s: Registry, a: Action, p: Pin)
    requires Inv(s) && PinInv(s, p) && !TxOpen(s, p)
    ensures !TxOpen(Step(s, a), p)
  {
    assert s.sockets[p.tx.value].phase == Closed;
  }

  lemma RotatedStaysRotated(s: Registry, a: Action, p: Pin)
    requires Inv(s) && PinInv(s, p) && !KeyCurrent(s, p)
    ensures !KeyCurrent(Step(s, a), p)
  {
  }

  lemma ChangedStaysChanged(s: Registry, a: Action, p: Pin)
    requires Inv(s) && PinInv(s, p) && !ConnectionUnchanged(s, p)
    ensures !ConnectionUnchanged(Step(s, a), p)
  {
    assert Mirrored(s, p.windowId);
  }

  /** Each of the three tests behind `is_current`, once false, stays false. */
  lemma StepLosesForGood(s: Registry, a: Action, p: Pin)
    requires Inv(s) && PinInv(s, p)
    ensures !TxOpen(s, p) ==> !TxOpen(Step(s, a), p)
    ensures !KeyCurrent(s, p) ==> !KeyCurrent(Step(s, a), p)
    ensures !ConnectionUnchanged(s, p) ==> !ConnectionUnchanged(Step(s, a), p)
  {
    if !TxOpen(s, p) { ClosedStaysClosed(s, a, p); }
    if !KeyCurrent(s, p) { RotatedStaysRotated(s, a, p); }
    if !ConnectionUnchanged(s, p) { ChangedStaysChanged(s, a, p); }
  }

  lemma {:induction false} ExecLosesForGood(s: Registry, acts: seq<Action>, p: Pin)
    requires Inv(s) && PinInv(s, p)
    ensures Inv(Exec(s, acts)) && PinInv(Exec(s, acts), p)
    ensures !TxOpen(s, p) ==> !TxOpen(Exec(s, acts), p)
    ensures !KeyCurrent(s, p) ==> !KeyCurrent(Exec(s, acts), p)
    ensures !ConnectionUnchanged(s, p) ==> !ConnectionUnchanged(Exec(s, acts), p)
    decreases acts
  {
    if acts != [] {
      StepKeepsInv(s, acts[0]);
      StepKeepsPin(s, acts[0], p);
      StepLosesForGood(s, acts[0], p);
      ExecLosesForGood(Step(s, acts[0]), acts[1..], p);
    }
  }

  // ---------------------------------------------------------------- whole runs

  /** `p` is handed out after the steps `before`, and `after` leads on to `s`. */
  ghost predicate TakenBy(s: Registry, p: Pin, before: seq<Action>, after: seq<Action>) {
    var taking := Exec(Init(), before);
    taking.section.PinKeyed? && p == TakenPin(taking) && s == Exec(DoPinFinish(taking), after)
  }

  /** `p` was taken on some run from the initial state to `s`. */
  ghost predicate Taken(s: Registry, p: Pin) {
    exists before, after :: TakenBy(s, p, before, after)
  }

  lemma TakenFromKeepsInv(taking: Registry, after: seq<Action>)
    requires Inv(taking) && taking.section.PinKeyed?
    ensures var s := Exec(DoPinFinish(taking), after); Inv(s) && PinInv(s, TakenPin(taking))
  {
    TakenPinHolds(taking);
    PinKeepsInv(taking, PinFinish);
    ExecLosesForGood(DoPinFinish(taking), after, TakenPin(taking));
  }

  lemma TakenKeepsInv(s: Registry, p: Pin)
    requires Taken(s, p)
    ensures Inv(s) && PinInv(s, p)
  {
    var before, after :| TakenBy(s, p, before, after);
    ExecKeepsInv(Init(), before);
    TakenFromKeepsInv(Exec(Init(), before), after);
  }

  /** Once a check of the pin fails, every later check fails. The reads of the
      first check are separated by `d1` and `d2`, those of the second by `e1`
      and `e2`. */
  lemma PinNeverRevives(s: Registry, p: Pin, d1: seq<Action>, d2: seq<Action>,
                        between: seq<Action>, e1: seq<Action>, e2: seq<Action>)
    requires Taken(s, p)
    ensures var s2 := Exec(s, d1); var s3 := Exec(s2, d2);
            var t := Exec(s3, between); var t2 := Exec(t, e1); var t3 := Exec(t2, e2);
            !IsCurrent(s, s2, s3, p) ==> !IsCurrent(t, t2, t3, p)
  {
    TakenKeepsInv(s, p);
    ExecLosesForGood(s, d1, p);
    var s2 := Exec(s, d1);
    ExecLosesForGood(s2, d2, p);
    var s3 := Exec(s2, d2);
    ExecLosesForGood(s3, between, p);
    var t := Exec(s3, between);
    ExecLosesForGood(t, e1, p);
    ExecLosesForGood(Exec(t, e1), e2, p);
  }

  /** The three reads behave like one: an answer `true` was already right at
      the first read, and an answer `false` is right from the last read on. */
  lemma CheckIsAtomic(s: Registry, p: Pin, d1: seq<Action>, d2: seq<Action>)
    requires Taken(s, p)
    ensures var s2 := Exec(s, d1); var s3 := Exec(s2, d2);
            (IsCurrentNow(s3, p) ==> IsCurrent(s, s2, s3, p))
            && (IsCurrent(s, s2, s3, p) ==> IsCurrentNow(s, p))
  {
    TakenKeepsInv(s, p);
    ExecLosesForGood(s, d1, p);
    ExecLosesForGood(Exec(s, d1), d2, p);
  }

  /** A new pin is current exactly when its key still is (a client may have
      registered under a document that has gone) and its socket is not closed. */
  lemma NewPinIsCurrentIff(before: seq<Action>)
    requires Exec(Init(), before).section.PinKeyed?
    ensures var s := Exec(Init(), before);
            var p := TakenPin(s);
            IsCurrentNow(DoPinFinish(s), p) <==>
              && p.windowId in s.windows && s.windows[p.windowId].key == s.section.key
              && (p.tx.Some? && p.tx.value in s.sockets ==> s.sockets[p.tx.value].phase != Closed)
  {
  }

  // ------------------------------------------------------------------- routing

  /** In every reachable state a label has a client exactly when its entry
      holds a connection, and then with that client's connection id and key. */
  lemma MirrorNeverLies(acts: seq<Action>, window: Label)
    ensures var s := Exec(Init(), acts);
            && (window in s.clients <==> Entry(s, window).connId.Some?)
            && (window in s.clients ==>
                  Entry(s, window).connId == Some(s.clients[window].connId)
                  && Entry(s, window).bridgeKey == s.clients[window].bridgeKey
                  && s.clients[window].windowId == window)
  {
    ExecKeepsInv(Init(), acts);
    assert Mirrored(Exec(Init(), acts), window);
  }

  /** No step but the holder's own release touches the client map, the mirror
      or the section of a dispatch. */
  lemma {:induction false} DispatchSectionHolds(s: Registry, acts: seq<Action>)
    requires s.section.WsSection? || s.section.EvalSection?
    requires Unlock !in acts
    ensures var t := Exec(s, acts);
            t.section == s.section && t.clients == s.clients && t.connections == s.connections
    decreases acts
  {
    if acts != [] {
      assert acts[0] in acts;
      DispatchSectionHolds(Step(s, acts[0]), acts[1..]);
    }
  }

  /** A WebSocket send whose authorization is a pin: if the pin's last read
      happened inside this dispatch, the selected client is the pinned one, and
      stays the registered one until the dispatch releases the lock. */
  lemma SendGoesToThePinnedConnection(s: Registry, p: Pin, acts: seq<Action>)
    requires Taken(s, p) && s.section.WsSection? && s.section.target == p.windowId
    requires ConnectionUnchanged(s, p) && Unlock !in acts
    ensures p.tx == Some(s.section.selected.connId) && p.bridgeKey == s.section.selected.bridgeKey
    ensures var t := Exec(s, acts);
            Owns(t, p.windowId, s.section.selected.connId) && ConnectionUnchanged(t, p)
  {
    TakenKeepsInv(s, p);
    assert Mirrored(s, p.windowId);
    DispatchSectionHolds(s, acts);
  }

  /** An eval injection authorized by a pin: without a socket in the pin no
      client is registered until the injection is done, and with one it is
      still that socket's client. */
  lemma InjectionMatchesThePin(s: Registry, p: Pin, acts: seq<Action>)
    requires Taken(s, p) && s.section.EvalSection?
    requires ConnectionUnchanged(s, p) && Unlock !in acts
    ensures var t := Exec(s, acts);
            match p.tx
            case None => p.windowId !in t.clients
            case Some(conn) => Owns(t, p.windowId, conn)
  {
    TakenKeepsInv(s, p);
    assert Mirrored(s, p.windowId);
    DispatchSectionHolds(s, acts);
  }
}
