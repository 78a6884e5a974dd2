/**
 The pending map and the late-settlement watcher, as a step machine on values.

 A registration is one `PendingRequest`. Its oneshot channel needs no state of
 its own: the receiver sees how the registration ended. A request outlives its
 caller when the deadline passes first; a watcher task then waits for the page.
 */
module BridgePending {
  import opened Wrappers
  import opened BridgeRegistry

  type ReqId = string
  type RegId = nat

  datatype Effect = NoEffect | PossibleEffect

  /** The class of a page's answer; its payload plays no part here. */
  datatype Reply = Value | Error(effect: Effect)

  /** How a registration left the pending map. */
  datatype End = ByReply(reply: Reply) | ByRejection | ByCleanup

  datatype LateOutcome = Succeeded | FailedWithoutEffect | Failed | Lost

  function OutcomeOf(end: End): LateOutcome {
    match end
    case ByReply(Value) => Succeeded
    case ByReply(Error(NoEffect)) => FailedWithoutEffect
    case ByReply(Error(PossibleEffect)) => Failed
    case ByRejection => Lost
    case ByCleanup => Lost
  }

  /** What the task behind a registration is doing. `Armed` and `Waiting` hold
      the cleanup guard; from `TimedOut` on the watcher owns the cleanup. */
  datatype Waiter =
    | Armed
    | Waiting
    | TimedOut
    | Watching(hook: bool)
    | Settling(hook: bool, outcome: LateOutcome, expired: bool)
    | Cleaned(hook: bool, outcome: LateOutcome, expired: bool)
    | Reported(hook: bool, outcome: LateOutcome, expired: bool)
    | Released

  /** `ws` tells an `execute_js_ws` request from a liveness probe. */
  datatype Request = Request(id: ReqId, conn: ConnId, ws: bool, waiter: Waiter)

  datatype PendingEntry = PendingEntry(conn: ConnId, reg: RegId, late: bool)

  datatype HookCall = HookCall(reg: RegId, id: ReqId, outcome: LateOutcome, expired: bool)

  /** `requests` and `ended` remember every registration ever made. */
  datatype Pending = Pending(
    nextReg: RegId,
    entries: map<ReqId, PendingEntry>,
    requests: map<RegId, Request>,
    ended: map<RegId, End>,
    hookCalls: seq<HookCall>)

  function InitPending(): Pending {
    Pending(0, map[], map[], map[], [])
  }

  // ------------------------------------------------------------------- steps

  /** An id that is already pending is refused without a new registration. */
  function DoRegister(p: Pending, id: ReqId, conn: ConnId, ws: bool): Pending {
    if id in p.entries then p
    else p.(nextReg := p.nextReg + 1,
            entries := p.entries[id := PendingEntry(conn, p.nextReg, false)],
            requests := p.requests[p.nextReg := Request(id, conn, ws, Armed)])
  }

  function SetWaiter(p: Pending, reg: RegId, waiter: Waiter): Pending
    requires reg in p.requests
  {
    p.(requests := p.requests[reg := p.requests[reg].(waiter := waiter)])
  }

  predicate IsIn(p: Pending, reg: RegId, waiter: Waiter) {
    reg in p.requests && p.requests[reg].waiter == waiter
  }

  predicate Holds(p: Pending, id: ReqId, reg: RegId) {
    id in p.entries && p.entries[id].reg == reg
  }

  /** Every cleanup removes the entry under its id only while the entry is its own. */
  function CleanUp(p: Pending, reg: RegId): Pending
    requires reg in p.requests
  {
    var id := p.requests[reg].id;
    if Holds(p, id, reg)
    then p.(entries := p.entries - {id}, ended := p.ended[reg := ByCleanup])
    else p
  }

  function DoSend(p: Pending, reg: RegId): Pending {
    if IsIn(p, reg, Armed) then SetWaiter(p, reg, Waiting) else p
  }

  /** The guard drops: a refusal before the send, a cancelled future, a caller
      that has its answer, or a probe that is over. */
  function DoGuardDrop(p: Pending, reg: RegId): Pending {
    if IsIn(p, reg, Armed) || IsIn(p, reg, Waiting)
    then SetWaiter(CleanUp(p, reg), reg, Released)
    else p
  }

  /** A page message: only the socket the request went to may resolve it. */
  function DoReply(p: Pending, conn: ConnId, id: ReqId, reply: Reply): Pending {
    if id in p.entries && p.entries[id].conn == conn
    then p.(entries := p.entries - {id}, ended := p.ended[p.entries[id].reg := ByReply(reply)])
    else p
  }

  function RegsOf(p: Pending, ids: set<ReqId>): set<RegId> {
    set id | id in ids && id in p.entries :: p.entries[id].reg
  }

  /** Removes these entries, telling each request that its connection is gone. */
  function RejectAll(p: Pending, ids: set<ReqId>): Pending {
    p.(entries := p.entries - ids, ended := p.ended + (map r | r in RegsOf(p, ids) :: ByRejection))
  }

  function PendingOn(p: Pending, conn: ConnId): set<ReqId> {
    set id | id in p.entries && p.entries[id].conn == conn
  }

  /** `reject_connection_pending`, in one hold of the pending lock. */
  function DoReject(p: Pending, conn: ConnId): Pending {
    RejectAll(p, PendingOn(p, conn))
  }

  /** The deadline passes while the channel is still empty. */
  function DoTimeout(p: Pending, reg: RegId): Pending {
    if IsIn(p, reg, Waiting) && p.requests[reg].ws && reg !in p.ended
    then SetWaiter(p, reg, TimedOut)
    else p
  }

  /** `watch_late_settlement` marks whichever entry has this id by now. */
  function FlagById(p: Pending, id: ReqId): Pending {
    if id in p.entries then p.(entries := p.entries[id := p.entries[id].(late := true)]) else p
  }

  function DoWatch(p: Pending, reg: RegId, hook: bool): Pending {
    if IsIn(p, reg, TimedOut)
    then SetWaiter(FlagById(p, p.requests[reg].id), reg, Watching(hook))
    else p
  }

  /** The watcher takes what the channel holds, or gives up when the window is
      over and the channel still empty. */
  function DoSettle(p: Pending, reg: RegId): Pending {
    if reg in p.requests && p.requests[reg].waiter.Watching?
    then
      var hook := p.requests[reg].waiter.hook;
      SetWaiter(p, reg, if reg in p.ended then Settling(hook, OutcomeOf(p.ended[reg]), false)
                        else Settling(hook, Lost, true))
    else p
  }

  function DoLateCleanup(p: Pending, reg: RegId): Pending {
    if reg in p.requests && p.requests[reg].waiter.Settling?
    then
      var w := p.requests[reg].waiter;
      SetWaiter(CleanUp(p, reg), reg, Cleaned(w.hook, w.outcome, w.expired))
    else p
  }

  function DoLateHook(p: Pending, reg: RegId): Pending {
    if reg in p.requests && p.requests[reg].waiter.Cleaned?
    then
      var r := p.requests[reg];
      var done := SetWaiter(p, reg, Reported(r.waiter.hook, r.waiter.outcome, r.waiter.expired));
      if r.waiter.hook
      then done.(hookCalls := p.hookCalls + [HookCall(reg, r.id, r.waiter.outcome, r.waiter.expired)])
      else done
    else p
  }

  // -------------------------------------------------- the bridge as a whole

  datatype State = State(reg: Registry, pend: Pending)

  datatype Event =
    | Registered(a: Action)
    | WsRegister(id: ReqId)
    | ProbeRegister(id: ReqId, conn: ConnId)
    | Send(r: RegId)
    | GuardDrop(r: RegId)
    | PageReply(conn: ConnId, id: ReqId, reply: Reply)
    | Timeout(r: RegId)
    | Watch(r: RegId, hook: bool)
    | EvalFlag(id: ReqId)
    | Settle(r: RegId)
    | LateCleanup(r: RegId)
    | LateHook(r: RegId)

  function InitState(): State {
    State(Init(), InitPending())
  }

  /** A socket that has unregistered rejects what is pending on it. */
  predicate Rejects(s: Registry, a: Action) {
    a.RejectPending? && a.conn in s.sockets && s.sockets[a.conn].phase == Unregistered
  }

  function Next(s: State, e: Event): State {
    match e
    case Registered(a) =>
      State(Step(s.reg, a), if Rejects(s.reg, a) then DoReject(s.pend, a.conn) else s.pend)
    case WsRegister(id) =>
      if s.reg.section.WsSection?
      then s.(pend := DoRegister(s.pend, id, s.reg.section.selected.connId, true)) else s
    case ProbeRegister(id, conn) =>
      if conn in s.reg.sockets then s.(pend := DoRegister(s.pend, id, conn, false)) else s
    case Send(r) => s.(pend := DoSend(s.pend, r))
    case GuardDrop(r) => s.(pend := DoGuardDrop(s.pend, r))
    case PageReply(conn, id, reply) =>
      if IsServing(s.reg, conn) then s.(pend := DoReply(s.pend, conn, id, reply)) else s
    case Timeout(r) => s.(pend := DoTimeout(s.pend, r))
    case Watch(r, hook) => s.(pend := DoWatch(s.pend, r, hook))
    case EvalFlag(id) => s.(pend := FlagById(s.pend, id))
    case Settle(r) => s.(pend := DoSettle(s.pend, r))
    case LateCleanup(r) => s.(pend := DoLateCleanup(s.pend, r))
    case LateHook(r) => s.(pend := DoLateHook(s.pend, r))
  }

  function Run(s: State, events: seq<Event>): State
    decreases events
  {
    if events == [] then s else Run(Next(s, events[0]), events[1..])
  }

  // -------------------------------------------------------------- invariants

  /** The watcher has settled on an outcome. */
  predicate HasOutcome(w: Waiter) {
    w.Settling? || w.Cleaned? || w.Reported?
  }

  ghost predicate RequestInv(p: Pending, reg: RegId)
    requires reg in p.requests
  {
    var r := p.requests[reg];
    && reg < p.nextReg
    && (reg in p.ended <==> !Holds(p, r.id, reg))
    && (Holds(p, r.id, reg) ==> p.entries[r.id].conn == r.conn)
    && (r.waiter.Released? || r.waiter.Cleaned? || r.waiter.Reported? ==> reg in p.ended)
    && (HasOutcome(r.waiter) ==> SettledAs(p, reg, r.waiter.outcome, r.waiter.expired))
    && (EndedBy(p, reg, ByCleanup) ==>
          r.waiter.Released? || ((r.waiter.Cleaned? || r.waiter.Reported?) && r.waiter.expired))
  }

  predicate EndedBy(p: Pending, reg: RegId, end: End) {
    reg in p.ended && p.ended[reg] == end
  }

  /** An outcome is what the page's answer or the rejection says, unless the
      window was over before either came. */
  ghost predicate SettledAs(p: Pending, reg: RegId, outcome: LateOutcome, expired: bool) {
    if expired then outcome == Lost
    else reg in p.ended && !p.ended[reg].ByCleanup? && outcome == OutcomeOf(p.ended[reg])
  }

  ghost predicate EntryInv(p: Pending, id: ReqId)
    requires id in p.entries
  {
    p.entries[id].reg in p.requests && p.requests[p.entries[id].reg].id == id
  }

  ghost predicate PendingInv(p: Pending) {
    && (forall r :: r in p.requests ==> RequestInv(p, r))
    && (forall r :: r in p.ended ==> r in p.requests)
    && (forall id :: id in p.entries ==> EntryInv(p, id))
  }

  lemma RegisterKeepsInv(p: Pending, id: ReqId, conn: ConnId, ws: bool)
    requires PendingInv(p)
    ensures PendingInv(DoRegister(p, id, conn, ws))
  {
    assert p.nextReg in p.requests ==> RequestInv(p, p.nextReg);
    var t := DoRegister(p, id, conn, ws);
    forall r | r in t.requests ensures RequestInv(t, r) {
      if r in p.requests { assert RequestInv(p, r); }
    }
    forall i | i in t.entries ensures EntryInv(t, i) {
      if i in p.entries { assert EntryInv(p, i); }
    }
  }

  lemma ReplyKeepsInv(p: Pending, conn: ConnId, id: ReqId, reply: Reply)
    requires PendingInv(p)
    ensures PendingInv(DoReply(p, conn, id, reply))
  {
    var t := DoReply(p, conn, id, reply);
    forall r | r in t.requests ensures RequestInv(t, r) {
      assert RequestInv(p, r);
    }
    forall i | i in t.entries ensures EntryInv(t, i) {
      assert EntryInv(p, i);
    }
  }

  lemma RejectKeepsInv(p: Pending, conn: ConnId)
    requires PendingInv(p)
    ensures PendingInv(DoReject(p, conn))
  {
    var t := DoReject(p, conn);
    forall r | r in t.requests ensures RequestInv(t, r) {
      assert RequestInv(p, r);
    }
    forall i | i in t.entries ensures EntryInv(t, i) {
      assert EntryInv(p, i);
    }
  }

  lemma CleanUpKeepsInv(p: Pending, reg: RegId, waiter: Waiter)
    requires PendingInv(p) && reg in p.requests
    requires
      var was := p.requests[reg].waiter;
      || (waiter.Released? && (was.Armed? || was.Waiting?))
      || (waiter.Cleaned? && was == Settling(waiter.hook, waiter.outcome, waiter.expired))
    ensures PendingInv(SetWaiter(CleanUp(p, reg), reg, waiter))
  {
    assert RequestInv(p, reg);
    var t := SetWaiter(CleanUp(p, reg), reg, waiter);
    forall r | r in t.requests ensures RequestInv(t, r) {
      assert RequestInv(p, r);
    }
    forall i | i in t.entries ensures EntryInv(t, i) {
      assert EntryInv(p, i);
    }
  }

  /** The steps of a task that only move it on. */
  lemma MoveKeepsInv(p: Pending, reg: RegId, waiter: Waiter)
    requires PendingInv(p) && reg in p.requests
    requires
      var was := p.requests[reg].waiter;
      || (was.Armed? && waiter.Waiting?)
      || (was.Waiting? && waiter.TimedOut?)
      || (was.TimedOut? && waiter.Watching?)
      || (was.Watching? && waiter.Settling? && SettledAs(p, reg, waiter.outcome, waiter.expired))
      || (was.Cleaned? && waiter == Reported(was.hook, was.outcome, was.expired))
    ensures PendingInv(SetWaiter(p, reg, waiter))
  {
    var t := SetWaiter(p, reg, waiter);
    forall r | r in t.requests ensures RequestInv(t, r) {
      assert RequestInv(p, r);
    }
    forall i | i in t.entries ensures EntryInv(t, i) {
      assert EntryInv(p, i);
    }
  }

  lemma FlagKeepsInv(p: Pending, id: ReqId)
    requires PendingInv(p)
    ensures PendingInv(FlagById(p, id))
  {
    var t := FlagById(p, id);
    forall r | r in t.requests ensures RequestInv(t, r) {
      assert RequestInv(p, r);
    }
    forall i | i in t.entries ensures EntryInv(t, i) {
      assert EntryInv(p, i);
    }
  }

  lemma HookKeepsInv(p: Pending, reg: RegId)
    requires PendingInv(p)
    ensures PendingInv(DoLateHook(p, reg))
  {
    if reg in p.requests && p.requests[reg].waiter.Cleaned? {
      var w := p.requests[reg].waiter;
      var moved := SetWaiter(p, reg, Reported(w.hook, w.outcome, w.expired));
      MoveKeepsInv(p, reg, Reported(w.hook, w.outcome, w.expired));
      var t := DoLateHook(p, reg);
      assert t == moved.(hookCalls := t.hookCalls);
      forall r | r in t.requests ensures RequestInv(t, r) {
        assert RequestInv(moved, r);
      }
      forall i | i in t.entries ensures EntryInv(t, i) {
        assert EntryInv(moved, i);
      }
    }
  }

  lemma NextKeepsPendingInv(s: State, e: Event)
    requires PendingInv(s.pend)
    ensures PendingInv(Next(s, e).pend)
  {
    var p := s.pend;
    match e
    case Registered(a) => if Rejects(s.reg, a) { RejectKeepsInv(p, a.conn); }
    case WsRegister(id) =>
      if s.reg.section.WsSection? { RegisterKeepsInv(p, id, s.reg.section.selected.connId, true); }
    case ProbeRegister(id, conn) => RegisterKeepsInv(p, id, conn, false);
    case Send(r) => if IsIn(p, r, Armed) { MoveKeepsInv(p, r, Waiting); }
    case GuardDrop(r) => if IsIn(p, r, Armed) || IsIn(p, r, Waiting) { CleanUpKeepsInv(p, r, Released); }
    case PageReply(conn, id, reply) => ReplyKeepsInv(p, conn, id, reply);
    case Timeout(r) => if IsIn(p, r, Waiting) { MoveKeepsInv(p, r, TimedOut); }
    case Watch(r, hook) =>
      if IsIn(p, r, TimedOut) {
        FlagKeepsInv(p, p.requests[r].id);
        MoveKeepsInv(FlagById(p, p.requests[r].id), r, Watching(hook));
      }
    case EvalFlag(id) => FlagKeepsInv(p, id);
    case Settle(r) => SettleKeepsInv(p, r);
    case LateCleanup(r) =>
      if r in p.requests && p.requests[r].waiter.Settling? {
        var w := p.requests[r].waiter;
        CleanUpKeepsInv(p, r, Cleaned(w.hook, w.outcome, w.expired));
      }
    case LateHook(r) => HookKeepsInv(p, r);
  }

  /** A watcher never finds its channel closed without a message: nothing but
      its own cleanup could have removed the entry. */
  lemma SettleKeepsInv(p: Pending, reg: RegId)
    requires PendingInv(p)
    ensures PendingInv(DoSettle(p, reg))
  {
    if reg in p.requests && p.requests[reg].waiter.Watching? {
      assert RequestInv(p, reg);
      MoveKeepsInv(p, reg, DoSettle(p, reg).requests[reg].waiter);
    }
  }

  /** The moves of one task, and the event behind each. */
  ghost predicate MayMove(was: Waiter, now: Waiter, e: Event, reg: RegId) {
    || now == was
    || (was.Armed? && now.Waiting? && e == Send(reg))
    || ((was.Armed? || was.Waiting?) && now.Released? && e == GuardDrop(reg))
    || (was.Waiting? && now.TimedOut? && e == Timeout(reg))
    || (was.TimedOut? && now.Watching? && e == Watch(reg, now.hook))
    || (was.Watching? && now.Settling? && e == Settle(reg) && now.hook == was.hook)
    || (was.Settling? && now == Cleaned(was.hook, was.outcome, was.expired) && e == LateCleanup(reg))
    || (was.Cleaned? && now == Reported(was.hook, was.outcome, was.expired) && e == LateHook(reg))
  }

  lemma NextKeepsRequest(s: State, e: Event, reg: RegId)
    requires reg in s.pend.requests && reg < s.pend.nextReg
    ensures
      var t := Next(s, e);
      reg in t.pend.requests && t.pend.requests[reg] == s.pend.requests[reg].(waiter := t.pend.requests[reg].waiter)
  {
  }

  /** A registration keeps its id, connection and kind; its task moves on only
      by an event of its own. */
  lemma NextMovesWaiter(s: State, e: Event, reg: RegId)
    requires PendingInv(s.pend) && reg in s.pend.requests
    ensures
      var t := Next(s, e);
      && reg in t.pend.requests
      && t.pend.requests[reg] == s.pend.requests[reg].(waiter := t.pend.requests[reg].waiter)
      && MayMove(s.pend.requests[reg].waiter, t.pend.requests[reg].waiter, e, reg)
  {
    assert RequestInv(s.pend, reg);
    NextKeepsRequest(s, e, reg);
  }

  lemma NewWaiterIsArmed(s: State, e: Event, reg: RegId)
    requires reg !in s.pend.requests && reg in Next(s, e).pend.requests
    ensures Next(s, e).pend.requests[reg].waiter.Armed?
  {
  }
}
