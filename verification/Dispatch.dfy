/**
 `execute_page_script`: one command, two transports, one deadline, and a retry
 loop that sends again only after a refusal of the page's gate.

 Everything outside the plugin is an input: a `World` gives for every turn of
 the loop what the checks find, what the page does with a delivered script, and
 how much time passes. Times are nanoseconds of one non-decreasing clock.
 */
module Dispatch {
  import opened Wrappers

  const NOT_RUN := "connector_not_run"
  const NOT_RUN_RETRY: nat := 50_000_000
  const BRIDGE_CONNECT_WAIT: nat := 3_000_000_000

  datatype Effect = NoEffect | PossibleEffect

  /** Why a command was refused before anything was sent. */
  datatype Refusal =
    | ScreenLocked
    | WindowNotReady
    | PageSilent
    | Revoked
    | DeadlineExpired
    | NoClient
    | StaleBridge
    | NoTarget
    | ChannelClosed
    | NotConnected
    | Unready(reason: string)

  datatype BridgeError =
    | NotDispatched(refusal: Refusal)
    | ExecutionFailed(error: string, effect: Effect)
    | DispatchedOutcomeUnknown

  datatype Result = Ok(value: nat) | Err(error: BridgeError)

  // -------------------------------------------------------------- the page

  /** How the caller's body ends once it has started. */
  datatype BodyEnd = Returned(value: nat) | Threw(error: string, effect: Effect)

  /** What the page does with one delivered script: nothing, refuse it at the
      gate, fail to parse it, or start the caller's body. */
  datatype PageRun = Silent | Gated(reason: string, effect: Effect) | Unparsed(error: string) | Ran(end: BodyEnd)

  /** `answered`: a well-formed answer reached the caller before the deadline. */
  datatype Delivery = Delivery(run: PageRun, answered: bool)

  predicate Started(d: Delivery) {
    d.run.Ran?
  }

  function Starts(log: seq<Delivery>): nat {
    if log == [] then 0 else Starts(log[..|log| - 1]) + (if Started(log[|log| - 1]) then 1 else 0)
  }

  /** What the caller sees of a delivery. */
  function Answer(d: Delivery): Result {
    if !d.answered then Err(DispatchedOutcomeUnknown)
    else match d.run
         case Silent => Err(DispatchedOutcomeUnknown)
         case Gated(reason, effect) => Err(ExecutionFailed(NOT_RUN + ": " + reason, effect))
         case Unparsed(error) => Err(ExecutionFailed(error, NoEffect))
         case Ran(Returned(v)) => Ok(v)
         case Ran(Threw(error, effect)) => Err(ExecutionFailed(error, effect))
  }

  // ------------------------------------------------------- refusal marks

  predicate IsWhite(c: char) {
    c in "\t\n\r " || c == '\U{000B}' || c == '\U{000C}' || c == '\U{0085}' || c == '\U{00A0}'
    || c == '\U{1680}' || '\U{2000}' <= c <= '\U{200A}' || c == '\U{2028}' || c == '\U{2029}'
    || c == '\U{202F}' || c == '\U{205F}' || c == '\U{3000}'
  }

  function TrimStart(s: string): string {
    if s != "" && IsWhite(s[0]) then TrimStart(s[1..]) else s
  }

  function TrimEnd(s: string): string {
    if s != "" && IsWhite(s[|s| - 1]) then TrimEnd(s[..|s| - 1]) else s
  }

  function StripPrefix(s: string, prefix: string): Option<string> {
    if prefix <= s then Some(s[|prefix|..]) else None
  }

  /** An error whose text starts with the mark counts as a refusal of the gate,
      whoever wrote the text. */
  function NotRunReason(r: Result): Option<string> {
    if r.Err? && r.error.ExecutionFailed? then
      match StripPrefix(r.error.error, NOT_RUN)
      case None => None
      case Some(rest) =>
        match StripPrefix(rest, ": ")
        case None => None
        case Some(reason) => Some(TrimEnd(TrimStart(reason)))
    else None
  }

  ghost predicate LooksRefused(error: string) {
    NOT_RUN + ": " <= error
  }

  lemma ReasonIffMarked(error: string, effect: Effect)
    ensures NotRunReason(Err(ExecutionFailed(error, effect))).Some? <==> LooksRefused(error)
  {
    if LooksRefused(error) {
      assert error[..|NOT_RUN + ": "|] == NOT_RUN + ": ";
      assert error[..|NOT_RUN|] == NOT_RUN;
      assert error[|NOT_RUN|..][..2] == ": ";
    }
    if NOT_RUN <= error && ": " <= error[|NOT_RUN|..] {
      assert error == NOT_RUN + error[|NOT_RUN|..];
      assert error == (NOT_RUN + ": ") + error[|NOT_RUN|..][2..];
    }
  }

  // -------------------------------------------------------------- transports

  /** `ensure_budget` at time `now`. */
  function Budget(authorized: bool, now: nat, deadline: nat): Option<Refusal> {
    if !authorized then Some(Revoked)
    else if now >= deadline then Some(DeadlineExpired)
    else None
  }

  /** One attempt: what it reports, when, and what it delivered. */
  datatype Attempt = Attempt(result: Result, now: nat, sent: seq<Delivery>)

  function Refuse(refusal: Refusal, now: nat): Attempt {
    Attempt(Err(NotDispatched(refusal)), now, [])
  }

  /** Where natively delivered code would go. */
  datatype NativeTarget = Reachable | LockTimedOut | NoHandle | NoWindow

  /** What `execute_js_ws` meets, in order. `pause` is the time that passes
      before each of its three budget checks. */
  datatype WsWorld = WsWorld(
    authorized1: bool, pause1: nat,
    lockTimedOut: bool, connected: bool, keyCurrent: bool,
    native: bool, target: NativeTarget,
    authorized2: bool, pause2: nat,
    idPending: bool,
    authorized3: bool, pause3: nat,
    sendFails: bool,
    delivery: Delivery, wait: nat)

  function WsAttempt(w: WsWorld, start: nat, deadline: nat): Attempt {
    var t1 := start + w.pause1;
    var b1 := Budget(w.authorized1, t1, deadline);
    if b1.Some? then Refuse(b1.value, t1)
    else if w.lockTimedOut then Refuse(DeadlineExpired, t1)
    else if !w.connected then Refuse(NoClient, t1)
    else if !w.keyCurrent then Refuse(StaleBridge, t1)
    else if w.native && w.target.LockTimedOut? then Refuse(DeadlineExpired, t1)
    else if w.native && !w.target.Reachable? then Refuse(NoTarget, t1)
    else
      var t2 := t1 + w.pause2;
      var b2 := Budget(w.authorized2, t2, deadline);
      if b2.Some? then Refuse(b2.value, t2)
      else if w.idPending then Attempt(Err(DispatchedOutcomeUnknown), t2, [])
      else
        var t3 := t2 + w.pause3;
        var b3 := Budget(w.authorized3, t3, deadline);
        if b3.Some? then Refuse(b3.value, t3)
        else if w.sendFails && !w.native then Refuse(ChannelClosed, t3)
        else if w.sendFails then
          // Part of a native sequence may already be in the webview.
          Attempt(Err(DispatchedOutcomeUnknown), t3, [w.delivery.(answered := false)])
        else Attempt(Answer(w.delivery), t3 + w.wait, [w.delivery])
  }

  datatype EvalWorld = EvalWorld(
    authorized1: bool, pause1: nat,
    target: NativeTarget, lockTimedOut: bool,
    authorized2: bool, pause2: nat,
    injectFails: bool,
    delivery: Delivery, wait: nat)

  function EvalAttempt(w: EvalWorld, start: nat, deadline: nat): Attempt {
    var t1 := start + w.pause1;
    var b1 := Budget(w.authorized1, t1, deadline);
    if b1.Some? then Refuse(b1.value, t1)
    else if w.target.LockTimedOut? then Refuse(DeadlineExpired, t1)
    else if !w.target.Reachable? then Refuse(NoTarget, t1)
    else if w.lockTimedOut then Refuse(DeadlineExpired, t1)
    else
      var t2 := t1 + w.pause2;
      var b2 := Budget(w.authorized2, t2, deadline);
      if b2.Some? then Refuse(b2.value, t2)
      else if w.injectFails then Attempt(Err(DispatchedOutcomeUnknown), t2, [w.delivery.(answered := false)])
      else Attempt(Answer(w.delivery), t2 + w.wait, [w.delivery])
  }

  // -------------------------------------------------------------- the loop

  datatype Turn = Turn(
    locked: bool, pause: nat, navigating: bool,
    ws: WsWorld,
    authorized: bool, gap: nat, evalAnswers: bool, probe: nat,
    eval: EvalWorld,
    reinject: nat, overshoot: nat)

  datatype World = World(
    start: nat, timeout: nat,
    locked: bool, windowMissing: bool, background: bool, answersProbe: bool, prelude: nat,
    turn: nat -> Turn)

  /** The locals of the loop. `sent` is the record of everything delivered. */
  datatype LoopState = LoopState(now: nat, refused: Option<string>, unconnectedSince: Option<nat>, sent: seq<Delivery>)

  datatype Outcome = Outcome(result: Result, sent: seq<Delivery>, turns: nat)

  const BRIDGE_SILENT := "bridge_not_connected"

  /** What one turn's transports come to: the end of the command, or a reason to
      try again. */
  datatype Verdict = Done(result: Result) | Retry(reason: string)

  datatype Transported = Transported(verdict: Verdict, now: nat, sent: seq<Delivery>)

  function Judge(a: Attempt, refused: Option<string>, deadline: nat): Transported {
    match NotRunReason(a.result)
    case Some(reason) => Transported(Retry(reason), a.now, a.sent)
    case None =>
      if refused.Some? && a.result.Err? && a.result.error.NotDispatched? && a.now >= deadline
      then Transported(Done(Err(NotDispatched(Unready(refused.value)))), a.now, a.sent)
      else Transported(Done(a.result), a.now, a.sent)
  }

  function Transport(t: Turn, start: nat, refused: Option<string>, deadline: nat): Transported {
    var ws := WsAttempt(t.ws, start, deadline);
    if !(ws.result.Err? && ws.result.error.NotDispatched?) then Judge(ws, refused, deadline)
    else
      var now := ws.now + t.gap;
      var b := Budget(t.authorized, now, deadline);
      if b.Some? then Transported(Done(Err(NotDispatched(b.value))), now, [])
      else if t.evalAnswers then Judge(EvalAttempt(t.eval, now + t.probe, deadline), refused, deadline)
      else Transported(Retry(BRIDGE_SILENT), now + t.probe, [])
  }

  /** One turn: the end of the command, or the state in which the next begins. */
  datatype TurnEnd = Return(result: Result, sent: seq<Delivery>) | Again(state: LoopState)

  function Unconnected(reason: string, since: Option<nat>, now: nat): Option<nat> {
    if reason != BRIDGE_SILENT then None
    else if since.Some? then since
    else Some(now)
  }

  function AfterRefusal(t: Turn, s: LoopState, x: Transported, deadline: nat): TurnEnd
    requires x.verdict.Retry?
  {
    var reason := x.verdict.reason;
    var now := x.now + t.reinject;
    var sent := s.sent + x.sent;
    var since := Unconnected(reason, s.unconnectedSince, now);
    if since.Some? && since.value <= now && now - since.value + NOT_RUN_RETRY >= BRIDGE_CONNECT_WAIT
    then Return(Err(NotDispatched(NotConnected)), sent)
    else if now + NOT_RUN_RETRY >= deadline then Return(Err(NotDispatched(Unready(reason))), sent)
    else Again(LoopState(now + NOT_RUN_RETRY + t.overshoot, Some(reason), since, sent))
  }

  function TakeTurn(t: Turn, s: LoopState, deadline: nat): TurnEnd {
    var now := s.now + t.pause;
    if t.locked then Return(Err(NotDispatched(ScreenLocked)), s.sent)
    else if s.refused.Some? && now >= deadline then Return(Err(NotDispatched(Unready(s.refused.value))), s.sent)
    else
      var x := if t.navigating then Transported(Retry("page_navigating"), now, [])
               else Transport(t, now, s.refused, deadline);
      match x.verdict
      case Done(result) => Return(result, s.sent + x.sent)
      case Retry(_) => AfterRefusal(t, s, x, deadline)
  }

  lemma TransportPassesTime(t: Turn, start: nat, refused: Option<string>, deadline: nat)
    ensures Transport(t, start, refused, deadline).now >= start
  {
    hide NotRunReason, Answer;
  }

  lemma TurnPassesTime(t: Turn, s: LoopState, deadline: nat)
    ensures var e := TakeTurn(t, s, deadline);
            e.Again? ==> s.now + NOT_RUN_RETRY <= e.state.now && s.now + NOT_RUN_RETRY < deadline
  {
    hide Transport;
    TransportPassesTime(t, s.now + t.pause, s.refused, deadline);
  }

  function Loop(w: World, i: nat, s: LoopState, deadline: nat): Outcome
    decreases if s.now < deadline then deadline - s.now else 0
  {
    TurnPassesTime(w.turn(i), s, deadline);
    match TakeTurn(w.turn(i), s, deadline)
    case Return(result, sent) => Outcome(result, sent, i + 1)
    case Again(next) => Loop(w, i + 1, next, deadline)
  }

  function Execute(w: World): Outcome {
    if w.locked then Outcome(Err(NotDispatched(ScreenLocked)), [], 0)
    else if w.windowMissing then Outcome(Err(NotDispatched(WindowNotReady)), [], 0)
    else if w.background && !w.answersProbe then Outcome(Err(NotDispatched(PageSilent)), [], 0)
    else Loop(w, 0, LoopState(w.start + w.prelude, None, None, []), w.start + w.timeout)
  }

  /** The loop as the source runs it. */
  method ExecutePageScript(w: World) returns (result: Result, sent: seq<Delivery>, turns: nat)
    ensures Outcome(result, sent, turns) == Execute(w)
  {
    hide Transport, NotRunReason, Answer;
    sent, turns := [], 0;
    if w.locked {
      return Err(NotDispatched(ScreenLocked)), sent, turns;
    }
    if w.windowMissing {
      return Err(NotDispatched(WindowNotReady)), sent, turns;
    }
    if w.background && !w.answersProbe {
      return Err(NotDispatched(PageSilent)), sent, turns;
    }
    var deadline := w.start + w.timeout;
    var now := w.start + w.prelude;
    var refused: Option<string> := None;
    var unconnectedSince: Option<nat> := None;
    while true
      invariant Execute(w) == Loop(w, turns, LoopState(now, refused, unconnectedSince, sent), deadline)
      decreases if now < deadline then deadline - now else 0
    {
      var t := w.turn(turns);
      turns := turns + 1;
      now := now + t.pause;
      if t.locked {
        return Err(NotDispatched(ScreenLocked)), sent, turns;
      }
      if refused.Some? && now >= deadline {
        return Err(NotDispatched(Unready(refused.value))), sent, turns;
      }
      var reason := "page_navigating";
      if !t.navigating {
        TransportPassesTime(t, now, refused, deadline);
        var transported := Transport(t, now, refused, deadline);
        now := transported.now;
        sent := sent + transported.sent;
        if transported.verdict.Done? {
          return transported.verdict.result, sent, turns;
        }
        reason := transported.verdict.reason;
      } else {
        assert sent + [] == sent;
      }
      now := now + t.reinject;
      if reason == BRIDGE_SILENT {
        if unconnectedSince.None? {
          unconnectedSince := Some(now);
        }
        var since := unconnectedSince.value;
        if since <= now && now - since + NOT_RUN_RETRY >= BRIDGE_CONNECT_WAIT {
          return Err(NotDispatched(NotConnected)), sent, turns;
        }
      } else {
        unconnectedSince := None;
      }
      if now + NOT_RUN_RETRY >= deadline {
        return Err(NotDispatched(Unready(reason))), sent, turns;
      }
      refused := Some(reason);
      now := now + NOT_RUN_RETRY + t.overshoot;
    }
  }
}
