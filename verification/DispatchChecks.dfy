/**
 When one turn of the retry loop sends, where it sends, why it refuses, and when
 the loop gives up: each condition on its own, in any order of the checks.
 */
module DispatchChecks {
  import opened Wrappers
  import opened Dispatch

  // -------------------------------------------------------------- the transports

  /** What must hold for a socket delivery to go out: authority and time at every
      check, the lock, a client under the current key, a target for native code,
      a free id, and a channel that takes it. */
  predicate WsMaySend(w: WsWorld, start: nat, deadline: nat) {
    && w.authorized1 && w.authorized2 && w.authorized3
    && start + w.pause1 + w.pause2 + w.pause3 < deadline
    && !w.lockTimedOut && w.connected && w.keyCurrent && (w.native ==> w.target == Reachable)
    && !w.idPending && (w.sendFails ==> w.native)
  }

  /** It goes out exactly then, and is waited for unless the send failed half-way. */
  lemma WsSendsIff(w: WsWorld, start: nat, deadline: nat)
    ensures var a := WsAttempt(w, start, deadline);
            if WsMaySend(w, start, deadline)
            then a.sent == [if w.sendFails then w.delivery.(answered := false) else w.delivery]
            else a.sent == []
  {
  }

  /** A refusal names a check that failed. */
  lemma WsRefusalTellsWhy(w: WsWorld, start: nat, deadline: nat)
    requires WsAttempt(w, start, deadline).result.Err? && WsAttempt(w, start, deadline).result.error.NotDispatched?
    ensures
      match WsAttempt(w, start, deadline).result.error.refusal
      case Revoked => !(w.authorized1 && w.authorized2 && w.authorized3)
      case DeadlineExpired =>
        w.lockTimedOut || (w.native && w.target == LockTimedOut) || start + w.pause1 + w.pause2 + w.pause3 >= deadline
      case NoClient => w.authorized1 && !w.lockTimedOut && !w.connected
      case StaleBridge => w.authorized1 && !w.lockTimedOut && w.connected && !w.keyCurrent
      case NoTarget => w.connected && w.keyCurrent && w.native && (w.target == NoHandle || w.target == NoWindow)
      case ChannelClosed => w.connected && w.keyCurrent && !w.idPending && w.sendFails && !w.native
      case _ => false
  {
  }

  predicate EvalMaySend(w: EvalWorld, start: nat, deadline: nat) {
    && w.authorized1 && w.authorized2 && start + w.pause1 + w.pause2 < deadline
    && w.target == Reachable && !w.lockTimedOut
  }

  lemma EvalSendsIff(w: EvalWorld, start: nat, deadline: nat)
    ensures var a := EvalAttempt(w, start, deadline);
            if EvalMaySend(w, start, deadline)
            then a.sent == [if w.injectFails then w.delivery.(answered := false) else w.delivery]
            else a.sent == []
  {
  }

  lemma EvalRefusalTellsWhy(w: EvalWorld, start: nat, deadline: nat)
    requires EvalAttempt(w, start, deadline).result.Err?
    requires EvalAttempt(w, start, deadline).result.error.NotDispatched?
    ensures
      match EvalAttempt(w, start, deadline).result.error.refusal
      case Revoked => !(w.authorized1 && w.authorized2)
      case DeadlineExpired => w.lockTimedOut || w.target == LockTimedOut || start + w.pause1 + w.pause2 >= deadline
      case NoTarget => w.authorized1 && (w.target == NoHandle || w.target == NoWindow)
      case _ => false
  {
  }

  // ------------------------------------------------------------------ one turn

  /** The socket delivers nothing and it is known that nothing was delivered. */
  predicate WsRefuses(t: Turn, start: nat, deadline: nat) {
    WsAttempt(t.ws, start, deadline).result.Err? && WsAttempt(t.ws, start, deadline).result.error.NotDispatched?
  }

  /** When the injection starts, if it does. */
  function EvalStart(t: Turn, start: nat, deadline: nat): nat {
    WsAttempt(t.ws, start, deadline).now + t.gap + t.probe
  }

  predicate FallsBack(t: Turn, start: nat, deadline: nat) {
    && WsRefuses(t, start, deadline) && t.authorized && t.evalAnswers
    && WsAttempt(t.ws, start, deadline).now + t.gap < deadline
  }

  /** The injection is tried exactly when the socket refused, authority and time
      are left, and the page answers a probe; a turn never sends on both. */
  lemma FallsBackIff(t: Turn, start: nat, refused: Option<string>, deadline: nat)
    ensures var x := Transport(t, start, refused, deadline);
            x.sent ==
              if WsMaySend(t.ws, start, deadline) then WsAttempt(t.ws, start, deadline).sent
              else if FallsBack(t, start, deadline) && EvalMaySend(t.eval, EvalStart(t, start, deadline), deadline)
              then EvalAttempt(t.eval, EvalStart(t, start, deadline), deadline).sent
              else []
  {
    WsSendsIff(t.ws, start, deadline);
    EvalSendsIff(t.eval, EvalStart(t, start, deadline), deadline);
    if WsMaySend(t.ws, start, deadline) { SentIsNoRefusal(t.ws, start, deadline); }
    hide WsAttempt, EvalAttempt, WsMaySend, EvalMaySend, NotRunReason;
  }

  /** What a transport reports ends the command as it is, but for a refusal that
      comes when the time is over after an earlier refusal of the page: then that one
      is the reason. */
  lemma ReportedAsIs(a: Attempt, refused: Option<string>, deadline: nat)
    requires !(a.result.Err? && a.result.error.ExecutionFailed? && LooksRefused(a.result.error.error))
    ensures
      var x := Judge(a, refused, deadline);
      && x.sent == a.sent && x.now == a.now
      && x.verdict == Done(if a.result.Err? && a.result.error.NotDispatched? && refused.Some? && a.now >= deadline
                           then Err(NotDispatched(Unready(refused.value))) else a.result)
  {
    if a.result.Err? && a.result.error.ExecutionFailed? {
      ReasonIffMarked(a.result.error.error, a.result.error.effect);
    }
    hide LooksRefused, TrimStart, TrimEnd, StripPrefix;
  }

  lemma SentIsNoRefusal(w: WsWorld, start: nat, deadline: nat)
    requires WsMaySend(w, start, deadline)
    ensures var r := WsAttempt(w, start, deadline).result; !(r.Err? && r.error.NotDispatched?)
  {
  }

  /** The reason for another try: the page's own, without the white space around
      it, or that it did not answer the probe. */
  lemma RetryTellsWhy(t: Turn, start: nat, refused: Option<string>, deadline: nat)
    requires Transport(t, start, refused, deadline).verdict.Retry?
    ensures var x := Transport(t, start, refused, deadline);
            if x.sent == [] then
              && x.verdict.reason == BRIDGE_SILENT && !t.evalAnswers && t.authorized
              && WsRefuses(t, start, deadline) && WsAttempt(t.ws, start, deadline).now + t.gap < deadline
            else |x.sent| == 1 && x.sent[0].answered
  {
    hide NotRunReason, TrimStart, TrimEnd;
    NoReasonWithoutError();
  }

  lemma NoReasonWithoutError()
    ensures forall r: Result :: NotRunReason(r).Some? ==> r.Err? && r.error.ExecutionFailed?
  {
  }

  /** White space around a text. */
  ghost predicate Blank(s: string) {
    forall i :: 0 <= i < |s| ==> IsWhite(s[i])
  }

  lemma {:induction false} TrimStartTakesBlank(s: string) returns (before: string)
    ensures s == before + TrimStart(s) && Blank(before)
    ensures TrimStart(s) != "" ==> !IsWhite(TrimStart(s)[0])
  {
    before := "";
    if s != "" && IsWhite(s[0]) {
      before := TrimStartTakesBlank(s[1..]);
      before := [s[0]] + before;
    }
  }

  lemma {:induction false} TrimEndTakesBlank(s: string) returns (after: string)
    ensures s == TrimEnd(s) + after && Blank(after)
    ensures TrimEnd(s) != "" ==> !IsWhite(TrimEnd(s)[|TrimEnd(s)| - 1])
  {
    after := "";
    if s != "" && IsWhite(s[|s| - 1]) {
      after := TrimEndTakesBlank(s[..|s| - 1]);
      after := after + [s[|s| - 1]];
    }
  }

  /** A refusal's reason is what follows the mark, no more and no less but for the
      white space around it. */
  lemma ReasonIsTheRest(error: string, effect: Effect) returns (rest: string, before: string, after: string)
    requires LooksRefused(error)
    ensures NotRunReason(Err(ExecutionFailed(error, effect))).Some?
    ensures var reason := NotRunReason(Err(ExecutionFailed(error, effect))).value;
            && error == "connector_not_run" + ": " + rest && rest == before + reason + after
            && Blank(before) && Blank(after)
            && (reason != "" ==> !IsWhite(reason[0]) && !IsWhite(reason[|reason| - 1]))
  {
    rest := Rest(error, effect);
    before := TrimStartTakesBlank(rest);
    var middle := TrimStart(rest);
    after := TrimEndTakesBlank(middle);
    hide TrimStart, TrimEnd, IsWhite, NotRunReason, LooksRefused;
    var reason := TrimEnd(middle);
    assert reason != "" ==> reason[0] == middle[0];
    assert before + (reason + after) == before + reason + after;
  }

  lemma Rest(error: string, effect: Effect) returns (rest: string)
    requires LooksRefused(error)
    ensures error == "connector_not_run" + ": " + rest
    ensures NotRunReason(Err(ExecutionFailed(error, effect))) == Some(TrimEnd(TrimStart(rest)))
  {
    ReasonIffMarked(error, effect);
    rest := error[|NOT_RUN| + 2..];
    assert error[|NOT_RUN|..][2..] == rest;
    assert error == NOT_RUN + ": " + rest;
  }

  // ------------------------------------------------------------- giving up

  /** After a reason to try again the loop gives up in two cases only: the page has
      been silent, turn after turn, for so long that with one more pause the three
      seconds are over, or with one more pause the deadline is. Otherwise it goes
      on after that pause, keeping the reason, and the start of the silence for as
      long as it lasts. */
  lemma GivesUpIff(t: Turn, s: LoopState, x: Transported, deadline: nat)
    requires x.verdict.Retry?
    ensures
      var now := x.now + t.reinject;
      var silent := x.verdict.reason == "bridge_not_connected";
      var from := if silent && s.unconnectedSince.Some? then s.unconnectedSince.value else now;
      var gone := silent && from <= now && now + 50_000_000 >= from + 3_000_000_000;
      match AfterRefusal(t, s, x, deadline)
      case Return(result, sent) =>
        && sent == s.sent + x.sent && (gone || now + 50_000_000 >= deadline)
        && result == Err(NotDispatched(if gone then NotConnected else Unready(x.verdict.reason)))
      case Again(next) =>
        && !gone && now + 50_000_000 < deadline && next.sent == s.sent + x.sent
        && next.now == now + 50_000_000 + t.overshoot && next.refused == Some(x.verdict.reason)
        && next.unconnectedSince == (if silent then Some(from) else None)
  {
  }

  /** A turn begins with the screen lock, then the deadline, and while the page
      navigates it sends nothing. */
  lemma TurnBegins(t: Turn, s: LoopState, deadline: nat)
    ensures
      var e := TakeTurn(t, s, deadline);
      && (t.locked ==> e == Return(Err(NotDispatched(ScreenLocked)), s.sent))
      && (!t.locked && s.refused.Some? && s.now + t.pause >= deadline ==>
            e == Return(Err(NotDispatched(Unready(s.refused.value))), s.sent))
      && (!t.locked && t.navigating ==>
            (match e
             case Return(result, sent) => sent == s.sent && result.Err? && result.error.NotDispatched?
             case Again(next) => next.sent == s.sent && next.refused in {Some("page_navigating")}))
  {
    assert s.sent + [] == s.sent;
    hide Transport;
  }

  /** The command begins with its own checks and sends nothing if one fails. */
  lemma CommandBegins(w: World)
    ensures
      var o := Execute(w);
      && (w.locked ==> o == Outcome(Err(NotDispatched(ScreenLocked)), [], 0))
      && (!w.locked && w.windowMissing ==> o == Outcome(Err(NotDispatched(WindowNotReady)), [], 0))
      && (!w.locked && !w.windowMissing && w.background && !w.answersProbe ==>
            o == Outcome(Err(NotDispatched(PageSilent)), [], 0))
      && (!w.locked && !w.windowMissing && (w.background ==> w.answersProbe) ==> o.turns > 0)
  {
    hide TakeTurn;
    var s := LoopState(w.start + w.prelude, None, None, []);
    if !w.locked && !w.windowMissing && (w.background ==> w.answersProbe) {
      LoopTakesTurns(w, 0, s, w.start + w.timeout);
    }
  }

  lemma {:induction false} LoopTakesTurns(w: World, i: nat, s: LoopState, deadline: nat)
    ensures Loop(w, i, s, deadline).turns > i
    decreases if s.now < deadline then deadline - s.now else 0
  {
    TurnPassesTime(w.turn(i), s, deadline);
    hide TakeTurn;
    match TakeTurn(w.turn(i), s, deadline)
    case Return(_, _) =>
    case Again(next) => LoopTakesTurns(w, i + 1, next, deadline);
  }
}
