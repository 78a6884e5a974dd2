/** What the retry loop promises, over every world. */
module DispatchProofs {
  import opened Wrappers
  import opened Dispatch

  lemma StartsOfConcat(a: seq<Delivery>, b: seq<Delivery>)
    requires |b| <= 1
    ensures Starts(a + b) == Starts(a) + Starts(b)
  {
    if b == [] {
      assert a + b == a;
    } else {
      assert (a + b)[..|a + b| - 1] == a;
      assert b[..0] == [];
    }
  }

  // -------------------------------------------------------- at most one start

  /** The caller's own error text does not imitate the gate's refusal. */
  ghost predicate HonestRun(run: PageRun) {
    run.Ran? && run.end.Threw? ==> !LooksRefused(run.end.error)
  }

  ghost predicate HonestBody(w: World) {
    forall i: nat :: HonestRun(w.turn(i).ws.delivery.run) && HonestRun(w.turn(i).eval.delivery.run)
  }

  /** The result says what happened: a refusal means no body ever started, an
      answer is that of the last delivery, and whatever the result, no delivery
      before the last one started a body. */
  ghost predicate Truthful(result: Result, sent: seq<Delivery>) {
    && Starts(sent) <= 1
    && (sent != [] ==> Starts(sent[..|sent| - 1]) == 0)
    && match result
       case Ok(v) => sent != [] && sent[|sent| - 1] == Delivery(Ran(Returned(v)), true)
       case Err(NotDispatched(_)) => Starts(sent) == 0
       case Err(ExecutionFailed(error, effect)) => sent != [] && Failed(sent[|sent| - 1], error, effect)
       case Err(DispatchedOutcomeUnknown) => true
  }

  /** The page answered with this error and this effect: its own refusal, a form
      that did not parse and so had no effect, or what the caller's body threw. */
  predicate Failed(d: Delivery, error: string, effect: Effect) {
    && d.answered
    && match d.run
       case Silent => false
       case Gated(reason, e) => error == NOT_RUN + ": " + reason && effect == e
       case Unparsed(text) => error == text && effect == NoEffect
       case Ran(end) => end == Threw(error, effect)
  }

  /** What a caller may be told of a delivery. */
  predicate Tells(result: Result, d: Delivery) {
    match result
    case Ok(v) => d == Delivery(Ran(Returned(v)), true)
    case Err(ExecutionFailed(error, effect)) => Failed(d, error, effect)
    case Err(DispatchedOutcomeUnknown) => !d.answered || d.run == Silent
    case Err(NotDispatched(_)) => false
  }

  /** An attempt either delivers nothing, or delivers `d` and reports the page's
      answer, or may have delivered `d` and knows no more. */
  ghost predicate IsAttempt(a: Attempt, d: Delivery) {
    || (a.sent == [] && a.result.Err? && !a.result.error.ExecutionFailed?)
    || (a.sent == [d] && Tells(a.result, d))
    || (a.sent == [d.(answered := false)] && a.result == Err(DispatchedOutcomeUnknown))
  }

  lemma WsIsAnAttempt(w: WsWorld, start: nat, deadline: nat)
    ensures var a := WsAttempt(w, start, deadline);
            IsAttempt(a, w.delivery) && (a.result.Err? && a.result.error.NotDispatched? ==> a.sent == [])
  {
  }

  lemma EvalIsAnAttempt(w: EvalWorld, start: nat, deadline: nat)
    ensures var a := EvalAttempt(w, start, deadline);
            IsAttempt(a, w.delivery) && (a.result.Err? && a.result.error.NotDispatched? ==> a.sent == [])
  {
  }

  lemma AttemptIsTruthful(a: Attempt, d: Delivery)
    requires HonestRun(d.run)
    requires IsAttempt(a, d)
    ensures Truthful(a.result, a.sent)
    ensures NotRunReason(a.result).Some? ==> Starts(a.sent) == 0
  {
  }

  lemma TruthfulAfter(before: seq<Delivery>, result: Result, sent: seq<Delivery>)
    requires Starts(before) == 0 && |sent| <= 1 && Truthful(result, sent)
    ensures Truthful(result, before + sent)
  {
    StartsOfConcat(before, sent);
    hide Starts, Answer;
    if sent == [] {
      assert before + sent == before;
      if before != [] {
        StartsOfConcat(before[..|before| - 1], [before[|before| - 1]]);
        assert before == before[..|before| - 1] + [before[|before| - 1]];
      }
    } else {
      assert (before + sent)[..|before + sent| - 1] == before;
    }
  }

  lemma RefusalIsTruthful(sent: seq<Delivery>, refusal: Refusal)
    requires Starts(sent) == 0
    ensures Truthful(Err(NotDispatched(refusal)), sent)
  {
  }

  lemma JudgedTruthfully(a: Attempt, d: Delivery, refused: Option<string>, deadline: nat)
    requires HonestRun(d.run) && IsAttempt(a, d)
    requires a.result.Err? && a.result.error.NotDispatched? ==> a.sent == []
    ensures
      var x := Judge(a, refused, deadline);
      && |x.sent| <= 1
      && match x.verdict
         case Retry(_) => Starts(x.sent) == 0
         case Done(result) => Truthful(result, x.sent)
  {
  }

  /** A turn delivers once at most, and nothing that it then retries or refuses
      has started. */
  lemma TransportIsTruthful(t: Turn, start: nat, refused: Option<string>, deadline: nat)
    requires HonestRun(t.ws.delivery.run) && HonestRun(t.eval.delivery.run)
    ensures
      var x := Transport(t, start, refused, deadline);
      && |x.sent| <= 1
      && match x.verdict
         case Retry(_) => Starts(x.sent) == 0
         case Done(result) => Truthful(result, x.sent)
  {
    hide WsAttempt, EvalAttempt, NotRunReason, Answer, Starts, Truthful, Judge;
    var ws := WsAttempt(t.ws, start, deadline);
    WsIsAnAttempt(t.ws, start, deadline);
    JudgedTruthfully(ws, t.ws.delivery, refused, deadline);
    var eval := EvalAttempt(t.eval, ws.now + t.gap + t.probe, deadline);
    EvalIsAnAttempt(t.eval, ws.now + t.gap + t.probe, deadline);
    JudgedTruthfully(eval, t.eval.delivery, refused, deadline);
    NothingStarted();
    forall refusal: Refusal ensures Truthful(Err(NotDispatched(refusal)), []) {
      RefusalIsTruthful([], refusal);
    }
  }

  ghost predicate TurnTruthful(e: TurnEnd) {
    match e
    case Return(result, sent) => Truthful(result, sent)
    case Again(next) => Starts(next.sent) == 0
  }

  lemma RefusedTurnIsTruthful(t: Turn, s: LoopState, x: Transported, deadline: nat)
    requires x.verdict.Retry? && Starts(s.sent + x.sent) == 0
    ensures TurnTruthful(AfterRefusal(t, s, x, deadline))
  {
  }

  lemma TurnIsTruthful(t: Turn, s: LoopState, deadline: nat)
    requires HonestRun(t.ws.delivery.run) && HonestRun(t.eval.delivery.run) && Starts(s.sent) == 0
    ensures TurnTruthful(TakeTurn(t, s, deadline))
  {
    hide Starts, Transport, Truthful, HonestRun, AfterRefusal;
    RefusalIsTruthful(s.sent, ScreenLocked);
    if s.refused.Some? { RefusalIsTruthful(s.sent, Unready(s.refused.value)); }
    var now := s.now + t.pause;
    if t.navigating {
      assert s.sent + [] == s.sent;
      RefusedTurnIsTruthful(t, s, Transported(Retry("page_navigating"), now, []), deadline);
    } else {
      TransportIsTruthful(t, now, s.refused, deadline);
      var x := Transport(t, now, s.refused, deadline);
      if x.verdict.Done? {
        TruthfulAfter(s.sent, x.verdict.result, x.sent);
      } else {
        StartsOfConcat(s.sent, x.sent);
        RefusedTurnIsTruthful(t, s, x, deadline);
      }
    }
  }

  lemma {:induction false} LoopIsTruthful(w: World, i: nat, s: LoopState, deadline: nat)
    requires HonestBody(w) && Starts(s.sent) == 0
    ensures var o := Loop(w, i, s, deadline); Truthful(o.result, o.sent)
    decreases if s.now < deadline then deadline - s.now else 0
  {
    var t := w.turn(i);
    assert HonestRun(t.ws.delivery.run) && HonestRun(t.eval.delivery.run);
    TurnIsTruthful(t, s, deadline);
    TurnPassesTime(t, s, deadline);
    hide TakeTurn, Truthful;
    match TakeTurn(t, s, deadline)
    case Return(_, _) =>
    case Again(next) => LoopIsTruthful(w, i + 1, next, deadline);
  }

  lemma NothingStarted()
    ensures Starts([]) == 0
  {
  }

  /** The caller's body starts at most once over all turns and both transports,
      and not at all when the command is reported as not dispatched. */
  lemma StartsAtMostOnce(w: World)
    requires HonestBody(w)
    ensures var o := Execute(w);
            && Starts(o.sent) <= 1
            && (o.result.Err? && o.result.error.NotDispatched? ==> Starts(o.sent) == 0)
            && Truthful(o.result, o.sent)
  {
    hide Loop, Starts;
    RefusalIsTruthful([], ScreenLocked) by { NothingStarted(); }
    RefusalIsTruthful([], WindowNotReady) by { NothingStarted(); }
    RefusalIsTruthful([], PageSilent) by { NothingStarted(); }
    LoopIsTruthful(w, 0, LoopState(w.start + w.prelude, None, None, []), w.start + w.timeout) by { NothingStarted(); }
  }

  // ---------------------------------------------------- what is told, exactly

  /** The page answered, and with a text that counts as a refusal. */
  ghost predicate Refused(d: Delivery) {
    exists error, effect :: Failed(d, error, effect) && LooksRefused(error)
  }

  ghost predicate AllRefused(sent: seq<Delivery>) {
    forall i :: 0 <= i < |sent| ==> Refused(sent[i])
  }

  /** The result and the deliveries fit: only refused ones were sent again, and
      one that was not refused is the last and tells the result. */
  ghost predicate Exact(result: Result, sent: seq<Delivery>) {
    if AllRefused(sent) then result.Err? && !result.error.ExecutionFailed?
    else
      var n := |sent| - 1;
      AllRefused(sent[..n]) && !Refused(sent[n]) && Tells(result, sent[n])
  }

  lemma RefusedIff(a: Attempt, d: Delivery)
    requires a.sent == [d] && Tells(a.result, d)
    ensures NotRunReason(a.result).Some? <==> Refused(d)
  {
    if a.result.Err? && a.result.error.ExecutionFailed? {
      ReasonIffMarked(a.result.error.error, a.result.error.effect);
    }
  }

  lemma UnansweredIsNotRefused(d: Delivery)
    requires !d.answered
    ensures !Refused(d)
  {
  }

  lemma JudgedExactly(a: Attempt, d: Delivery, refused: Option<string>, deadline: nat)
    requires IsAttempt(a, d) && (a.result.Err? && a.result.error.NotDispatched? ==> a.sent == [])
    ensures
      var x := Judge(a, refused, deadline);
      && |x.sent| <= 1
      && match x.verdict
         case Retry(_) => AllRefused(x.sent)
         case Done(result) => Exact(result, x.sent)
  {
    var x := Judge(a, refused, deadline);
    assert x.sent == a.sent;
    if a.sent == [d] && Tells(a.result, d) {
      RefusedIff(a, d);
      OneRefused(d);
    } else if a.sent != [] {
      UnansweredIsNotRefused(d.(answered := false));
      OneRefused(d.(answered := false));
    }
    hide Refused, NotRunReason;
  }

  lemma OneRefused(d: Delivery)
    ensures AllRefused([d]) <==> Refused(d)
    ensures [d][..0] == []
  {
    hide Refused;
    assert [d][0] == d;
  }

  lemma TransportIsExact(t: Turn, start: nat, refused: Option<string>, deadline: nat)
    ensures
      var x := Transport(t, start, refused, deadline);
      && |x.sent| <= 1
      && match x.verdict
         case Retry(_) => AllRefused(x.sent)
         case Done(result) => Exact(result, x.sent)
  {
    hide WsAttempt, EvalAttempt, NotRunReason, Refused, Tells, Judge, IsAttempt;
    var ws := WsAttempt(t.ws, start, deadline);
    WsIsAnAttempt(t.ws, start, deadline);
    JudgedExactly(ws, t.ws.delivery, refused, deadline);
    var eval := EvalAttempt(t.eval, ws.now + t.gap + t.probe, deadline);
    EvalIsAnAttempt(t.eval, ws.now + t.gap + t.probe, deadline);
    JudgedExactly(eval, t.eval.delivery, refused, deadline);
  }

  lemma ExactAfter(before: seq<Delivery>, result: Result, sent: seq<Delivery>)
    requires AllRefused(before) && |sent| <= 1 && Exact(result, sent)
    ensures Exact(result, before + sent)
  {
    hide Refused, Tells;
    if sent != [] {
      assert (before + sent)[..|before + sent| - 1] == before;
      assert sent == [sent[0]] && (before + sent)[|before|] == sent[0];
    }
  }

  ghost predicate TurnExact(e: TurnEnd) {
    match e
    case Return(result, sent) => Exact(result, sent)
    case Again(next) => AllRefused(next.sent)
  }

  lemma TurnIsExact(t: Turn, s: LoopState, deadline: nat)
    requires AllRefused(s.sent)
    ensures TurnExact(TakeTurn(t, s, deadline))
  {
    hide Refused, Transport, Tells;
    var now := s.now + t.pause;
    TransportIsExact(t, now, s.refused, deadline);
    var x := Transport(t, now, s.refused, deadline);
    assert s.sent + [] == s.sent;
    if x.verdict.Done? { ExactAfter(s.sent, x.verdict.result, x.sent); }
  }

  lemma {:induction false} LoopIsExact(w: World, i: nat, s: LoopState, deadline: nat)
    requires AllRefused(s.sent)
    ensures var o := Loop(w, i, s, deadline); Exact(o.result, o.sent)
    decreases if s.now < deadline then deadline - s.now else 0
  {
    var t := w.turn(i);
    TurnIsExact(t, s, deadline);
    TurnPassesTime(t, s, deadline);
    hide TakeTurn, Exact, AllRefused;
    match TakeTurn(t, s, deadline)
    case Return(_, _) =>
    case Again(next) => LoopIsExact(w, i + 1, next, deadline);
  }

  /** In every world: a delivery is followed by another only if the page answered
      it with a marked text; any other one is the last, and the caller is told
      what became of it. Without such a one the script is reported as not
      dispatched, or its outcome as unknown. */
  lemma CommandIsExact(w: World)
    ensures Exact(Execute(w).result, Execute(w).sent)
  {
    hide Loop, Exact;
    NothingIsExact(ScreenLocked);
    NothingIsExact(WindowNotReady);
    NothingIsExact(PageSilent);
    NothingRefused();
    LoopIsExact(w, 0, LoopState(w.start + w.prelude, None, None, []), w.start + w.timeout);
  }

  lemma NothingIsExact(refusal: Refusal)
    ensures Exact(Err(NotDispatched(refusal)), [])
  {
  }

  lemma NothingRefused()
    ensures AllRefused([])
  {
  }

  /** What the body returned or threw in time, unless its text is marked, is what
      the caller is told, effect and all, and nothing is delivered after it. */
  lemma OutcomeReachesTheCaller(w: World, i: nat)
    requires i < |Execute(w).sent| && Execute(w).sent[i].answered && Execute(w).sent[i].run.Ran?
    ensures var o := Execute(w);
            match o.sent[i].run.end
            case Returned(v) => i == |o.sent| - 1 && o.result == Ok(v)
            case Threw(error, effect) =>
              !LooksRefused(error) ==> i == |o.sent| - 1 && o.result == Err(ExecutionFailed(error, effect))
  {
    CommandIsExact(w);
    hide Execute, LooksRefused;
    var o := Execute(w);
    var d := o.sent[i];
    if d.run.end.Returned? || !LooksRefused(d.run.end.error) {
      assert !Refused(d);
    }
  }

  // ------------------------------------------------------------- the hypothesis

  ghost predicate ThrowsOnly(run: PageRun, error: string) {
    run.Ran? && run.end.Threw? ==> run.end.error == error
  }

  ghost predicate BodyThrowsOnly(w: World, error: string) {
    forall i: nat :: ThrowsOnly(w.turn(i).ws.delivery.run, error) && ThrowsOnly(w.turn(i).eval.delivery.run, error)
  }

  function ThrowingTurn(error: string): Turn {
    var d := Delivery(Ran(Threw(error, PossibleEffect)), true);
    Turn(false, 0, false,
         WsWorld(true, 0, false, true, true, false, Reachable, true, 0, false, true, 0, false, d, 0),
         true, 0, true, 0,
         EvalWorld(true, 0, Reachable, false, true, 0, false, d, 0),
         0, 0)
  }

  /** A healthy page whose body always throws this error. */
  function ThrowingWorld(error: string): World {
    World(0, 2 * NOT_RUN_RETRY + 1, false, false, false, true, 0, (_: nat) => ThrowingTurn(error))
  }

  predicate RecentlyUnconnected(s: LoopState) {
    s.unconnectedSince.Some? ==> s.unconnectedSince.value <= s.now <= s.unconnectedSince.value + NOT_RUN_RETRY
  }

  lemma ThrowingTurnRetries(error: string, s: LoopState, deadline: nat)
    requires LooksRefused(error) && s.now + NOT_RUN_RETRY < deadline && RecentlyUnconnected(s)
    ensures
      var e := TakeTurn(ThrowingTurn(error), s, deadline);
      && e.Again? && e.state.now == s.now + NOT_RUN_RETRY
      && e.state.sent == s.sent + [Delivery(Ran(Threw(error, PossibleEffect)), true)]
      && (s.unconnectedSince.None? ==> RecentlyUnconnected(e.state))
  {
  }

  lemma TransportSendsOnce(t: Turn, start: nat, refused: Option<string>, deadline: nat)
    ensures |Transport(t, start, refused, deadline).sent| <= 1
  {
  }

  function SentSoFar(e: TurnEnd): seq<Delivery> {
    match e
    case Return(_, sent) => sent
    case Again(next) => next.sent
  }

  lemma TurnKeepsStarts(t: Turn, s: LoopState, deadline: nat)
    ensures Starts(SentSoFar(TakeTurn(t, s, deadline))) >= Starts(s.sent)
  {
    hide Transport, Starts;
    var now := s.now + t.pause;
    TransportSendsOnce(t, now, s.refused, deadline);
    StartsOfConcat(s.sent, Transport(t, now, s.refused, deadline).sent);
    assert s.sent + [] == s.sent;
  }

  lemma {:induction false} LoopKeepsStarts(w: World, i: nat, s: LoopState, deadline: nat)
    ensures Starts(Loop(w, i, s, deadline).sent) >= Starts(s.sent)
    decreases if s.now < deadline then deadline - s.now else 0
  {
    TurnKeepsStarts(w.turn(i), s, deadline);
    TurnPassesTime(w.turn(i), s, deadline);
    hide TakeTurn, Starts;
    match TakeTurn(w.turn(i), s, deadline)
    case Return(_, _) =>
    case Again(next) => LoopKeepsStarts(w, i + 1, next, deadline);
  }

  /** A body whose error imitates the refusal is sent, and starts, again. */
  lemma MarkedErrorStartsTwice(error: string)
    requires LooksRefused(error)
    ensures BodyThrowsOnly(ThrowingWorld(error), error)
    ensures Starts(Execute(ThrowingWorld(error)).sent) >= 2
  {
    var w := ThrowingWorld(error);
    var d := Delivery(Ran(Threw(error, PossibleEffect)), true);
    var deadline := 2 * NOT_RUN_RETRY + 1;
    var s0 := LoopState(0, None, None, []);
    ThrowingTurnRetries(error, s0, deadline);
    var s1 := TakeTurn(ThrowingTurn(error), s0, deadline).state;
    ThrowingTurnRetries(error, s1, deadline);
    var s2 := TakeTurn(ThrowingTurn(error), s1, deadline).state;
    assert Starts([d]) == 1 by { assert [d][..0] == []; }
    assert Starts([d, d]) == 2 by { assert [d, d][..1] == [d]; }
    assert s2.sent == [d, d];
    LoopKeepsStarts(w, 2, s2, deadline);
    hide TakeTurn, Starts;
    assert Execute(w) == Loop(w, 0, s0, deadline);
    assert Loop(w, 0, s0, deadline) == Loop(w, 1, s1, deadline);
    assert Loop(w, 1, s1, deadline) == Loop(w, 2, s2, deadline);
  }

  /** For each error text: at most one start in every world whose body throws
      nothing but that text, exactly when the text is not marked as a refusal. */
  lemma AtMostOnceIffUnmarked(error: string)
    ensures (forall w: World | BodyThrowsOnly(w, error) :: Starts(Execute(w).sent) <= 1) <==> !LooksRefused(error)
  {
    hide Execute, Starts;
    if LooksRefused(error) {
      MarkedErrorStartsTwice(error);
    } else {
      forall w: World | BodyThrowsOnly(w, error) ensures Starts(Execute(w).sent) <= 1 {
        forall i: nat
          ensures HonestRun(w.turn(i).ws.delivery.run) && HonestRun(w.turn(i).eval.delivery.run)
        {
          assert ThrowsOnly(w.turn(i).ws.delivery.run, error) && ThrowsOnly(w.turn(i).eval.delivery.run, error);
        }
        StartsAtMostOnce(w);
      }
    }
  }

  // ----------------------------------------------------------------- deadline

  /** Every turn but the last is followed by a full pause inside the deadline,
      so the loop takes at most one turn more than pauses fit. */
  lemma {:induction false} TurnsFitTheDeadline(w: World, i: nat, s: LoopState, deadline: nat)
    ensures var o := Loop(w, i, s, deadline);
            o.turns > i && (o.turns > i + 1 ==> s.now + (o.turns - i - 1) * NOT_RUN_RETRY < deadline)
    decreases if s.now < deadline then deadline - s.now else 0
  {
    TurnPassesTime(w.turn(i), s, deadline);
    hide TakeTurn;
    match TakeTurn(w.turn(i), s, deadline)
    case Return(_, _) =>
    case Again(next) => TurnsFitTheDeadline(w, i + 1, next, deadline);
  }

  lemma RetriesAreBounded(w: World)
    ensures var turns := Execute(w).turns; turns <= 1 || (turns - 1) * NOT_RUN_RETRY < w.timeout
  {
    hide Loop;
    TurnsFitTheDeadline(w, 0, LoopState(w.start + w.prelude, None, None, []), w.start + w.timeout);
  }
}
