/**
 Where the rewrite loses the completion value: for every body without a
 `return` that does not meet the condition, a run is built that shows it.
 */
module EvalRewriteLosses {
  import opened Wrappers
  import opened EvalRewrite
  import opened EvalRewriteProofs
  import opened EvalRewriteLimits
  import opened EvalRewriteValues

  /** A run that leaves a value to show, and is quiet from there on. */
  ghost predicate ShowsThen(r: Run, w: World) {
    r.end.Normal? && Shows(r.end.value) && QuietFrom(w, |r.trace|)
  }

  /** A run that leaves the value before it standing, and is quiet after. */
  ghost predicate PassesThen(r: Run, w: World) {
    r.end == Normal(None) && QuietFrom(w, |r.trace|)
  }

  ghost predicate CarriesThen(r: Run, left: bool, w: World) {
    ShowsThen(r, w) || (left && PassesThen(r, w))
  }

  const SHOWN := QUIET.(value := Datum(0))

  lemma {:induction false} ShowWitness(s: Stmt, sc: Scope, t: Trace) returns (w: World)
    requires NoReturn(s) && MayShow(s)
    ensures ShowsThen(Exec(s, sc, t, w), w)
    decreases s, 1
  {
    if s.Expr? || s.Other? {
      w := Set(QuietWorld(), |t|, SHOWN);
    } else if s.Block? {
      w := BlockCarryWitness(s.body, false, sc, t);
    } else if s.Try? {
      w := TryShowWitness(s, sc, t);
    } else if s.Label? {
      w := ShowWitness(s.labelled, sc, t);
    } else if s.If? || s.BareIf? {
      w := IfShowWitness(s, sc, t);
    } else if s.Loop? {
      var t1 := t + [Effect(Iterate(s.h), sc)];
      var w1 := ShowWitness(s.repeated, sc, t1);
      w := Set(w1, |t|, QUIET.(times := 1));
      Same(s.repeated, sc, t1, w1, sc, t1, w);
      var r := Exec(s.repeated, sc, t1, w);
      assert ExecTimes(s.repeated, 0, sc, r.trace, w, r.end.value.value) == Run(r.trace, r.end);
    } else {
      var t1 := t + [Effect(Enter(s.o), sc)];
      var w1 := ShowWitness(s.inner, sc, t1);
      w := Set(w1, |t|, QUIET);
      Same(s.inner, sc, t1, w1, sc, t1, w);
    }
  }

  lemma {:induction false} IfShowWitness(s: Stmt, sc: Scope, t: Trace) returns (w: World)
    requires (s.If? || s.BareIf?) && NoReturn(s) && MayShow(s)
    ensures ShowsThen(Exec(s, sc, t, w), w)
    decreases s, 0
  {
    var t1 := t + [Effect(Test(s.c), sc)];
    if ElseMayShow(s.els) {
      assert ElseNoReturn(s.els);
      var w1 := ShowWitness(s.els.s, sc, t1);
      w := Set(w1, |t|, QUIET);
      Same(s.els.s, sc, t1, w1, sc, t1, w);
    } else if s.If? {
      var w1 := BlockCarryWitness(s.thn, false, sc, t1);
      w := Set(w1, |t|, YES);
      SameBlock(s.thn, sc, t1, w1, sc, t1, w);
    } else {
      var w1 := ShowWitness(s.consequent, sc, t1);
      w := Set(w1, |t|, YES);
      Same(s.consequent, sc, t1, w1, sc, t1, w);
    }
  }

  lemma {:induction false} TryShowWitness(s: Stmt, sc: Scope, t: Trace) returns (w: World)
    requires s.Try? && NoReturn(s) && MayShow(s)
    ensures ShowsThen(Exec(s, sc, t, w), w)
    decreases s, 0
  {
    var b, h, f := s.tried, s.caught, s.finalizer;
    if Carries(b, false) {
      w := BlockCarryWitness(b, false, sc, t);
      QuietFinally(f, sc, ExecBlock(b, sc, t, w), w);
    } else {
      assert ClauseNoReturn(h) && ClauseMayShow(h);
      var w1 := BlockThrowWitness(b, sc, t);
      var r1 := ExecBlock(b, sc, t, w1);
      var w2 := BlockCarryWitness(h.body, false, sc, r1.trace);
      w := Splice(w1, w2, |r1.trace|);
      SameBlock(b, sc, t, w1, sc, t, w);
      var r := ExecBlock(b, sc, t, w);
      SameBlock(h.body, sc, r1.trace, w2, sc, r.trace, w);
      QuietFinally(f, sc, ExecCatch(h, r, sc, w), w);
    }
  }

  lemma {:induction false} QuietIsEmpty(s: Stmt, sc: Scope, t: Trace, w: World)
    requires NoReturn(s) && MayBeEmpty(s) && QuietFrom(w, |t|)
    ensures Exec(s, sc, t, w).end == Normal(None)
    decreases s, 1
  {
    match s
    case Block(b) => QuietListIsEmpty(b, sc + [Hoisted(b)], t, w);
    case Label(_, b) => QuietIsEmpty(b, sc, t, w);
    case _ =>
  }

  lemma {:induction false} QuietListIsEmpty(ss: seq<Item>, sc: Scope, t: Trace, w: World)
    requires NoneReturn(ss) && AllMayBeEmpty(ss) && QuietFrom(w, |t|)
    ensures ExecList(ss, sc, t, w, None).end == Normal(None)
    decreases ss, 2
  {
    if ss != [] {
      var p, x := ss[..|ss| - 1], ss[|ss| - 1];
      LastOf(ss);
      ExecLast(p, x, sc, t, w, None);
      QuietListIsEmpty(p, sc, t, w);
      assert x.s < x;
      QuietIsEmpty(x.s, sc, ExecList(p, sc, t, w, None).trace, w);
    }
  }

  lemma {:induction false} BlockCarryWitness(ss: seq<Item>, left: bool, sc: Scope, t: Trace) returns (w: World)
    requires NoneReturn(ss) && Carries(ss, left)
    ensures CarriesThen(ExecBlock(ss, sc, t, w), left, w)
    decreases ss, 3
  {
    w := CarryWitness(ss, left, sc + [Hoisted(ss)], t);
  }

  lemma {:induction false} CarryWitness(ss: seq<Item>, left: bool, sc: Scope, t: Trace) returns (w: World)
    requires NoneReturn(ss) && Carries(ss, left)
    ensures CarriesThen(ExecList(ss, sc, t, w, None), left, w)
    decreases ss, 2
  {
    if ss == [] {
      w := QuietWorld();
    } else {
      var p, x, quiet := ss[..|ss| - 1], ss[|ss| - 1], QuietWorld();
      LastOf(ss);
      assert x.s < x;
      if MayShow(x.s) {
        var r := ExecList(p, sc, t, quiet, None);
        QuietList(p, sc, t, quiet);
        var w1 := ShowWitness(x.s, sc, r.trace);
        w := Splice(quiet, w1, |r.trace|);
        SameList(p, sc, t, quiet, sc, t, w);
        Same(x.s, sc, r.trace, w1, sc, ExecList(p, sc, t, w, None).trace, w);
      } else {
        w := CarryWitness(p, left, sc, t);
        QuietIsEmpty(x.s, sc, ExecList(p, sc, t, w, None).trace, w);
        QuietRun(x.s, sc, ExecList(p, sc, t, w, None).trace, w);
      }
      ExecLast(p, x, sc, t, w, None);
    }
  }

  // ----------------------------------------------------------- lost values

  ghost predicate Through(r: Run, r': Run) {
    r'.end.Normal? && |r'.trace| == |r.trace|
  }

  /** Both go through, and the original has a value to show. */
  ghost predicate Loses(r: Run, r': Run, left: bool, w: World) {
    || (Through(r, r') && ShowsThen(r, w))
    || (Through(r, r') && left && PassesThen(r, w))
  }

  lemma {:induction false} LoseCut(s: Stmt, s': Stmt, sc: Scope, t: Trace) returns (w: World)
    requires CutInside(s) == Some(s') && SafeCut(s) && !KeepsCut(s) && NoReturn(s)
    ensures Loses(Exec(s, sc, t, w), Exec(s', sc, t, w), false, w)
    decreases s, 1
  {
    if s.BareIf? && s.els.Else? && MayShow(s.consequent) {
      var t1 := t + [Effect(Test(s.c), sc)];
      var w1 := ShowWitness(s.consequent, sc, t1);
      w := Set(w1, |t|, YES);
      Same(s.consequent, sc, t1, w1, sc, t1, w);
    } else if s.If? && Carries(s.thn, false) {
      var t1 := t + [Effect(Test(s.c), sc)];
      var w1 := BlockCarryWitness(s.thn, false, sc, t1);
      w := Set(w1, |t|, YES);
      SameBlock(s.thn, sc, t1, w1, sc, t1, w);
    } else {
      WayToLose(s, s');
      w := LoseInside(s, s', sc, t);
    }
  }

  lemma WayToLose(s: Stmt, s': Stmt)
    requires CutInside(s) == Some(s') && SafeCut(s) && !KeepsCut(s)
    requires s.BareIf? && s.els.Else? ==> !MayShow(s.consequent)
    requires s.If? ==> !Carries(s.thn, false)
    ensures !s.Loop?
    ensures var y := WayIn(s, s');
            CutInside(y.body) == Some(y.cut) && SafeCut(y.body) && !KeepsCut(y.body)
  {
    var y := WayIn(s, s');
    assert SafeCutBody(y.body) && !KeepsCutBody(y.body);
    assert CutBody(y.nl, y.body) == Some(y.cut);
  }

  lemma {:induction false} LoseInside(s: Stmt, s': Stmt, sc: Scope, t: Trace) returns (w: World)
    requires CutInside(s) == Some(s') && !s.Loop? && NoReturn(s)
    requires var y := WayIn(s, s');
             CutInside(y.body) == Some(y.cut) && SafeCut(y.body) && !KeepsCut(y.body)
    ensures Loses(Exec(s, sc, t, w), Exec(s', sc, t, w), false, w)
    decreases s, 0
  {
    hide Exec, CutInside, SafeCut, KeepsCut, WayIn;
    var y := WayIn(s, s');
    var t1 := Led(y, sc, t);
    WayLeadsIn(s, s', sc, t, Set(QuietWorld(), |t|, y.answer));
    WayHasSize(s, s');
    var w1 := LoseCut(y.body, y.cut, sc, t1);
    w := if y.what.Some? then Set(w1, |t|, y.answer) else w1;
    WayLeadsIn(s, s', sc, t, w);
    Same(y.body, sc, t1, w1, sc, t1, w);
    Same(y.cut, sc, t1, w1, sc, t1, w);
  }

  lemma {:induction false} LoseStatement(lead: Lead, misread: Option<Reading>, s: Stmt, s': Stmt, left: bool,
                                         sc: Scope, t: Trace)
    returns (w: World)
    requires ReturnStatement(lead, misread, s, true) == Some(s') && SafeStatement(lead, s) && NoReturn(s)
    requires !KeepsStatement(lead, s, left)
    ensures Loses(Exec(s, sc, t, w), Exec(s', sc, t, w), left, w)
    decreases s, 1
  {
    if s.Block? {
      w := LoseBody(s.body, left, sc, t);
    } else if s.Try? {
      w := LoseTry(s, lead, left, sc, t);
    } else {
      w := LoseIf(s, lead, misread, s', left, sc, t);
    }
  }

  lemma {:induction false} LoseIf(s: Stmt, lead: Lead, misread: Option<Reading>, s': Stmt, left: bool,
                                  sc: Scope, t: Trace) returns (w: World)
    requires s.If? && ReturnStatement(lead, misread, s, true) == Some(s') && SafeStatement(lead, s) && NoReturn(s)
    requires !KeepsStatement(lead, s, left)
    ensures Loses(Exec(s, sc, t, w), Exec(s', sc, t, w), left, w)
    decreases s, 0
  {
    var t1 := t + [Effect(Test(s.c), sc)];
    if !KeepsBody(s.thn, false) {
      var w1 := LoseBody(s.thn, false, sc, t1);
      w := Set(w1, |t|, YES);
      SameBlock(s.thn, sc, t1, w1, sc, t1, w);
      SameBlock(ReturnBody(s.thn), sc, t1, w1, sc, t1, w);
      assert Exec(s, sc, t, w) == Filled(ExecBlock(s.thn, sc, t1, w));
      assert Exec(s', sc, t, w) == Filled(ExecBlock(ReturnBody(s.thn), sc, t1, w));
    } else {
      var w1 := LoseStatement(s.els.lead, s.els.misread, s.els.s, s'.els.s, false, sc, t1);
      w := Set(w1, |t|, QUIET);
      Same(s.els.s, sc, t1, w1, sc, t1, w);
      Same(s'.els.s, sc, t1, w1, sc, t1, w);
      assert Exec(s, sc, t, w) == Filled(Exec(s.els.s, sc, t1, w));
      assert Exec(s', sc, t, w) == Filled(Exec(s'.els.s, sc, t1, w));
    }
  }

  lemma {:induction false} LoseTry(s: Stmt, lead: Lead, left: bool, sc: Scope, t: Trace) returns (w: World)
    requires s.Try? && SafeStatement(lead, s) && NoReturn(s) && !KeepsStatement(lead, s, left)
    ensures Loses(Exec(s, sc, t, w),
                  Exec(Try(ReturnBody(s.tried), ReturnClause(s.caught), s.finalizer), sc, t, w), left, w)
    decreases s, 0
  {
    var b, h, f := s.tried, s.caught, s.finalizer;
    if !KeepsBody(b, false) {
      w := LoseBody(b, false, sc, t);
      QuietFinally(f, sc, ExecBlock(b, sc, t, w), w);
      QuietFinally(f, sc, ExecBlock(ReturnBody(b), sc, t, w), w);
    } else {
      w := LoseCatch(b, h, sc, t);
      var r := ExecBlock(b, sc, t, w);
      GoodBody(b, sc, t, w);
      QuietFinally(f, sc, ExecCatch(h, r, sc, w), w);
      QuietFinally(f, sc, ExecCatch(ReturnClause(h), r, sc, w), w);
    }
  }

  lemma {:induction false} LoseCatch(b: seq<Item>, h: Clause, sc: Scope, t: Trace) returns (w: World)
    requires ListThrows(b) && SafeClause(h) && !KeepsClause(h) && NoneReturn(b) && ClauseNoReturn(h)
    ensures var r := ExecBlock(b, sc, t, w);
            r.end.Throw? && Loses(ExecCatch(h, r, sc, w), ExecCatch(ReturnClause(h), r, sc, w), false, w)
    decreases h, 0
  {
    var w1 := BlockThrowWitness(b, sc, t);
    var r1 := ExecBlock(b, sc, t, w1);
    var w2 := LoseBody(h.body, false, sc, r1.trace);
    w := Splice(w1, w2, |r1.trace|);
    SameBlock(b, sc, t, w1, sc, t, w);
    var r := ExecBlock(b, sc, t, w);
    SameBlock(h.body, sc, r1.trace, w2, sc, r.trace, w);
    SameBlock(ReturnBody(h.body), sc, r1.trace, w2, sc, r.trace, w);
  }

  lemma {:induction false} LoseBody(ss: seq<Item>, left: bool, sc: Scope, t: Trace) returns (w: World)
    requires SafeBody(ss) && !KeepsBody(ss, left) && NoneReturn(ss)
    ensures Loses(ExecBlock(ss, sc, t, w), ExecBlock(ReturnBody(ss), sc, t, w), left, w)
    decreases ss, 4
  {
    if ReturnList(ss).None? {
      w := BlockCarryWitness(ss, left, sc, t);
    } else {
      w := LoseTurn(ss, left, sc, t);
    }
  }

  /** A way through what precedes the last statement that leaves as much as may
      be left. */
  lemma {:induction false} Approach(p: seq<Item>, left: bool, sc: Scope, t: Trace) returns (w: World)
    requires NoneReturn(p)
    ensures var r := ExecList(p, sc, t, w, None);
            r.end.Normal? && QuietFrom(w, |r.trace|) && (Carries(p, left) ==> CarriesThen(r, left, w))
  {
    if Carries(p, left) {
      w := CarryWitness(p, left, sc, t);
    } else {
      w := QuietWorld();
      QuietList(p, sc, t, w);
    }
  }

  lemma {:induction false} LoseLast(x: Item, s': Stmt, left: bool, sc: Scope, t: Trace) returns (w: World)
    requires SafeLast(x) && !KeepsLast(x, left) && NoReturn(x.s) && Turns(x, s')
    ensures Loses(Exec(x.s, sc, t, w), Exec(s', sc, t, w), left, w)
    decreases x, 2
  {
    assert x.s < x;
    if CutInside(x.s).Some? {
      w := LoseCut(x.s, s', sc, t);
    } else {
      w := LoseStatement(x.lead, x.misread, x.s, s', left, sc, t);
    }
  }

  lemma {:induction false} LoseTurn(ss: seq<Item>, left: bool, sc: Scope, t: Trace) returns (w: World)
    requires SafeBody(ss) && !KeepsBody(ss, left) && NoneReturn(ss) && ReturnList(ss).Some?
    ensures Loses(ExecBlock(ss, sc, t, w), ExecBlock(ReturnBody(ss), sc, t, w), left, w)
    decreases ss, 3
  {
    var n, rs := |ss| - 1, ReturnBody(ss);
    var p, x, x' := ss[..n], ss[n], ss[n].(s := TurnLast(ss).value);
    LastOf(ss);
    TurnsLast(ss);
    GoodLast(x, x'.s, sc, t, QuietWorld());
    HoistedLast(p, x);
    HoistedLast(p, x');
    var sc' := sc + [Hoisted(ss)];
    var w0 := Approach(p, left, sc', t);
    var r := ExecList(p, sc', t, w0, None);
    var w1 := LoseLast(x, x'.s, Carries(p, left), sc', r.trace);
    hide SafeBody, KeepsBody, ReturnList, ReturnBody, TurnLast, Carries, Hoisted, Exec;
    w := Splice(w0, w1, |r.trace|);
    SameList(p, sc', t, w0, sc', t, w);
    var r1 := ExecList(p, sc', t, w, None);
    Same(x.s, sc', r.trace, w1, sc', r1.trace, w);
    Same(x'.s, sc', r.trace, w1, sc', r1.trace, w);
    ExecLast(p, x, sc', t, w, None);
    ExecLast(p, x', sc', t, w, None);
  }

  lemma LossShows(ss: seq<Item>) returns (w: World)
    requires NoneReturn(ss) && ReturnList(ss).Some? && !KeepsValue(ss)
    ensures !Exact(ss, ReturnList(ss).value, w)
  {
    if SafeBody(ss) {
      w := LoseBody(ss, false, [], []);
    } else {
      w := UnsafeRewriteIsWrong(ss);
    }
  }

  /** For a body without a `return`, the rewritten code has the same effects and
      gives exactly the completion value in every run exactly when the
      condition holds. */
  lemma ValueKeptIff(ss: seq<Item>)
    requires NoneReturn(ss) && ReturnList(ss).Some?
    ensures (forall w: World :: Exact(ss, ReturnList(ss).value, w)) <==> KeepsValue(ss)
  {
    if KeepsValue(ss) {
      forall w: World ensures Exact(ss, ReturnList(ss).value, w) {
        CompletionValueIsKept(ss, w);
      }
    } else {
      var w := LossShows(ss);
    }
  }

  // ------------------------------------------------- a class that is promised

  /** Every list in a last place ends in an expression, a block, an `if` or a
      `try` that the rewriter cuts before; those of an `if` or a `try` may be
      empty. */
  predicate EndsWell(ss: seq<Item>)
    decreases ss, 4
  {
    ReturnList(ss).Some? && TurnLast(ss).Some? && ss[|ss| - 1].torn.None? && CutInside(ss[|ss| - 1].s).None? &&
    var x := ss[|ss| - 1];
    assert x.s < x;
    StatementEndsWell(x.lead, x.s)
  }

  predicate EndsWellOrEmpty(ss: seq<Item>)
    decreases ss, 5
  {
    ss == [] || EndsWell(ss)
  }

  predicate StatementEndsWell(lead: Lead, s: Stmt)
    decreases s, 1
  {
    match s
    case Expr(_) => true
    case Block(b) => !lead.Comment? && EndsWell(b)
    case If(_, t, NoElse) => !lead.Comment? && EndsWellOrEmpty(t)
    case If(_, t, Else(_, l, _, e)) => !lead.Comment? && EndsWellOrEmpty(t) && StatementEndsWell(l, e)
    case Try(b, h, _) => !lead.Comment? && EndsWellOrEmpty(b) && (h.Clause? ==> EndsWellOrEmpty(h.body))
    case _ => false
  }

  lemma {:induction false} EndsWellKeepsValue(ss: seq<Item>, left: bool)
    requires EndsWell(ss)
    ensures KeepsBody(ss, left)
    decreases ss, 4
  {
    var x := ss[|ss| - 1];
    assert x.s < x;
    StatementKeepsValue(x.lead, x.s, Carries(ss[..|ss| - 1], left));
  }

  lemma {:induction false} StatementKeepsValue(lead: Lead, s: Stmt, left: bool)
    requires StatementEndsWell(lead, s)
    ensures KeepsStatement(lead, s, left)
    decreases s, 1
  {
    match s
    case Block(b) => EndsWellKeepsValue(b, left);
    case If(_, t, els) =>
      if t != [] { EndsWellKeepsValue(t, false); }
      if els.Else? { StatementKeepsValue(els.lead, els.s, false); }
    case Try(b, h, _) =>
      if b != [] { EndsWellKeepsValue(b, false); }
      if h.Clause? && h.body != [] { EndsWellKeepsValue(h.body, false); }
    case _ =>
  }
}
