/**
 What the rewrite keeps. `Safe*` says which lists it may be used on; for those
 the rewritten body has the same effects in the same order, throws and returns
 the same, and gives the completion value or `undefined`.
 */
module EvalRewriteProofs {
  import opened Wrappers
  import opened EvalRewrite

  // ---------------------------------------------------------------- the claims

  /** Same effects in the same order, and the same outcome, save that a value
      may be lost (`undefined` instead). */
  ghost predicate Correct(ss: seq<Item>, rs: seq<Item>, w: World) {
    var r, r' := ExecBody(ss, w), ExecBody(rs, w);
    r'.trace == r.trace &&
    (Settled(r') == Shown(r) || (r.end.Normal? && Settled(r') == Ret(Undefined)))
  }

  /** What a caller can check: the cut that gives code is the one before the last
      statement or inside it, it is not in a loop, and what it returns is an
      expression statement, not other text that reads as an expression. */
  predicate SafeBody(ss: seq<Item>)
    decreases ss, 4
  {
    ReturnList(ss).Some? ==> TurnLast(ss).Some? && SafeLast(ss[|ss| - 1])
  }

  function TurnLast(ss: seq<Item>): Option<Stmt>
    requires ss != []
  {
    TurnAt(ss, |ss| - 1)
  }

  lemma TurnsLast(ss: seq<Item>)
    requires ReturnList(ss).Some? && TurnLast(ss).Some?
    ensures var n, s' := |ss| - 1, TurnLast(ss).value;
            ReturnBody(ss) == ss[..n] + [ss[n].(s := s')] && Turns(ss[n], s')
  {
    assert TurnFrom(ss, |ss|).Some?;
  }

  predicate SafeLast(x: Item)
    decreases x, 2
  {
    x.torn.None? && if CutInside(x.s).Some? then SafeCut(x.s) else SafeStatement(x.lead, x.s)
  }

  predicate SafeStatement(lead: Lead, s: Stmt)
    decreases s, 1
  {
    match s
    case Expr(_) => true
    case Block(b) => !lead.Comment? && SafeBody(b)
    case If(_, t, NoElse) => !lead.Comment? && SafeBody(t)
    case If(_, t, Else(_, l, _, e)) => !lead.Comment? && SafeBody(t) && SafeStatement(l, e)
    case Try(b, h, _) => !lead.Comment? && SafeBody(b) && (ListThrows(b) ==> SafeClause(h))
    case _ => false
  }

  predicate SafeClause(h: Clause)
    decreases h, 5
  {
    h.Clause? ==> SafeBody(h.body)
  }

  /** The cut inside `s` is before an expression statement and in no loop. */
  predicate SafeCut(s: Stmt)
    decreases s, 0
  {
    match s
    case Label(_, b) => SafeCutBody(b)
    case With(_, _, b) => SafeCutBody(b)
    case BareIf(_, _, t, NoElse) => SafeCutBody(t)
    case BareIf(_, _, _, Else(_, _, _, e)) => SafeCutBody(e)
    case If(_, _, Else(_, _, _, e)) => SafeCutBody(e)
    case _ => false
  }

  predicate SafeCutBody(b: Stmt)
    decreases b, 1
  {
    if CutInside(b).Some? then SafeCut(b) else b.Expr?
  }

  /** `s` holds something that may throw out of it. */
  predicate Throws(s: Stmt) {
    match s
    case Decl(_) => false
    case Block(b) => ListThrows(b)
    case Try(b, h, f) => (ListThrows(b) && ClauseThrows(h, true)) || ClauseThrows(f, false)
    case Label(_, b) => Throws(b)
    case _ => true
  }

  predicate ListThrows(ss: seq<Item>) {
    ss != [] &&
    var x := ss[|ss| - 1];
    assert x.s < x;
    (Throws(x.s) || ListThrows(ss[..|ss| - 1]))
  }

  predicate ClauseThrows(h: Clause, absent: bool) {
    match h
    case NoClause => absent
    case Clause(_, b) => ListThrows(b)
  }

  // ----------------------------------------------------- safe lists are correct

  /** One run stands for another, up to a lost value. */
  ghost predicate Good(r: Run, r': Run) {
    || r' == r
    || (r.end.Normal? && r'.end.Normal? && r'.trace == r.trace)
    || (r.end.Normal? && r'.end.Ret? && r'.trace == r.trace && r.end.value == Some(r'.end.result))
  }

  lemma {:induction false} NeverThrows(s: Stmt, sc: Scope, t: Trace, w: World)
    requires !Throws(s)
    ensures !Exec(s, sc, t, w).end.Throw?
    decreases s, 1
  {
    match s
    case Block(b) => BlockNeverThrows(b, sc, t, w);
    case Label(_, b) => NeverThrows(b, sc, t, w);
    case Try(b, h, f) =>
      var r := ExecBlock(b, sc, t, w);
      if !ListThrows(b) { BlockNeverThrows(b, sc, t, w); }
      if h.Clause? && !ListThrows(h.body) { BlockNeverThrows(h.body, sc, r.trace, w); }
      var r1 := if r.end.Throw? then ExecCatch(h, r, sc, w) else r;
      assert !r1.end.Throw?;
      if f.Clause? { BlockNeverThrows(f.body, sc, r1.trace, w); }
    case _ =>
  }

  lemma {:induction false} BlockNeverThrows(ss: seq<Item>, sc: Scope, t: Trace, w: World)
    requires !ListThrows(ss)
    ensures !ExecBlock(ss, sc, t, w).end.Throw?
    decreases ss, 3
  {
    ListNeverThrows(ss, sc + [Hoisted(ss)], t, w);
  }

  lemma {:induction false} ListNeverThrows(ss: seq<Item>, sc: Scope, t: Trace, w: World)
    requires !ListThrows(ss)
    ensures !ExecList(ss, sc, t, w, None).end.Throw?
    decreases ss, 2
  {
    if ss != [] {
      var p, x := ss[..|ss| - 1], ss[|ss| - 1];
      LastOf(ss);
      ExecLast(p, x, sc, t, w, None);
      ListNeverThrows(p, sc, t, w);
      var r := ExecList(p, sc, t, w, None);
      assert x.s < x;
      NeverThrows(x.s, sc, r.trace, w);
    }
  }

  lemma {:induction false} GoodCut(s: Stmt, s': Stmt, sc: Scope, t: Trace, w: World)
    requires CutInside(s) == Some(s') && SafeCut(s)
    ensures Good(Exec(s, sc, t, w), Exec(s', sc, t, w))
    decreases s, 0
  {
    match s
    case Label(nl, b) => GoodCutBody(nl, b, s'.labelled, sc, t, w);
    case With(o, nl, b) => GoodCutBody(nl, b, s'.inner, sc, t + [Effect(Enter(o), sc)], w);
    case BareIf(c, nl, b, NoElse) => GoodCutBody(nl, b, s'.consequent, sc, t + [Effect(Test(c), sc)], w);
    case BareIf(c, _, _, Else(nl, _, _, b)) => GoodCutBody(nl, b, s'.els.s, sc, t + [Effect(Test(c), sc)], w);
    case If(c, _, Else(nl, _, _, b)) => GoodCutBody(nl, b, s'.els.s, sc, t + [Effect(Test(c), sc)], w);
    case _ =>
  }

  lemma {:induction false} GoodCutBody(nl: bool, b: Stmt, b': Stmt, sc: Scope, t: Trace, w: World)
    requires CutBody(nl, b) == Some(b') && SafeCutBody(b)
    ensures Good(Exec(b, sc, t, w), Exec(b', sc, t, w))
    decreases b, 1
  {
    if CutInside(b).Some? { GoodCut(b, b', sc, t, w); }
  }

  lemma {:induction false} GoodStatement(lead: Lead, misread: Option<Reading>, s: Stmt, s': Stmt,
                                         sc: Scope, t: Trace, w: World)
    requires ReturnStatement(lead, misread, s, true) == Some(s') && SafeStatement(lead, s)
    ensures Good(Exec(s, sc, t, w), Exec(s', sc, t, w))
    decreases s, 1
  {
    match s
    case Expr(e) =>
    case Block(b) => GoodBody(b, sc, t, w);
    case If(c, thn, els) =>
      var t' := t + [Effect(Test(c), sc)];
      GoodBody(thn, sc, t', w);
      if els.Else? { GoodStatement(els.lead, els.misread, els.s, s'.els.s, sc, t', w); }
    case Try(b, h, f) => GoodTry(s, lead, sc, t, w);
    case _ =>
  }

  lemma {:induction false} GoodTry(s: Stmt, lead: Lead, sc: Scope, t: Trace, w: World)
    requires s.Try? && SafeStatement(lead, s)
    ensures Good(Exec(s, sc, t, w), Exec(Try(ReturnBody(s.tried), ReturnClause(s.caught), s.finalizer), sc, t, w))
    decreases s, 0
  {
    var b, h := s.tried, s.caught;
    GoodBody(b, sc, t, w);
    var r := ExecBlock(b, sc, t, w);
    if r.end.Throw? {
      if !ListThrows(b) { BlockNeverThrows(b, sc, t, w); }
      if h.Clause? { GoodBody(h.body, sc, r.trace, w); }
    }
  }

  /** `s'` is what the last item's statement is turned into. */
  predicate Turns(x: Item, s': Stmt) {
    || (x.torn.Some? && s' == Torn(x.torn.value))
    || (x.torn.None? && CutInside(x.s) == Some(s'))
    || (x.torn.None? && CutInside(x.s).None? && ReturnStatement(x.lead, x.misread, x.s, true) == Some(s'))
  }

  lemma {:induction false} GoodLast(x: Item, s': Stmt, sc: Scope, t: Trace, w: World)
    requires SafeLast(x) && Turns(x, s')
    ensures Good(Exec(x.s, sc, t, w), Exec(s', sc, t, w))
    ensures !x.s.Decl? && !s'.Decl?
    decreases x, 2
  {
    if CutInside(x.s).Some? {
      GoodCut(x.s, s', sc, t, w);
    } else {
      GoodStatement(x.lead, x.misread, x.s, s', sc, t, w);
    }
  }

  lemma {:induction false} GoodBody(ss: seq<Item>, sc: Scope, t: Trace, w: World)
    requires SafeBody(ss)
    ensures Good(ExecBlock(ss, sc, t, w), ExecBlock(ReturnBody(ss), sc, t, w))
    decreases ss, 4
  {
    if ReturnList(ss).Some? {
      var n := |ss| - 1;
      var p, x, x' := ss[..n], ss[n], ss[n].(s := TurnLast(ss).value);
      LastOf(ss);
      TurnsLast(ss);
      var sc' := sc + [Hoisted(ss)];
      var r := ExecList(p, sc', t, w, None);
      GoodLast(x, x'.s, sc', r.trace, w);
      HoistedLast(p, x);
      HoistedLast(p, x');
      ExecLast(p, x, sc', t, w, None);
      ExecLast(p, x', sc', t, w, None);
    }
  }

  /** Every safe list keeps its meaning, whatever returns and throws it holds. */
  lemma SafeRewriteIsCorrect(ss: seq<Item>, w: World)
    requires ReturnList(ss).Some? && SafeBody(ss)
    ensures Correct(ss, ReturnList(ss).value, w)
  {
    GoodBody(ss, [], [], w);
  }
}
