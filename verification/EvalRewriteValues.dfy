/**
 Which bodies keep their completion value, exactly, and bodies that lose it.
 */
module EvalRewriteValues {
  import opened Wrappers
  import opened EvalRewrite
  import opened EvalRewriteProofs
  import opened EvalRewriteLimits

  // ------------------------------------------------ values that may be left

  /** A value that devtools would show. */
  predicate Shows(v: Option<Value>) {
    v.Some? && v.value != Undefined
  }

  /** Some run of `s` goes through and leaves such a value. */
  predicate MayShow(s: Stmt) {
    match s
    case Expr(_) => true
    case Other(_) => true
    case Block(b) => Carries(b, false)
    case If(_, t, els) => Carries(t, false) || ElseMayShow(els)
    case BareIf(_, _, t, els) => MayShow(t) || ElseMayShow(els)
    case Try(b, h, _) => Carries(b, false) || (ListThrows(b) && ClauseMayShow(h))
    case Loop(_, _, b) => MayShow(b)
    case Label(_, b) => MayShow(b)
    case With(_, _, b) => MayShow(b)
    case _ => false
  }

  predicate ElseMayShow(els: Else) {
    els.Else? && MayShow(els.s)
  }

  predicate ClauseMayShow(h: Clause) {
    h.Clause? && Carries(h.body, false)
  }

  /** Some run of `s` goes through and leaves the value before it standing. */
  predicate MayBeEmpty(s: Stmt) {
    match s
    case Decl(_) => true
    case Binding(_) => true
    case Torn(_) => true
    case Block(b) => AllMayBeEmpty(b)
    case Label(_, b) => MayBeEmpty(b)
    case _ => false
  }

  predicate AllMayBeEmpty(ss: seq<Item>) {
    ss == [] ||
    var x := ss[|ss| - 1];
    assert x.s < x;
    (MayBeEmpty(x.s) && AllMayBeEmpty(ss[..|ss| - 1]))
  }

  /** A run through the list may leave a value that shows, be it its own or, for
      `left`, one that was left before it. */
  predicate Carries(ss: seq<Item>, left: bool) {
    if ss == [] then left
    else
      var x := ss[|ss| - 1];
      assert x.s < x;
      MayShow(x.s) || (MayBeEmpty(x.s) && Carries(ss[..|ss| - 1], left))
  }

  // --------------------------------------------------------- the condition

  /** What a caller can check: wherever the rewritten body goes through without
      returning, the original has no value to show. */
  predicate KeepsValue(ss: seq<Item>) {
    KeepsBody(ss, false)
  }

  /** `left`: a value may have been left before the list. */
  predicate KeepsBody(ss: seq<Item>, left: bool)
    decreases ss, 4
  {
    match ReturnList(ss)
    case None => !Carries(ss, left)
    case Some(_) => TurnLast(ss).Some? && KeepsLast(ss[|ss| - 1], Carries(ss[..|ss| - 1], left))
  }

  predicate KeepsLast(x: Item, left: bool)
    decreases x, 2
  {
    x.torn.None? && if CutInside(x.s).Some? then KeepsCut(x.s) else KeepsStatement(x.lead, x.s, left)
  }

  /** A cut inside an `else` loses what the other branch shows. */
  predicate KeepsCut(s: Stmt)
    decreases s, 0
  {
    match s
    case Label(_, b) => KeepsCutBody(b)
    case With(_, _, b) => KeepsCutBody(b)
    case BareIf(_, _, t, NoElse) => KeepsCutBody(t)
    case BareIf(_, _, t, Else(_, _, _, e)) => !MayShow(t) && KeepsCutBody(e)
    case If(_, t, Else(_, _, _, e)) => !Carries(t, false) && KeepsCutBody(e)
    case _ => false
  }

  predicate KeepsCutBody(b: Stmt)
    decreases b, 1
  {
    if CutInside(b).Some? then KeepsCut(b) else b.Expr?
  }

  predicate KeepsStatement(lead: Lead, s: Stmt, left: bool)
    decreases s, 1
  {
    match s
    case Expr(_) => true
    case Block(b) => !lead.Comment? && KeepsBody(b, left)
    case If(_, t, NoElse) => !lead.Comment? && KeepsBody(t, false)
    case If(_, t, Else(_, l, _, e)) => !lead.Comment? && KeepsBody(t, false) && KeepsStatement(l, e, false)
    case Try(b, h, _) => !lead.Comment? && KeepsBody(b, false) && (ListThrows(b) ==> KeepsClause(h))
    case _ => false
  }

  predicate KeepsClause(h: Clause)
    decreases h, 5
  {
    h.Clause? ==> KeepsBody(h.body, false)
  }

  // ---------------------------------------------------------- it is enough

  lemma {:induction false} NeverShows(s: Stmt, sc: Scope, t: Trace, w: World)
    requires Exec(s, sc, t, w).end.Normal?
    ensures !MayShow(s) ==> Hollow(Exec(s, sc, t, w).end.value)
    ensures !MayBeEmpty(s) ==> Exec(s, sc, t, w).end.value.Some?
    decreases s, 1
  {
    match s
    case Block(b) => BlockNeverShows(b, false, sc, t, w);
    case Label(_, b) => NeverShows(b, sc, t, w);
    case With(o, _, b) => NeverShows(b, sc, t + [Effect(Enter(o), sc)], w);
    case Loop(h, _, b) =>
      if !MayShow(b) { TimesNeverShow(b, w(|t|).times, sc, t + [Effect(Iterate(h), sc)], w, Undefined); }
      TimesGiveValue(b, w(|t|).times, sc, t + [Effect(Iterate(h), sc)], w, Undefined);
    case If(c, thn, els) =>
      var t' := t + [Effect(Test(c), sc)];
      if w(|t|).yes { BlockNeverShows(thn, false, sc, t', w); } else { ElseNeverShows(els, sc, t', w); }
    case BareIf(c, _, b, els) =>
      var t' := t + [Effect(Test(c), sc)];
      if w(|t|).yes { NeverShows(b, sc, t', w); } else { ElseNeverShows(els, sc, t', w); }
    case Try(b, h, f) => TryNeverShows(s, sc, t, w);
    case _ =>
  }

  lemma {:induction false} ElseNeverShows(els: Else, sc: Scope, t: Trace, w: World)
    requires ExecElse(els, sc, t, w).end.Normal?
    ensures !ElseMayShow(els) ==> Hollow(ExecElse(els, sc, t, w).end.value)
    ensures ExecElse(els, sc, t, w).end.value.Some?
    decreases els, 1
  {
    if els.Else? { NeverShows(els.s, sc, t, w); }
  }

  lemma {:induction false} CatchNeverShows(h: Clause, r: Run, sc: Scope, w: World)
    requires r.end.Throw? && ExecCatch(h, r, sc, w).end.Normal?
    ensures !ClauseMayShow(h) ==> Hollow(ExecCatch(h, r, sc, w).end.value)
    decreases h, 1
  {
    if h.Clause? { BlockNeverShows(h.body, false, sc, r.trace, w); }
  }

  lemma {:induction false} TryNeverShows(s: Stmt, sc: Scope, t: Trace, w: World)
    requires s.Try? && Exec(s, sc, t, w).end.Normal?
    ensures !MayShow(s) ==> Hollow(Exec(s, sc, t, w).end.value)
    ensures Exec(s, sc, t, w).end.value.Some?
    decreases s, 0
  {
    var b, h := s.tried, s.caught;
    var r := ExecBlock(b, sc, t, w);
    if r.end.Normal? { BlockNeverShows(b, false, sc, t, w); }
    if r.end.Throw? {
      if !ListThrows(b) { BlockNeverThrows(b, sc, t, w); }
      if ExecCatch(h, r, sc, w).end.Normal? { CatchNeverShows(h, r, sc, w); }
    }
    var r1 := if r.end.Throw? then ExecCatch(h, r, sc, w) else r;
    assert Exec(s, sc, t, w) == ExecFinally(s.finalizer, sc, r1, w);
    assert r1.end.Normal? && (!MayShow(s) ==> Hollow(r1.end.value));
  }

  lemma {:induction false} TimesNeverShow(b: Stmt, times: nat, sc: Scope, t: Trace, w: World, v: Value)
    requires !MayShow(b) && v == Undefined
    ensures var r := ExecTimes(b, times, sc, t, w, v); r.end.Normal? ==> r.end.value == Some(Undefined)
    decreases b, 2, times
  {
    if times > 0 {
      var r := Exec(b, sc, t, w);
      if r.end.Normal? {
        NeverShows(b, sc, t, w);
        TimesNeverShow(b, times - 1, sc, r.trace, w, v);
      }
    }
  }

  lemma {:induction false} TimesGiveValue(b: Stmt, times: nat, sc: Scope, t: Trace, w: World, v: Value)
    ensures var r := ExecTimes(b, times, sc, t, w, v); r.end.Normal? ==> r.end.value.Some?
    decreases times
  {
    if times > 0 {
      var r := Exec(b, sc, t, w);
      if r.end.Normal? {
        TimesGiveValue(b, times - 1, sc, r.trace, w, if r.end.value.Some? then r.end.value.value else v);
      }
    }
  }

  lemma {:induction false} BlockNeverShows(ss: seq<Item>, left: bool, sc: Scope, t: Trace, w: World)
    requires ExecBlock(ss, sc, t, w).end.Normal?
    ensures !Carries(ss, left) ==>
              Hollow(ExecBlock(ss, sc, t, w).end.value) && (left ==> ExecBlock(ss, sc, t, w).end.value.Some?)
    ensures !AllMayBeEmpty(ss) ==> ExecBlock(ss, sc, t, w).end.value.Some?
    decreases ss, 3
  {
    ListNeverShows(ss, left, sc + [Hoisted(ss)], t, w);
  }

  lemma {:induction false} ListNeverShows(ss: seq<Item>, left: bool, sc: Scope, t: Trace, w: World)
    requires ExecList(ss, sc, t, w, None).end.Normal?
    ensures var v := ExecList(ss, sc, t, w, None).end.value;
            (!Carries(ss, left) ==> Hollow(v) && (left ==> v.Some?)) && (!AllMayBeEmpty(ss) ==> v.Some?)
    decreases ss, 2
  {
    if ss != [] {
      var p, x := ss[..|ss| - 1], ss[|ss| - 1];
      LastOf(ss);
      ExecLast(p, x, sc, t, w, None);
      ListNeverShows(p, left, sc, t, w);
      assert x.s < x;
      NeverShows(x.s, sc, ExecList(p, sc, t, w, None).trace, w);
    }
  }

  /** The rewritten run gives the value itself, or goes through where there is
      none to show. */
  ghost predicate Kept(r: Run, r': Run, left: bool) {
    || (!r.end.Normal? && r' == r)
    || (r.end.Normal? && r'.end.Ret? && r'.trace == r.trace && r.end.value == Some(r'.end.result))
    || (r.end.Normal? && r'.end.Normal? && r'.trace == r.trace && Hollow(r.end.value) &&
        (left ==> r.end.value.Some?))
  }

  lemma {:induction false} KeptCut(s: Stmt, s': Stmt, sc: Scope, t: Trace, w: World)
    requires CutInside(s) == Some(s') && KeepsCut(s)
    ensures Kept(Exec(s, sc, t, w), Exec(s', sc, t, w), true)
    decreases s, 0
  {
    match s
    case Label(nl, b) => KeptCutBody(nl, b, s'.labelled, sc, t, w);
    case With(o, nl, b) => KeptCutBody(nl, b, s'.inner, sc, t + [Effect(Enter(o), sc)], w);
    case BareIf(c, nl, b, NoElse) => KeptCutBody(nl, b, s'.consequent, sc, t + [Effect(Test(c), sc)], w);
    case BareIf(c, _, b, Else(nl, _, _, e)) =>
      var t' := t + [Effect(Test(c), sc)];
      KeptCutBody(nl, e, s'.els.s, sc, t', w);
      if Exec(b, sc, t', w).end.Normal? { NeverShows(b, sc, t', w); }
    case If(c, b, Else(nl, _, _, e)) =>
      var t' := t + [Effect(Test(c), sc)];
      KeptCutBody(nl, e, s'.els.s, sc, t', w);
      if ExecBlock(b, sc, t', w).end.Normal? { BlockNeverShows(b, false, sc, t', w); }
    case _ =>
  }

  lemma {:induction false} KeptCutBody(nl: bool, b: Stmt, b': Stmt, sc: Scope, t: Trace, w: World)
    requires CutBody(nl, b) == Some(b') && KeepsCutBody(b)
    ensures Kept(Exec(b, sc, t, w), Exec(b', sc, t, w), true)
    decreases b, 1
  {
    if CutInside(b).Some? { KeptCut(b, b', sc, t, w); }
  }

  lemma {:induction false} KeptStatement(lead: Lead, misread: Option<Reading>, s: Stmt, s': Stmt, left: bool,
                                         sc: Scope, t: Trace, w: World)
    requires ReturnStatement(lead, misread, s, true) == Some(s') && KeepsStatement(lead, s, left)
    ensures Kept(Exec(s, sc, t, w), Exec(s', sc, t, w), left)
    decreases s, 1
  {
    match s
    case Expr(e) =>
    case Block(b) => KeptBody(b, left, sc, t, w);
    case If(c, thn, els) =>
      var t' := t + [Effect(Test(c), sc)];
      KeptBody(thn, false, sc, t', w);
      if els.Else? { KeptStatement(els.lead, els.misread, els.s, s'.els.s, false, sc, t', w); }
    case Try(b, h, f) => KeptTry(s, lead, left, sc, t, w);
    case _ =>
  }

  lemma {:induction false} KeptTry(s: Stmt, lead: Lead, left: bool, sc: Scope, t: Trace, w: World)
    requires s.Try? && KeepsStatement(lead, s, left)
    ensures Kept(Exec(s, sc, t, w), Exec(Try(ReturnBody(s.tried), ReturnClause(s.caught), s.finalizer), sc, t, w), left)
    decreases s, 0
  {
    var b, h := s.tried, s.caught;
    KeptBody(b, false, sc, t, w);
    var r := ExecBlock(b, sc, t, w);
    if r.end.Throw? {
      if !ListThrows(b) { BlockNeverThrows(b, sc, t, w); }
      if h.Clause? { KeptBody(h.body, false, sc, r.trace, w); }
    }
  }

  lemma {:induction false} KeptLast(x: Item, s': Stmt, left: bool, sc: Scope, t: Trace, w: World)
    requires KeepsLast(x, left) && Turns(x, s')
    ensures Kept(Exec(x.s, sc, t, w), Exec(s', sc, t, w), left)
    ensures !x.s.Decl? && !s'.Decl?
    decreases x, 2
  {
    if CutInside(x.s).Some? {
      KeptCut(x.s, s', sc, t, w);
    } else {
      KeptStatement(x.lead, x.misread, x.s, s', left, sc, t, w);
    }
  }

  lemma {:induction false} KeptBody(ss: seq<Item>, left: bool, sc: Scope, t: Trace, w: World)
    requires KeepsBody(ss, left)
    ensures Kept(ExecBlock(ss, sc, t, w), ExecBlock(ReturnBody(ss), sc, t, w), left)
    decreases ss, 4
  {
    if ReturnList(ss).None? {
      if ExecBlock(ss, sc, t, w).end.Normal? { BlockNeverShows(ss, left, sc, t, w); }
    } else {
      var n := |ss| - 1;
      var p, x, x' := ss[..n], ss[n], ss[n].(s := TurnLast(ss).value);
      LastOf(ss);
      TurnsLast(ss);
      var sc' := sc + [Hoisted(ss)];
      var r := ExecList(p, sc', t, w, None);
      KeptLast(x, x'.s, Carries(p, left), sc', r.trace, w);
      HoistedLast(p, x);
      HoistedLast(p, x');
      ExecLast(p, x, sc', t, w, None);
      ExecLast(p, x', sc', t, w, None);
      if r.end.Normal? { ListNeverShows(p, left, sc', t, w); }
    }
  }

  /** The rewritten body has the same effects in the same order and gives
      exactly the completion value, or the same throw or return. */
  ghost predicate Exact(ss: seq<Item>, rs: seq<Item>, w: World) {
    ExecBody(rs, w).trace == ExecBody(ss, w).trace && Settled(ExecBody(rs, w)) == Shown(ExecBody(ss, w))
  }

  /** Under the condition it does so in every run, returns or not. */
  lemma CompletionValueIsKept(ss: seq<Item>, w: World)
    requires ReturnList(ss).Some? && KeepsValue(ss)
    ensures Exact(ss, ReturnList(ss).value, w)
  {
    KeptBody(ss, false, [], [], w);
  }
}
