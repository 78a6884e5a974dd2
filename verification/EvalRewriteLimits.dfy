/**
 Where the rewrite loses the meaning: for every body without a `return` that is
 not safe, a run is built in which the rewritten body behaves differently.
 */
module EvalRewriteLimits {
  import opened Wrappers
  import opened EvalRewrite
  import opened EvalRewriteProofs

  // -------------------------------------------------- runs and their worlds

  /** No `return` anywhere. */
  predicate NoReturn(s: Stmt) {
    match s
    case Return(_) => false
    case Torn(_) => false
    case Block(b) => NoneReturn(b)
    case If(_, t, els) => NoneReturn(t) && ElseNoReturn(els)
    case BareIf(_, _, t, els) => NoReturn(t) && ElseNoReturn(els)
    case Try(b, h, f) => NoneReturn(b) && ClauseNoReturn(h) && ClauseNoReturn(f)
    case Loop(_, _, b) => NoReturn(b)
    case Label(_, b) => NoReturn(b)
    case With(_, _, b) => NoReturn(b)
    case _ => true
  }

  predicate ElseNoReturn(els: Else) {
    els.Else? ==> NoReturn(els.s)
  }

  predicate ClauseNoReturn(h: Clause) {
    h.Clause? ==> NoneReturn(h.body)
  }

  predicate NoneReturn(ss: seq<Item>) {
    ss == [] ||
    var x := ss[|ss| - 1];
    assert x.s < x;
    (NoReturn(x.s) && NoneReturn(ss[..|ss| - 1]))
  }

  const QUIET := Answer(Undefined, false, false, false, 0, Object)

  /** From here on nothing throws, returns, holds or loops; only code that is
      not in the body would give a value. */
  ghost predicate QuietFrom(w: World, lo: nat) {
    forall n: nat :: lo <= n ==> w(n) == QUIET
  }

  ghost predicate Agree(w: World, w': World, lo: nat, hi: nat) {
    forall n: nat :: lo <= n < hi ==> w(n) == w'(n)
  }

  /** How many effects a quiet run has. */
  function Size(s: Stmt): nat {
    match s
    case Decl(_) => 0
    case Block(b) => ListSize(b)
    case If(_, _, els) => 1 + ElseSize(els)
    case BareIf(_, _, _, els) => 1 + ElseSize(els)
    case Try(b, _, f) => ListSize(b) + ClauseSize(f)
    case Label(_, b) => Size(b)
    case With(_, _, b) => 1 + Size(b)
    case _ => 1
  }

  function ElseSize(els: Else): nat {
    if els.Else? then Size(els.s) else 0
  }

  function ClauseSize(f: Clause): nat {
    if f.Clause? then ListSize(f.body) else 0
  }

  function ListSize(ss: seq<Item>): nat {
    if ss == [] then 0
    else
      var x := ss[|ss| - 1];
      assert x.s < x;
      ListSize(ss[..|ss| - 1]) + Size(x.s)
  }

  predicate Hollow(v: Option<Value>) {
    v == None || v == Some(Undefined)
  }

  /** A quiet run goes through to the end and shows no value. */
  ghost predicate Quiet(r: Run, t: Trace, size: nat) {
    |r.trace| == |t| + size && r.end.Normal? && Hollow(r.end.value)
  }

  lemma {:induction false} QuietRun(s: Stmt, sc: Scope, t: Trace, w: World)
    requires NoReturn(s) && QuietFrom(w, |t|)
    ensures Quiet(Exec(s, sc, t, w), t, Size(s))
    decreases s, 1
  {
    match s
    case Block(b) => QuietBlock(b, sc, t, w);
    case If(c, _, els) => QuietElse(els, sc, t + [Effect(Test(c), sc)], w);
    case BareIf(c, _, _, els) => QuietElse(els, sc, t + [Effect(Test(c), sc)], w);
    case Label(_, b) => QuietRun(b, sc, t, w);
    case With(o, _, b) => QuietRun(b, sc, t + [Effect(Enter(o), sc)], w);
    case Try(b, h, f) =>
      QuietBlock(b, sc, t, w);
      QuietFinally(f, sc, ExecBlock(b, sc, t, w), w);
    case _ =>
  }

  lemma {:induction false} QuietElse(els: Else, sc: Scope, t: Trace, w: World)
    requires ElseNoReturn(els) && QuietFrom(w, |t|)
    ensures Quiet(ExecElse(els, sc, t, w), t, ElseSize(els))
    decreases els, 1
  {
    if els.Else? { QuietRun(els.s, sc, t, w); }
  }

  /** A finalizer that runs quietly keeps the outcome of what it follows. */
  lemma {:induction false} QuietFinally(f: Clause, sc: Scope, r: Run, w: World)
    requires ClauseNoReturn(f) && QuietFrom(w, |r.trace|)
    ensures |ExecFinally(f, sc, r, w).trace| == |r.trace| + ClauseSize(f)
    ensures ExecFinally(f, sc, r, w).end == Filled(r).end
    decreases f, 1
  {
    if f.Clause? { QuietBlock(f.body, sc, r.trace, w); }
  }

  lemma {:induction false} QuietBlock(ss: seq<Item>, sc: Scope, t: Trace, w: World)
    requires NoneReturn(ss) && QuietFrom(w, |t|)
    ensures Quiet(ExecBlock(ss, sc, t, w), t, ListSize(ss))
    decreases ss, 3
  {
    QuietList(ss, sc + [Hoisted(ss)], t, w);
  }

  lemma {:induction false} QuietList(ss: seq<Item>, sc: Scope, t: Trace, w: World)
    requires NoneReturn(ss) && QuietFrom(w, |t|)
    ensures Quiet(ExecList(ss, sc, t, w, None), t, ListSize(ss))
    decreases ss, 2
  {
    if ss != [] {
      var p, x := ss[..|ss| - 1], ss[|ss| - 1];
      LastOf(ss);
      ExecLast(p, x, sc, t, w, None);
      QuietList(p, sc, t, w);
      assert x.s < x;
      QuietRun(x.s, sc, ExecList(p, sc, t, w, None).trace, w);
    }
  }

  /** Only the answers, not what a run can see, decide its length and its end. */
  ghost predicate Alike(r: Run, r': Run) {
    |r.trace| == |r'.trace| && r.end == r'.end
  }

  lemma {:induction false} Same(s: Stmt, sc: Scope, t: Trace, w: World, sc': Scope, t': Trace, w': World)
    requires |t| == |t'| && Agree(w, w', |t|, |Exec(s, sc, t, w).trace|)
    ensures Alike(Exec(s, sc, t, w), Exec(s, sc', t', w'))
    decreases s, 1, 0
  {
    match s
    case Decl(_) =>
    case Return(x) => SameReturn(x, sc, t, w, sc', t', w');
    case Block(b) => SameBlock(b, sc, t, w, sc', t', w');
    case Label(_, b) => Same(b, sc, t, w, sc', t', w');
    case Try(b, h, f) => SameTry(s, sc, t, w, sc', t', w');
    case Expr(_) => assert w(|t|) == w'(|t|);
    case Torn(_) => assert w(|t|) == w'(|t|);
    case Binding(_) => assert w(|t|) == w'(|t|);
    case Other(_) => assert w(|t|) == w'(|t|);
    case _ => SameStep(s, sc, t, w, sc', t', w');
  }

  lemma SameReturn(x: Exp, sc: Scope, t: Trace, w: World, sc': Scope, t': Trace, w': World)
    requires |t| == |t'| && Agree(w, w', |t|, |Exec(Return(x), sc, t, w).trace|)
    ensures Alike(Exec(Return(x), sc, t, w), Exec(Return(x), sc', t', w'))
  {
    if x.Text? || !x.x.FunctionText? { assert w(|t|) == w'(|t|); }
    if x.Read? && x.x.Joined? && !w(|t|).throws { assert w(|t| + 1) == w'(|t| + 1); }
  }

  /** Statements that begin with an effect of their own. */
  lemma {:induction false} SameStep(s: Stmt, sc: Scope, t: Trace, w: World, sc': Scope, t': Trace, w': World)
    requires s.If? || s.BareIf? || s.Loop? || s.With?
    requires |t| == |t'| && Agree(w, w', |t|, |Exec(s, sc, t, w).trace|)
    ensures Alike(Exec(s, sc, t, w), Exec(s, sc', t', w'))
    decreases s, 0, 0
  {
    assert w(|t|) == w'(|t|);
    var a := w(|t|);
    var what := match s case If(c, _, _) => Test(c) case BareIf(c, _, _, _) => Test(c)
                        case Loop(h, _, _) => Iterate(h) case With(o, _, _) => Enter(o);
    var t1, t1' := t + [Effect(what, sc)], t' + [Effect(what, sc')];
    if !a.throws {
      match s
      case If(_, thn, els) =>
        if a.yes { SameBlock(thn, sc, t1, w, sc', t1', w'); } else { SameElse(els, sc, t1, w, sc', t1', w'); }
      case BareIf(_, _, b, els) =>
        if a.yes { Same(b, sc, t1, w, sc', t1', w'); } else { SameElse(els, sc, t1, w, sc', t1', w'); }
      case Loop(_, _, b) => SameTimes(b, a.times, sc, t1, w, sc', t1', w', Undefined);
      case With(_, _, b) => Same(b, sc, t1, w, sc', t1', w');
    }
  }

  lemma {:induction false} SameTry(s: Stmt, sc: Scope, t: Trace, w: World, sc': Scope, t': Trace, w': World)
    requires s.Try?
    requires |t| == |t'| && Agree(w, w', |t|, |Exec(s, sc, t, w).trace|)
    ensures Alike(Exec(s, sc, t, w), Exec(s, sc', t', w'))
    decreases s, 0, 0
  {
    var b, h, f := s.tried, s.caught, s.finalizer;
    var r := ExecBlock(b, sc, t, w);
    var r1 := if r.end.Throw? then ExecCatch(h, r, sc, w) else r;
    assert Exec(s, sc, t, w) == ExecFinally(f, sc, r1, w);
    SameBlock(b, sc, t, w, sc', t', w');
    var q := ExecBlock(b, sc', t', w');
    if r.end.Throw? && h.Clause? { SameBlock(h.body, sc, r.trace, w, sc', q.trace, w'); }
    var q1 := if q.end.Throw? then ExecCatch(h, q, sc', w') else q;
    assert Exec(s, sc', t', w') == ExecFinally(f, sc', q1, w');
    assert Alike(r1, q1);
    if f.Clause? { SameBlock(f.body, sc, r1.trace, w, sc', q1.trace, w'); }
  }

  lemma {:induction false} SameElse(els: Else, sc: Scope, t: Trace, w: World, sc': Scope, t': Trace, w': World)
    requires |t| == |t'| && Agree(w, w', |t|, |ExecElse(els, sc, t, w).trace|)
    ensures Alike(ExecElse(els, sc, t, w), ExecElse(els, sc', t', w'))
    decreases els, 0, 0
  {
    if els.Else? { Same(els.s, sc, t, w, sc', t', w'); }
  }

  lemma {:induction false} SameTimes(b: Stmt, times: nat, sc: Scope, t: Trace, w: World,
                                     sc': Scope, t': Trace, w': World, v: Value)
    requires |t| == |t'| && Agree(w, w', |t|, |ExecTimes(b, times, sc, t, w, v).trace|)
    ensures Alike(ExecTimes(b, times, sc, t, w, v), ExecTimes(b, times, sc', t', w', v))
    decreases b, 2, times
  {
    if times > 0 {
      var r, q := Exec(b, sc, t, w), Exec(b, sc', t', w');
      Same(b, sc, t, w, sc', t', w');
      if r.end.Normal? {
        SameTimes(b, times - 1, sc, r.trace, w, sc', q.trace, w', if r.end.value.Some? then r.end.value.value else v);
      }
    }
  }

  lemma {:induction false} SameBlock(ss: seq<Item>, sc: Scope, t: Trace, w: World, sc': Scope, t': Trace, w': World)
    requires |t| == |t'| && Agree(w, w', |t|, |ExecBlock(ss, sc, t, w).trace|)
    ensures Alike(ExecBlock(ss, sc, t, w), ExecBlock(ss, sc', t', w'))
    decreases ss, 1, 0
  {
    SameList(ss, sc + [Hoisted(ss)], t, w, sc' + [Hoisted(ss)], t', w');
  }

  lemma {:induction false} SameList(ss: seq<Item>, sc: Scope, t: Trace, w: World, sc': Scope, t': Trace, w': World)
    requires |t| == |t'| && Agree(w, w', |t|, |ExecList(ss, sc, t, w, None).trace|)
    ensures Alike(ExecList(ss, sc, t, w, None), ExecList(ss, sc', t', w', None))
    decreases ss, 0, 0
  {
    if ss != [] {
      var p, x := ss[..|ss| - 1], ss[|ss| - 1];
      LastOf(ss);
      ExecLast(p, x, sc, t, w, None);
      ExecLast(p, x, sc', t', w', None);
      var r, q := ExecList(p, sc, t, w, None), ExecList(p, sc', t', w', None);
      SameList(p, sc, t, w, sc', t', w');
      assert x.s < x;
      if r.end.Normal? { Same(x.s, sc, r.trace, w, sc', q.trace, w'); }
    }
  }

  // ------------------------------------------------------------- the witnesses

  function QuietWorld(): World {
    (n: nat) => QUIET
  }

  function Splice(w: World, w': World, k: nat): World {
    (n: nat) => if n < k then w(n) else w'(n)
  }

  function Set(w: World, k: nat, a: Answer): World {
    (n: nat) => if n == k then a else w(n)
  }

  const YES := QUIET.(yes := true)

  /** A run in which `s` throws, and which is quiet from there on. */
  ghost predicate ThrowsThen(r: Run, w: World) {
    r.end.Throw? && QuietFrom(w, |r.trace|)
  }

  lemma {:induction false} ThrowWitness(s: Stmt, sc: Scope, t: Trace) returns (w: World)
    requires NoReturn(s) && Throws(s)
    ensures ThrowsThen(Exec(s, sc, t, w), w)
    decreases s, 1
  {
    if s.Block? {
      w := BlockThrowWitness(s.body, sc, t);
    } else if s.Try? {
      w := TryThrowWitness(s, sc, t);
    } else if s.Label? {
      w := ThrowWitness(s.labelled, sc, t);
    } else {
      w := Set(QuietWorld(), |t|, QUIET.(throws := true));
    }
  }

  lemma {:induction false} TryThrowWitness(s: Stmt, sc: Scope, t: Trace) returns (w: World)
    requires s.Try? && NoReturn(s) && Throws(s)
    ensures ThrowsThen(Exec(s, sc, t, w), w)
    decreases s, 0
  {
    var b, h, f := s.tried, s.caught, s.finalizer;
    if ListThrows(b) && ClauseThrows(h, true) {
      w := BlockThrowWitness(b, sc, t);
      if h.Clause? {
        var w1, r1 := w, ExecBlock(b, sc, t, w);
        var w2 := BlockThrowWitness(h.body, sc, r1.trace);
        w := Splice(w1, w2, |r1.trace|);
        SameBlock(b, sc, t, w1, sc, t, w);
        SameBlock(h.body, sc, r1.trace, w2, sc, ExecBlock(b, sc, t, w).trace, w);
      }
      var r := ExecBlock(b, sc, t, w);
      QuietFinally(f, sc, ExecCatch(h, r, sc, w), w);
    } else {
      var r1 := ExecBlock(b, sc, t, QuietWorld());
      QuietBlock(b, sc, t, QuietWorld());
      var w2 := BlockThrowWitness(f.body, sc, r1.trace);
      w := Splice(QuietWorld(), w2, |r1.trace|);
      SameBlock(b, sc, t, QuietWorld(), sc, t, w);
      SameBlock(f.body, sc, r1.trace, w2, sc, ExecBlock(b, sc, t, w).trace, w);
    }
  }

  lemma {:induction false} BlockThrowWitness(ss: seq<Item>, sc: Scope, t: Trace) returns (w: World)
    requires NoneReturn(ss) && ListThrows(ss)
    ensures ThrowsThen(ExecBlock(ss, sc, t, w), w)
    decreases ss, 3
  {
    w := ListThrowWitness(ss, sc + [Hoisted(ss)], t);
  }

  lemma {:induction false} ListThrowWitness(ss: seq<Item>, sc: Scope, t: Trace) returns (w: World)
    requires NoneReturn(ss) && ListThrows(ss)
    ensures ThrowsThen(ExecList(ss, sc, t, w, None), w)
    decreases ss, 2
  {
    var p, x := ss[..|ss| - 1], ss[|ss| - 1];
    LastOf(ss);
    if ListThrows(p) {
      w := ListThrowWitness(p, sc, t);
    } else {
      var r := ExecList(p, sc, t, QuietWorld(), None);
      QuietList(p, sc, t, QuietWorld());
      assert x.s < x;
      var w' := ThrowWitness(x.s, sc, r.trace);
      w := Splice(QuietWorld(), w', |r.trace|);
      SameList(p, sc, t, QuietWorld(), sc, t, w);
      Same(x.s, sc, r.trace, w', sc, ExecList(p, sc, t, w, None).trace, w);
    }
    ExecLast(p, x, sc, t, w, None);
  }

  ghost predicate BothQuiet(r: Run, r': Run, w: World) {
    r.end.Normal? && r'.end.Ret? && QuietFrom(w, |r.trace|) && QuietFrom(w, |r'.trace|)
  }

  /** The original goes through and shows nothing where the rewritten body
      returns what nobody asked for. */
  ghost predicate Strays(r: Run, r': Run, w: World) {
    BothQuiet(r, r', w) && Hollow(r.end.value) && r'.end.result != Undefined
  }

  /** The rewritten body returns that, or at another point of the run. */
  ghost predicate Apart(r: Run, r': Run, w: World) {
    || (BothQuiet(r, r', w) && |r'.trace| != |r.trace|)
    || Strays(r, r', w)
  }

  /** A cut that is reached: the original goes on, the rewritten body returns. */
  ghost predicate Stops(r: Run, r': Run, w: World) {
    r.end.Normal? && r'.end.Ret? && |r'.trace| == |r.trace| && QuietFrom(w, |r.trace|)
  }

  /** The cut inside `s` is before a function. */
  predicate CutReads(s: Stmt)
    decreases s, 0
  {
    match s
    case Loop(_, _, b) => CutBodyReads(b)
    case Label(_, b) => CutBodyReads(b)
    case With(_, _, b) => CutBodyReads(b)
    case BareIf(_, _, t, NoElse) => CutBodyReads(t)
    case BareIf(_, _, _, Else(_, _, _, e)) => CutBodyReads(e)
    case If(_, _, Else(_, _, _, e)) => CutBodyReads(e)
    case _ => false
  }

  predicate CutBodyReads(b: Stmt)
    decreases b, 1
  {
    if CutInside(b).Some? then CutReads(b) else b.Decl?
  }

  /** The body that a cut goes into, the answer that leads there, and the effect
      on the way, if there is one. */
  datatype Way = Way(nl: bool, body: Stmt, cut: Stmt, what: Option<What>, answer: Answer)

  function WayIn(s: Stmt, s': Stmt): Way
    requires CutInside(s) == Some(s')
  {
    match s
    case Loop(h, nl, b) => Way(nl, b, s'.repeated, Some(Iterate(h)), QUIET.(times := 1))
    case Label(nl, b) => Way(nl, b, s'.labelled, None, QUIET)
    case With(o, nl, b) => Way(nl, b, s'.inner, Some(Enter(o)), QUIET)
    case BareIf(c, nl, b, NoElse) => Way(nl, b, s'.consequent, Some(Test(c)), YES)
    case BareIf(c, _, _, Else(nl, _, _, b)) => Way(nl, b, s'.els.s, Some(Test(c)), QUIET)
    case If(c, _, Else(nl, _, _, b)) => Way(nl, b, s'.els.s, Some(Test(c)), QUIET)
  }

  function Led(y: Way, sc: Scope, t: Trace): Trace {
    t + if y.what.Some? then [Effect(y.what.value, sc)] else []
  }

  /** With that answer the statement's run is the body's, a loop's one round. */
  lemma WayLeadsIn(s: Stmt, s': Stmt, sc: Scope, t: Trace, w: World)
    requires CutInside(s) == Some(s')
    requires var y := WayIn(s, s'); y.what.Some? ==> w(|t|) == y.answer
    ensures var y := WayIn(s, s');
            var t1 := Led(y, sc, t);
            && y.body < s && CutBody(y.nl, y.body) == Some(y.cut)
            && Entered(Exec(s, sc, t, w),
                       if s.Loop? then ExecTimes(y.body, 1, sc, t1, w, Undefined) else Exec(y.body, sc, t1, w))
            && Entered(Exec(s', sc, t, w),
                       if s.Loop? then ExecTimes(y.cut, 1, sc, t1, w, Undefined) else Exec(y.cut, sc, t1, w))
  {
    assert t + [] == t;
  }

  lemma WayReads(s: Stmt, s': Stmt)
    requires CutInside(s) == Some(s')
    ensures CutReads(s) <==> CutBodyReads(WayIn(s, s').body)
  {
  }

  /** The same run, but an empty value may have become `undefined`. */
  ghost predicate Entered(r: Run, q: Run) {
    r == q || r == Filled(q)
  }

  lemma WayHasSize(s: Stmt, s': Stmt)
    requires CutInside(s) == Some(s') && NoReturn(s)
    ensures var y := WayIn(s, s');
            && NoReturn(y.body)
            && (y.what.Some? ==> Size(s) > 0)
            && (y.what.None? ==> Size(s) == Size(y.body))
  {
    match s
    case If(_, _, els) => assert ElseNoReturn(els);
    case BareIf(_, _, _, els) => assert ElseNoReturn(els);
    case _ =>
  }

  lemma {:induction false} Once(b: Stmt, sc: Scope, t: Trace, w: World, v: Value)
    ensures var r, q := Exec(b, sc, t, w), ExecTimes(b, 1, sc, t, w, v);
            && r.trace == q.trace && (r.end.Normal? <==> q.end.Normal?) && (!r.end.Normal? ==> q == r)
            && (r.end.Normal? && Hollow(r.end.value) && v == Undefined ==> Hollow(q.end.value))
  {
  }

  // ------------------------------------------------------ text that is misread

  lemma QuietReading(x: Reading, sc: Scope, t: Trace, w: World)
    requires QuietFrom(w, |t|)
    ensures var r := ExecReading(x, sc, t, w); r.end.Ret? && r.end.result != Undefined && QuietFrom(w, |r.trace|)
  {
  }

  lemma {:induction false} StrayCut(s: Stmt, s': Stmt, sc: Scope, t: Trace) returns (w: World)
    requires CutInside(s) == Some(s') && CutReads(s) && NoReturn(s)
    ensures Strays(Exec(s, sc, t, w), Exec(s', sc, t, w), w)
    decreases s, 0
  {
    WayReads(s, s');
    hide Exec, CutInside, WayIn, CutReads;
    var y := WayIn(s, s');
    var t1 := Led(y, sc, t);
    WayLeadsIn(s, s', sc, t, Set(QuietWorld(), |t|, y.answer));
    WayHasSize(s, s');
    var w1 := StrayCutBody(y.nl, y.body, y.cut, sc, t1);
    w := if y.what.Some? then Set(w1, |t|, y.answer) else w1;
    Same(y.body, sc, t1, w1, sc, t1, w);
    Same(y.cut, sc, t1, w1, sc, t1, w);
    StraysOn(s, s', sc, t, w);
  }

  /** What strays in the body does so in the whole statement. */
  lemma StraysOn(s: Stmt, s': Stmt, sc: Scope, t: Trace, w: World)
    requires CutInside(s) == Some(s')
    requires var y := WayIn(s, s'); y.what.Some? ==> w(|t|) == y.answer
    requires var y := WayIn(s, s');
             Strays(Exec(y.body, sc, Led(y, sc, t), w), Exec(y.cut, sc, Led(y, sc, t), w), w)
    ensures Strays(Exec(s, sc, t, w), Exec(s', sc, t, w), w)
  {
    hide Exec, CutInside, WayIn;
    var y := WayIn(s, s');
    WayLeadsIn(s, s', sc, t, w);
    Once(y.body, sc, Led(y, sc, t), w, Undefined);
    Once(y.cut, sc, Led(y, sc, t), w, Undefined);
  }

  lemma {:induction false} StrayCutBody(nl: bool, b: Stmt, b': Stmt, sc: Scope, t: Trace)
    returns (w: World)
    requires CutBody(nl, b) == Some(b') && CutBodyReads(b) && NoReturn(b)
    ensures Strays(Exec(b, sc, t, w), Exec(b', sc, t, w), w)
    decreases b, 1
  {
    if CutInside(b).Some? {
      w := StrayCut(b, b', sc, t);
    } else {
      w := QuietWorld();
      QuietRun(b, sc, t, w);
      QuietReading(b'.x.x, sc, t, w);
    }
  }

  // ------------------------------------------------------------ cuts in loops

  /** Not in a safe place, though before an expression statement: in a loop. */
  predicate CutsLoop(s: Stmt) {
    !SafeCut(s) && !CutReads(s)
  }

  lemma {:induction false} StopWitness(nl: bool, b: Stmt, b': Stmt, sc: Scope, t: Trace) returns (w: World)
    requires CutBody(nl, b) == Some(b') && !CutBodyReads(b) && NoReturn(b)
    ensures Stops(Exec(b, sc, t, w), Exec(b', sc, t, w), w)
    ensures Size(b) > 0
    decreases b, 1
  {
    if CutInside(b).Some? {
      w := StopInside(b, b', sc, t);
    } else {
      w := QuietWorld();
    }
  }

  lemma {:induction false} StopInside(s: Stmt, s': Stmt, sc: Scope, t: Trace) returns (w: World)
    requires CutInside(s) == Some(s') && !CutReads(s) && NoReturn(s)
    ensures Stops(Exec(s, sc, t, w), Exec(s', sc, t, w), w)
    ensures Size(s) > 0
    decreases s, 0
  {
    WayReads(s, s');
    hide Exec, CutInside, WayIn, CutReads;
    var y := WayIn(s, s');
    var t1 := Led(y, sc, t);
    WayLeadsIn(s, s', sc, t, Set(QuietWorld(), |t|, y.answer));
    WayHasSize(s, s');
    var w1 := StopWitness(y.nl, y.body, y.cut, sc, t1);
    w := if y.what.Some? then Set(w1, |t|, y.answer) else w1;
    WayLeadsIn(s, s', sc, t, w);
    Same(y.body, sc, t1, w1, sc, t1, w);
    Same(y.cut, sc, t1, w1, sc, t1, w);
    Once(y.body, sc, t1, w, Undefined);
    Once(y.cut, sc, t1, w, Undefined);
  }

  lemma {:induction false} LoopCut(s: Stmt, s': Stmt, sc: Scope, t: Trace) returns (w: World)
    requires CutInside(s) == Some(s') && CutsLoop(s) && NoReturn(s)
    ensures Apart(Exec(s, sc, t, w), Exec(s', sc, t, w), w)
    decreases s, 1
  {
    if s.Loop? {
      w := TwoRounds(s.h, s.nl, s.repeated, s'.repeated, sc, t);
    } else {
      w := LoopInside(s, s', sc, t);
    }
  }

  lemma {:induction false} LoopInside(s: Stmt, s': Stmt, sc: Scope, t: Trace) returns (w: World)
    requires !s.Loop? && CutInside(s) == Some(s') && CutsLoop(s) && NoReturn(s)
    ensures Apart(Exec(s, sc, t, w), Exec(s', sc, t, w), w)
    decreases s, 0
  {
    CutGoesOn(s, s');
    hide Exec, CutInside, CutsLoop, WayIn;
    var y := WayIn(s, s');
    var t1 := Led(y, sc, t);
    WayLeadsIn(s, s', sc, t, Set(QuietWorld(), |t|, y.answer));
    WayHasSize(s, s');
    var w1 := LoopCut(y.body, y.cut, sc, t1);
    w := if y.what.Some? then Set(w1, |t|, y.answer) else w1;
    WayLeadsIn(s, s', sc, t, w);
    Same(y.body, sc, t1, w1, sc, t1, w);
    Same(y.cut, sc, t1, w1, sc, t1, w);
  }

  lemma CutGoesOn(s: Stmt, s': Stmt)
    requires !s.Loop? && CutInside(s) == Some(s') && CutsLoop(s)
    ensures var y := WayIn(s, s');
            CutInside(y.body) == Some(y.cut) && CutsLoop(y.body)
  {
    WayReads(s, s');
    var y := WayIn(s, s');
    assert SafeCut(s) <==> SafeCutBody(y.body);
    assert CutBody(y.nl, y.body) == Some(y.cut);
  }

  /** Two rounds: the rewritten loop returns in the first. */
  lemma {:induction false} TwoRounds(h: nat, nl: bool, b: Stmt, b': Stmt, sc: Scope, t: Trace) returns (w: World)
    requires CutBody(nl, b) == Some(b') && !CutBodyReads(b) && NoReturn(b)
    ensures Apart(Exec(Loop(h, nl, b), sc, t, w), Exec(Loop(h, nl, b'), sc, t, w), w)
  {
    var t1 := t + [Effect(Iterate(h), sc)];
    var w1 := StopWitness(nl, b, b', sc, t1);
    w := Set(w1, |t|, QUIET.(times := 2));
    Same(b, sc, t1, w1, sc, t1, w);
    Same(b', sc, t1, w1, sc, t1, w);
    var r := Exec(b, sc, t1, w);
    QuietRun(b, sc, r.trace, w);
    var v := if r.end.value.Some? then r.end.value.value else Undefined;
    Once(b, sc, r.trace, w, v);
    assert ExecTimes(b, 2, sc, t1, w, Undefined) == ExecTimes(b, 1, sc, r.trace, w, v);
  }

  // ------------------------------------------------------------ unsafe places

  lemma {:induction false} UnsafeStatement(lead: Lead, misread: Option<Reading>, s: Stmt, s': Stmt,
                                           sc: Scope, t: Trace) returns (w: World)
    requires ReturnStatement(lead, misread, s, true) == Some(s') && !SafeStatement(lead, s) && NoReturn(s)
    ensures Apart(Exec(s, sc, t, w), Exec(s', sc, t, w), w)
    decreases s, 1
  {
    if lead.Comment? || !Compound(s) {
      w := QuietWorld();
      QuietRun(s, sc, t, w);
      QuietReading(s'.x.x, sc, t, w);
    } else if s.Block? {
      w := UnsafeBody(s.body, sc, t);
    } else if s.Try? {
      w := UnsafeTry(s, lead, sc, t);
    } else {
      w := UnsafeIf(s, lead, misread, s', sc, t);
    }
  }

  lemma {:induction false} UnsafeIf(s: Stmt, lead: Lead, misread: Option<Reading>, s': Stmt, sc: Scope, t: Trace)
    returns (w: World)
    requires s.If? && !lead.Comment? && ReturnStatement(lead, misread, s, true) == Some(s')
    requires !SafeStatement(lead, s) && NoReturn(s)
    ensures Apart(Exec(s, sc, t, w), Exec(s', sc, t, w), w)
    decreases s, 0
  {
    var t1 := t + [Effect(Test(s.c), sc)];
    if !SafeBody(s.thn) {
      var w1 := UnsafeBody(s.thn, sc, t1);
      w := Set(w1, |t|, YES);
      SameBlock(s.thn, sc, t1, w1, sc, t1, w);
      SameBlock(ReturnBody(s.thn), sc, t1, w1, sc, t1, w);
    } else {
      var w1 := UnsafeStatement(s.els.lead, s.els.misread, s.els.s, s'.els.s, sc, t1);
      w := Set(w1, |t|, QUIET);
      Same(s.els.s, sc, t1, w1, sc, t1, w);
      Same(s'.els.s, sc, t1, w1, sc, t1, w);
    }
  }

  lemma {:induction false} UnsafeTry(s: Stmt, lead: Lead, sc: Scope, t: Trace) returns (w: World)
    requires s.Try? && !lead.Comment? && !SafeStatement(lead, s) && NoReturn(s)
    ensures Apart(Exec(s, sc, t, w), Exec(Try(ReturnBody(s.tried), ReturnClause(s.caught), s.finalizer), sc, t, w), w)
    decreases s, 0
  {
    var b, h, f := s.tried, s.caught, s.finalizer;
    if !SafeBody(b) {
      w := UnsafeBody(b, sc, t);
      QuietFinally(f, sc, ExecBlock(b, sc, t, w), w);
      QuietFinally(f, sc, ExecBlock(ReturnBody(b), sc, t, w), w);
    } else {
      w := UnsafeCatch(b, h, sc, t);
      var r := ExecBlock(b, sc, t, w);
      GoodBody(b, sc, t, w);
      QuietFinally(f, sc, ExecCatch(h, r, sc, w), w);
      QuietFinally(f, sc, ExecCatch(ReturnClause(h), r, sc, w), w);
    }
  }

  lemma {:induction false} UnsafeCatch(b: seq<Item>, h: Clause, sc: Scope, t: Trace) returns (w: World)
    requires ListThrows(b) && !SafeClause(h) && NoneReturn(b) && ClauseNoReturn(h)
    ensures var r := ExecBlock(b, sc, t, w);
            r.end.Throw? && Apart(ExecCatch(h, r, sc, w), ExecCatch(ReturnClause(h), r, sc, w), w)
    decreases h, 0
  {
    var w1 := BlockThrowWitness(b, sc, t);
    var r1 := ExecBlock(b, sc, t, w1);
    var w2 := UnsafeBody(h.body, sc, r1.trace);
    w := Splice(w1, w2, |r1.trace|);
    SameBlock(b, sc, t, w1, sc, t, w);
    var r := ExecBlock(b, sc, t, w);
    SameBlock(h.body, sc, r1.trace, w2, sc, r.trace, w);
    SameBlock(ReturnBody(h.body), sc, r1.trace, w2, sc, r.trace, w);
  }

  lemma {:induction false} UnsafeBody(ss: seq<Item>, sc: Scope, t: Trace) returns (w: World)
    requires !SafeBody(ss) && NoneReturn(ss)
    ensures Apart(ExecBlock(ss, sc, t, w), ExecBlock(ReturnBody(ss), sc, t, w), w)
    decreases ss, 4
  {
    if TurnLast(ss).Some? {
      w := UnsafeTurn(ss, sc, t);
    } else {
      w := UnsafeEarly(ss, sc, t);
    }
  }

  lemma {:induction false} UnsafeLast(x: Item, s': Stmt, sc: Scope, t: Trace) returns (w: World)
    requires !SafeLast(x) && Turns(x, s') && NoReturn(x.s)
    ensures Apart(Exec(x.s, sc, t, w), Exec(s', sc, t, w), w)
    decreases x, 2
  {
    assert x.s < x;
    if x.torn.Some? {
      w := QuietWorld();
      QuietRun(x.s, sc, t, w);
    } else if CutInside(x.s).None? {
      w := UnsafeStatement(x.lead, x.misread, x.s, s', sc, t);
    } else if CutReads(x.s) {
      w := StrayCut(x.s, s', sc, t);
    } else {
      w := LoopCut(x.s, s', sc, t);
    }
  }

  lemma {:induction false} UnsafeTurn(ss: seq<Item>, sc: Scope, t: Trace) returns (w: World)
    requires !SafeBody(ss) && NoneReturn(ss) && TurnLast(ss).Some?
    ensures Apart(ExecBlock(ss, sc, t, w), ExecBlock(ReturnBody(ss), sc, t, w), w)
    decreases ss, 3
  {
    var n, rs, quiet := |ss| - 1, ReturnBody(ss), QuietWorld();
    var p, x, x' := ss[..n], ss[n], ss[n].(s := TurnLast(ss).value);
    LastOf(ss);
    TurnsLast(ss);
    var sc1, sc2 := sc + [Hoisted(ss)], sc + [Hoisted(rs)];
    var r1, r2 := ExecList(p, sc1, t, quiet, None), ExecList(p, sc2, t, quiet, None);
    QuietList(p, sc1, t, quiet);
    QuietList(p, sc2, t, quiet);
    var w1 := UnsafeLast(x, x'.s, sc1, r1.trace);
    w := Splice(quiet, w1, |r1.trace|);
    SameList(p, sc1, t, quiet, sc1, t, w);
    SameList(p, sc2, t, quiet, sc2, t, w);
    Same(x.s, sc1, r1.trace, w1, sc1, ExecList(p, sc1, t, w, None).trace, w);
    Same(x'.s, sc1, r1.trace, w1, sc2, ExecList(p, sc2, t, w, None).trace, w);
    ExecLast(p, x, sc1, t, w, None);
    ExecLast(p, x', sc2, t, w, None);
  }

  // ---------------------------------------------- cuts before the last statement

  /** With more text behind it, a statement is only turned by misreading. */
  lemma {:induction false} EarlyReturnStrays(lead: Lead, misread: Option<Reading>, s: Stmt, s': Stmt,
                                             sc: Scope, t: Trace, w: World)
    requires ReturnStatement(lead, misread, s, false) == Some(s') && QuietFrom(w, |t|)
    ensures var r := Exec(s', sc, t, w); r.end.Ret? && r.end.result != Undefined && QuietFrom(w, |r.trace|)
    decreases s
  {
    if lead.Comment? || !Compound(s) {
      QuietReading(s'.x.x, sc, t, w);
    } else {
      var t1 := t + [Effect(Test(s.c), sc)];
      EarlyReturnStrays(s.els.lead, s.els.misread, s.els.s, s'.els.s, sc, t1, w);
    }
  }

  lemma {:induction false} EarlyStrays(ss: seq<Item>, i: nat, s': Stmt, sc: Scope, t: Trace, w: World)
    requires i < |ss| - 1 && TurnAt(ss, i) == Some(s') && NoReturn(ss[i].s) && QuietFrom(w, |t|)
    ensures Strays(Exec(ss[i].s, sc, t, w), Exec(s', sc, t, w), w)
  {
    var x := ss[i];
    QuietRun(x.s, sc, t, w);
    if x.torn.None? { EarlyReturnStrays(x.lead, x.misread, x.s, s', sc, t, w); }
  }

  /** Which statement gives the code. */
  lemma {:induction false} TurnedAt(ss: seq<Item>, k: nat) returns (i: nat)
    requires k <= |ss| && TurnFrom(ss, k).Some?
    ensures i < k && TurnAt(ss, i).Some?
    ensures TurnFrom(ss, k) == Some(ss[..i] + [ss[i].(s := TurnAt(ss, i).value)])
    ensures forall j :: i < j < k ==> TurnAt(ss, j).None?
    decreases k
  {
    if TurnAt(ss, k - 1).Some? { i := k - 1; } else { i := TurnedAt(ss, k - 1); }
  }

  /** A run that shows nothing so far goes on quietly to the end. */
  lemma {:induction false} QuietRest(p: seq<Item>, rest: seq<Item>, sc: Scope, t: Trace, w: World)
    requires var r := ExecList(p, sc, t, w, None);
             r.end.Normal? && Hollow(r.end.value) && QuietFrom(w, |r.trace|)
    requires NoneReturn(rest)
    ensures var r := ExecList(p + rest, sc, t, w, None);
            r.end.Normal? && Hollow(r.end.value) && QuietFrom(w, |r.trace|)
    decreases rest
  {
    if rest == [] {
      assert p + rest == p;
    } else {
      var q, x := rest[..|rest| - 1], rest[|rest| - 1];
      QuietRest(p, q, sc, t, w);
      assert p + rest == (p + q) + [x] && x.s < x;
      ExecLast(p + q, x, sc, t, w, None);
      QuietRun(x.s, sc, ExecList(p + q, sc, t, w, None).trace, w);
    }
  }

  lemma {:induction false} NoneReturnParts(ss: seq<Item>, i: nat)
    requires NoneReturn(ss) && i < |ss|
    ensures NoneReturn(ss[..i]) && NoReturn(ss[i].s) && NoneReturn(ss[i + 1..])
  {
    if i < |ss| - 1 {
      var p := ss[..|ss| - 1];
      NoneReturnParts(p, i);
      assert p[..i] == ss[..i] && ss[i + 1..][..|ss| - i - 2] == p[i + 1..];
    }
  }

  lemma {:induction false} UnsafeEarly(ss: seq<Item>, sc: Scope, t: Trace) returns (w: World)
    requires ReturnList(ss).Some? && NoneReturn(ss) && TurnLast(ss).None?
    ensures Strays(ExecBlock(ss, sc, t, w), ExecBlock(ReturnBody(ss), sc, t, w), w)
  {
    w := QuietWorld();
    var i := TurnedAt(ss, |ss|);
    var p, x, rest, rs := ss[..i], ss[i], ss[i + 1..], ReturnBody(ss);
    var x' := x.(s := TurnAt(ss, i).value);
    NoneReturnParts(ss, i);
    assert ss == p + [x] + rest && rs == p + [x'];
    var sc1, sc2 := sc + [Hoisted(ss)], sc + [Hoisted(rs)];
    QuietList(p, sc1, t, w);
    QuietList(p, sc2, t, w);
    EarlyStrays(ss, i, x'.s, sc2, ExecList(p, sc2, t, w, None).trace, w);
    QuietRun(x.s, sc1, ExecList(p, sc1, t, w, None).trace, w);
    ExecLast(p, x, sc1, t, w, None);
    ExecLast(p, x', sc2, t, w, None);
    QuietRest(p + [x], rest, sc1, t, w);
  }

  lemma UnsafeRewriteIsWrong(ss: seq<Item>) returns (w: World)
    requires NoneReturn(ss) && ReturnList(ss).Some? && !SafeBody(ss)
    ensures !Correct(ss, ReturnList(ss).value, w)
  {
    w := UnsafeBody(ss, [], []);
  }

  /** For a body without a `return`, the rewritten code is right in every run
      exactly when the list is safe. */
  lemma CorrectIffSafe(ss: seq<Item>)
    requires NoneReturn(ss) && ReturnList(ss).Some?
    ensures (forall w: World :: Correct(ss, ReturnList(ss).value, w)) <==> SafeBody(ss)
  {
    if SafeBody(ss) {
      forall w: World ensures Correct(ss, ReturnList(ss).value, w) {
        SafeRewriteIsCorrect(ss, w);
      }
    } else {
      var w := UnsafeRewriteIsWrong(ss);
    }
  }
}
