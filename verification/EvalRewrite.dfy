/**
 The rewrite that turns the last statement of an async body into a `return`,
 on statements.

 A list stands for source text that compiles as an async body in sloppy mode.
 Lines end in `\n`; no regular expression holds a quote, a bracket, a backtick
 or a comment opener; `break` and `continue` stay inside what `Other` and `Loop`
 stand for. An empty statement is no item of a list, and as a body it is an
 empty block. What the rewriter sees of the text around a statement is recorded
 with it.
 */
module EvalRewrite {
  import opened Wrappers

  /** What text that is no lone expression statement gives when it is returned:
      a declaration's function, an object instead of a block, a declaration
      applied to the expression after it, or other code. */
  datatype Reading = FunctionText(f: nat) | ObjectText | Joined(f: nat, e: nat) | Code(m: nat)

  datatype Exp = Text(e: nat) | Read(x: Reading)

  /** `Decl` is a function declaration, or a class that runs nothing when it is
      declared; `Binding` a variable, or a class that does. `Other` is any
      statement not named here, be it a `throw`, a `switch` or a `do`. `nl` on a
      body without braces: the source tries a cut before it, for it stands on a
      line of its own and could not go on what is before. `Torn` stands for what
      a cut inside a statement makes of it. */
  datatype Stmt =
    | Expr(e: nat)
    | Decl(f: nat)
    | Binding(o: nat)
    | Other(o: nat)
    | Return(x: Exp)
    | Torn(m: nat)
    | Block(body: seq<Item>)
    | If(c: nat, thn: seq<Item>, els: Else)
    | BareIf(c: nat, nl: bool, consequent: Stmt, els: Else)
    | Try(tried: seq<Item>, caught: Clause, finalizer: Clause)
    | Loop(h: nat, nl: bool, repeated: Stmt)
    | Label(nl: bool, labelled: Stmt)
    | With(o: nat, nl: bool, inner: Stmt)

  /** `lead` is `Comment` here for any comment behind the `else`; `misread` is as
      in `Item`. */
  datatype Else = NoElse | Else(nl: bool, lead: Lead, misread: Option<Reading>, s: Stmt)

  /** The block of a `catch` or `finally`, if there is one, and what a `catch` binds. */
  datatype Clause = NoClause | Clause(param: Option<nat>, body: seq<Item>)

  /** How a statement's text starts: with a character that could go on an
      expression; with a comment, when no cut between it and the statement gives
      code; with a word such as `of` or on the line of what is before it; or with
      a name such as `if$` that is taken for a keyword. */
  datatype Lead = Plain | Opens | Comment | Stuck | Odd

  /** What follows a statement: no `;`, some `;`, or, behind the last of a list,
      more than `;`s in a row, be it a comment behind them or a `;` set apart. */
  datatype End = Open | Semi | Shut

  /** `misread`: the text from here to the end of the list compiles in parentheses,
      though it is no lone expression or function. `torn`: the latest cut that
      gives code is inside the statement and none of those below, as in a `let`
      with its name on the next line. `says`: the word `return` stands in it outside
      brackets, though not as a statement named here, as in `it.return(x)`. */
  datatype Item = Item(lead: Lead, misread: Option<Reading>, torn: Option<nat>, says: bool, s: Stmt, end: End)

  // ------------------------------------------------------------ the rewrite

  /** A `return` outside any braces of its own list. */
  predicate ReturnsBare(s: Stmt) {
    match s
    case Return(_) => true
    case Torn(_) => true
    case If(_, _, els) => ElseReturnsBare(els)
    case BareIf(_, _, t, els) => ReturnsBare(t) || ElseReturnsBare(els)
    case Loop(_, _, b) => ReturnsBare(b)
    case Label(_, b) => ReturnsBare(b)
    case With(_, _, b) => ReturnsBare(b)
    case _ => false
  }

  predicate ElseReturnsBare(els: Else) {
    els.Else? && ReturnsBare(els.s)
  }

  predicate ListReturnsBare(ss: seq<Item>) {
    exists i :: 0 <= i < |ss| && (ss[i].says || ReturnsBare(ss[i].s))
  }

  /** The text from `s` to the end of its list in parentheses; for `last`, `s` is
      all of that text. */
  function ReadAs(s: Stmt, misread: Option<Reading>, last: bool): Option<Exp> {
    if last && s.Expr? then Some(Text(s.e))
    else if last && s.Decl? then Some(Read(FunctionText(s.f)))
    else match misread
         case Some(x) => Some(Read(x))
         case None => None
  }

  /** The latest cut may fall inside the last statement: before an expression or a
      function that is the body without braces of a loop, an `if`, an `else`, a
      label or a `with`. */
  function CutInside(s: Stmt): Option<Stmt>
    decreases s, 0
  {
    match s
    case Loop(h, nl, b) =>
      (match CutBody(nl, b)
       case Some(b') => Some(Loop(h, nl, b'))
       case None => None)
    case Label(nl, b) =>
      (match CutBody(nl, b)
       case Some(b') => Some(Label(nl, b'))
       case None => None)
    case With(o, nl, b) =>
      (match CutBody(nl, b)
       case Some(b') => Some(With(o, nl, b'))
       case None => None)
    case BareIf(c, nl, t, NoElse) =>
      (match CutBody(nl, t)
       case Some(t') => Some(BareIf(c, nl, t', NoElse))
       case None => None)
    case BareIf(c, nl, t, Else(enl, l, m, e)) =>
      (match CutBody(enl, e)
       case Some(e') => Some(BareIf(c, nl, t, Else(enl, l, m, e')))
       case None => None)
    case If(c, t, Else(enl, l, m, e)) =>
      (match CutBody(enl, e)
       case Some(e') => Some(If(c, t, Else(enl, l, m, e')))
       case None => None)
    case _ => None
  }

  function CutBody(nl: bool, b: Stmt): Option<Stmt>
    decreases b, 1
  {
    match CutInside(b)
    case Some(b') => Some(b')
    case None =>
      if !nl then None
      else match ReadAs(b, None, true)
           case Some(x) => Some(Return(x))
           case None => None
  }

  predicate Compound(s: Stmt) {
    s.Block? || s.If? || s.BareIf? || s.Try?
  }

  /** `returningStatement`: what does not start with `{`, `if` or `try` is
      returned as an expression, if it reads as one; what does may be followed by
      more text only in an `else` that reads on. */
  function ReturnStatement(lead: Lead, misread: Option<Reading>, s: Stmt, last: bool): Option<Stmt>
    decreases s, 1
  {
    if lead.Odd? then None
    else if lead.Comment? || !Compound(s) then
      (match ReadAs(s, misread, last)
       case Some(x) => Some(Return(x))
       case None => None)
    else
      match s
      case If(c, t, Else(nl, l, m, e)) =>
        (match ReturnStatement(l, m, e, last)
         case Some(e') => Some(If(c, ReturnBody(t), Else(nl, l, m, e')))
         case None => None)
      case If(c, t, NoElse) => if last then Some(If(c, ReturnBody(t), NoElse)) else None
      case Block(b) => if last then Some(Block(ReturnBody(b))) else None
      case Try(b, h, f) => if last then Some(Try(ReturnBody(b), ReturnClause(h), f)) else None
      case _ => None
  }

  function ReturnClause(h: Clause): Clause
    decreases h, 6
  {
    match h
    case NoClause => NoClause
    case Clause(p, b) => Clause(p, ReturnBody(b))
  }

  /** The source may cut before statement `i`: only after a `;` or at the start
      if it could go on what is before it, and never before the word `of`. */
  predicate CanCut(ss: seq<Item>, i: nat)
    requires i < |ss|
  {
    !ss[i].lead.Stuck? &&
    (i == 0 || !ss[i - 1].end.Open? || !(ss[i].lead.Opens? || ss[i].lead.Comment?))
  }

  /** Statement `i` with the latest cut inside or before it that gives code, and
      nothing behind it. */
  function TurnAt(ss: seq<Item>, i: nat): Option<Stmt>
    requires i < |ss|
    decreases ss, 2
  {
    var x, last := ss[i], i == |ss| - 1;
    assert x.s < x;
    if x.torn.Some? then Some(Torn(x.torn.value))
    else if last && CutInside(x.s).Some? then CutInside(x.s)
    else if CanCut(ss, i) then ReturnStatement(x.lead, x.misread, x.s, last)
    else None
  }

  /** The cuts among the first `k` statements, the last one first. */
  function TurnFrom(ss: seq<Item>, k: nat): Option<seq<Item>>
    requires k <= |ss|
    decreases ss, 3, k
  {
    if k == 0 then None
    else
      match TurnAt(ss, k - 1)
      case Some(s) => Some(ss[..k - 1] + [ss[k - 1].(s := s)])
      case None => TurnFrom(ss, k - 1)
  }

  /** `returningList`: no code for a list with a `return` of its own, or with more
      than `;`s behind it. */
  function ReturnList(ss: seq<Item>): Option<seq<Item>>
    decreases ss, 4
  {
    if ss == [] || ListReturnsBare(ss) || ss[|ss| - 1].end.Shut? then None else TurnFrom(ss, |ss|)
  }

  /** `returningBody`: a list that cannot be turned is kept as it is. */
  function ReturnBody(ss: seq<Item>): seq<Item>
    decreases ss, 5
  {
    match ReturnList(ss)
    case Some(rs) => rs
    case None => ss
  }

  // -------------------------------------------------------------- the meaning

  datatype Value = Undefined | Datum(n: nat) | Function(f: nat) | Object

  /** What the outside does at one point of a run: the value an expression or
      statement gives, whether a condition holds or something throws or returns,
      how often a loop goes round, and what code gives that is not in the body. */
  datatype Answer = Answer(value: Value, yes: bool, throws: bool, exits: bool, times: nat, stray: Value)

  /** One answer for each point of the run, numbered by the effects before it. */
  type World = nat -> Answer

  /** The declarations each enclosing list makes visible from its start. */
  type Scope = seq<seq<nat>>

  datatype What =
    | Eval(e: nat) | Test(c: nat) | Do(o: nat) | Iterate(h: nat) | Enter(o: nat)
    | Build | Operand(e: nat) | Apply(f: nat, e: nat) | Stray(m: nat)

  /** An effect: what is evaluated, and which declarations it can see. */
  datatype Effect = Effect(what: What, scope: Scope)

  type Trace = seq<Effect>

  /** ECMA-262 completion records, section 6.2.4; a normal one may be empty. */
  datatype Completion = Normal(value: Option<Value>) | Throw(error: Value) | Ret(result: Value)

  datatype Run = Run(trace: Trace, end: Completion)

  function Hoisted(ss: seq<Item>): seq<nat> {
    if ss == [] then []
    else (if ss[0].s.Decl? then [ss[0].s.f] else []) + Hoisted(ss[1..])
  }

  /** `UpdateEmpty`. */
  function Filled(r: Run): Run {
    if r.end == Normal(None) then r.(end := Normal(Some(Undefined))) else r
  }

  function ExecReading(x: Reading, sc: Scope, t: Trace, w: World): (res: Run)
    ensures |t| <= |res.trace|
  {
    var a := w(|t|);
    match x
    case FunctionText(f) => Run(t, Ret(Function(f)))
    case ObjectText =>
      Run(t + [Effect(Build, sc)], if a.throws then Throw(a.value) else Ret(Object))
    case Joined(f, e) =>
      var t' := t + [Effect(Operand(e), sc)];
      if a.throws then Run(t', Throw(a.value))
      else Run(t' + [Effect(Apply(f, e), sc)], if w(|t'|).throws then Throw(w(|t'|).value) else Ret(w(|t'|).stray))
    case Code(m) =>
      Run(t + [Effect(Stray(m), sc)], if a.throws then Throw(a.value) else Ret(a.stray))
  }

  function Exec(s: Stmt, sc: Scope, t: Trace, w: World): (res: Run)
    ensures |t| <= |res.trace|
    decreases s, 0, 0
  {
    var a := w(|t|);
    match s
    case Expr(e) =>
      Run(t + [Effect(Eval(e), sc)], if a.throws then Throw(a.value) else Normal(Some(a.value)))
    case Decl(_) => Run(t, Normal(None))
    case Binding(o) =>
      Run(t + [Effect(Do(o), sc)], if a.throws then Throw(a.value) else Normal(None))
    case Other(o) =>
      Run(t + [Effect(Do(o), sc)],
          if a.throws then Throw(a.value) else if a.exits then Ret(a.value) else Normal(Some(a.value)))
    case Return(Text(e)) =>
      Run(t + [Effect(Eval(e), sc)], if a.throws then Throw(a.value) else Ret(a.value))
    case Return(Read(x)) => ExecReading(x, sc, t, w)
    case Torn(m) =>
      Run(t + [Effect(Stray(m), sc)],
          if a.throws then Throw(a.value) else if a.yes then Normal(None) else Ret(a.stray))
    case Block(b) => ExecBlock(b, sc, t, w)
    case If(c, thn, els) =>
      var t' := t + [Effect(Test(c), sc)];
      if a.throws then Run(t', Throw(a.value))
      else if a.yes then Filled(ExecBlock(thn, sc, t', w))
      else ExecElse(els, sc, t', w)
    case BareIf(c, _, s1, els) =>
      var t' := t + [Effect(Test(c), sc)];
      if a.throws then Run(t', Throw(a.value))
      else if a.yes then Filled(Exec(s1, sc, t', w))
      else ExecElse(els, sc, t', w)
    case Try(b, h, f) =>
      var r := ExecBlock(b, sc, t, w);
      ExecFinally(f, sc, if r.end.Throw? then ExecCatch(h, r, sc, w) else r, w)
    case Loop(h, _, b) =>
      var t' := t + [Effect(Iterate(h), sc)];
      if a.throws then Run(t', Throw(a.value))
      else ExecTimes(b, a.times, sc, t', w, Undefined)
    case Label(_, b) => Exec(b, sc, t, w)
    case With(o, _, b) =>
      var t' := t + [Effect(Enter(o), sc)];
      if a.throws then Run(t', Throw(a.value)) else Filled(Exec(b, sc, t', w))
  }

  function ExecElse(els: Else, sc: Scope, t: Trace, w: World): (res: Run)
    ensures |t| <= |res.trace|
    decreases els, 0, 0
  {
    match els
    case NoElse => Run(t, Normal(Some(Undefined)))
    case Else(_, _, _, s) => Filled(Exec(s, sc, t, w))
  }

  /** The `catch` clause of a block that threw. */
  function ExecCatch(h: Clause, r: Run, sc: Scope, w: World): (res: Run)
    ensures |r.trace| <= |res.trace|
    decreases h, 2, 0
  {
    match h
    case NoClause => r
    case Clause(_, b) => ExecBlock(b, sc, r.trace, w)
  }

  /** The finalizer keeps its own normal value out. */
  function ExecFinally(f: Clause, sc: Scope, r: Run, w: World): (res: Run)
    ensures |r.trace| <= |res.trace|
    decreases f, 2, 0
  {
    match f
    case NoClause => Filled(r)
    case Clause(_, b) =>
      var final := ExecBlock(b, sc, r.trace, w);
      if final.end.Normal? then Filled(Run(final.trace, r.end)) else final
  }

  function ExecTimes(b: Stmt, times: nat, sc: Scope, t: Trace, w: World, v: Value): (res: Run)
    ensures |t| <= |res.trace|
    decreases b, 1, times
  {
    if times == 0 then Run(t, Normal(Some(v)))
    else
      var r := Exec(b, sc, t, w);
      if !r.end.Normal? then r
      else ExecTimes(b, times - 1, sc, r.trace, w, if r.end.value.Some? then r.end.value.value else v)
  }

  /** The list runs on; `v` is the value of what came before. */
  function ExecList(ss: seq<Item>, sc: Scope, t: Trace, w: World, v: Option<Value>): (res: Run)
    ensures |t| <= |res.trace|
    decreases ss, 0, 0
  {
    if ss == [] then Run(t, Normal(v))
    else
      assert ss[0].s < ss[0];
      var r := Exec(ss[0].s, sc, t, w);
      if !r.end.Normal? then r
      else ExecList(ss[1..], sc, r.trace, w, if r.end.value.Some? then r.end.value else v)
  }

  function ExecBlock(ss: seq<Item>, sc: Scope, t: Trace, w: World): (res: Run)
    ensures |t| <= |res.trace|
    decreases ss, 1, 0
  {
    ExecList(ss, sc + [Hoisted(ss)], t, w, None)
  }

  /** A whole async body, run from the start. */
  function ExecBody(ss: seq<Item>, w: World): Run {
    ExecBlock(ss, [], [], w)
  }

  /** What awaiting an async function with this body gives. */
  function Settled(r: Run): Completion {
    match r.end
    case Normal(_) => Ret(Undefined)
    case _ => r.end
  }

  /** What devtools would show for the body: its completion value. */
  function Shown(r: Run): Completion {
    match r.end
    case Normal(None) => Ret(Undefined)
    case Normal(Some(v)) => Ret(v)
    case _ => r.end
  }

  // --------------------------------------------------- lists, from their end

  /** What a last statement makes of the run before it. */
  function Then(r: Run, s: Stmt, sc: Scope, w: World): Run {
    if !r.end.Normal? then r
    else
      var q := Exec(s, sc, r.trace, w);
      if !q.end.Normal? then q
      else Run(q.trace, Normal(if q.end.value.Some? then q.end.value else r.end.value))
  }

  lemma {:induction false} ExecLast(p: seq<Item>, x: Item, sc: Scope, t: Trace, w: World, v: Option<Value>)
    ensures ExecList(p + [x], sc, t, w, v) == Then(ExecList(p, sc, t, w, v), x.s, sc, w)
  {
    var ss := p + [x];
    if p == [] {
      assert ss[0] == x && ss[1..] == [];
    } else {
      assert ss[0] == p[0] && ss[1..] == p[1..] + [x];
      var r := Exec(p[0].s, sc, t, w);
      if r.end.Normal? { ExecLast(p[1..], x, sc, r.trace, w, if r.end.value.Some? then r.end.value else v); }
    }
  }

  lemma {:induction false} HoistedLast(p: seq<Item>, x: Item)
    ensures Hoisted(p + [x]) == Hoisted(p) + (if x.s.Decl? then [x.s.f] else [])
  {
    var ss := p + [x];
    if p == [] {
      assert ss[0] == x && ss[1..] == [];
    } else {
      assert ss[0] == p[0] && ss[1..] == p[1..] + [x];
      HoistedLast(p[1..], x);
      var a, b, c := if p[0].s.Decl? then [p[0].s.f] else [], Hoisted(p[1..]), if x.s.Decl? then [x.s.f] else [];
      assert a + (b + c) == a + b + c;
    }
  }

  /** Every list but the empty one is a list and a last statement. */
  lemma LastOf(ss: seq<Item>)
    requires ss != []
    ensures ss == ss[..|ss| - 1] + [ss[|ss| - 1]]
  {
  }
}
