/**
 Bodies that the rewrite changes, or that it leaves alone.
 */
module EvalRewriteExamples {
  import opened Wrappers
  import opened EvalRewrite
  import opened EvalRewriteProofs
  import opened EvalRewriteLimits
  import opened EvalRewriteValues

  /** A statement on a line of its own, which reads as nothing else. */
  function Line(s: Stmt): Item {
    Item(Plain, None, None, false, s, Open)
  }

  /** A list of two statements, step by step. */
  lemma Two(a: Item, b: Item, sc: Scope, t: Trace, w: World)
    ensures Hoisted([a, b]) == (if a.s.Decl? then [a.s.f] else []) + (if b.s.Decl? then [b.s.f] else [])
    ensures ExecBlock([a, b], sc, t, w) ==
            Then(Then(Run(t, Normal(None)), a.s, sc + [Hoisted([a, b])], w), b.s, sc + [Hoisted([a, b])], w)
  {
    assert [a, b] == [a] + [b] && [a] == [] + [a];
    HoistedLast([a], b);
    HoistedLast([], a);
    ExecLast([a], b, sc + [Hoisted([a, b])], t, w, None);
    ExecLast([], a, sc + [Hoisted([a, b])], t, w, None);
  }

  lemma TwoReturned(a: Item, b: Item, s': Stmt)
    requires !a.says && !b.says && !ReturnsBare(a.s) && !ReturnsBare(b.s) && !b.end.Shut?
    requires Turns(b, s') && (b.torn.Some? || CutInside(b.s).Some? || CanCut([a, b], 1))
    ensures ReturnList([a, b]) == Some([a, b.(s := s')])
  {
    var ss := [a, b];
    assert TurnAt(ss, 1) == Some(s');
    assert ss[..1] + [b.(s := s')] == [a, b.(s := s')];
  }

  /** `await load()` and then a `for` whose body stands on the next line: the
      rewritten loop ends in its first round. */
  lemma LoopBodyOnItsOwnLineRunsOnce(w: World)
    requires w(0) == w(2) == w(3) == QUIET && w(1) == QUIET.(times := 2)
    ensures var ss := [Line(Expr(0)), Line(Loop(1, true, Expr(2)))];
            ReturnList(ss) == Some([Line(Expr(0)), Line(Loop(1, true, Return(Text(2))))]) &&
            |ExecBody(ss, w).trace| == 4 && |ExecBody(ReturnBody(ss), w).trace| == 3
  {
    var a, loop, loop' := Line(Expr(0)), Line(Loop(1, true, Expr(2))), Line(Loop(1, true, Return(Text(2))));
    TwoReturned(a, loop, loop'.s);
    Two(a, loop, [], [], w);
    Two(a, loop', [], [], w);
    var sc: Scope := [] + [[]];
    var t := [Effect(Eval(0), sc), Effect(Iterate(1), sc)];
    var t3 := t + [Effect(Eval(2), sc)];
    Once(Expr(2), sc, t3, w, Undefined);
    assert ExecTimes(Expr(2), 2, sc, t, w, Undefined) == ExecTimes(Expr(2), 1, sc, t3, w, Undefined);
  }

  /** A body that ends in a function declaration loses the declaration: what
      runs before it no longer sees it. */
  lemma LastDeclarationIsLost(w: World)
    requires !w(0).throws
    ensures var ss := [Line(Expr(0)), Line(Decl(7))];
            ReturnList(ss) == Some([Line(Expr(0)), Line(Return(Read(FunctionText(7))))]) &&
            ExecBody(ss, w) == Run([Effect(Eval(0), [[7]])], Normal(Some(w(0).value))) &&
            ExecBody(ReturnBody(ss), w) == Run([Effect(Eval(0), [[]])], Ret(Function(7)))
  {
    var a, d, d' := Line(Expr(0)), Line(Decl(7)), Line(Return(Read(FunctionText(7))));
    TwoReturned(a, d, d'.s);
    Two(a, d, [], [], w);
    Two(a, d', [], [], w);
    var top: Scope, start: Trace := [], [];
    assert [] + [7] == [7] && top + [[7]] == [[7]] && top + [[]] == [[]];
    assert start + [Effect(Eval(0), [[7]])] == [Effect(Eval(0), [[7]])];
    assert start + [Effect(Eval(0), [[]])] == [Effect(Eval(0), [[]])];
  }

  /** `function f(){ g() }` and, on the next line, `(1)`: both are returned as
      one expression, which calls the function with what follows it. */
  lemma DeclarationRunsTogether(w: World)
    requires !w(0).throws && !w(1).throws
    ensures var ss := [Line(Decl(7)).(misread := Some(Joined(7, 1))), Line(Expr(1)).(lead := Opens)];
            var m := Line(Return(Read(Joined(7, 1)))).(misread := Some(Joined(7, 1)));
            ReturnList(ss) == Some([m]) && NoneReturn(ss) && !SafeBody(ss) &&
            ExecBody(ss, w) == Run([Effect(Eval(1), [[7]])], Normal(Some(w(0).value))) &&
            ExecBody(ReturnBody(ss), w) == Run([Effect(Operand(1), [[]]), Effect(Apply(7, 1), [[]])], Ret(w(1).stray))
  {
    var d, x := Line(Decl(7)).(misread := Some(Joined(7, 1))), Line(Expr(1)).(lead := Opens);
    var m := d.(s := Return(Read(Joined(7, 1))));
    var ss := [d, x];
    Early(d, x, m.s);
    TwoJudged(d, x);
    Two(d, x, [], [], w);
    HoistedLast([], m);
    var top: Scope, start: Trace, none: seq<Item> := [], [], [];
    ExecLast([], m, top + [[]], start, w, None);
    assert none + [m] == [m] && [7] + [] == [7] && top + [[7]] == [[7]] && top + [[]] == [[]];
    assert start + [Effect(Eval(1), [[7]])] == [Effect(Eval(1), [[7]])];
    assert start + [Effect(Operand(1), [[]])] == [Effect(Operand(1), [[]])];
    assert [Effect(Operand(1), [[]])] + [Effect(Apply(7, 1), [[]])]
        == [Effect(Operand(1), [[]]), Effect(Apply(7, 1), [[]])];
  }

  /** Two statements that are returned as one text. */
  lemma Early(a: Item, b: Item, s': Stmt)
    requires a.end.Open? && !a.says && !b.says && !ReturnsBare(a.s) && !ReturnsBare(b.s)
    requires b.s.Expr? && b.lead.Opens? && b.misread.None? && b.torn.None? && b.end.Open? && !a.lead.Stuck?
    requires a.torn.None? && ReturnStatement(a.lead, a.misread, a.s, false) == Some(s')
    ensures ReturnList([a, b]) == Some([a.(s := s')]) && TurnAt([a, b], 1).None?
  {
    var ss := [a, b];
    assert TurnAt(ss, 1).None? && TurnAt(ss, 0) == Some(s');
    assert TurnFrom(ss, 1) == Some(ss[..0] + [a.(s := s')]);
    assert ss[..0] + [a.(s := s')] == [a.(s := s')];
  }

  /** `/*c*/{ a }` and, on the next line, `(1)`: an object literal that is called. */
  lemma CommentedBlockIsCalled(inner: seq<Item>, e: nat, m: nat)
    requires NoneReturn(inner)
    ensures var block := Item(Comment, Some(Code(m)), None, false, Block(inner), Open);
            var ss := [block, Line(Expr(e)).(lead := Opens)];
            ReturnList(ss) == Some([block.(s := Return(Read(Code(m))))]) && NoneReturn(ss) && !SafeBody(ss)
  {
    var block := Item(Comment, Some(Code(m)), None, false, Block(inner), Open);
    var x := Line(Expr(e)).(lead := Opens);
    Early(block, x, Return(Read(Code(m))));
    TwoJudged(block, x);
  }

  lemma One(x: Item, sc: Scope, t: Trace, w: World)
    ensures Hoisted([x]) == if x.s.Decl? then [x.s.f] else []
    ensures ExecBlock([x], sc, t, w) == Then(Run(t, Normal(None)), x.s, sc + [Hoisted([x])], w)
  {
    assert [x] == [] + [x];
    HoistedLast([], x);
    ExecLast([], x, sc + [Hoisted([x])], t, w, None);
  }

  lemma OneReturned(x: Item, s': Stmt)
    requires !x.says && !ReturnsBare(x.s) && !x.end.Shut? && !x.lead.Stuck? && Turns(x, s')
    ensures ReturnBody([x]) == [x.(s := s')] && ReturnList([x]).Some? && TurnLast([x]) == Some(s')
  {
    var ss := [x];
    assert TurnAt(ss, 0) == Some(s') && TurnFrom(ss, 1) == Some(ss[..0] + [x.(s := s')]);
  }

  lemma OneJudged(x: Item, left: bool)
    requires ReturnList([x]).Some? && TurnLast([x]).Some?
    ensures SafeBody([x]) <==> SafeLast(x)
    ensures KeepsBody([x], left) <==> KeepsLast(x, left)
    ensures NoneReturn([x]) <==> NoReturn(x.s)
  {
    assert [x][..0] == [];
  }

  lemma TwoJudged(a: Item, b: Item)
    ensures ReturnList([a, b]).Some? && TurnLast([a, b]).Some? ==>
              (SafeBody([a, b]) <==> SafeLast(b)) && (KeepsValue([a, b]) <==> KeepsLast(b, Carries([a], false)))
    ensures NoneReturn([a, b]) <==> NoReturn(a.s) && NoReturn(b.s)
  {
    assert [a, b][..1] == [a] && [a][..0] == [];
    assert NoneReturn([a]) <==> NoReturn(a.s);
  }

  /** `if (c) { let [a] = g() }` in the last place: in parentheses `let[a] = g()`
      assigns to an element of `let`, and `g()` never runs. */
  lemma BindingInBranchIsReturned(w: World)
    requires !w(0).throws && w(0).yes && !w(1).throws
    ensures var binding := Line(Binding(3)).(misread := Some(Code(4)));
            var ss, rs := [Line(If(2, [binding], NoElse))],
                          [Line(If(2, [binding.(s := Return(Read(Code(4))))], NoElse))];
            ReturnList(ss) == Some(rs) && NoneReturn(ss) && !SafeBody(ss) && !KeepsValue(ss) &&
            ExecBody(ss, w).trace == [Effect(Test(2), [[]]), Effect(Do(3), [[], []])] &&
            ExecBody(rs, w) == Run([Effect(Test(2), [[]]), Effect(Stray(4), [[], []])], Ret(w(1).stray))
  {
    var binding := Line(Binding(3)).(misread := Some(Code(4)));
    var turned := binding.(s := Return(Read(Code(4))));
    var a, b := Line(If(2, [binding], NoElse)), Line(If(2, [turned], NoElse));
    OneReturned(binding, turned.s);
    OneJudged(binding, false);
    OneReturned(a, b.s);
    OneJudged(a, false);
    hide ReturnList, ReturnBody, TurnLast;
    var top: Scope, list: Scope, start: Trace := [], [[]], [];
    var t1 := start + [Effect(Test(2), top + [[]])];
    One(a, top, start, w);
    One(b, top, start, w);
    One(binding, top + [[]], t1, w);
    One(turned, top + [[]], t1, w);
    assert top + [[]] == list && list + [[]] == [[], []] && t1 == [Effect(Test(2), [[]])];
    assert t1 + [Effect(Do(3), [[], []])] == [Effect(Test(2), [[]]), Effect(Do(3), [[], []])];
    assert t1 + [Effect(Stray(4), [[], []])] == [Effect(Test(2), [[]]), Effect(Stray(4), [[], []])];
  }

  /** `if (d)` with `function f(){}` on the next line: the function is returned. */
  lemma BranchFunctionIsReturned(w: World)
    requires !w(0).throws && w(0).yes
    ensures var ss := [Line(BareIf(2, true, Decl(7), NoElse))];
            ReturnList(ss) == Some([Line(BareIf(2, true, Return(Read(FunctionText(7))), NoElse))]) &&
            !SafeBody(ss) && !KeepsValue(ss) &&
            Shown(ExecBody(ss, w)) == Ret(Undefined) && Settled(ExecBody(ReturnBody(ss), w)) == Ret(Function(7))
  {
    var a, b := Line(BareIf(2, true, Decl(7), NoElse)), Line(BareIf(2, true, Return(Read(FunctionText(7))), NoElse));
    OneReturned(a, b.s);
    OneJudged(a, false);
    One(a, [], [], w);
    One(b, [], [], w);
  }

  /** `let` with `x = 1` on the next line: the cut makes two statements of it. */
  lemma LetIsTorn(o: nat, m: nat)
    ensures var x := Line(Binding(o)).(torn := Some(m));
            ReturnList([x]) == Some([x.(s := Torn(m))]) && NoneReturn([x]) && !SafeBody([x])
  {
    var x := Line(Binding(o)).(torn := Some(m));
    OneReturned(x, Torn(m));
    OneJudged(x, false);
  }

  /** `a; if (c) b; else` with `d` on the next line: the value of `b` is lost. */
  lemma ElseOnItsOwnLineLosesTheOther(w: World)
    requires !w(0).throws && !w(1).throws && w(1).yes && !w(2).throws
    ensures var ss := [Line(Expr(0)), Line(BareIf(1, false, Expr(2), Else(true, Plain, None, Expr(3))))];
            ReturnList(ss)
              == Some([Line(Expr(0)), Line(BareIf(1, false, Expr(2), Else(true, Plain, None, Return(Text(3)))))]) &&
            SafeBody(ss) && !KeepsValue(ss) &&
            Shown(ExecBody(ss, w)) == Ret(w(2).value) &&
            Settled(ExecBody(ReturnBody(ss), w)) == Ret(Undefined)
  {
    var a, b := Line(Expr(0)), Line(BareIf(1, false, Expr(2), Else(true, Plain, None, Expr(3))));
    var b' := Line(BareIf(1, false, Expr(2), Else(true, Plain, None, Return(Text(3)))));
    TwoReturned(a, b, b'.s);
    TwoJudged(a, b);
    Two(a, b, [], [], w);
    Two(a, b', [], [], w);
  }

  /** A last expression that starts with the word `of`, one with a comment behind
      its `;`, and one after a statement that it could go on, are not returned,
      if the text before does not read on. */
  lemma SomeExpressionsAreNotReturned(a: Item, e: nat)
    requires a.torn.None? && ReturnStatement(a.lead, a.misread, a.s, false).None?
    ensures ReturnList([a, Line(Expr(e)).(lead := Stuck)]) == None
    ensures ReturnList([a, Line(Expr(e)).(end := Shut)]) == None
    ensures a.end.Open? ==> ReturnList([a, Line(Expr(e)).(lead := Opens)]) == None
  {
    forall l | l == Stuck || (l == Opens && a.end.Open?) ensures ReturnList([a, Line(Expr(e)).(lead := l)]) == None {
      var ss := [a, Line(Expr(e)).(lead := l)];
      assert TurnAt(ss, 1).None? && TurnAt(ss, 0).None?;
      assert TurnFrom(ss, 0).None?;
      assert TurnFrom(ss, 1) == TurnFrom(ss, 0);
      assert TurnFrom(ss, 2) == TurnFrom(ss, 1);
    }
  }
}
