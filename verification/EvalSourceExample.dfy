/**
 The rewriter's own steps on two texts that read as an expression although they
 are none: a declaration with an expression behind it that could go on it, and a
 `let` with a pattern. Then a printed list for which everything is given that the
 agreement with the rewriter on statements asks for.
 */
module EvalSourceExample {
  import opened Wrappers
  import opened WhiteSpace
  import opened EvalScanner
  import opened EvalSource
  import opened EvalRewrite
  import opened EvalPrint
  import opened EvalPrintCode
  import opened EvalPrintProofs
  import opened EvalRewriteProofs
  import opened EvalRewriteLimits

  const SOURCE := "function f(){}\n(1)"

  /** Both on one `return`. */
  const CODE := "" + "\n" + ("return (" + SOURCE + "\n);")

  lemma SourceSteps()
    ensures Passes(SOURCE, 0, 10, []) && Passes(SOURCE, 10, 12, [])
    ensures Passes(SOURCE, 12, 14, [14]) && Passes(SOURCE, 14, 15, [15]) && Passes(SOURCE, 15, 18, [])
  {
    hide CutsFrom, CloseFrom, CloseOf, Passes;
    var s, none: seq<nat> := SOURCE, [];
    PlainRun(s, 0, 10);
    PlainRun(s, 11, 11);
    PlainRun(s, 13, 13);
    PlainRun(s, 16, 17);
    BracketStep(s, 10, 11, none);
    BracketStep(s, 12, 13, none);
    EndStep(s, 14);
    BracketStep(s, 15, 17, none);
  }

  lemma CutsOfSource()
    ensures Boundaries(SOURCE) == Some([0, 14, 15])
  {
    hide CutsFrom, Passes, Boundaries;
    SourceSteps();
    var none: seq<nat> := [];
    PassesOn(SOURCE, 0, 10, 12, none, none);
    PassesOn(SOURCE, 0, 12, 14, none + none, [14]);
    PassesOn(SOURCE, 0, 14, 15, none + none + [14], [15]);
    PassesOn(SOURCE, 0, 15, 18, none + none + [14] + [15], none);
    PassedBoundaries(SOURCE, none + none + [14] + [15] + none);
    assert [0] + (none + none + [14] + [15] + none) == [0, 14, 15];
  }

  lemma TidyParts()
    ensures Tidy(SOURCE[15..]) == "(1)" && Tidy(SOURCE[14..]) == "(1)" && Tidy(SOURCE[0..]) == SOURCE
  {
    assert SOURCE[15..] == "(1)" && SOURCE[14..] == "\n(1)" && SOURCE[0..] == SOURCE;
    assert TrimStart("(1)") == "(1)" == TrimEnd("(1)") == DropSemicolons("(1)");
    assert "\n(1)"[1..] == "(1)";
    assert TrimStart("\n(1)") == "(1)";
    assert TrimStart(SOURCE) == SOURCE == TrimEnd(SOURCE) == DropSemicolons(SOURCE);
  }

  lemma NotCompound()
    ensures !IsCompound(SOURCE) && !CannotStart(SOURCE)
  {
    assert SOURCE[0..2] == "fu" && SOURCE[0..1] == "f" && SOURCE[0..3][0] == SOURCE[0..4][0] == SOURCE[0..5][0] == 'f';
    assert SOURCE[0..7][1] == SOURCE[0..10][1] == 'u';
  }

  lemma FromTheLast(cuts: seq<nat>, compiles: Compiler)
    requires |cuts| == 3 && forall i :: 0 <= i < 3 ==> cuts[i] <= |SOURCE|
    requires CodeAt(SOURCE, cuts[2], compiles) == None && CodeAt(SOURCE, cuts[1], compiles) == None
    ensures LatestOf(SOURCE, cuts, 3, compiles) == CodeAt(SOURCE, cuts[0], compiles)
  {
    hide CodeAt;
    assert LatestOf(SOURCE, cuts, 1, compiles) == CodeAt(SOURCE, cuts[0], compiles);
    assert LatestOf(SOURCE, cuts, 2, compiles) == LatestOf(SOURCE, cuts, 1, compiles);
  }

  lemma Refused(compiles: Compiler)
    ensures CodeAt(SOURCE, 15, compiles) == None && CodeAt(SOURCE, 14, compiles) == None
  {
    TidyParts();
    hide Tidy, StatementOf;
  }

  lemma Accepted(compiles: Compiler)
    ensures CodeAt(SOURCE, 0, compiles) == if compiles(CODE) then Some(CODE) else None
  {
    TidyParts();
    NotCompound();
    hide Tidy, IsCompound, CannotStart, Continues;
    assert SOURCE[..0] == "";
  }

  /** The cuts before `(1)` are refused, after the newline and after the `}`
      alike, and the one at the start takes both. */
  lemma DeclarationIsMerged(compiles: Compiler)
    ensures CodeAt(SOURCE, 15, compiles) == None && CodeAt(SOURCE, 14, compiles) == None
    ensures ListOf(SOURCE, compiles) == if compiles(CODE) then Some(CODE) else None
  {
    Refused(compiles);
    Accepted(compiles);
    CutsOfSource();
    hide CutsFrom, Boundaries, CodeAt, LatestOf;
    FromTheLast([0, 14, 15], compiles);
  }

  // ---------------------------------------------------------------- a pattern

  const PATTERN := "let [a] = g()"

  const RETURNED := "" + "\n" + ("return (" + PATTERN + "\n);")

  lemma PatternSteps()
    ensures Passes(PATTERN, 0, 4, []) && Passes(PATTERN, 4, 7, [])
    ensures Passes(PATTERN, 7, 11, []) && Passes(PATTERN, 11, 13, [])
  {
    hide CutsFrom, CloseFrom, CloseOf, Passes;
    var s, none: seq<nat> := PATTERN, [];
    PlainRun(s, 0, 4);
    PlainRun(s, 5, 6);
    PlainRun(s, 7, 11);
    PlainRun(s, 12, 12);
    BracketStep(s, 4, 6, none);
    BracketStep(s, 11, 12, none);
  }

  lemma CutsOfPattern()
    ensures Boundaries(PATTERN) == Some([0])
  {
    hide CutsFrom, Passes, Boundaries;
    PatternSteps();
    var none: seq<nat> := [];
    PassesOn(PATTERN, 0, 4, 7, none, none);
    PassesOn(PATTERN, 0, 7, 11, none + none, none);
    PassesOn(PATTERN, 0, 11, 13, none + none + none, none);
    PassedBoundaries(PATTERN, none + none + none + none);
    assert [0] + (none + none + none + none) == [0];
  }

  lemma TidyPattern()
    ensures Tidy(PATTERN[0..]) == PATTERN
  {
    assert PATTERN[0..] == PATTERN;
    assert TrimStart(PATTERN) == PATTERN == TrimEnd(PATTERN) == DropSemicolons(PATTERN);
  }

  lemma PatternIsPlain()
    ensures !IsCompound(PATTERN) && !CannotStart(PATTERN)
  {
    assert PATTERN[0..2] == "le" && PATTERN[0..1] == "l";
    assert PATTERN[0..3][0] == PATTERN[0..4][0] == PATTERN[0..5][0] == 'l';
    assert PATTERN[0..7][0] == PATTERN[0..10][0] == 'l';
  }

  lemma PatternCode(compiles: Compiler)
    ensures CodeAt(PATTERN, 0, compiles) == if compiles(RETURNED) then Some(RETURNED) else None
  {
    TidyPattern();
    PatternIsPlain();
    assert PATTERN[..0] == "";
    hide Tidy, IsCompound, CannotStart, Continues;
  }

  /** `let [a] = g()` is returned as it stands, if the compiler takes it. */
  lemma PatternIsReturned(compiles: Compiler)
    ensures ListOf(PATTERN, compiles) == if compiles(RETURNED) then Some(RETURNED) else None
  {
    PatternCode(compiles);
    CutsOfPattern();
    hide CutsFrom, Boundaries, CodeAt;
    assert LatestOf(PATTERN, [0], 1, compiles) == CodeAt(PATTERN, 0, compiles);
  }

  // ------------------------------------------------- a list that is printed

  const WORDS := Script(e => "f(a)", f => "", o => "", o => "", c => "c", p => "e", r => "")

  const CALL := Item(Plain, None, None, false, Expr(0), Open)

  const BRANCH := Item(Plain, None, None, false, If(0, [CALL], NoElse), Open)

  const INNER := "" + "\n" + ("return (" + "f(a)" + "\n);")

  const OUTER := "" + "\n" + ("if " + ("(" + "c" + ")") + " {" + (INNER + "\n") + "}")

  lemma Letters()
    ensures Spelt("f") && Spelt("a") && Spelt("c")
  {
  }

  lemma CallBegins(v: string)
    requires Opening("f(a)", v)
    ensures !IsCompound(v) && !CannotStart(v)
    ensures !Keyword(v, 0, "else") && !Keyword(v, 0, "catch") && !Keyword(v, 0, "finally")
  {
    assert v[0] == v[0..4][0] == 'f' && v[1] == v[0..4][1] == '(';
    forall word | word in ["try", "if", "{", "in", "instanceof", "of", "else", "catch", "finally"]
      ensures !StartsWith(v, word, 0)
    {
      if |word| <= |v| { assert v[0..|word|][0] == 'f' && (|word| > 1 ==> v[0..|word|][1] == '('); }
    }
  }

  lemma CallIsPrinted()
    ensures PrintedStmt(WORDS, Plain, Expr(0))
  {
    Letters();
    WordIsClosed("a");
    CallIsClosed("f", "a");
    assert "f" + "(" + "a" + ")" == "f(a)";
    hide Closed, IsCompound, CannotStart, Keyword;
    forall v | Opening("f(a)", v)
      ensures !IsCompound(v) && !CannotStart(v)
      ensures !Keyword(v, 0, "else") && !Keyword(v, 0, "catch") && !Keyword(v, 0, "finally")
    {
      CallBegins(v);
    }
  }

  lemma OnePrinted(x: Script, item: Item)
    ensures Printed(x, [item]) <==>
            && PrintedStmt(x, item.lead, item.s) && item.torn.None? && !item.says && !item.end.Shut?
            && (BraceEnd(item.s) ==> item.end.Open?)
    ensures Print(x, [item]) == PrintStmt(x, item.s) + Ending(item.end)
  {
    assert [item][..0] == [];
    hide PrintedStmt, PrintStmt;
    assert Print(x, []) + PrintStmt(x, item.s) == PrintStmt(x, item.s);
  }

  lemma BranchIsPrinted()
    ensures Printed(WORDS, [BRANCH]) && Print(WORDS, [BRANCH]) == "if (c) {f(a)\n}\n"
  {
    CallIsPrinted();
    OnePrinted(WORDS, CALL);
    OnePrinted(WORDS, BRANCH);
    Letters();
    WordIsClosed("c");
    assert Print(WORDS, [CALL]) == "f(a)\n";
    hide Closed, Begins, Printed, Print;
  }

  /** The last of a list of one is turned, and what comes out is its print. */
  lemma OneTurned(x: Script, item: Item, s': Stmt)
    requires !item.says && !ReturnsBare(item.s) && !item.end.Shut? && TurnAt([item], 0) == Some(s')
    ensures OutList(x, [item]) == Some("" + "\n" + OutStmt(x, item.s, s')) && ReturnBody([item]) == [item.(s := s')]
  {
    hide TurnAt, OutStmt, PrintStmt;
    var ss := [item];
    assert TurnFrom(ss, 1) == Some(ss[..0] + [item.(s := s')]) && ReturnList(ss) == TurnFrom(ss, 1);
    var rs := ReturnList(ss).value;
    assert rs == [item.(s := s')] && rs[..0] == [] && Print(x, []) == "";
  }

  lemma OneJudged(x: Script, item: Item, compiles: Compiler)
    requires compiles("") && JudgedStmt(x, item.misread, item.s, "", compiles)
    requires var code := Coded(x, item.s, "", compiles);
             code.Some? ==>
               compiles("" + "\n" + code.value) && ReturnStatement(item.lead, item.misread, item.s, true).Some?
    ensures Judged(x, [item], compiles)
  {
    hide Coded, JudgedStmt, ReturnStatement, PrintStmt;
    var ss := [item];
    assert MoreOf(x, ss, 0) == "";
    assert ss[..0] == [] && Print(x, []) == "";
    assert JudgedAt(x, ss, 0, compiles);
  }

  lemma OneNone(item: Item)
    ensures NoneReturn([item]) <==> NoReturn(item.s)
  {
    assert [item][..0] == [];
  }

  lemma CallIsJudged(compiles: Compiler)
    requires compiles("") && compiles(INNER)
    ensures Judged(WORDS, [CALL], compiles) && BodyOf(Print(WORDS, [CALL]), compiles) == INNER + "\n"
  {
    assert "f(a)" + "" == "f(a)";
    OneJudged(WORDS, CALL, compiles);
    OneTurned(WORDS, CALL, Return(Text(0)));
    CallIsPrinted();
    OnePrinted(WORDS, CALL);
    hide Printed, Print, Judged, ListOf, OutList;
    PrintedListIsTurned(WORDS, [CALL], compiles);
  }

  /** What is asked of a printed list can be met: here every text is given, and
      so is what the compiler takes. */
  lemma BranchIsTurned(compiles: Compiler)
    requires compiles("") && compiles(INNER) && compiles(OUTER)
    ensures ListOf("if (c) {f(a)\n}\n", compiles) == Some(OUTER)
  {
    CallIsJudged(compiles);
    BranchIsPrinted();
    OneJudged(WORDS, BRANCH, compiles);
    var turned := CALL.(s := Return(Text(0)));
    OneTurned(WORDS, CALL, turned.s);
    OneNone(CALL);
    OneNone(BRANCH);
    OneTurned(WORDS, BRANCH, If(0, [turned], NoElse));
    hide Printed, Print, Judged, ListOf;
    PrintedListIsTurned(WORDS, [BRANCH], compiles);
  }
}
