/**
 Printing the statements of `EvalRewrite`, and what the scanner sees of a print.
 */
module EvalPrint {
  import opened Wrappers
  import opened WhiteSpace
  import opened EvalScanner
  import opened EvalSource
  import opened EvalRewrite

  /** The texts behind the numbers. `reading` is the text that is misread. */
  datatype Script = Script(
    expr: nat -> string, decl: nat -> string, binding: nat -> string, other: nat -> string,
    cond: nat -> string, param: nat -> string, reading: Reading -> string)

  // ---------------------------------------------------------------- printing

  /** Statements that are printed from one text. */
  predicate Atomic(s: Stmt) {
    s.Expr? || s.Decl? || s.Binding? || s.Other?
  }

  function Atom(x: Script, s: Stmt): string {
    match s
    case Expr(e) => x.expr(e)
    case Decl(f) => x.decl(f)
    case Binding(o) => x.binding(o)
    case Other(o) => x.other(o)
    case _ => ""
  }

  function PrintStmt(x: Script, s: Stmt): string
    decreases s, 0
  {
    match s
    case Block(b) => Braced(x, "", b)
    case If(c, t, els) => Condition(x, c) + Braced(x, " ", t) + PrintElse(x, els)
    case Try(b, h, f) => Braced(x, "try ", b) + PrintClause(x, " catch ", h) + PrintClause(x, " finally ", f)
    case _ => Atom(x, s)
  }

  function Condition(x: Script, c: nat): string {
    "if (" + x.cond(c) + ")"
  }

  function Braced(x: Script, word: string, b: seq<Item>): string
    decreases b, 2
  {
    word + "{" + Print(x, b) + "}"
  }

  function PrintElse(x: Script, els: Else): string
    decreases els, 0
  {
    match els
    case NoElse => ""
    case Else(_, _, _, e) => " else " + PrintStmt(x, e)
  }

  /** What a `catch` binds, in its parentheses. */
  function ParamText(x: Script, param: Option<nat>): string {
    if param.Some? then "(" + x.param(param.value) + ") " else ""
  }

  function PrintClause(x: Script, word: string, h: Clause): string
    decreases h, 3
  {
    match h
    case NoClause => ""
    case Clause(p, b) => Braced(x, word + ParamText(x, p), b)
  }

  function Ending(end: End): string {
    if end.Semi? then ";" else "\n"
  }

  function Print(x: Script, ss: seq<Item>): string
    decreases ss, 1
  {
    if ss == [] then ""
    else
      var last := ss[|ss| - 1];
      assert last.s < last;
      Print(x, ss[..|ss| - 1]) + PrintStmt(x, last.s) + Ending(last.end)
  }

  // ------------------------------------------------------ what texts are like

  /** `return` is looked for where a word begins. */
  predicate Before(t: string, i: nat) {
    i == 0 || !IsIdent(t, i - 1)
  }

  predicate After(t: string, i: nat) {
    i < |t| && t[i] in "\n;)"
  }

  /** The scanner goes from `i` to `k` with these cuts, at any depth. */
  ghost predicate Passes(t: string, i: nat, k: nat, cuts: seq<nat>) {
    && i <= k <= |t|
    && CutsFrom(t, i) == Prepend(cuts, CutsFrom(t, k))
    && forall d: nat :: d > 0 ==> CloseFrom(t, i, d) == CloseFrom(t, k, d)
  }

  /** Wherever the text stands, the scanner passes over it: brackets, strings and
      comments are closed, and there is no cut but, for `brace`, at its end. */
  ghost predicate Closed(a: string, brace: bool) {
    forall t: string, i: nat :: StartsWith(t, a, i) && Before(t, i) && After(t, i + |a|) ==>
      Passes(t, i, i + |a|, if brace then [i + |a|] else [])
  }

  /** Nothing to trim. */
  predicate Firm(v: string) {
    v != "" && !IsSpace(v[0]) && !IsSpace(v[|v| - 1]) && v[|v| - 1] != ';'
  }

  /** `v` starts with `a`, and no word goes on behind it. */
  predicate Opening(a: string, v: string) {
    StartsWith(v, a, 0) && (|a| == |v| || After(v, |a|))
  }

  /** Whatever follows, the text starts like no `if`, `try`, block, comment or
      second half of a statement, and like `lead` tells. */
  ghost predicate Begins(a: string, lead: Lead) {
    && !lead.Comment? && !lead.Odd? && Firm(a) && a[0] !in "/{;"
    && (Continues(a) <==> lead.Opens?)
    && forall v :: Opening(a, v) ==>
         && !IsCompound(v) && (CannotStart(v) <==> lead.Stuck?)
         && !Keyword(v, 0, "else") && !Keyword(v, 0, "catch") && !Keyword(v, 0, "finally")
  }

  predicate BraceEnd(s: Stmt)
    decreases s
  {
    match s
    case Decl(_) => true
    case Block(_) => true
    case If(_, _, Else(_, _, _, e)) => BraceEnd(e)
    case If(_, _, NoElse) => true
    case Try(_, _, _) => true
    case _ => false
  }

  /** Lists that are printed: every cut stands between two statements or behind a
      brace, and the texts are as they should be. */
  ghost predicate Printed(x: Script, ss: seq<Item>)
    decreases ss, 3
  {
    ss == [] ||
    var last := ss[|ss| - 1];
    assert last.s < last;
    && Printed(x, ss[..|ss| - 1])
    && PrintedStmt(x, last.lead, last.s)
    && last.torn.None? && !last.says && !last.end.Shut? && (BraceEnd(last.s) ==> last.end.Open?)
  }

  ghost predicate PrintedStmt(x: Script, lead: Lead, s: Stmt)
    decreases s, 2
  {
    match s
    case Block(b) => lead.Plain? && Printed(x, b)
    case If(c, t, els) =>
      && lead.Plain? && Printed(x, t) && Closed(x.cond(c), false)
      && (els.Else? ==> !els.nl && (Compound(els.s) ==> els.lead.Plain?) && PrintedStmt(x, els.lead, els.s))
    case Try(b, h, f) =>
      && lead.Plain? && Printed(x, b) && PrintedClause(x, h) && PrintedClause(x, f) && (h.Clause? || f.Clause?)
      && (f.Clause? ==> f.param.None?)
    case _ => Atomic(s) && Closed(Atom(x, s), s.Decl?) && Begins(Atom(x, s), lead)
  }

  ghost predicate PrintedClause(x: Script, h: Clause)
    decreases h, 4
  {
    h.Clause? ==> Printed(x, h.body) && (h.param.Some? ==> Closed(x.param(h.param.value), false))
  }

  // ------------------------------------------------------------ scanning on

  lemma StartsParts(t: string, a: string, b: string, i: nat)
    requires StartsWith(t, a + b, i)
    ensures StartsWith(t, a, i) && StartsWith(t, b, i + |a|)
  {
    var u := t[i..i + |a + b|];
    assert u == a + b;
    assert t[i..i + |a|] == u[..|a|] && t[i + |a|..i + |a| + |b|] == u[|a|..];
  }

  lemma PassesOn(t: string, i: nat, j: nat, k: nat, a: seq<nat>, b: seq<nat>)
    requires Passes(t, i, j, a) && Passes(t, j, k, b)
    ensures Passes(t, i, k, a + b)
  {
    hide CutsFrom, CloseFrom;
    PrependTwice(a, b, CutsFrom(t, k));
  }

  /** Neither a bracket, a token, an end nor the start of `return`. */
  predicate Plainly(t: string, i: nat) {
    i < |t| && t[i] !in "/\"'`([{)]};\n" && (t[i] != 'r' || (i + 1 < |t| && t[i + 1] != 'e'))
  }

  lemma PlainStep(t: string, i: nat)
    requires Plainly(t, i)
    ensures Passes(t, i, i + 1, [])
  {
    if i + 6 <= |t| { assert t[i] == t[i..i + 6][0] && t[i + 1] == t[i..i + 6][1]; }
    assert !ReturnsAt(t, i);
    assert SkipToken(t, i) == -1;
    assert CutsFrom(t, i) == CutsFrom(t, i + 1) == Prepend([], CutsFrom(t, i + 1)) by {
      if CutsFrom(t, i + 1).Some? { assert [] + CutsFrom(t, i + 1).value == CutsFrom(t, i + 1).value; }
    }
  }

  lemma {:induction false} PlainRun(t: string, i: nat, k: nat)
    requires i <= k <= |t| && forall j :: i <= j < k ==> Plainly(t, j)
    ensures Passes(t, i, k, [])
    decreases k - i
  {
    if i == k {
      if CutsFrom(t, k).Some? { assert [] + CutsFrom(t, k).value == CutsFrom(t, k).value; }
    } else {
      var none: seq<nat> := [];
      PlainStep(t, i);
      PlainRun(t, i + 1, k);
      PassesOn(t, i, i + 1, k, [], []);
      assert none + none == none;
    }
  }

  lemma EndStep(t: string, i: nat)
    requires i < |t| && t[i] in ";\n"
    ensures Passes(t, i, i + 1, [i + 1])
  {
  }

  lemma BracketStep(t: string, i: nat, e: nat, inner: seq<nat>)
    requires e < |t| && i + 1 <= e && IsOpener(t[i]) && IsCloser(t[e]) && Passes(t, i + 1, e, inner)
    ensures CloseOf(t, i) == e
    ensures Passes(t, i, e + 1, if t[i] == '{' then [e + 1] else [])
  {
    assert SkipToken(t, i) == -1 && SkipToken(t, e) == -1;
    assert CloseFrom(t, i, 0) == CloseFrom(t, i + 1, 1) == CloseFrom(t, e, 1) == e;
    forall d: nat | d > 0 ensures CloseFrom(t, i, d) == CloseFrom(t, e + 1, d) {
      assert CloseFrom(t, i, d) == CloseFrom(t, i + 1, d + 1) == CloseFrom(t, e, d + 1);
    }
  }

  // ------------------------------------------------------- the cuts of a print

  function StmtCuts(x: Script, s: Stmt, off: nat): seq<nat>
    decreases s
  {
    match s
    case Decl(_) => [off + |PrintStmt(x, s)|]
    case Block(b) => [off + |Braced(x, "", b)|]
    case If(c, t, els) =>
      var e := off + |Condition(x, c)| + |Braced(x, " ", t)|;
      [e] + ElseCuts(x, els, e)
    case Try(b, h, f) =>
      var e := off + |Braced(x, "try ", b)|;
      [e] + ClauseCuts(x, " catch ", h, e) + ClauseCuts(x, " finally ", f, e + |PrintClause(x, " catch ", h)|)
    case _ => []
  }

  function ElseCuts(x: Script, els: Else, off: nat): seq<nat>
    decreases els
  {
    if els.Else? then StmtCuts(x, els.s, off + |" else "|) else []
  }

  function ClauseCuts(x: Script, word: string, h: Clause, off: nat): seq<nat> {
    if h.Clause? then [off + |PrintClause(x, word, h)|] else []
  }

  function ListCuts(x: Script, ss: seq<Item>, off: nat): seq<nat> {
    if ss == [] then []
    else
      var p := ss[..|ss| - 1];
      ListCuts(x, p, off) + StmtCuts(x, ss[|ss| - 1].s, off + |Print(x, p)|) + [off + |Print(x, ss)|]
  }

  /** A word of letters that the scanner goes over, whatever follows. */
  predicate Spelt(word: string) {
    forall j :: 0 <= j < |word| ==> Plainly(word, j)
  }

  lemma WordPasses(t: string, word: string, i: nat)
    requires Spelt(word) && StartsWith(t, word, i)
    ensures Passes(t, i, i + |word|, [])
  {
    forall j | i <= j < i + |word| ensures Plainly(t, j) {
      assert t[j] == t[i..i + |word|][j - i] == word[j - i] && Plainly(word, j - i);
      if j + 1 < i + |word| { assert t[j + 1] == t[i..i + |word|][j + 1 - i]; }
    }
    PlainRun(t, i, i + |word|);
  }

  /** A word, a bracket, what is in it, and the closing bracket. */
  lemma WrappedPasses(t: string, i: nat, word: string, open: string, inner: string, close: string, cuts: seq<nat>)
    requires StartsWith(t, word + open + inner + close, i) && Spelt(word)
    requires |open| == |close| == 1 && IsOpener(open[0]) && IsCloser(close[0])
    requires var o := i + |word| + 1; Passes(t, o, o + |inner|, cuts)
    ensures var o := i + |word|; var e := o + 1 + |inner|;
            && CloseOf(t, o) == e && t[o] == open[0]
            && Passes(t, i, e + 1, if open == "{" then [e + 1] else [])
  {
    var o := i + |word|;
    var e := o + 1 + |inner|;
    hide CutsFrom, CloseFrom, Plainly, Spelt, Passes;
    StartsParts(t, word + open + inner, close, i);
    StartsParts(t, word + open, inner, i);
    StartsParts(t, word, open, i);
    assert t[o] == t[o..o + 1][0] && t[e] == t[e..e + 1][0];
    WordPasses(t, word, i);
    BracketStep(t, o, e, cuts);
    var none: seq<nat>, at := [], if open == "{" then [(e + 1) as nat] else [];
    PassesOn(t, i, o, e + 1, none, at);
    assert none + at == at;
  }

  lemma {:induction false} BracePasses(x: Script, b: seq<Item>, word: string, t: string, i: nat)
    requires Printed(x, b) && StartsWith(t, Braced(x, word, b), i) && Passes(t, i, i + |word|, [])
    ensures var o := i + |word|; var e := o + 1 + |Print(x, b)|;
            CloseOf(t, o) == e && t[o] == '{' && Passes(t, i, i + |Braced(x, word, b)|, [e + 1])
    decreases b, 4
  {
    hide CutsFrom, CloseFrom, Passes, Printed, Print, ListCuts, Spelt;
    var o, list := i + |word|, Print(x, b);
    var e := o + 1 + |list|;
    StartsParts(t, word + "{" + list, "}", i);
    StartsParts(t, word + "{", list, i);
    StartsParts(t, word, "{", i);
    OpensWord(t, o);
    PrintPasses(x, b, t, o + 1);
    StandsAgain(t, o, list);
    SpeltWords();
    WrappedPasses(t, o, "", "{", list, "}", ListCuts(x, b, o + 1));
    var none: seq<nat> := [];
    PassesOn(t, i, o, e + 1, none, [e + 1]);
    assert none + [e + 1] == [e + 1];
  }

  lemma StandsAgain(t: string, o: nat, list: string)
    requires StartsWith(t, "{", o) && StartsWith(t, list, o + 1) && StartsWith(t, "}", o + 1 + |list|)
    ensures StartsWith(t, "" + "{" + list + "}", o)
  {
    var k := o + 1 + |list|;
    assert t[o..k + 1] == t[o..o + 1] + t[o + 1..k] + t[k..k + 1];
  }

  lemma OpensWord(t: string, o: nat)
    requires StartsWith(t, "{", o)
    ensures Before(t, o + 1)
  {
    assert t[o] == t[o..o + 1][0];
  }

  /** A list is a list, a last statement and its end. */
  lemma LastPrinted(x: Script, ss: seq<Item>, off: nat)
    requires ss != [] && Printed(x, ss)
    ensures var p, last := ss[..|ss| - 1], ss[|ss| - 1];
            var j := off + |Print(x, p)|;
            && Print(x, ss) == Print(x, p) + PrintStmt(x, last.s) + Ending(last.end)
            && ListCuts(x, ss, off) == ListCuts(x, p, off) + StmtCuts(x, last.s, j) + [off + |Print(x, ss)|]
            && Printed(x, p) && PrintedStmt(x, last.lead, last.s) && last.s < last
  {
    assert ss[|ss| - 1].s < ss[|ss| - 1];
  }

  lemma EndStands(t: string, end: End, k: nat)
    requires StartsWith(t, Ending(end), k)
    ensures k < |t| && t[k] in ";\n" && After(t, k) && |Ending(end)| == 1
  {
    assert t[k] == t[k..k + 1][0];
  }

  lemma NothingPasses(x: Script, t: string, i: nat)
    requires i <= |t|
    ensures Passes(t, i, i + |Print(x, [])|, ListCuts(x, [], i))
  {
    PlainRun(t, i, i);
  }

  lemma ItemPasses(t: string, i: nat, j: nat, k: nat, a: seq<nat>, b: seq<nat>)
    requires Passes(t, i, j, a) && Passes(t, j, k, b) && k < |t| && t[k] in ";\n"
    ensures Passes(t, i, k + 1, a + b + [k + 1])
  {
    EndStep(t, k);
    hide CutsFrom, CloseFrom, Passes;
    PassesOn(t, i, j, k, a, b);
    PassesOn(t, i, k, k + 1, a + b, [k + 1]);
  }

  lemma {:induction false} PrintPasses(x: Script, ss: seq<Item>, t: string, i: nat)
    requires Printed(x, ss) && StartsWith(t, Print(x, ss), i) && Before(t, i)
    ensures Passes(t, i, i + |Print(x, ss)|, ListCuts(x, ss, i))
    decreases ss, 3
  {
    hide CutsFrom, CloseFrom, Passes, Printed, PrintedStmt, StmtCuts, Print, PrintStmt, ListCuts, Before, After, Ending;
    if ss == [] {
      NothingPasses(x, t, i);
    } else {
      LastPrinted(x, ss, i);
      var p, last := ss[..|ss| - 1], ss[|ss| - 1];
      var a, b, c := Print(x, p), PrintStmt(x, last.s), Ending(last.end);
      var j := i + |a|;
      var k := j + |b|;
      StartsParts(t, a + b, c, i);
      StartsParts(t, a, b, i);
      EndStands(t, last.end, k);
      hide StartsWith;
      PrintPasses(x, p, t, i);
      PrintEnds(x, p, t, i);
      StmtPasses(x, last.lead, last.s, t, j);
      ItemPasses(t, i, j, k, ListCuts(x, p, i), StmtCuts(x, last.s, j));
      assert |a + b + c| == |a| + |b| + 1;
    }
  }

  /** A list ends with a newline or a `;`, so no word goes on behind it. */
  lemma PrintEnds(x: Script, ss: seq<Item>, t: string, i: nat)
    requires StartsWith(t, Print(x, ss), i) && Before(t, i)
    ensures Before(t, i + |Print(x, ss)|)
  {
    if ss != [] {
      var k := i + |Print(x, ss)| - 1;
      var front := Print(x, ss[..|ss| - 1]) + PrintStmt(x, ss[|ss| - 1].s);
      assert Print(x, ss) == front + Ending(ss[|ss| - 1].end);
      assert t[k] == t[i..k + 1][|front|];
    }
  }

  lemma {:induction false} StmtPasses(x: Script, lead: Lead, s: Stmt, t: string, i: nat)
    requires PrintedStmt(x, lead, s) && StartsWith(t, PrintStmt(x, s), i) && Before(t, i)
    requires After(t, i + |PrintStmt(x, s)|)
    ensures Passes(t, i, i + |PrintStmt(x, s)|, StmtCuts(x, s, i))
    decreases s, 5
  {
    hide Passes, CutsFrom, CloseFrom, Print, Printed, Begins, Braced;
    match s
    case Block(b) =>
      PlainRun(t, i, i);
      BracePasses(x, b, "", t, i);
      BracedSize(x, "", b);
    case If(_, _, _) => IfPasses(x, lead, s, t, i);
    case Try(_, _, _) => TryPasses(x, lead, s, t, i);
    case _ =>
  }

  lemma BracedWord(x: Script, word: string, b: seq<Item>, t: string, i: nat)
    requires StartsWith(t, Braced(x, word, b), i)
    ensures StartsWith(t, word, i)
  {
    hide Print;
    StartsParts(t, word + "{" + Print(x, b), "}", i);
    StartsParts(t, word + "{", Print(x, b), i);
    StartsParts(t, word, "{", i);
  }

  lemma BracedSize(x: Script, word: string, b: seq<Item>)
    ensures |Braced(x, word, b)| == |word| + |Print(x, b)| + 2
  {
  }

  /** The condition in its parentheses. */
  lemma CondPasses(x: Script, c: nat, t: string, i: nat)
    requires Closed(x.cond(c), false) && StartsWith(t, Condition(x, c), i)
    ensures CloseOf(t, i + 3) == i + 4 + |x.cond(c)| && Passes(t, i, i + |Condition(x, c)|, []) && t[i + 3] == '('
  {
    var a := x.cond(c);
    StartsParts(t, "if (" + a, ")", i);
    StartsParts(t, "if (", a, i);
    assert t[i + 3] == t[i..i + 4][3] && t[i + 4 + |a|] == t[i + 4 + |a|..i + 5 + |a|][0];
    assert Passes(t, i + 4, i + 4 + |a|, []);
    assert "if " + "(" + a + ")" == "if (" + a + ")";
    hide Passes, Closed;
    WrappedPasses(t, i, "if ", "(", a, ")", []);
  }

  lemma {:induction false} IfPasses(x: Script, lead: Lead, s: Stmt, t: string, i: nat)
    requires s.If? && PrintedStmt(x, lead, s) && StartsWith(t, PrintStmt(x, s), i)
    requires After(t, i + |PrintStmt(x, s)|)
    ensures Passes(t, i, i + |PrintStmt(x, s)|, StmtCuts(x, s, i))
    decreases s, 4
  {
    hide Passes, CutsFrom, CloseFrom, Print, Printed, Begins, Braced, Condition, Closed, StartsWith,
         PrintElse, ElseCuts;
    var head, body, rest := Condition(x, s.c), Braced(x, " ", s.thn), PrintElse(x, s.els);
    var j := i + |head|;
    var k := j + |body|;
    BracedSize(x, " ", s.thn);
    StartsParts(t, head + body, rest, i);
    StartsParts(t, head, body, i);
    CondPasses(x, s.c, t, i);
    BracedWord(x, " ", s.thn, t, j);
    SpeltWords();
    WordPasses(t, " ", j);
    BracePasses(x, s.thn, " ", t, j);
    ElsePasses(x, s.els, t, k);
    PassesThrough(t, i, j, k, k + |rest|, ElseCuts(x, s.els, k));
  }

  lemma PassesThrough(t: string, i: nat, j: nat, k: nat, end: nat, cuts: seq<nat>)
    requires Passes(t, i, j, []) && Passes(t, j, k, [k]) && Passes(t, k, end, cuts)
    ensures Passes(t, i, end, [k] + cuts)
  {
    hide CutsFrom, CloseFrom, Passes;
    var none: seq<nat> := [];
    PassesOn(t, i, j, k, none, [k]);
    assert none + [k] == [k];
    PassesOn(t, i, k, end, [k], cuts);
  }

  lemma {:induction false} ElsePasses(x: Script, els: Else, t: string, k: nat)
    requires els.Else? ==> PrintedStmt(x, els.lead, els.s)
    requires StartsWith(t, PrintElse(x, els), k) && After(t, k + |PrintElse(x, els)|)
    ensures Passes(t, k, k + |PrintElse(x, els)|, ElseCuts(x, els, k))
    decreases els, 6
  {
    hide CutsFrom, CloseFrom, Passes, Printed, PrintedStmt, StmtCuts, Print, PrintStmt, Spelt;
    if els.Else? {
      var none: seq<nat>, a, cuts := [], PrintStmt(x, els.s), StmtCuts(x, els.s, k + |" else "|);
      StartsParts(t, " else ", a, k);
      SpeltWords();
      WordPasses(t, " else ", k);
      EndsWord(t, " else ", k);
      hide StartsWith, Before, After;
      StmtPasses(x, els.lead, els.s, t, k + 6);
      PassesOn(t, k, k + 6, k + 6 + |a|, none, cuts);
      assert none + cuts == cuts;
    } else {
      PlainRun(t, k, k);
    }
  }

  lemma SpeltWords()
    ensures Spelt("") && Spelt(" ") && Spelt(" else ") && Spelt("try ") && Spelt(" catch ") && Spelt(" finally ")
  {
  }

  lemma EndsWord(t: string, word: string, k: nat)
    requires StartsWith(t, word, k) && word != "" && word[|word| - 1] == ' '
    ensures Before(t, k + |word|)
  {
    assert t[k + |word| - 1] == t[k..k + |word|][|word| - 1];
  }

  lemma {:induction false} TryPasses(x: Script, lead: Lead, s: Stmt, t: string, i: nat)
    requires s.Try? && PrintedStmt(x, lead, s) && StartsWith(t, PrintStmt(x, s), i)
    ensures Passes(t, i, i + |PrintStmt(x, s)|, StmtCuts(x, s, i))
    decreases s, 4
  {
    hide Passes, CutsFrom, CloseFrom, Print, Printed, Begins, Braced, StartsWith, PrintClause,
         PrintedClause, ClauseCuts;
    var body, h, f := Braced(x, "try ", s.tried), PrintClause(x, " catch ", s.caught),
                      PrintClause(x, " finally ", s.finalizer);
    var e := i + |body|;
    var k := e + |h|;
    BracedSize(x, "try ", s.tried);
    StartsParts(t, body + h, f, i);
    StartsParts(t, body, h, i);
    BracedWord(x, "try ", s.tried, t, i);
    SpeltWords();
    WordPasses(t, "try ", i);
    BracePasses(x, s.tried, "try ", t, i);
    ClausePasses(x, s.caught, " catch ", t, e);
    ClausePasses(x, s.finalizer, " finally ", t, k);
    PassesOn(t, i, e, k, [e], ClauseCuts(x, " catch ", s.caught, e));
    PassesOn(t, i, k, k + |f|, [e] + ClauseCuts(x, " catch ", s.caught, e), ClauseCuts(x, " finally ", s.finalizer, k));
  }

  /** The word of a clause with what it binds. */
  lemma ClauseWordPasses(x: Script, word: string, h: Clause, t: string, i: nat)
    requires h.Clause? && PrintedClause(x, h) && Spelt(word) && word != "" && word[|word| - 1] == ' '
    requires StartsWith(t, word + ParamText(x, h.param), i)
    ensures Passes(t, i, i + |word + ParamText(x, h.param)|, [])
    ensures h.param.Some? ==>
      CloseOf(t, i + |word|) == i + |word| + 1 + |x.param(h.param.value)| && t[i + |word|] == '('
  {
    hide Passes, CutsFrom, CloseFrom, Printed, Closed, Spelt;
    if h.param.Some? {
      var a, k := x.param(h.param.value), i + |word|;
      var e := k + 1 + |a|;
      assert word + ParamText(x, h.param) == word + "(" + a + ")" + " ";
      StartsParts(t, word + "(" + a + ")", " ", i);
      InnerPasses(t, word + "(", a, i);
      WrappedPasses(t, i, word, "(", a, ")", []);
      SpeltWords();
      WordPasses(t, " ", e + 1);
      var none: seq<nat> := [];
      PassesOn(t, i, e + 1, e + 2, none, none);
      assert none + none == none;
    } else {
      assert word + "" == word;
      WordPasses(t, word, i);
    }
  }

  lemma {:induction false} ClausePasses(x: Script, h: Clause, word: string, t: string, i: nat)
    requires PrintedClause(x, h) && Spelt(word) && StartsWith(t, PrintClause(x, word, h), i)
    requires word != "" && word[|word| - 1] == ' '
    ensures Passes(t, i, i + |PrintClause(x, word, h)|, ClauseCuts(x, word, h, i))
    decreases h, 5
  {
    hide Passes, CutsFrom, CloseFrom, Print, Printed, Begins, Braced, Spelt, ParamText, Closed;
    if h.Clause? {
      var front := word + ParamText(x, h.param);
      BracedWord(x, front, h.body, t, i);
      ClauseWordPasses(x, word, h, t, i);
      BracePasses(x, h.body, front, t, i);
      BracedSize(x, front, h.body);
    } else {
      PlainRun(t, i, i);
    }
  }

  lemma PassedBoundaries(t: string, cuts: seq<nat>)
    requires Passes(t, 0, |t|, cuts)
    ensures Boundaries(t) == Some([0] + cuts)
  {
    hide CloseFrom;
    assert cuts + [] == cuts;
  }

  /** All cuts of a printed list. */
  lemma PrintBoundaries(x: Script, ss: seq<Item>)
    requires Printed(x, ss)
    ensures Boundaries(Print(x, ss)) == Some([0] + ListCuts(x, ss, 0))
  {
    hide CloseFrom, CutsFrom, Passes, Printed, Print, ListCuts;
    var t := Print(x, ss);
    assert t[0..|t|] == t;
    PrintPasses(x, ss, t, 0);
    PassedBoundaries(t, ListCuts(x, ss, 0));
  }

  // ------------------------------------------------------- texts that there are

  /** A word is such a text, and so is a word with such a text in parentheses. */
  lemma WordIsClosed(a: string)
    requires Spelt(a)
    ensures Closed(a, false)
  {
    hide Spelt, Passes;
    forall t: string, i: nat | StartsWith(t, a, i) ensures Passes(t, i, i + |a|, []) {
      WordPasses(t, a, i);
    }
  }

  lemma CallIsClosed(word: string, inner: string)
    requires Spelt(word) && Closed(inner, false)
    ensures Closed(word + "(" + inner + ")", false)
  {
    hide Spelt, Passes;
    var a := word + "(" + inner + ")";
    forall t: string, i: nat | StartsWith(t, a, i) ensures Passes(t, i, i + |a|, []) {
      InnerPasses(t, word + "(", inner, i);
      WrappedPasses(t, i, word, "(", inner, ")", []);
    }
  }

  lemma InnerPasses(t: string, front: string, inner: string, i: nat)
    requires StartsWith(t, front + inner + ")", i) && Closed(inner, false)
    requires front != "" && front[|front| - 1] == '('
    ensures var o := i + |front|; Passes(t, o, o + |inner|, [])
  {
    hide Passes;
    var o := i + |front|;
    StartsParts(t, front + inner, ")", i);
    StartsParts(t, front, inner, i);
    assert t[o - 1] == t[i..o][|front| - 1] && t[o + |inner|] == t[o + |inner|..o + |inner| + 1][0];
  }
}
