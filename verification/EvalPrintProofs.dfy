/**
 The rewriter on text is the rewriter on statements: on the print of a list it
 gives the print of the turned list, if the page's compiler says of the texts it
 is asked about what the list records.
 */
module EvalPrintProofs {
  import opened Wrappers
  import opened WhiteSpace
  import opened EvalScanner
  import opened EvalSource
  import opened EvalRewrite
  import opened EvalRewriteLimits
  import opened EvalPrint
  import opened EvalPrintCode

  // ----------------------------------------------------------- parts of a list

  /** The print without the end of the last statement. */
  function TailOf(x: Script, ss: seq<Item>): string
    requires ss != []
  {
    Print(x, ss[..|ss| - 1]) + PrintStmt(x, ss[|ss| - 1].s)
  }

  /** What stands behind statement `i`. */
  function MoreOf(x: Script, ss: seq<Item>, i: nat): string
    requires i < |ss|
  {
    if i == |ss| - 1 then "" else Ending(ss[i].end) + TailOf(x, ss[i + 1..])
  }

  lemma {:induction false} PrintConcat(x: Script, a: seq<Item>, b: seq<Item>)
    ensures Print(x, a + b) == Print(x, a) + Print(x, b)
    decreases |b|
  {
    if b == [] {
      assert a + b == a;
    } else {
      var p, last := b[..|b| - 1], b[|b| - 1];
      assert (a + b)[..|a + b| - 1] == a + p;
      PrintConcat(x, a, p);
      var u, v, w, z := Print(x, a), Print(x, p), PrintStmt(x, last.s), Ending(last.end);
      assert u + v + w + z == u + (v + w + z);
    }
  }

  lemma PrintSplit(x: Script, ss: seq<Item>, i: nat)
    requires i <= |ss|
    ensures Print(x, ss) == Print(x, ss[..i]) + Print(x, ss[i..])
  {
    assert ss == ss[..i] + ss[i..];
    PrintConcat(x, ss[..i], ss[i..]);
  }

  lemma TailEnds(x: Script, ss: seq<Item>)
    requires ss != []
    ensures Print(x, ss) == TailOf(x, ss) + Ending(ss[|ss| - 1].end)
  {
  }

  lemma TailStarts(x: Script, ss: seq<Item>, i: nat)
    requires i < |ss|
    ensures TailOf(x, ss[i..]) == PrintStmt(x, ss[i].s) + MoreOf(x, ss, i)
  {
    var t := ss[i..];
    var n := |t| - 1;
    if n == 0 {
      assert t[..0] == [];
    } else {
      var m := t[..n];
      assert m == [t[0]] + m[1..] && ss[i + 1..][..n - 1] == m[1..];
      PrintConcat(x, [t[0]], m[1..]);
      assert [t[0]][..0] == [];
      var a, b, c, d := PrintStmt(x, t[0].s), Ending(t[0].end), Print(x, m[1..]), PrintStmt(x, t[n].s);
      assert Print(x, [t[0]]) == "" + a + b;
      assert "" + a + b + c + d == a + (b + (c + d));
    }
  }

  lemma {:induction false} PrintedPart(x: Script, ss: seq<Item>, i: nat)
    requires Printed(x, ss) && i < |ss|
    ensures PrintedStmt(x, ss[i].lead, ss[i].s) && ss[i].torn.None? && !ss[i].says && !ss[i].end.Shut?
    ensures !ss[i].lead.Comment? && !ss[i].lead.Odd? && (BraceEnd(ss[i].s) ==> ss[i].end.Open?)
    decreases |ss|
  {
    if i < |ss| - 1 { PrintedPart(x, ss[..|ss| - 1], i); }
  }

  /** Behind every statement stands more of the list, and it begins as recorded. */
  lemma {:induction false} TailBegins(x: Script, ss: seq<Item>, i: nat)
    requires Printed(x, ss) && i < |ss|
    ensures IsMore(MoreOf(x, ss, i))
    ensures var v := TailOf(x, ss[i..]);
            && Follows(v) && (IsCompound(v) <==> Compound(ss[i].s))
            && (CannotStart(v) <==> ss[i].lead.Stuck?) && (Continues(v) <==> ss[i].lead.Opens?)
    decreases |ss| - i
  {
    hide Print, PrintStmt, Follows, IsCompound, CannotStart, Continues;
    PrintedPart(x, ss, i);
    if i < |ss| - 1 {
      TailBegins(x, ss, i + 1);
      var more := MoreOf(x, ss, i);
      assert more[1..] == TailOf(x, ss[i + 1..]);
    }
    TailStarts(x, ss, i);
    PrintBegins(x, ss[i].lead, ss[i].s, MoreOf(x, ss, i), TailOf(x, ss[i..]));
  }

  // ------------------------------------------------------------ kinds of cuts

  /** The second half of a statement. */
  predicate SecondHalf(w: string) {
    StartsWith(w, " else ", 0) || StartsWith(w, " catch ", 0) || StartsWith(w, " finally ", 0)
  }

  lemma SuffixOf(a: string, b: string, k: nat)
    requires k <= |b|
    ensures (a + b)[|a| + k..] == b[k..]
  {
  }

  lemma HalfGoesOn(w: string, rest: string)
    requires SecondHalf(w)
    ensures SecondHalf(w + rest)
  {
    forall word | word in [" else ", " catch ", " finally "] && StartsWith(w, word, 0)
      ensures StartsWith(w + rest, word, 0)
    {
      assert (w + rest)[0..|word|] == w[0..|word|];
    }
  }

  /** A cut that a statement brings is behind its last brace, or before a second
      half. */
  lemma {:induction false} StmtCut(x: Script, lead: Lead, s: Stmt, off: nat, c: nat)
    requires PrintedStmt(x, lead, s) && c in StmtCuts(x, s, off)
    ensures off <= c <= off + |PrintStmt(x, s)|
    ensures if c == off + |PrintStmt(x, s)| then BraceEnd(s) else SecondHalf(PrintStmt(x, s)[c - off..])
    decreases s
  {
    match s
    case If(cond, t, els) => IfCut(x, lead, s, off, c);
    case Try(b, h, f) => TryCut(x, lead, s, off, c);
    case _ =>
  }

  lemma {:induction false} IfCut(x: Script, lead: Lead, s: Stmt, off: nat, c: nat)
    requires s.If? && PrintedStmt(x, lead, s) && c in StmtCuts(x, s, off)
    ensures off <= c <= off + |PrintStmt(x, s)|
    ensures if c == off + |PrintStmt(x, s)| then BraceEnd(s) else SecondHalf(PrintStmt(x, s)[c - off..])
    decreases s, 0
  {
    hide Print, Printed, Condition, Braced, Closed, SecondHalf;
    var front, rest := Condition(x, s.c) + Braced(x, " ", s.thn), PrintElse(x, s.els);
    var k := off + |front|;
    assert PrintStmt(x, s) == front + rest && StmtCuts(x, s, off) == [k] + ElseCuts(x, s.els, k);
    if s.els.Else? {
      ElseCut(x, s.els, k, c);
      hide PrintStmt, PrintedStmt, StmtCuts, PrintElse, ElseCuts;
      SuffixOf(front, rest, c - k);
    }
  }

  lemma {:induction false} ElseCut(x: Script, els: Else, k: nat, c: nat)
    requires els.Else? && PrintedStmt(x, els.lead, els.s) && (c == k || c in ElseCuts(x, els, k))
    ensures k <= c <= k + |PrintElse(x, els)|
    ensures if c == k + |PrintElse(x, els)| then BraceEnd(els.s) else SecondHalf(PrintElse(x, els)[c - k..])
    decreases els, 1
  {
    var e, rest := PrintStmt(x, els.s), PrintElse(x, els);
    assert rest == " else " + e;
    hide PrintStmt, PrintedStmt, BraceEnd, StmtCuts;
    if c == k {
      assert rest[c - k..] == rest;
      ElseIsHalf(e);
    } else {
      StmtCut(x, els.lead, els.s, k + 6, c);
      SuffixOf(" else ", e, c - (k + 6));
    }
  }

  lemma ElseIsHalf(e: string)
    ensures SecondHalf(" else " + e)
  {
    assert (" else " + e)[0..6] == " else ";
  }

  lemma TryCut(x: Script, lead: Lead, s: Stmt, off: nat, c: nat)
    requires s.Try? && PrintedStmt(x, lead, s) && c in StmtCuts(x, s, off)
    ensures off <= c <= off + |PrintStmt(x, s)|
    ensures if c == off + |PrintStmt(x, s)| then BraceEnd(s) else SecondHalf(PrintStmt(x, s)[c - off..])
  {
    var body, h, f := Braced(x, "try ", s.tried), PrintClause(x, " catch ", s.caught),
                      PrintClause(x, " finally ", s.finalizer);
    assert PrintStmt(x, s) == body + h + f == body + (h + f);
    ClauseBegins(x, " catch ", s.caught);
    ClauseBegins(x, " finally ", s.finalizer);
    assert s.caught.NoClause? ==> h == "" && h + f == f;
    assert s.finalizer.NoClause? ==> f == "" && h + f == h;
    hide PrintStmt, PrintedStmt, Braced, PrintClause;
    if c == off + |body| {
      SuffixOf(body, h + f, 0);
      if s.caught.Clause? { HalfGoesOn(h, f); }
    } else {
      SuffixOf(body + h, f, c - off - |body + h|);
    }
  }

  lemma ClauseBegins(x: Script, word: string, h: Clause)
    ensures h.Clause? ==> StartsWith(PrintClause(x, word, h), word, 0)
  {
    if h.Clause? {
      hide Print;
      assert PrintClause(x, word, h) == word + ParamText(x, h.param) + "{" + Print(x, h.body) + "}";
      assert PrintClause(x, word, h)[0..|word|] == word;
    }
  }

  lemma NoCuts(x: Script)
    ensures ListCuts(x, [], 0) == []
  {
  }

  /** Every cut of a list is behind a statement, or one that a statement brings. */
  lemma {:induction false} CutOfItem(x: Script, ss: seq<Item>, c: nat) returns (i: nat)
    requires Printed(x, ss) && c in ListCuts(x, ss, 0)
    ensures i < |ss|
    ensures c == |Print(x, ss[..i + 1])| || c in StmtCuts(x, ss[i].s, |Print(x, ss[..i])|)
    decreases |ss|
  {
    hide Print, StmtCuts, Printed, ListCuts, PrintStmt, PrintedStmt;
    var n := |ss| - 1;
    NoCuts(x);
    LastPrinted(x, ss, 0);
    assert ss[..n + 1] == ss;
    if c in ListCuts(x, ss[..n], 0) {
      i := CutOfItem(x, ss[..n], c);
      assert ss[..n][..i] == ss[..i] && ss[..n][..i + 1] == ss[..i + 1];
    } else {
      i := n;
    }
  }

  lemma {:induction false} EndIsCut(x: Script, ss: seq<Item>, i: nat)
    requires Printed(x, ss) && i < |ss|
    ensures |Print(x, ss[..i + 1])| in ListCuts(x, ss, 0)
    decreases |ss|
  {
    hide Print, StmtCuts, Printed, ListCuts, PrintStmt, PrintedStmt;
    var n := |ss| - 1;
    LastPrinted(x, ss, 0);
    if i < n {
      EndIsCut(x, ss[..n], i);
      assert ss[..n][..i + 1] == ss[..i + 1];
    } else {
      assert ss[..n + 1] == ss;
    }
  }

  // ------------------------------------------------------ the code at each cut

  /** `h` is the text before statement `i`; the newline behind a brace may be
      on either side. */
  predicate HeadOf(x: Script, ss: seq<Item>, i: nat, h: string, gap: string)
    requires i < |ss|
  {
    && h + gap == Print(x, ss[..i])
    && (gap == "" || (gap == "\n" && i > 0 && BraceEnd(ss[i - 1].s)))
  }

  lemma PrintIsText(x: Script, ss: seq<Item>, i: nat, h: string, gap: string)
    requires i < |ss| && h + gap == Print(x, ss[..i])
    ensures var t := Print(x, ss);
            |h| <= |t| && t[..|h|] == h && t[|h|..] == gap + TailOf(x, ss[i..]) + Ending(ss[|ss| - 1].end)
  {
    hide Print, TailOf, Ending;
    PrintSplit(x, ss, i);
    TailEnds(x, ss[i..]);
    assert ss[i..][|ss| - i - 1] == ss[|ss| - 1];
    var a, b, c := gap, TailOf(x, ss[i..]), Ending(ss[|ss| - 1].end);
    assert Print(x, ss) == h + (a + b + c);
  }

  /** What stands right before a cut tells whether a `;` ends it. */
  lemma BeforeCut(x: Script, ss: seq<Item>, i: nat, h: string, gap: string)
    requires Printed(x, ss) && i < |ss| && HeadOf(x, ss, i, h, gap)
    ensures h == "" <==> i == 0
    ensures h != "" ==> (h[|h| - 1] == ';' <==> !ss[i - 1].end.Open?)
  {
    if i > 0 {
      var p, last := ss[..i], ss[i - 1];
      PrintedPart(x, ss, i - 1);
      StmtIsFirm(x, last.lead, last.s);
      assert p[..i - 1] == ss[..i - 1];
      assert Print(x, p) == Print(x, p[..i - 1]) + PrintStmt(x, last.s) + Ending(last.end);
      hide Print, PrintStmt, Printed, PrintedStmt;
      LastOfHead(Print(x, p[..i - 1]), PrintStmt(x, last.s), Ending(last.end), h, gap);
    }
  }

  lemma LastOfHead(front: string, s: string, end: string, h: string, gap: string)
    requires h + gap == front + s + end && Firm(s) && end in [";", "\n"] && gap in ["", "\n"]
    requires gap == "\n" ==> end == gap
    ensures h != "" && (h[|h| - 1] == ';' <==> gap == "" && end == ";")
  {
    assert h == (h + gap)[..|h|] && front + s == (front + s + end)[..|front + s|];
    assert gap == "" ==> h == front + s + end;
  }

  /** The code for the cut before a statement. */
  lemma StartCode(x: Script, ss: seq<Item>, i: nat, h: string, gap: string, compiles: Compiler)
    requires Printed(x, ss) && i < |ss| && HeadOf(x, ss, i, h, gap) && compiles(h)
    ensures |h| <= |Print(x, ss)|
    ensures CodeAt(Print(x, ss), |h|, compiles) ==
              if !CanCut(ss, i) then None
              else match Coded(x, ss[i].s, MoreOf(x, ss, i), compiles)
                   case None => None
                   case Some(z) => if compiles(h + "\n" + z) then Some(h + "\n" + z) else None
  {
    hide Print, PrintStmt, Printed, PrintedStmt, Coded, StatementOf, TailOf, MoreOf, Tidy, Continues, CannotStart,
         IsCompound, Trim, Keyword, BraceEnd;
    var t, v := Print(x, ss), TailOf(x, ss[i..]);
    PrintIsText(x, ss, i, h, gap);
    BeforeCut(x, ss, i, h, gap);
    TailBegins(x, ss, i);
    TidyFirm(gap, v, Ending(ss[|ss| - 1].end));
    PrintedPart(x, ss, i);
    TailStarts(x, ss, i);
    StatementCode(x, ss[i].lead, ss[i].s, MoreOf(x, ss, i), h, compiles);
    assert |h| > 0 ==> t[|h| - 1] == h[|h| - 1];
  }

  lemma SecondHalfIsRefused(w: string, end: string, t: string, c: nat, compiles: Compiler)
    requires c <= |t| && t[c..] == w + end && end in ["\n", ";"] && SecondHalf(w) && Firm(w[1..])
    ensures CodeAt(t, c, compiles) == None
  {
    var u := w[1..];
    assert w[0] == ' ' by {
      forall word | word in [" else ", " catch ", " finally "] && StartsWith(w, word, 0) ensures w[0] == ' ' {
        assert w[0..|word|][0] == w[0];
      }
    }
    assert w + end == " " + u + end;
    TidyFirm(" ", u, end);
    HalfCannotStart(w);
    hide StatementOf, Tidy;
  }

  lemma HalfCannotStart(w: string)
    requires SecondHalf(w)
    ensures CannotStart(w[1..])
  {
    if StartsWith(w, " else ", 0) {
      HalfWord(w, "else");
    } else if StartsWith(w, " catch ", 0) {
      HalfWord(w, "catch");
    } else {
      HalfWord(w, "finally");
    }
  }

  lemma HalfWord(w: string, word: string)
    requires StartsWith(w, " " + word + " ", 0)
    ensures WordAt(w[1..], word)
  {
    StartsParts(w, " " + word, " ", 0);
    StartsParts(w, " ", word, 0);
    var k := 1 + |word|;
    assert w[1..][0..|word|] == w[1..k] && w[1..][|word|] == w[k] == w[k..k + 1][0] == ' ';
  }

  lemma BlankGivesNoCode(t: string, c: nat, compiles: Compiler)
    requires c <= |t| && t[c..] in ["", "\n"]
    ensures CodeAt(t, c, compiles) == None
  {
    TidyBlank(t[c..]);
    hide StatementOf, Tidy;
  }

  // --------------------------------------------- what is asked of the compiler

  /** The compiler takes a list up to any statement, and the code for a cut
      exactly when the list records that the statement is turned there. Texts
      that are misread are the ones recorded. */
  ghost predicate Judged(x: Script, ss: seq<Item>, compiles: Compiler)
    decreases ss, 1
  {
    forall i :: 0 <= i < |ss| ==>
      assert ss[i].s < ss[i];
      JudgedAt(x, ss, i, compiles) && JudgedStmt(x, ss[i].misread, ss[i].s, MoreOf(x, ss, i), compiles)
  }

  ghost predicate JudgedAt(x: Script, ss: seq<Item>, i: nat, compiles: Compiler)
    requires i < |ss|
  {
    var code := Coded(x, ss[i].s, MoreOf(x, ss, i), compiles);
    var turned := ReturnStatement(ss[i].lead, ss[i].misread, ss[i].s, i == |ss| - 1);
    forall h, gap :: HeadOf(x, ss, i, h, gap) ==>
      compiles(h) && (code.Some? ==> (compiles(h + "\n" + code.value) <==> turned.Some?))
  }

  ghost predicate JudgedStmt(x: Script, misread: Option<Reading>, s: Stmt, more: string, compiles: Compiler)
    decreases s, 0
  {
    match s
    case Block(b) => Judged(x, b, compiles)
    case If(c, t, els) =>
      Judged(x, t, compiles) && (els.Else? ==> JudgedStmt(x, els.misread, els.s, more, compiles))
    case Try(b, h, f) => Judged(x, b, compiles) && (h.Clause? ==> Judged(x, h.body, compiles))
    case _ =>
      && (s.Decl? ==> x.reading(FunctionText(s.f)) == x.decl(s.f))
      && (misread.Some? ==> x.reading(misread.value) == PrintStmt(x, s) + more)
  }

  // ---------------------------------------------- printing what was turned

  lemma TurnedSize(ss: seq<Item>)
    ensures ReturnList(ss).Some? ==> 0 < |ReturnList(ss).value| <= |ss|
  {
    if ReturnList(ss).Some? { var i := TurnedAt(ss, |ss|); }
  }

  /** A turned list, in the rewriter's layout. */
  function Out(x: Script, ss: seq<Item>, rs: seq<Item>): string
    requires 0 < |rs| <= |ss|
    decreases ss, 1
  {
    var m := |rs| - 1;
    assert ss[m].s < ss[m];
    Print(x, rs[..m]) + "\n" + OutStmt(x, ss[m].s, rs[m].s)
  }

  /** The print of `ReturnList(ss)`. */
  function OutList(x: Script, ss: seq<Item>): Option<string>
    decreases ss, 2
  {
    TurnedSize(ss);
    match ReturnList(ss)
    case Some(rs) => Some(Out(x, ss, rs))
    case None => None
  }

  function OutBody(x: Script, b: seq<Item>): string
    decreases b, 3
  {
    (match OutList(x, b)
     case Some(code) => code
     case None => Print(x, b)) + "\n"
  }

  function Bound(x: Script, param: Option<nat>): string {
    match param
    case None => ""
    case Some(p) => "(" + x.param(p) + ")"
  }

  /** `s'` is printed; `s` is what it was before it was turned. */
  function OutStmt(x: Script, s: Stmt, s': Stmt): string
    decreases s, 0
  {
    if s'.Return? then
      var inner := match s'.x case Text(e) => x.expr(e) case Read(r) => x.reading(r);
      "return (" + inner + "\n);"
    else
      match s
      case Block(b) => "{" + OutBody(x, b) + "}"
      case If(c, t, els) =>
        var out := "if " + ("(" + x.cond(c) + ")") + " {" + OutBody(x, t) + "}";
        if els.Else? && s'.If? && s'.els.Else? then out + " else " + OutStmt(x, els.s, s'.els.s) else out
      case Try(b, h, f) =>
        "try {" + OutBody(x, b) + "}" +
        (if h.Clause? && s'.Try? && s'.caught.Clause?
         then " catch " + Bound(x, s'.caught.param) + " {" + OutBody(x, h.body) + "}" else "") + KeptFinally(x, f)
      case _ => ""
  }

  // ------------------------------------------------------------ the agreement

  lemma {:induction false} NoInnerCut(x: Script, lead: Lead, s: Stmt)
    requires PrintedStmt(x, lead, s)
    ensures CutInside(s).None?
    decreases s
  {
    if s.If? && s.els.Else? { NoInnerCut(x, s.els.lead, s.els.s); }
  }

  lemma {:induction false} BodyIsOut(x: Script, b: seq<Item>, compiles: Compiler)
    requires Printed(x, b) && Judged(x, b, compiles) && NoneReturn(b)
    ensures BodyOf(Print(x, b), compiles) == OutBody(x, b)
    decreases b, 8
  {
    PrintedListIsTurned(x, b, compiles);
    hide Print, Printed, Judged, ListOf, OutList;
  }

  lemma {:induction false} CodedIsOut(x: Script, lead: Lead, misread: Option<Reading>, s: Stmt, s': Stmt, more: string,
                                      last: bool, compiles: Compiler)
    requires PrintedStmt(x, lead, s) && JudgedStmt(x, misread, s, more, compiles) && NoReturn(s)
    requires (last <==> more == "") && ReturnStatement(lead, misread, s, last) == Some(s')
    ensures Coded(x, s, more, compiles) == Some(OutStmt(x, s, s'))
    decreases s, 3
  {
    hide Print, Printed, Judged, Closed, Begins, BodyOf, OutBody, ReturnBody, KeptFinally;
    if more == "" { assert PrintStmt(x, s) + more == PrintStmt(x, s); }
    match s
    case Block(b) => BodyIsOut(x, b, compiles);
    case If(c, t, els) =>
      BodyIsOut(x, t, compiles);
      if els.Else? {
        assert els.s < s && ElseNoReturn(els);
        CodedIsOut(x, els.lead, els.misread, els.s, s'.els.s, more, last, compiles);
      }
    case Try(b, h, f) =>
      BodyIsOut(x, b, compiles);
      if h.Clause? { BodyIsOut(x, h.body, compiles); }
    case _ =>
  }

  /** At the cut before a statement, the text is turned as the list is. */
  lemma {:induction false} StartMeans(x: Script, ss: seq<Item>, i: nat, h: string, gap: string, compiles: Compiler)
    requires Printed(x, ss) && Judged(x, ss, compiles) && NoneReturn(ss)
    requires i < |ss| && HeadOf(x, ss, i, h, gap)
    ensures |h| <= |Print(x, ss)|
    ensures CodeAt(Print(x, ss), |h|, compiles) ==
              match TurnAt(ss, i)
              case None => None
              case Some(s') => Some(h + "\n" + OutStmt(x, ss[i].s, s'))
    decreases ss, 3
  {
    assert ss[i].s < ss[i];
    assert JudgedAt(x, ss, i, compiles);
    PrintedPart(x, ss, i);
    NoInnerCut(x, ss[i].lead, ss[i].s);
    NoneReturnParts(ss, i);
    StartCode(x, ss, i, h, gap, compiles);
    hide Print, Printed, PrintedStmt, CodeAt, Coded, OutStmt, ReturnStatement, Judged, NoneReturn, CutInside;
    var x0, last, more := ss[i], i == |ss| - 1, MoreOf(x, ss, i);
    assert last <==> more == "";
    var turned := ReturnStatement(x0.lead, x0.misread, x0.s, last);
    if turned.Some? {
      CodedIsOut(x, x0.lead, x0.misread, x0.s, turned.value, more, last, compiles);
    }
  }

  lemma NextPrinted(x: Script, ss: seq<Item>, j: nat)
    requires j < |ss|
    ensures Print(x, ss[..j + 1]) == Print(x, ss[..j]) + PrintStmt(x, ss[j].s) + Ending(ss[j].end)
  {
    assert ss[..j + 1][..j] == ss[..j];
  }

  /** The text up to statement `j`, or up to its last brace. */
  lemma UpTo(x: Script, ss: seq<Item>, j: nat, gap: string) returns (h: string)
    requires Printed(x, ss) && j < |ss| && (gap == "" || (gap == "\n" && BraceEnd(ss[j].s)))
    ensures h + gap == Print(x, ss[..j + 1])
    ensures gap == "\n" ==> |h| == |Print(x, ss[..j])| + |PrintStmt(x, ss[j].s)|
  {
    hide Print, PrintStmt, Printed, PrintedStmt;
    PrintedPart(x, ss, j);
    NextPrinted(x, ss, j);
    h := if gap == "" then Print(x, ss[..j + 1]) else Print(x, ss[..j]) + PrintStmt(x, ss[j].s);
    assert gap == "" ==> h + gap == h;
  }

  /** Behind statement `j`, before or after the newline behind its brace. */
  lemma {:induction false} BehindItem(x: Script, ss: seq<Item>, j: nat, h: string, gap: string, compiles: Compiler)
    requires Printed(x, ss) && Judged(x, ss, compiles) && NoneReturn(ss) && j < |ss|
    requires h + gap == Print(x, ss[..j + 1]) && (gap == "" || (gap == "\n" && BraceEnd(ss[j].s)))
    ensures |h| <= |Print(x, ss)|
    ensures CodeAt(Print(x, ss), |h|, compiles).Some? ==> j < |ss| - 1 && TurnAt(ss, j + 1).Some?
    decreases ss, 4
  {
    hide Print, PrintStmt, Printed, Judged, CodeAt, PrintedStmt, NoneReturn, TurnAt, BraceEnd;
    if j < |ss| - 1 {
      StartMeans(x, ss, j + 1, h, gap, compiles);
    } else {
      assert ss[..j + 1] == ss;
      SuffixOf(h, gap, 0);
      BlankGivesNoCode(Print(x, ss), |h|, compiles);
    }
  }

  /** A cut that statement `j` brings. */
  lemma {:induction false} InItem(x: Script, ss: seq<Item>, j: nat, c: nat, compiles: Compiler)
    requires Printed(x, ss) && Judged(x, ss, compiles) && NoneReturn(ss) && j < |ss|
    requires c in StmtCuts(x, ss[j].s, |Print(x, ss[..j])|)
    ensures c <= |Print(x, ss)| && c <= |Print(x, ss[..j + 1])|
    ensures CodeAt(Print(x, ss), c, compiles).Some? ==> j < |ss| - 1 && TurnAt(ss, j + 1).Some?
    decreases ss, 5
  {
    hide Print, PrintStmt, Printed, Judged, CodeAt, PrintedStmt, StmtCuts, NoneReturn, TurnAt, BraceEnd, SecondHalf;
    PrintedPart(x, ss, j);
    StmtCut(x, ss[j].lead, ss[j].s, |Print(x, ss[..j])|, c);
    NextPrinted(x, ss, j);
    if c == |Print(x, ss[..j])| + |PrintStmt(x, ss[j].s)| {
      var h := UpTo(x, ss, j, "\n");
      BehindItem(x, ss, j, h, "\n", compiles);
    } else {
      HalfInItem(x, ss, j, c, compiles);
    }
  }

  /** A cut that gives code is the one before a statement that is turned. */
  lemma {:induction false} CutMeans(x: Script, ss: seq<Item>, c: nat, compiles: Compiler) returns (i: nat)
    requires Printed(x, ss) && Judged(x, ss, compiles) && NoneReturn(ss)
    requires c in [0] + ListCuts(x, ss, 0)
    ensures c <= |Print(x, ss)|
    ensures CodeAt(Print(x, ss), c, compiles).Some? ==>
              i < |ss| && TurnAt(ss, i).Some? && c <= |Print(x, ss[..i])|
    decreases ss, 6
  {
    hide Print, PrintStmt, Printed, Judged, CodeAt, StmtCuts, ListCuts, NoneReturn, TurnAt;
    i := 0;
    if ss == [] {
      EmptyPrint(x);
      BlankGivesNoCode("", 0, compiles);
      NoCuts(x);
    } else if c == 0 {
      assert ss[..0] == [];
      EmptyPrint(x);
      StartMeans(x, ss, 0, "", "", compiles);
    } else {
      var j := CutOfItem(x, ss, c);
      i := j + 1;
      if c == |Print(x, ss[..j + 1])| {
        var h := UpTo(x, ss, j, "");
        assert h + "" == h;
        BehindItem(x, ss, j, h, "", compiles);
      } else {
        InItem(x, ss, j, c, compiles);
      }
    }
  }

  lemma HalfInItem(x: Script, ss: seq<Item>, j: nat, c: nat, compiles: Compiler)
    requires Printed(x, ss) && j < |ss|
    requires var off, a := |Print(x, ss[..j])|, PrintStmt(x, ss[j].s);
             off <= c < off + |a| && SecondHalf(a[c - off..])
    ensures c <= |Print(x, ss)| && CodeAt(Print(x, ss), c, compiles) == None
  {
    hide Print, PrintStmt, Printed, CodeAt, SecondHalf, MoreOf, TailOf;
    var h, a, more, end := Print(x, ss[..j]), PrintStmt(x, ss[j].s), MoreOf(x, ss, j), Ending(ss[|ss| - 1].end);
    var k := c - |h|;
    PrintIsText(x, ss, j, h, "");
    TailStarts(x, ss, j);
    TailBegins(x, ss, j);
    var w := a[k..] + more;
    HalfGoesOn(a[k..], more);
    HalfIsLong(a[k..]);
    assert "" + (a + more) + end == a + more + end;
    assert Print(x, ss)[|h|..][k..] == (a + more + end)[k..] == w + end;
    assert w[|w| - 1] == (a + more)[|a + more| - 1];
    SecondHalfIsRefused(w, end, Print(x, ss), c, compiles);
  }

  lemma HalfIsLong(w: string)
    requires SecondHalf(w)
    ensures |w| >= 6 && !IsSpace(w[1])
  {
    if StartsWith(w, " else ", 0) {
      assert w[0..6][1] == w[1];
    } else if StartsWith(w, " catch ", 0) {
      assert w[0..7][1] == w[1];
    } else {
      assert w[0..9][1] == w[1];
    }
  }

  lemma {:induction false} NotBare(s: Stmt)
    requires NoReturn(s)
    ensures !ReturnsBare(s)
    decreases s
  {
    match s
    case If(_, _, els) => if els.Else? { assert ElseNoReturn(els); NotBare(els.s); }
    case BareIf(_, _, t, els) =>
      NotBare(t);
      if els.Else? { assert ElseNoReturn(els); NotBare(els.s); }
    case Loop(_, _, b) => NotBare(b);
    case Label(_, b) => NotBare(b);
    case With(_, _, b) => NotBare(b);
    case _ =>
  }

  lemma ListIsTurned(x: Script, ss: seq<Item>)
    requires Printed(x, ss) && NoneReturn(ss)
    ensures ReturnList(ss) == TurnFrom(ss, |ss|)
  {
    forall i | 0 <= i < |ss| ensures !ss[i].says && !ReturnsBare(ss[i].s) && !ss[i].end.Shut? {
      PrintedPart(x, ss, i);
      NoneReturnParts(ss, i);
      NotBare(ss[i].s);
    }
  }

  lemma {:induction false} NoneTurns(ss: seq<Item>, k: nat)
    requires k <= |ss| && TurnFrom(ss, k).None?
    ensures forall i :: 0 <= i < k ==> TurnAt(ss, i).None?
    decreases k
  {
    hide TurnAt;
    if k > 0 { NoneTurns(ss, k - 1); }
  }

  lemma PrintGrows(x: Script, ss: seq<Item>, j: nat, i: nat)
    requires j <= i <= |ss|
    ensures |Print(x, ss[..j])| <= |Print(x, ss[..i])|
  {
    PrintSplit(x, ss[..i], j);
    assert ss[..i][..j] == ss[..j];
  }

  lemma StartIsCut(x: Script, ss: seq<Item>, i: nat)
    requires Printed(x, ss) && i < |ss|
    ensures |Print(x, ss[..i])| in [0] + ListCuts(x, ss, 0)
  {
    hide Print, Printed, ListCuts;
    if i > 0 { EndIsCut(x, ss, i - 1); } else { assert ss[..0] == []; EmptyPrint(x); }
  }

  lemma EmptyPrint(x: Script)
    ensures Print(x, []) == ""
  {
  }

  /** The latest cut is that of the latest statement that is turned. */
  lemma {:induction false} LatestIsTurned(x: Script, ss: seq<Item>, i: nat, c: nat, code: string, compiles: Compiler)
    requires Printed(x, ss) && Judged(x, ss, compiles) && NoneReturn(ss) && i < |ss| && TurnAt(ss, i).Some?
    requires forall j :: i < j < |ss| ==> TurnAt(ss, j).None?
    requires IsLatest(Print(x, ss), [0] + ListCuts(x, ss, 0), c, code, compiles)
    ensures code == Print(x, ss[..i]) + "\n" + OutStmt(x, ss[i].s, TurnAt(ss, i).value)
    decreases ss, 7, 0
  {
    hide Print, PrintStmt, Printed, Judged, CodeAt, ListCuts, NoneReturn, TurnAt, OutStmt;
    var h := Print(x, ss[..i]);
    StartIsCut(x, ss, i);
    assert h + "" == h;
    StartMeans(x, ss, i, h, "", compiles);
    if c > |h| {
      var j := CutMeans(x, ss, c, compiles);
      if j <= i { PrintGrows(x, ss, j, i); }
    }
  }

  /** The rewriter on text refines the one on statements: for printed lists, the
      code is the print of the turned list, and there is none exactly when the
      list is not turned. */
  lemma {:induction false} PrintedListIsTurned(x: Script, ss: seq<Item>, compiles: Compiler)
    requires Printed(x, ss) && Judged(x, ss, compiles) && NoneReturn(ss)
    ensures ListOf(Print(x, ss), compiles) == OutList(x, ss)
    decreases ss, 7, 1
  {
    hide Print, Printed, Judged, NoneReturn, ListCuts, ListOf, Boundaries, TurnAt, CodeAt, TurnFrom, ReturnList,
         OutStmt, Chosen, IsLatest;
    var t, cuts, result := Print(x, ss), [0] + ListCuts(x, ss, 0), ListOf(Print(x, ss), compiles);
    PrintBoundaries(x, ss);
    LatestCutIsChosen(t, compiles);
    ListIsTurned(x, ss);
    if result.Some? {
      var c :| Chosen(t, c, result.value, compiles) && IsLatest(t, cuts, c, result.value, compiles);
      LatestGives(t, cuts, c, result.value, compiles);
      var k := CutMeans(x, ss, c, compiles);
      if ReturnList(ss).None? { NoneTurns(ss, |ss|); }
      var i := TurnedAt(ss, |ss|);
      LatestIsTurned(x, ss, i, c, result.value, compiles);
      assert ReturnList(ss).value[..i] == ss[..i];
    } else if ReturnList(ss).Some? {
      var i := TurnedAt(ss, |ss|);
      StartIsCut(x, ss, i);
      assert Print(x, ss[..i]) + "" == Print(x, ss[..i]);
      StartMeans(x, ss, i, Print(x, ss[..i]), "", compiles);
    }
  }

  lemma LatestGives(t: string, cuts: seq<nat>, c: nat, code: string, compiles: Compiler)
    requires IsLatest(t, cuts, c, code, compiles)
    ensures c in cuts && c <= |t| && CodeAt(t, c, compiles) == Some(code)
  {
  }
}
