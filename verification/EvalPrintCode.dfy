/**
 What `returningStatement` makes of a printed statement and the text behind it.
 */
module EvalPrintCode {
  import opened Wrappers
  import opened WhiteSpace
  import opened EvalScanner
  import opened EvalSource
  import opened EvalRewrite
  import opened EvalPrint

  // ---------------------------------------------------------------- trimming

  lemma TidyFirm(gap: string, v: string, end: string)
    requires Firm(v) && gap in ["", "\n", " "] && end in ["", "\n", ";"]
    ensures Tidy(gap + v + end) == v
  {
    TrimFirm(gap, v, end);
    TrimFirm("", v, "");
    assert "" + v + "" == v && "" + (v + ";") + "" == v + ";";
    if end == ";" {
      assert (v + end)[..|v + end| - 1] == v;
      assert DropSemicolons(v + ";") == DropSemicolons(v);
    }
    assert DropSemicolons(v) == v;
  }

  lemma TrimFirm(gap: string, v: string, end: string)
    requires Firm(v) && gap in ["", "\n", " "] && end in ["", "\n", ";"]
    ensures Trim(gap + v + end) == if end == ";" then v + end else v
  {
    var t := gap + v + end;
    assert gap != "" ==> t[1..] == v + end;
    assert gap == "" ==> t == v + end;
    assert TrimStart(v + end) == v + end;
    assert TrimStart(t) == v + end;
    if end == "\n" { assert (v + end)[..|v + end| - 1] == v; } else if end == "" { assert v + end == v; }
    assert TrimEnd(v) == v;
  }

  lemma TidyBlank(t: string)
    requires t in ["", "\n"]
    ensures Tidy(t) == ""
  {
    if t == "\n" { assert t[1..] == ""; }
  }

  // ---------------------------------------------------- what may stand behind

  /** What a printed statement may start with. */
  predicate Follows(w: string) {
    && Firm(w) && w[0] != '/'
    && !Keyword(w, 0, "else") && !Keyword(w, 0, "catch") && !Keyword(w, 0, "finally")
  }

  /** The rest of a list behind a statement, without its own end. */
  predicate IsMore(more: string) {
    more == "" || (more[0] in "\n;" && Follows(more[1..]))
  }

  lemma KeywordAt(v: string, k: nat, word: string)
    requires k <= |v|
    ensures Keyword(v, k, word) <==> Keyword(v[k..], 0, word)
  {
    if k + |word| <= |v| { assert v[k..][0..|word|] == v[k..k + |word|]; }
  }

  /** Behind a closing brace: the end of the text, or more of the list. */
  lemma WsMore(v: string, k: nat, more: string)
    requires k <= |v| && v[k..] == more && IsMore(more)
    ensures if more == "" then Ws(v, k) == |v| else Ws(v, k) < |v|
    ensures var j := Ws(v, k);
            !Keyword(v, j, "else") && !Keyword(v, j, "catch") && !Keyword(v, j, "finally")
  {
    if more != "" {
      assert v[k] == more[0];
      if more[0] == '\n' {
        assert v[k + 1] == more[1..][0] && v[k + 1..] == more[1..];
        assert Ws(v, k) == Ws(v, k + 1) == k + 1;
        KeywordAt(v, k + 1, "else");
        KeywordAt(v, k + 1, "catch");
        KeywordAt(v, k + 1, "finally");
      } else {
        assert Ws(v, k) == k;
        NotAWord(v, k, "else");
        NotAWord(v, k, "catch");
        NotAWord(v, k, "finally");
      }
    }
  }

  lemma NotAWord(v: string, k: nat, word: string)
    requires k < |v| && word != "" && v[k] != word[0]
    ensures !Keyword(v, k, word)
  {
    if k + |word| <= |v| { assert v[k..k + |word|][0] == v[k]; }
  }

  lemma WsSpace(v: string, k: nat)
    requires k + 1 < |v| && v[k] == ' ' && !IsSpace(v[k + 1]) && v[k + 1] != '/'
    ensures Ws(v, k) == k + 1
  {
  }

  // --------------------------------------------------------- how prints begin

  /** `v` is the print of a statement and more of its list. */
  predicate IsPrintOf(x: Script, s: Stmt, more: string, v: string) {
    v == PrintStmt(x, s) + more && IsMore(more)
  }

  lemma {:induction false} StmtIsFirm(x: Script, lead: Lead, s: Stmt)
    requires PrintedStmt(x, lead, s)
    ensures var a := PrintStmt(x, s); Firm(a) && a[0] != '/'
    decreases s
  {
    hide Print, Printed, Closed;
    match s
    case If(c, t, els) =>
      if els.Else? { StmtIsFirm(x, els.lead, els.s); }
    case Try(b, h, f) =>
      assert Braced(x, "try ", b)[0] == 't' && Braced(x, "try ", b)[|Braced(x, "try ", b)| - 1] == '}';
      ClauseEnds(x, " catch ", h);
      ClauseEnds(x, " finally ", f);
    case _ =>
  }

  lemma ClauseEnds(x: Script, word: string, h: Clause)
    ensures var a := PrintClause(x, word, h); a == "" || a[|a| - 1] == '}'
  {
  }

  lemma MoreIsFirm(a: string, more: string)
    requires Firm(a) && IsMore(more)
    ensures Firm(a + more)
  {
  }

  /** Cuts are refused, and statements recognised, as `lead` and `s` tell. */
  lemma PrintBegins(x: Script, lead: Lead, s: Stmt, more: string, v: string)
    requires PrintedStmt(x, lead, s) && IsPrintOf(x, s, more, v)
    ensures Follows(v) && (IsCompound(v) <==> Compound(s))
    ensures (CannotStart(v) <==> lead.Stuck?) && (Continues(v) <==> lead.Opens?)
  {
    StmtIsFirm(x, lead, s);
    MoreIsFirm(PrintStmt(x, s), more);
    hide Print, Printed, Closed, Firm;
    if Atomic(s) {
      assert v[..|Atom(x, s)|] == Atom(x, s) && Opening(Atom(x, s), v);
    } else {
      CompoundBegins(x, s, more, v);
    }
  }

  lemma NoSuchWord(v: string, word: string)
    requires |v| >= 2 && |word| >= 2 && (v[0] != word[0] || v[1] != word[1])
    ensures !StartsWith(v, word, 0) && !Keyword(v, 0, word) && !WordAt(v, word)
  {
    if |word| <= |v| { assert v[0..|word|][0] == v[0] && v[0..|word|][1] == v[1]; }
  }

  lemma NoSecondHalf(v: string)
    requires |v| >= 2 && v[0] in "{it" && (v[0] == 'i' ==> v[1] == 'f')
    ensures !CannotStart(v) && !Continues(v)
    ensures !Keyword(v, 0, "else") && !Keyword(v, 0, "catch") && !Keyword(v, 0, "finally")
  {
    NoSuchWord(v, "in");
    NoSuchWord(v, "instanceof");
    NoSuchWord(v, "of");
    NoSuchWord(v, "else");
    NoSuchWord(v, "catch");
    NoSuchWord(v, "finally");
    hide WordAt, Keyword;
  }

  lemma CompoundBegins(x: Script, s: Stmt, more: string, v: string)
    requires Compound(s) && !s.BareIf? && v == PrintStmt(x, s) + more
    ensures IsCompound(v) && !CannotStart(v) && !Continues(v)
    ensures !Keyword(v, 0, "else") && !Keyword(v, 0, "catch") && !Keyword(v, 0, "finally")
  {
    hide Print;
    if s.If? {
      assert v[0..2] == "if" && v[0] == 'i' && v[1] == 'f' && v[2] == ' ';
    } else if s.Try? {
      assert v[0..3] == "try" && v[0] == 't' && v[3] == ' ';
    } else {
      assert v[0..1] == "{" && v[0] == '{' && |v| >= 2;
    }
    hide CannotStart, Continues, Keyword;
    NoSecondHalf(v);
  }

  // ------------------------------------------------------ the rewritten code

  /** The code for a statement with `more` behind it: a block, an `if` or a `try`
      must be all of the text, everything else is put in parentheses. */
  function Coded(x: Script, s: Stmt, more: string, compiles: Compiler): Option<string>
    decreases s
  {
    match s
    case Block(b) => if more == "" then Some("{" + BodyOf(Print(x, b), compiles) + "}") else None
    case If(c, t, els) =>
      var out := "if " + ("(" + x.cond(c) + ")") + " {" + BodyOf(Print(x, t), compiles) + "}";
      (match els
       case NoElse => if more == "" then Some(out) else None
       case Else(_, _, _, e) =>
         match Coded(x, e, more, compiles)
         case Some(z) => Some(out + " else " + z)
         case None => None)
    case Try(b, h, f) =>
      if more == ""
      then Some("try {" + BodyOf(Print(x, b), compiles) + "}" + CodedCatch(x, h, compiles) + KeptFinally(x, f))
      else None
    case _ => Some("return (" + (PrintStmt(x, s) + more) + "\n);")
  }

  function CodedCatch(x: Script, h: Clause, compiles: Compiler): string {
    if h.NoClause? then ""
    else
      var param := if h.param.Some? then "(" + x.param(h.param.value) + ")" else "";
      " catch " + param + " {" + BodyOf(Print(x, h.body), compiles) + "}"
  }

  function KeptFinally(x: Script, f: Clause): string {
    if f.Clause? then " finally {" + Print(x, f.body) + "}" else ""
  }

  /** The block that stands at `i` behind a word, and what is behind it. */
  lemma BlockIsFound(x: Script, b: seq<Item>, word: string, v: string, i: nat)
    requires Printed(x, b) && StartsWith(v, Braced(x, word, b), i) && Passes(v, i, i + |word|, [])
    ensures var e := i + |Braced(x, word, b)|;
            e <= |v| && BlockAt(v, i + |word|) == Some(Piece(Print(x, b), Ws(v, e)))
  {
    hide CloseOf, CutsFrom, CloseFrom, Passes, Ws, Print, Printed, Spelt, StartsWith, Braced;
    BracePasses(x, b, word, v, i);
    BracedSize(x, word, b);
    InBraces(x, b, word, v, i);
  }

  lemma InBraces(x: Script, b: seq<Item>, word: string, v: string, i: nat)
    requires StartsWith(v, Braced(x, word, b), i)
    ensures var o, list := i + |word|, Print(x, b); o + 2 + |list| <= |v| && v[o + 1..o + 1 + |list|] == list
  {
    hide Print;
    StartsParts(v, word + "{" + Print(x, b), "}", i);
    StartsParts(v, word + "{", Print(x, b), i);
  }

  lemma StandsAt(v: string, a: string, more: string)
    requires v == a + more
    ensures StartsWith(v, a, 0) && v[|a|..] == more
  {
  }

  lemma BlockCode(x: Script, b: seq<Item>, more: string, head: string, compiles: Compiler)
    requires Printed(x, b) && IsMore(more)
    requires Trim(head) == "" || head == ";" || compiles(head)
    ensures var v := Braced(x, "", b) + more;
            StatementOf(v, head, compiles)
            == if more == "" then Some("{" + BodyOf(Print(x, b), compiles) + "}") else None
  {
    hide BodyOf, Print, Trim, CloseOf, CloseFrom, CutsFrom, SkipToken, ParenAt, CatchAt, FinallyAt, Tidy;
    var v := Braced(x, "", b) + more;
    StandsAt(v, Braced(x, "", b), more);
    PlainRun(v, 0, 0);
    BlockIsFound(x, b, "", v, 0);
    WsMore(v, |Braced(x, "", b)|, more);
    assert v[0..1] == "{" && v[0] == '{';
    hide BlockAt, Ws;
  }

  /** The condition of an `if`, and where the block behind it begins. */
  lemma ConditionIsFound(x: Script, c: nat, t: seq<Item>, v: string)
    requires Closed(x.cond(c), false) && StartsWith(v, Condition(x, c) + Braced(x, " ", t), 0)
    ensures var j := |Condition(x, c)|;
            && j + 1 < |v| && Ws(v, 2) == 3 && ParenAt(v, 3) == Some(Piece("(" + x.cond(c) + ")", j + 1))
            && StartsWith(v, Braced(x, " ", t), j)
  {
    var a, j := x.cond(c), |Condition(x, c)|;
    StartsParts(v, Condition(x, c), Braced(x, " ", t), 0);
    CondPasses(x, c, v, 0);
    assert v[0..j] == "if (" + a + ")";
    assert v[2] == v[0..j][2] == ' ' && v[3..j] == v[0..j][3..] == "(" + a + ")";
    SpaceThenBrace(x, t, v, j);
    WsSpace(v, 2);
    WsSpace(v, j);
    hide CloseOf, Ws, Passes, Closed, Braced;
  }

  lemma SpaceThenBrace(x: Script, t: seq<Item>, v: string, j: nat)
    requires StartsWith(v, Braced(x, " ", t), j)
    ensures j + 1 < |v| && v[j] == ' ' && v[j + 1] == '{'
  {
    var a := Braced(x, " ", t);
    assert a[0] == ' ' && a[1] == '{';
    assert v[j] == v[j..j + |a|][0] && v[j + 1] == v[j..j + |a|][1];
  }

  lemma IfIsNoOther(v: string)
    requires StartsWith(v, "if (", 0)
    ensures IsCompound(v) && v[0] != '{' && !Keyword(v, 0, "try")
  {
    assert v[0..2] == v[0..4][0..2] == "if" && v[0] == v[0..4][0] == 'i' && v[2] == v[0..4][2] == ' ';
    if |v| >= 3 { assert v[0..3][0] == 'i'; }
  }

  lemma Within(v: string, k: nat, a: nat, b: nat)
    requires a <= b && k + b <= |v|
    ensures v[k + a..k + b] == v[k..][a..b] && v[k + b..] == v[k..][b..]
  {
  }

  lemma ElseIsFound(x: Script, els: Else, more: string, v: string, k: nat)
    requires els.Else? && PrintedStmt(x, els.lead, els.s) && IsMore(more)
    requires k <= |v| && v[k..] == PrintElse(x, els) + more
    ensures Ws(v, k) == k + 1 && Keyword(v, k + 1, "else") && k + 1 < |v|
    ensures Tidy(v[k + 5..]) == PrintStmt(x, els.s) + more
  {
    var w := v[k..];
    var u := PrintStmt(x, els.s) + more;
    StmtIsFirm(x, els.lead, els.s);
    MoreIsFirm(PrintStmt(x, els.s), more);
    hide Firm, PrintedStmt, PrintStmt;
    assert w == " else " + u;
    assert v[k] == w[0] && v[k + 1] == w[1] && v[k + 5] == w[5];
    Within(v, k, 1, 5);
    assert w[1..5] == "else" && w[5..] == " " + u + "";
    WsSpace(v, k);
    TidyFirm(" ", u, "");
  }

  /** The parts of a printed `if`. */
  lemma IfParts(x: Script, lead: Lead, s: Stmt, more: string)
    requires s.If? && PrintedStmt(x, lead, s)
    ensures PrintStmt(x, s) + more == Condition(x, s.c) + Braced(x, " ", s.thn) + (PrintElse(x, s.els) + more)
    ensures Closed(x.cond(s.c), false) && Printed(x, s.thn)
    ensures s.els.Else? ==> PrintedStmt(x, s.els.lead, s.els.s) && s.els.s < s
    ensures s.els.NoElse? ==> PrintElse(x, s.els) + more == more
  {
    hide Closed, Print, Braced, Condition;
    var front := Condition(x, s.c) + Braced(x, " ", s.thn);
    assert front + PrintElse(x, s.els) + more == front + (PrintElse(x, s.els) + more);
  }

  lemma {:induction false} IfCode(x: Script, lead: Lead, s: Stmt, more: string, head: string, compiles: Compiler)
    requires s.If? && PrintedStmt(x, lead, s) && IsMore(more)
    requires Trim(head) == "" || head == ";" || compiles(head)
    ensures StatementOf(PrintStmt(x, s) + more, head, compiles) == Coded(x, s, more, compiles)
    decreases s, 0
  {
    hide BodyOf, BlockAt, ParenAt, Ws, Print, Trim, Keyword, IsCompound, Tidy, PrintStmt, Braced, Condition,
         StatementOf, Printed, PrintedStmt, Closed, StartsWith, PrintElse, IsMore, Spelt, Firm, IsSpace, Is, SkipToken;
    var c, t, els := s.c, s.thn, s.els;
    var front, rest := Condition(x, c) + Braced(x, " ", t), PrintElse(x, els) + more;
    var v, k := front + rest, |front|;
    IfParts(x, lead, s, more);
    StandsAt(v, front, rest);
    ConditionIsFound(x, c, t, v);
    SpeltWords();
    BracedWord(x, " ", t, v, |Condition(x, c)|);
    WordPasses(v, " ", |Condition(x, c)|);
    BlockIsFound(x, t, " ", v, |Condition(x, c)|);
    BeginsWithIf(x, c, t, v);
    IfIsNoOther(v);
    ReadIf(v, head, compiles);
    if els.Else? {
      ElseIsFound(x, els, more, v, k);
      StatementCode(x, els.lead, els.s, more, ";", compiles);
    } else {
      WsMore(v, k, more);
    }
  }

  lemma BeginsWithIf(x: Script, c: nat, t: seq<Item>, v: string)
    requires StartsWith(v, Condition(x, c) + Braced(x, " ", t), 0)
    ensures StartsWith(v, "if (", 0)
  {
    hide Braced;
    StartsParts(v, Condition(x, c), Braced(x, " ", t), 0);
    StartsParts(v, "if (" + x.cond(c), ")", 0);
    StartsParts(v, "if (", x.cond(c), 0);
  }

  /** What is read of an `if`, when its parts are found. */
  lemma ReadIf(v: string, head: string, compiles: Compiler)
    requires IsCompound(v) && v != "" && v[0] != '{' && !Keyword(v, 0, "try")
    requires Trim(head) == "" || head == ";" || compiles(head)
    requires ParenAt(v, Ws(v, 2)).Some? && BlockAt(v, ParenAt(v, Ws(v, 2)).value.next).Some?
    ensures var condition := ParenAt(v, Ws(v, 2)).value;
            var thn := BlockAt(v, condition.next).value;
            var out := "if " + condition.text + " {" + BodyOf(thn.text, compiles) + "}";
            StatementOf(v, head, compiles) ==
              if thn.next >= |v| then Some(out)
              else if !Keyword(v, thn.next, "else") then None
              else match StatementOf(Tidy(v[thn.next + 4..]), ";", compiles)
                   case None => None
                   case Some(els) => Some(out + " else " + els)
  {
    hide BodyOf, BlockAt, ParenAt, Ws, Trim, IsCompound, Tidy;
  }

  lemma {:induction false} StatementCode(x: Script, lead: Lead, s: Stmt, more: string, head: string, compiles: Compiler)
    requires PrintedStmt(x, lead, s) && IsMore(more)
    requires Trim(head) == "" || head == ";" || compiles(head)
    ensures StatementOf(PrintStmt(x, s) + more, head, compiles) == Coded(x, s, more, compiles)
    decreases s, 1
  {
    var v := PrintStmt(x, s) + more;
    if s.Block? {
      BlockCode(x, s.body, more, head, compiles);
    } else if s.If? {
      IfCode(x, lead, s, more, head, compiles);
    } else if s.Try? {
      TryCode(x, lead, s, more, head, compiles);
    } else {
      PrintBegins(x, lead, s, more, v);
    }
  }

  lemma TryIsNoOther(v: string)
    requires StartsWith(v, "try {", 0)
    ensures IsCompound(v) && v[0] != '{' && Keyword(v, 0, "try") && Ws(v, 3) == 4
  {
    assert v[0..3] == v[0..5][0..3] == "try" && v[0] == v[0..5][0] == 't';
    assert v[3] == v[0..5][3] == ' ' && v[4] == v[0..5][4] == '{';
    WsSpace(v, 3);
  }

  /** What is read of a `try`, when its parts are found. */
  lemma ReadTry(v: string, head: string, compiles: Compiler)
    requires IsCompound(v) && v != "" && v[0] != '{' && Keyword(v, 0, "try")
    requires Trim(head) == "" || head == ";" || compiles(head)
    requires BlockAt(v, Ws(v, 3)).Some?
    requires CatchAt(v, BlockAt(v, Ws(v, 3)).value.next, compiles).Some?
    ensures var tried := BlockAt(v, Ws(v, 3)).value;
            var caught := CatchAt(v, tried.next, compiles).value;
            StatementOf(v, head, compiles) ==
              match FinallyAt(v, caught.next)
              case None => None
              case Some(final) =>
                if final.next < |v| then None
                else Some("try {" + BodyOf(tried.text, compiles) + "}" + caught.text + final.text)
  {
    hide BodyOf, BlockAt, CatchAt, FinallyAt, Ws, Trim, IsCompound, Keyword;
  }

  lemma ClauseKeys()
    ensures " catch "[1..|" catch "| - 1] == "catch" && " finally "[1..|" finally "| - 1] == "finally"
  {
  }

  /** A clause's word stands between spaces. */
  lemma ClauseStands(word: string, rest: string, v: string, k: nat)
    requires StartsWith(v, word + rest, k) && word in [" catch ", " finally "]
    requires rest != "" && (rest[0] == '{' || rest[0] == '(')
    ensures var key := word[1..|word| - 1];
            && k + |word| < |v| && Ws(v, k) == k + 1 && Keyword(v, k + 1, key)
            && Ws(v, k + 1 + |key|) == k + |word| && v[k + |word|] == rest[0] && v[k + 1] == key[0]
  {
    var key := word[1..|word| - 1];
    assert word == " " + key + " ";
    StartsParts(v, word, rest, k);
    StartsParts(v, " " + key, " ", k);
    StartsParts(v, " ", key, k);
    assert v[k] == v[k..k + 1][0] && v[k + 1] == v[k + 1..k + 1 + |key|][0];
    assert v[k + |word| - 1] == v[k + |word| - 1..k + |word|][0];
    assert v[k + |word|] == v[k + |word|..k + |word| + |rest|][0];
    WsSpace(v, k);
    WsSpace(v, k + |word| - 1);
  }

  /** A clause stands at `k`. */
  lemma ClauseParts(x: Script, word: string, h: Clause, rest: string, v: string, k: nat)
    requires k <= |v| && v[k..] == PrintClause(x, word, h) + rest
    ensures var g := PrintClause(x, word, h);
            k + |g| <= |v| && v[k + |g|..] == rest && StartsWith(v, g, k)
    ensures h.Clause? ==> PrintClause(x, word, h) == word + (ParamText(x, h.param) + ("{" + (Print(x, h.body) + "}")))
    ensures h.Clause? ==> PrintClause(x, word, h) == Braced(x, word + ParamText(x, h.param), h.body)
    ensures h.NoClause? ==> v[k..] == rest && PrintClause(x, word, h) == ""
  {
    hide Print, ParamText;
    var g, w := PrintClause(x, word, h), v[k..];
    assert v[k..k + |g|] == w[..|g|] == g && v[k + |g|..] == w[|g|..] == rest;
    if h.Clause? {
      var p, list := ParamText(x, h.param), Print(x, h.body);
      assert word + p + "{" + list + "}" == word + (p + ("{" + (list + "}")));
    }
  }

  /** The block of a clause, wherever the word of the clause ends. */
  lemma ClauseIsFound(x: Script, h: Clause, word: string, rest: string, v: string, k: nat)
    requires h.Clause? && PrintedClause(x, h) && word in [" catch ", " finally "]
    requires k <= |v| && v[k..] == PrintClause(x, word, h) + rest
    ensures var key, j := word[1..|word| - 1], k + |word|;
            && j < |v| && Ws(v, k) == k + 1 && Keyword(v, k + 1, key) && Ws(v, k + 1 + |key|) == j && v[k + 1] == key[0]
            && v[j] == (if h.param.Some? then '(' else '{')
            && BlockAt(v, j + |ParamText(x, h.param)|)
               == Some(Piece(Print(x, h.body), Ws(v, k + |PrintClause(x, word, h)|)))
            && (h.param.Some? ==>
                  ParenAt(v, j) == Some(Piece("(" + x.param(h.param.value) + ")", j + |ParamText(x, h.param)|)))
  {
    SpeltWords();
    hide BlockAt, Ws, Print, Keyword, Printed, PrintClause, Braced, CloseOf, Passes, Closed, Spelt;
    var front := word + ParamText(x, h.param);
    ClauseParts(x, word, h, rest, v, k);
    FrontStarts(x, h);
    ClauseStands(word, ParamText(x, h.param) + ("{" + (Print(x, h.body) + "}")), v, k);
    BracedWord(x, front, h.body, v, k);
    ClauseWordPasses(x, word, h, v, k);
    BlockIsFound(x, h.body, front, v, k);
    if h.param.Some? { ParamIsFound(x, h, word, v, k); }
  }

  lemma FrontStarts(x: Script, h: Clause)
    requires h.Clause?
    ensures var rest := ParamText(x, h.param) + ("{" + (Print(x, h.body) + "}"));
            rest != "" && rest[0] == if h.param.Some? then '(' else '{'
  {
    hide Print;
  }

  lemma ParamIsFound(x: Script, h: Clause, word: string, v: string, k: nat)
    requires h.Clause? && h.param.Some? && StartsWith(v, Braced(x, word + ParamText(x, h.param), h.body), k)
    requires var j := k + |word|;
             j < |v| && CloseOf(v, j) == j + 1 + |x.param(h.param.value)| && v[j] == '('
    ensures var j := k + |word|;
            ParenAt(v, j) == Some(Piece("(" + x.param(h.param.value) + ")", j + |ParamText(x, h.param)|))
  {
    hide Print, CloseOf;
    var a, j := x.param(h.param.value), k + |word|;
    var e := j + 1 + |a|;
    var list := Print(x, h.body);
    assert Braced(x, word + ParamText(x, h.param), h.body) == word + (("(" + a + ")") + (" {" + (list + "}")));
    StartsParts(v, word, ("(" + a + ")") + (" {" + (list + "}")), k);
    StartsParts(v, "(" + a + ")", " {" + (list + "}"), j);
    StartsParts(v, " {", list + "}", e + 1);
    assert v[e + 1] == v[e + 1..e + 3][0] && v[e + 2] == v[e + 1..e + 3][1];
    WsSpace(v, e + 1);
  }

  lemma CatchIsFound(x: Script, h: Clause, f: Clause, more: string, v: string, e: nat, compiles: Compiler)
    requires PrintedClause(x, h) && PrintedClause(x, f) && (h.Clause? || f.Clause?)
    requires e <= |v| && v[e..] == PrintClause(x, " catch ", h) + (PrintClause(x, " finally ", f) + more)
    ensures var k := e + |PrintClause(x, " catch ", h)|;
            && k <= |v| && v[k..] == PrintClause(x, " finally ", f) + more
            && CatchAt(v, Ws(v, e), compiles) == Some(Piece(CodedCatch(x, h, compiles), Ws(v, k)))
  {
    hide BodyOf, BlockAt, ParenAt, Ws, Print, Keyword, Printed, StartsWith, PrintClause, Braced, CloseOf, Closed;
    ClauseKeys();
    ClauseParts(x, " catch ", h, PrintClause(x, " finally ", f) + more, v, e);
    if h.Clause? {
      ClauseIsFound(x, h, " catch ", PrintClause(x, " finally ", f) + more, v, e);
    } else {
      ClauseIsFound(x, f, " finally ", more, v, e);
      NotAWord(v, e + 1, "catch");
    }
  }

  lemma FinallyIsFound(x: Script, f: Clause, more: string, v: string, k: nat)
    requires PrintedClause(x, f) && IsMore(more) && (f.Clause? ==> f.param.None?)
    requires k <= |v| && v[k..] == PrintClause(x, " finally ", f) + more
    ensures var m := k + |PrintClause(x, " finally ", f)|;
            m <= |v| && v[m..] == more && FinallyAt(v, Ws(v, k)) == Some(Piece(KeptFinally(x, f), Ws(v, m)))
  {
    hide BlockAt, Ws, Print, Keyword, Printed, StartsWith, PrintClause, Braced, CloseOf, IsMore, Closed;
    ClauseKeys();
    ClauseParts(x, " finally ", f, more, v, k);
    if f.Clause? {
      ClauseIsFound(x, f, " finally ", more, v, k);
    } else {
      WsMore(v, k, more);
    }
  }

  lemma TryParts(x: Script, lead: Lead, s: Stmt, more: string)
    requires s.Try? && PrintedStmt(x, lead, s)
    ensures PrintStmt(x, s) + more
         == Braced(x, "try ", s.tried) +
            (PrintClause(x, " catch ", s.caught) + (PrintClause(x, " finally ", s.finalizer) + more))
    ensures Printed(x, s.tried) && PrintedClause(x, s.caught) && PrintedClause(x, s.finalizer)
    ensures (s.caught.Clause? || s.finalizer.Clause?) && (s.finalizer.Clause? ==> s.finalizer.param.None?)
  {
    hide Print, Braced, PrintClause;
    var a, b, c := Braced(x, "try ", s.tried), PrintClause(x, " catch ", s.caught),
                   PrintClause(x, " finally ", s.finalizer);
    assert a + b + c + more == a + (b + (c + more));
  }

  lemma TryCode(x: Script, lead: Lead, s: Stmt, more: string, head: string, compiles: Compiler)
    requires s.Try? && PrintedStmt(x, lead, s) && IsMore(more)
    requires Trim(head) == "" || head == ";" || compiles(head)
    ensures StatementOf(PrintStmt(x, s) + more, head, compiles) == Coded(x, s, more, compiles)
  {
    hide BodyOf, BlockAt, CatchAt, FinallyAt, Ws, Print, Trim, Keyword, IsCompound, PrintStmt, Braced, CodedCatch,
         KeptFinally, StatementOf, Printed, PrintedStmt, PrintedClause, StartsWith, PrintClause, IsMore;
    var b, h, f := s.tried, s.caught, s.finalizer;
    var body, c, g := Braced(x, "try ", b), PrintClause(x, " catch ", h), PrintClause(x, " finally ", f);
    var v, e := body + (c + (g + more)), |body|;
    TryParts(x, lead, s, more);
    StandsAt(v, body, c + (g + more));
    SpeltWords();
    BracedWord(x, "try ", b, v, 0);
    WordPasses(v, "try ", 0);
    BlockIsFound(x, b, "try ", v, 0);
    BeginsWithTry(x, b, v);
    TryIsNoOther(v);
    CatchIsFound(x, h, f, more, v, e, compiles);
    FinallyIsFound(x, f, more, v, e + |c|);
    WsMore(v, e + |c| + |g|, more);
    ReadTry(v, head, compiles);
  }

  lemma BeginsWithTry(x: Script, b: seq<Item>, v: string)
    requires StartsWith(v, Braced(x, "try ", b), 0)
    ensures StartsWith(v, "try {", 0)
  {
    assert Braced(x, "try ", b) == "try {" + (Print(x, b) + "}");
    StartsParts(v, "try {", Print(x, b) + "}", 0);
  }
}
