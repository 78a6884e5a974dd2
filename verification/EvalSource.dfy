/**
 The completion-value rewriter on source text: `returningList`,
 `returningBody` and `returningStatement`. Whether code compiles is a parameter.
 */
module EvalSource {
  import opened WhiteSpace
  import opened Wrappers
  import opened EvalScanner
  import opened EvalLexer

  function DropSemicolons(s: string): string {
    if s != "" && s[|s| - 1] == ';' then DropSemicolons(s[..|s| - 1]) else s
  }

  /** A statement's text without the space and the `;`s around it. */
  function Tidy(s: string): string {
    Trim(DropSemicolons(Trim(s)))
  }

  /** `\b` right after a word that ends at `i`. */
  predicate WordEnds(s: string, i: nat) {
    !(IsIdent(s, i) && s[i] != '$')
  }

  predicate WordAt(s: string, word: string) {
    StartsWith(s, word, 0) && WordEnds(s, |word|)
  }

  /** The text could go on an expression before it. */
  predicate Continues(tail: string) {
    tail != "" && tail[0] in "([`+-*/%.,?:=<>&|!"
  }

  predicate CannotStart(tail: string) {
    WordAt(tail, "in") || WordAt(tail, "instanceof") || WordAt(tail, "of")
    || WordAt(tail, "else") || WordAt(tail, "catch") || WordAt(tail, "finally")
  }

  predicate IsCompound(s: string) {
    WordAt(s, "try") || WordAt(s, "if") || StartsWith(s, "{", 0)
  }

  predicate Keyword(s: string, i: nat, word: string) {
    StartsWith(s, word, i) && !IsIdent(s, i + |word|)
  }

  /** Past white space and comments. */
  function Ws(s: string, i: nat): (j: nat)
    ensures i <= j
    decreases if i < |s| then |s| - i else 0
  {
    if i < |s| && IsSpace(s[i]) then Ws(s, i + 1)
    else if Is(s, i, '/') && (Is(s, i + 1, '/') || Is(s, i + 1, '*')) then Ws(s, SkipToken(s, i))
    else i
  }

  /** A piece of text and where the scan goes on. */
  datatype Piece = Piece(text: string, next: nat)

  lemma ClosesLater(s: string, i: nat)
    requires i < |s| && IsOpener(s[i])
    ensures CloseOf(s, i) < 0 || i < CloseOf(s, i)
  {
  }

  function BlockAt(s: string, i: nat): (p: Option<Piece>)
    ensures p.Some? ==> |p.value.text| < |s|
  {
    if !Is(s, i, '{') then None
    else
      ClosesLater(s, i);
      var e := CloseOf(s, i);
      if e < 0 then None else Some(Piece(s[i + 1..e], Ws(s, e + 1)))
  }

  /** A parenthesis with what it holds. */
  function ParenAt(s: string, i: nat): Option<Piece> {
    if !Is(s, i, '(') then None
    else
      var e := CloseOf(s, i);
      if e < 0 then None else Some(Piece(s[i..e + 1], Ws(s, e + 1)))
  }

  // ---------------------------------------------------------- what they compute

  type Compiler = string -> bool

  /** The code for the cut at `c`, or none if the cut is refused. */
  function CodeAt(text: string, c: nat, compiles: Compiler): Option<string>
    requires c <= |text|
    decreases |text|, 2
  {
    var head := text[..c];
    var tail := Tidy(text[c..]);
    TidyIsShort(text[c..]);
    if tail == "" || (c > 0 && text[c - 1] != ';' && Continues(tail)) || CannotStart(tail) then None
    else
      match StatementOf(tail, head, compiles)
      case None => None
      case Some(statement) =>
        var code := head + "\n" + statement;
        if compiles(code) then Some(code) else None
  }

  /** The cuts before `k`, the last one first. */
  function LatestOf(text: string, cuts: seq<nat>, k: nat, compiles: Compiler): Option<string>
    requires k <= |cuts| && forall i :: 0 <= i < |cuts| ==> cuts[i] <= |text|
    decreases |text|, 3, k
  {
    if k == 0 then None
    else
      match CodeAt(text, cuts[k - 1], compiles)
      case Some(code) => Some(code)
      case None => LatestOf(text, cuts, k - 1, compiles)
  }

  lemma CutsAreInside(text: string)
    requires Boundaries(text).Some?
    ensures forall i :: 0 <= i < |Boundaries(text).value| ==> Boundaries(text).value[i] <= |text|
  {
    BoundariesAreExact(text);
  }

  function ListOf(text: string, compiles: Compiler): Option<string>
    decreases |text|, 4
  {
    match Boundaries(text)
    case None => None
    case Some(cuts) => CutsAreInside(text); LatestOf(text, cuts, |cuts|, compiles)
  }

  function BodyOf(inner: string, compiles: Compiler): string
    decreases |inner|, 5
  {
    match ListOf(inner, compiles)
    case Some(code) => code + "\n"
    case None => inner + "\n"
  }

  function StatementOf(stmt: string, head: string, compiles: Compiler): Option<string>
    decreases |stmt|, 1
  {
    if !IsCompound(stmt) then Some("return (" + stmt + "\n);")
    else if Trim(head) != "" && head != ";" && !compiles(head) then None
    else if stmt[0] == '{' then
      (match BlockAt(stmt, 0)
       case None => None
       case Some(b) => if b.next < |stmt| then None else Some("{" + BodyOf(b.text, compiles) + "}"))
    else if Keyword(stmt, 0, "try") then
      (match BlockAt(stmt, Ws(stmt, 3))
       case None => None
       case Some(tried) =>
         match CatchAt(stmt, tried.next, compiles)
         case None => None
         case Some(caught) =>
           match FinallyAt(stmt, caught.next)
           case None => None
           case Some(final) =>
             if final.next < |stmt| then None
             else Some("try {" + BodyOf(tried.text, compiles) + "}" + caught.text + final.text))
    else
      match ParenAt(stmt, Ws(stmt, 2))
      case None => None
      case Some(condition) =>
        match BlockAt(stmt, condition.next)
        case None => None
        case Some(thn) =>
          var out := "if " + condition.text + " {" + BodyOf(thn.text, compiles) + "}";
          if thn.next >= |stmt| then Some(out)
          else if !Keyword(stmt, thn.next, "else") then None
          else
            TidyIsShort(stmt[thn.next + 4..]);
            match StatementOf(Tidy(stmt[thn.next + 4..]), ";", compiles)
            case None => None
            case Some(els) => Some(out + " else " + els)
  }

  /** The rewritten `catch` clause at `i`, or nothing to rewrite. */
  function CatchAt(stmt: string, i: nat, compiles: Compiler): Option<Piece>
    decreases |stmt|, 0
  {
    if !Keyword(stmt, i, "catch") then Some(Piece("", i))
    else
      var j := Ws(stmt, i + 5);
      if Is(stmt, j, '(') && ParenAt(stmt, j).None? then None
      else
        var param := if Is(stmt, j, '(') then ParenAt(stmt, j).value else Piece("", j);
        match BlockAt(stmt, param.next)
        case None => None
        case Some(b) => Some(Piece(" catch " + param.text + " {" + BodyOf(b.text, compiles) + "}", b.next))
  }

  /** The `finally` clause at `i`, kept as it is. */
  function FinallyAt(stmt: string, i: nat): Option<Piece> {
    if !Keyword(stmt, i, "finally") then Some(Piece("", i))
    else
      match BlockAt(stmt, Ws(stmt, i + 7))
      case None => None
      case Some(b) => Some(Piece(" finally {" + b.text + "}", b.next))
  }

  lemma {:induction false} TrimIsShort(s: string)
    ensures |TrimStart(s)| <= |s| && |TrimEnd(s)| <= |s| && |DropSemicolons(s)| <= |s|
  {
    if s != "" {
      TrimIsShort(s[1..]);
      TrimIsShort(s[..|s| - 1]);
    }
  }

  lemma TidyIsShort(s: string)
    ensures |Tidy(s)| <= |s|
  {
    TrimIsShort(s);
    TrimIsShort(TrimStart(s));
    TrimIsShort(Trim(s));
    TrimIsShort(DropSemicolons(Trim(s)));
    TrimIsShort(TrimStart(DropSemicolons(Trim(s))));
  }

  // --------------------------------------------------------------- the loops

  lemma CommentSkips(s: string, i: nat)
    requires Is(s, i, '/') && (Is(s, i + 1, '/') || Is(s, i + 1, '*'))
    ensures SkipToken(s, i) > i
  {
  }

  lemma CompoundIsThere(s: string)
    requires IsCompound(s)
    ensures s != ""
  {
  }

  lemma KeywordFits(s: string, i: nat, word: string)
    requires Keyword(s, i, word)
    ensures i + |word| <= |s| && s[i..i + |word|] == word
  {
  }

  method SkipWs(s: string, start: nat) returns (i: nat)
    ensures i == Ws(s, start)
  {
    hide SkipToken, IsSpace;
    i := start;
    while true
      invariant start <= i && Ws(s, start) == Ws(s, i)
      decreases |s| - i
    {
      if i < |s| && IsSpace(s[i]) {
        i := i + 1;
      } else if Is(s, i, '/') && (Is(s, i + 1, '/') || Is(s, i + 1, '*')) {
        CommentSkips(s, i);
        i := ScanToken(s, i);
      } else {
        return;
      }
    }
  }

  method TakeBlock(s: string, i: nat) returns (p: Option<Piece>)
    ensures p == BlockAt(s, i)
  {
    if !Is(s, i, '{') {
      return None;
    }
    ClosesLater(s, i);
    var e := ScanClose(s, i);
    if e < 0 {
      return None;
    }
    var next := SkipWs(s, e + 1);
    return Some(Piece(s[i + 1..e], next));
  }

  /** `returningList`: from the last cut to the first. */
  method ReturningList(text: string, compiles: Compiler) returns (result: Option<string>)
    ensures result == ListOf(text, compiles)
    decreases |text|, 4
  {
    hide StatementOf, Tidy, CannotStart, Continues;
    var found := ScanBoundaries(text);
    if found.None? {
      return None;
    }
    CutsAreInside(text);
    var cuts := found.value;
    var k: nat := |cuts|;
    while k > 0
      invariant k <= |cuts| && ListOf(text, compiles) == LatestOf(text, cuts, k, compiles)
    {
      k := k - 1;
      var c := cuts[k];
      var head, tail := text[..c], Tidy(text[c..]);
      TidyIsShort(text[c..]);
      if tail == "" || (c > 0 && text[c - 1] != ';' && Continues(tail)) {
        continue;
      }
      if CannotStart(tail) {
        continue;
      }
      var statement := ReturningStatement(tail, head, compiles);
      if statement.None? {
        continue;
      }
      var code := head + "\n" + statement.value;
      if compiles(code) {
        return Some(code);
      }
    }
    return None;
  }

  method ReturningBody(inner: string, compiles: Compiler) returns (code: string)
    ensures code == BodyOf(inner, compiles)
    decreases |inner|, 5
  {
    var list := ReturningList(inner, compiles);
    code := (match list case Some(c) => c case None => inner) + "\n";
  }

  /** `returningStatement`: one index moves over the statement. */
  method ReturningStatement(stmt: string, head: string, compiles: Compiler) returns (result: Option<string>)
    ensures result == StatementOf(stmt, head, compiles)
    decreases |stmt|, 1
  {
    hide CloseOf, Ws, ListOf, Tidy, Trim, IsCompound, Keyword, BlockAt, BodyOf;
    if !IsCompound(stmt) {
      return Some("return (" + stmt + "\n);");
    }
    CompoundIsThere(stmt);
    if Trim(head) != "" && head != ";" && !compiles(head) {
      return None;
    }
    if stmt[0] == '{' {
      var block := TakeBlock(stmt, 0);
      if block.None? || block.value.next < |stmt| {
        return None;
      }
      var body := ReturningBody(block.value.text, compiles);
      return Some("{" + body + "}");
    }
    if Keyword(stmt, 0, "try") {
      result := ReturningTry(stmt, head, compiles);
      return;
    }
    var i := SkipWs(stmt, 2);
    if !Is(stmt, i, '(') {
      return None;
    }
    var e := ScanClose(stmt, i);
    if e < 0 {
      return None;
    }
    var out := "if " + stmt[i..e + 1];
    i := SkipWs(stmt, e + 1);
    var consequent := TakeBlock(stmt, i);
    if consequent.None? {
      return None;
    }
    i := consequent.value.next;
    var body := ReturningBody(consequent.value.text, compiles);
    out := out + " {" + body + "}";
    if i >= |stmt| {
      return Some(out);
    }
    if !Keyword(stmt, i, "else") {
      return None;
    }
    KeywordFits(stmt, i, "else");
    TidyIsShort(stmt[i + 4..]);
    var alternate := ReturningStatement(Tidy(stmt[i + 4..]), ";", compiles);
    return if alternate.None? then None else Some(out + " else " + alternate.value);
  }

  method ReturningTry(stmt: string, head: string, compiles: Compiler) returns (result: Option<string>)
    requires IsCompound(stmt) && Keyword(stmt, 0, "try")
    requires Trim(head) == "" || head == ";" || compiles(head)
    ensures result == StatementOf(stmt, head, compiles)
    decreases |stmt|, 0, 1
  {
    KeywordFits(stmt, 0, "try");
    assert stmt[0] == stmt[0..3][0] == 't';
    hide CloseOf, Ws, ListOf, Trim, IsCompound, Keyword, BlockAt, CatchAt, FinallyAt, BodyOf;
    var i := SkipWs(stmt, 3);
    var tried := TakeBlock(stmt, i);
    if tried.None? {
      return None;
    }
    i := tried.value.next;
    var body := ReturningBody(tried.value.text, compiles);
    var out := "try {" + body + "}";
    var caught := ReturningCatch(stmt, i, compiles);
    if caught.None? {
      return None;
    }
    i := caught.value.next;
    out := out + caught.value.text;
    var final := KeepFinally(stmt, i);
    if final.None? {
      return None;
    }
    i := final.value.next;
    out := out + final.value.text;
    return if i >= |stmt| then Some(out) else None;
  }

  method ReturningCatch(stmt: string, start: nat, compiles: Compiler) returns (clause: Option<Piece>)
    ensures clause == CatchAt(stmt, start, compiles)
    decreases |stmt|, 0, 0
  {
    hide CloseOf, Ws, ListOf, Keyword, BlockAt, BodyOf;
    var i := start;
    if !Keyword(stmt, i, "catch") {
      return Some(Piece("", i));
    }
    i := SkipWs(stmt, i + 5);
    var param := "";
    if Is(stmt, i, '(') {
      var e := ScanClose(stmt, i);
      if e < 0 {
        return None;
      }
      param := stmt[i..e + 1];
      i := SkipWs(stmt, e + 1);
    }
    var caught := TakeBlock(stmt, i);
    if caught.None? {
      return None;
    }
    var body := ReturningBody(caught.value.text, compiles);
    return Some(Piece(" catch " + param + " {" + body + "}", caught.value.next));
  }

  method KeepFinally(stmt: string, start: nat) returns (clause: Option<Piece>)
    ensures clause == FinallyAt(stmt, start)
  {
    hide Keyword, BlockAt, Ws;
    if !Keyword(stmt, start, "finally") {
      return Some(Piece("", start));
    }
    var i := SkipWs(stmt, start + 7);
    var finalizer := TakeBlock(stmt, i);
    return if finalizer.None? then None
           else Some(Piece(" finally {" + finalizer.value.text + "}", finalizer.value.next));
  }

  // -------------------------------------------------------------- the results

  /** What the chosen code is made of: the text before the cut as it stands, and
      the statement after it. */
  ghost predicate Chosen(text: string, c: nat, code: string, compiles: Compiler) {
    c <= |text| && (c == 0 || IsCut(text, c)) && compiles(code) && text[..c] + "\n" <= code
  }

  /** Only white space before, and only white space and `;` after. */
  ghost predicate OnlyPadding(before: string, after: string) {
    (forall i :: 0 <= i < |before| ==> IsSpace(before[i])) &&
    (forall i :: 0 <= i < |after| ==> IsSpace(after[i]) || after[i] == ';')
  }

  lemma {:induction false} DropTakesSemicolons(s: string) returns (after: string)
    ensures s == DropSemicolons(s) + after && OnlyPadding("", after)
  {
    after := "";
    if s != "" && s[|s| - 1] == ';' {
      after := DropTakesSemicolons(s[..|s| - 1]);
      after := after + [s[|s| - 1]];
    }
  }

  lemma TidyTakesPadding(s: string) returns (before: string, after: string)
    ensures s == before + Tidy(s) + after && OnlyPadding(before, after)
  {
    hide IsSpace, TrimStart, TrimEnd, DropSemicolons;
    var a := TrimStartTakesSpace(s);
    var d := TrimEndTakesSpace(TrimStart(s));
    var e := DropTakesSemicolons(Trim(s));
    var b := TrimStartTakesSpace(DropSemicolons(Trim(s)));
    var f := TrimEndTakesSpace(TrimStart(DropSemicolons(Trim(s))));
    before, after := a + b, f + e + d;
    assert s == a + (b + (Tidy(s) + f) + e + d);
  }

  lemma {:induction false} LatestWins(text: string, cuts: seq<nat>, k: nat, compiles: Compiler) returns (i: nat)
    requires k <= |cuts| && forall i :: 0 <= i < |cuts| ==> cuts[i] <= |text|
    requires LatestOf(text, cuts, k, compiles).Some?
    ensures i < k && CodeAt(text, cuts[i], compiles) == LatestOf(text, cuts, k, compiles)
    ensures forall j :: i < j < k ==> CodeAt(text, cuts[j], compiles) == None
    decreases k
  {
    hide CodeAt;
    if CodeAt(text, cuts[k - 1], compiles).None? {
      i := LatestWins(text, cuts, k - 1, compiles);
    } else {
      i := k - 1;
    }
  }

  lemma {:induction false} NoneWins(text: string, cuts: seq<nat>, k: nat, compiles: Compiler)
    requires k <= |cuts| && forall i :: 0 <= i < |cuts| ==> cuts[i] <= |text|
    requires LatestOf(text, cuts, k, compiles).None?
    ensures forall j :: 0 <= j < k ==> CodeAt(text, cuts[j], compiles) == None
    decreases k
  {
    hide CodeAt;
    if k > 0 { NoneWins(text, cuts, k - 1, compiles); }
  }

  /** `c` is the last cut that gives code. */
  ghost predicate IsLatest(text: string, cuts: seq<nat>, c: nat, code: string, compiles: Compiler) {
    c in cuts && c <= |text| && CodeAt(text, c, compiles) == Some(code) &&
    forall d :: d in cuts && c < d <= |text| ==> CodeAt(text, d, compiles) == None
  }

  lemma LatestInOrder(text: string, cuts: seq<nat>, i: nat, code: string, compiles: Compiler)
    requires Increasing(cuts) && i < |cuts| && forall j :: 0 <= j < |cuts| ==> cuts[j] <= |text|
    requires CodeAt(text, cuts[i], compiles) == Some(code)
    requires forall j :: i < j < |cuts| ==> CodeAt(text, cuts[j], compiles) == None
    ensures IsLatest(text, cuts, cuts[i], code, compiles)
  {
  }

  lemma CutsAreCuts(text: string)
    requires Boundaries(text).Some?
    ensures Increasing(Boundaries(text).value)
    ensures forall c :: c in Boundaries(text).value ==> c == 0 || IsCut(text, c)
  {
    BoundariesAreExact(text);
    hide IsCut, EndsStatement, Hopeless, CutsFrom;
  }

  lemma CodeIsChosen(text: string, c: nat, code: string, compiles: Compiler)
    requires c <= |text| && (c == 0 || IsCut(text, c)) && CodeAt(text, c, compiles) == Some(code)
    ensures Chosen(text, c, code, compiles)
  {
  }

  ghost predicate ListResult(text: string, cuts: seq<nat>, result: Option<string>, compiles: Compiler) {
    match result
    case None => forall c :: c in cuts && c <= |text| ==> CodeAt(text, c, compiles) == None
    case Some(code) =>
      exists c :: Chosen(text, c, code, compiles) && IsLatest(text, cuts, c, code, compiles)
  }

  lemma LatestIsChosen(text: string, cuts: seq<nat>, compiles: Compiler)
    requires Increasing(cuts) && forall j :: 0 <= j < |cuts| ==> cuts[j] <= |text|
    requires forall c :: c in cuts ==> c == 0 || IsCut(text, c)
    ensures ListResult(text, cuts, LatestOf(text, cuts, |cuts|, compiles), compiles)
  {
    hide CodeAt, IsCut, IsLatest, Chosen, Increasing, LatestOf;
    var result := LatestOf(text, cuts, |cuts|, compiles);
    if result.None? {
      NoneWins(text, cuts, |cuts|, compiles);
    } else {
      var i := LatestWins(text, cuts, |cuts|, compiles);
      assert cuts[i] in cuts;
      LatestInOrder(text, cuts, i, result.value, compiles);
      CodeIsChosen(text, cuts[i], result.value, compiles);
    }
  }

  /** The rewritten list compiles and starts with the text before one of its
      depth-zero cuts as it stands; no later cut would have given code. There
      is none exactly when the text is hopeless or no cut gives code. */
  lemma LatestCutIsChosen(text: string, compiles: Compiler)
    ensures match Boundaries(text)
            case None => ListOf(text, compiles) == None
            case Some(cuts) => ListResult(text, cuts, ListOf(text, compiles), compiles)
  {
    hide ListResult, Boundaries, LatestOf;
    if Boundaries(text).Some? {
      CutsAreCuts(text);
      CutsAreInside(text);
      LatestIsChosen(text, Boundaries(text).value, compiles);
    }
  }

  /** A last statement that is no block, `if` or `try` is returned as it stands,
      padding aside: nothing of the text is lost or moved. */
  lemma ExpressionIsReturned(text: string, c: nat, compiles: Compiler)
    returns (before: string, tail: string, after: string)
    requires c <= |text| && CodeAt(text, c, compiles).Some? && !IsCompound(Tidy(text[c..]))
    ensures text == text[..c] + before + tail + after && OnlyPadding(before, after)
    ensures CodeAt(text, c, compiles) == Some(text[..c] + "\n" + ("return (" + tail + "\n);"))
  {
    tail := Tidy(text[c..]);
    before, after := TidyTakesPadding(text[c..]);
    assert text == text[..c] + (before + tail + after);
  }
}
