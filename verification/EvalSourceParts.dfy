/**
 What a rewritten block, `if` or `try` is made of: its own words, brackets and
 bracketed texts in their places in the source, with nothing between them but
 white space and comments.
 */
module EvalSourceParts {
  import opened Wrappers
  import opened WhiteSpace
  import opened EvalScanner
  import opened EvalLexer
  import opened EvalSource

  // ----------------------------------------------------------------- padding

  /** A comment: up to the end of the line, up to the first end mark, or, at the
      end of a text, one that is not closed. */
  ghost predicate Comment(c: string, last: bool) {
    |c| >= 2 && c[0] == '/' &&
    if c[1] == '/' then forall k :: 0 <= k < |c| ==> c[k] != '\n'
    else
      && c[1] == '*' && (forall k :: 2 <= k < |c| - 2 ==> !(c[k] == '*' && c[k + 1] == '/'))
      && (last || (|c| >= 4 && c[|c| - 2] == '*' && c[|c| - 1] == '/'))
  }

  /** White space and whole comments; `last` says that the text ends here. */
  ghost predicate Padding(g: string, last: bool)
    decreases |g|
  {
    || g == ""
    || (IsSpace(g[0]) && Padding(g[1..], last))
    || exists k :: 2 <= k <= |g| && Comment(g[..k], last && k == |g|) && Padding(g[k..], last)
  }

  predicate CommentStarts(s: string, i: nat) {
    i + 1 < |s| && s[i] == '/' && (s[i + 1] == '/' || s[i + 1] == '*')
  }

  lemma {:induction false} CommentEnds(s: string, i: nat)
    requires i <= |s|
    ensures var e := CommentEnd(s, i);
            && i <= e <= |s| && (forall k :: i <= k < e - 2 ==> !ClosesComment(s, k))
            && (e < |s| ==> e >= i + 2 && ClosesComment(s, e - 2))
    decreases |s| - i
  {
    if i < |s| && !ClosesComment(s, i) { CommentEnds(s, i + 1); }
  }

  lemma CommentIsSkipped(s: string, i: nat)
    requires CommentStarts(s, i)
    ensures var e := SkipToken(s, i); i + 2 <= e <= |s| && Comment(s[i..e], e == |s|)
  {
    if s[i + 1] == '/' {
      var e := LineEnd(s, i);
      assert e >= i + 2;
    } else {
      CommentEnds(s, i + 2);
      var e := CommentEnd(s, i + 2);
      var c := s[i..e];
      forall k | 2 <= k < |c| - 2 ensures !(c[k] == '*' && c[k + 1] == '/') {
        assert !ClosesComment(s, i + k);
      }
      if e < |s| { assert ClosesComment(s, e - 2) && e >= i + 4; }
    }
  }

  /** `ws` goes over white space and comments, and stops at something else. */
  lemma {:induction false} WsIsPadding(s: string, i: nat)
    requires i <= |s|
    ensures var j := Ws(s, i);
            && j <= |s| && Padding(s[i..j], j == |s|)
            && (j < |s| ==> !IsSpace(s[j]) && !CommentStarts(s, j))
    decreases |s| - i
  {
    hide SkipToken, IsSpace, Comment;
    var j := Ws(s, i);
    if i < |s| && IsSpace(s[i]) {
      WsIsPadding(s, i + 1);
      assert s[i..j][1..] == s[i + 1..j];
    } else if CommentStarts(s, i) {
      CommentIsSkipped(s, i);
      var e := SkipToken(s, i);
      WsIsPadding(s, e);
      var g := s[i..j];
      assert g[..e - i] == s[i..e] && g[e - i..] == s[e..j];
      assert Comment(g[..e - i], j == |s| && e - i == |g|) || e < j || e < |s|;
      CommentBefore(s[i..e], e == |s|, j == |s| && e - i == |g|);
    } else {
      assert s[i..j] == "";
    }
  }

  lemma CommentBefore(c: string, last: bool, more: bool)
    requires Comment(c, last) && (last ==> more)
    ensures Comment(c, more)
  {
  }

  // ------------------------------------------------------------------- pieces

  /** The word stands at `i`, and padding from there to `next`. */
  ghost predicate WordFrom(s: string, i: nat, word: string, next: nat) {
    && i + |word| <= next <= |s| && s[i..i + |word|] == word && !IsIdent(s, i + |word|)
    && Padding(s[i + |word|..next], next == |s|)
  }

  /** A brace stands at `i`; `inner` reaches to the bracket that closes it, and
      padding from there to `next`. */
  ghost predicate BlockFrom(s: string, i: nat, inner: string, next: nat) {
    && i < next <= |s| && s[i] == '{'
    && var e := CloseOf(s, i); i < e < next && inner == s[i + 1..e] && Padding(s[e + 1..next], next == |s|)
  }

  /** The same for a parenthesis, with its brackets. */
  ghost predicate ParenFrom(s: string, i: nat, paren: string, next: nat) {
    && i < next <= |s| && s[i] == '('
    && var e := CloseOf(s, i); i < e < next && paren == s[i..e + 1] && Padding(s[e + 1..next], next == |s|)
  }

  lemma WordStands(s: string, i: nat, word: string)
    requires Keyword(s, i, word)
    ensures WordFrom(s, i, word, Ws(s, i + |word|))
  {
    KeywordFits(s, i, word);
    WsIsPadding(s, i + |word|);
    hide Padding;
  }

  lemma BlockStands(s: string, i: nat)
    requires BlockAt(s, i).Some?
    ensures BlockFrom(s, i, BlockAt(s, i).value.text, BlockAt(s, i).value.next)
  {
    ClosesLater(s, i);
    WsIsPadding(s, CloseOf(s, i) + 1);
    hide Padding, CloseFrom;
  }

  lemma ParenStands(s: string, i: nat)
    requires ParenAt(s, i).Some?
    ensures ParenFrom(s, i, ParenAt(s, i).value.text, ParenAt(s, i).value.next)
  {
    ClosesLater(s, i);
    WsIsPadding(s, CloseOf(s, i) + 1);
    hide Padding, CloseFrom;
  }

  // ------------------------------------------------------------------ clauses

  /** A `catch` clause from `i` to `next` and its code: what it binds, kept as it
      stands, and the rewritten block. */
  ghost predicate CatchFrom(s: string, i: nat, code: string, next: nat, compiles: Compiler) {
    exists j: nat, k: nat, param: string, inner: string ::
      && WordFrom(s, i, "catch", j)
      && (if j < |s| && s[j] == '(' then ParenFrom(s, j, param, k) else param == "" && k == j)
      && BlockFrom(s, k, inner, next)
      && code == " catch " + param + " {" + BodyOf(inner, compiles) + "}"
  }

  /** A rewritten `catch` clause keeps its parameter. */
  lemma CatchKeepsItsParameter(s: string, i: nat, compiles: Compiler)
    requires CatchAt(s, i, compiles).Some? && Keyword(s, i, "catch")
    ensures CatchFrom(s, i, CatchAt(s, i, compiles).value.text, CatchAt(s, i, compiles).value.next, compiles)
  {
    var j := Ws(s, i + 5);
    WordStands(s, i, "catch");
    if Is(s, j, '(') { ParenStands(s, j); }
    var param := if Is(s, j, '(') then ParenAt(s, j).value else Piece("", j);
    BlockStands(s, param.next);
    hide Keyword, ParenAt, BlockAt, BodyOf, WordFrom, BlockFrom, ParenFrom, Ws;
    var inner := BlockAt(s, param.next).value.text;
    assert CatchAt(s, i, compiles).value.text == " catch " + param.text + " {" + BodyOf(inner, compiles) + "}";
  }

  /** A `finally` clause keeps its block. */
  ghost predicate FinallyFrom(s: string, i: nat, code: string, next: nat) {
    exists j: nat, inner: string ::
      WordFrom(s, i, "finally", j) && BlockFrom(s, j, inner, next) && code == " finally {" + inner + "}"
  }

  lemma FinallyKeepsItsBlock(s: string, i: nat)
    requires FinallyAt(s, i).Some? && Keyword(s, i, "finally")
    ensures FinallyFrom(s, i, FinallyAt(s, i).value.text, FinallyAt(s, i).value.next)
  {
    WordStands(s, i, "finally");
    BlockStands(s, Ws(s, i + 7));
    hide Keyword, BlockAt, WordFrom, BlockFrom, Ws;
  }

  /** A clause that is not there leaves nothing. */
  ghost predicate MaybeCatch(s: string, i: nat, code: string, next: nat, compiles: Compiler) {
    if Keyword(s, i, "catch") then CatchFrom(s, i, code, next, compiles) else code == "" && next == i
  }

  ghost predicate MaybeFinally(s: string, i: nat, code: string, next: nat) {
    if Keyword(s, i, "finally") then FinallyFrom(s, i, code, next) else code == "" && next == i
  }

  // --------------------------------------------------------------- statements

  /** A rewritten `try` is all of the text: its word, its block, its clauses. */
  lemma TryKeepsItsParts(s: string, head: string, compiles: Compiler)
    returns (j: nat, inner: string, k: nat, caught: string, m: nat, final: string)
    requires Keyword(s, 0, "try") && StatementOf(s, head, compiles).Some? && IsCompound(s) && s[0] != '{'
    ensures WordFrom(s, 0, "try", j) && BlockFrom(s, j, inner, k)
    ensures MaybeCatch(s, k, caught, m, compiles) && MaybeFinally(s, m, final, |s|)
    ensures StatementOf(s, head, compiles) == Some("try {" + BodyOf(inner, compiles) + "}" + caught + final)
  {
    WordStands(s, 0, "try");
    j := Ws(s, 3);
    BlockStands(s, j);
    inner, k := BlockAt(s, j).value.text, BlockAt(s, j).value.next;
    var c := CatchAt(s, k, compiles);
    if Keyword(s, k, "catch") { CatchKeepsItsParameter(s, k, compiles); }
    caught, m := c.value.text, c.value.next;
    var f := FinallyAt(s, m);
    if Keyword(s, m, "finally") { FinallyKeepsItsBlock(s, m); }
    final := f.value.text;
    hide Padding, BodyOf, BlockAt, CatchFrom, FinallyFrom, Ws, BlockFrom, WordFrom;
    ClausesStayInside(s, k, compiles);
  }

  lemma ClausesStayInside(s: string, k: nat, compiles: Compiler)
    requires k <= |s| && CatchAt(s, k, compiles).Some?
    ensures CatchAt(s, k, compiles).value.next <= |s|
    ensures var m := CatchAt(s, k, compiles).value.next; FinallyAt(s, m).Some? ==> FinallyAt(s, m).value.next <= |s|
  {
    if Keyword(s, k, "catch") { CatchKeepsItsParameter(s, k, compiles); }
    var m := CatchAt(s, k, compiles).value.next;
    hide Padding, BodyOf, WordFrom, CatchAt;
    if Keyword(s, m, "finally") && FinallyAt(s, m).Some? { FinallyKeepsItsBlock(s, m); }
  }

  /** A rewritten `if` keeps its condition and its order; what follows its block is
      nothing, or an `else` with a statement that is rewritten too. */
  lemma IfKeepsItsParts(s: string, head: string, compiles: Compiler)
    returns (j: nat, condition: string, k: nat, inner: string, m: nat, els: string)
    requires StatementOf(s, head, compiles).Some? && IsCompound(s) && s[0] != '{' && !Keyword(s, 0, "try")
    ensures j == Ws(s, 2) && ParenFrom(s, j, condition, k) && BlockFrom(s, k, inner, m)
    ensures StatementOf(s, head, compiles) == Some("if " + condition + " {" + BodyOf(inner, compiles) + "}" + els)
    ensures if m == |s| then els == ""
            else Keyword(s, m, "else") && m + 4 <= |s| && exists code ::
                   els == " else " + code && StatementOf(Tidy(s[m + 4..]), ";", compiles) == Some(code)
  {
    hide StatementOf, Padding, BodyOf, Ws, IsCompound, Keyword, Tidy, CloseOf, CloseFrom, ParenAt, BlockAt, ParenFrom,
         BlockFrom;
    IfIsRead(s, head, compiles);
    j := Ws(s, 2);
    ParenStands(s, j);
    condition, k := ParenAt(s, j).value.text, ParenAt(s, j).value.next;
    BlockStands(s, k);
    inner, m := BlockAt(s, k).value.text, BlockAt(s, k).value.next;
    EndsInside(s, k, inner, m);
    var out := "if " + condition + " {" + BodyOf(inner, compiles) + "}";
    if m == |s| {
      els := "";
      assert out + els == out;
    } else {
      var code := StatementOf(Tidy(s[m + 4..]), ";", compiles).value;
      els := " else " + code;
      assert out + els == out + " else " + code;
    }
  }

  lemma EndsInside(s: string, k: nat, inner: string, m: nat)
    requires BlockFrom(s, k, inner, m)
    ensures m <= |s|
  {
  }

  lemma IfIsRead(s: string, head: string, compiles: Compiler)
    requires StatementOf(s, head, compiles).Some? && IsCompound(s) && s[0] != '{' && !Keyword(s, 0, "try")
    ensures ParenAt(s, Ws(s, 2)).Some? && BlockAt(s, ParenAt(s, Ws(s, 2)).value.next).Some?
    ensures var condition := ParenAt(s, Ws(s, 2)).value;
            var thn := BlockAt(s, condition.next).value;
            var out := "if " + condition.text + " {" + BodyOf(thn.text, compiles) + "}";
            if thn.next >= |s| then StatementOf(s, head, compiles) == Some(out)
            else
              && Keyword(s, thn.next, "else") && thn.next + 4 <= |s|
              && StatementOf(Tidy(s[thn.next + 4..]), ";", compiles).Some?
              && StatementOf(s, head, compiles)
                 == Some(out + " else " + StatementOf(Tidy(s[thn.next + 4..]), ";", compiles).value)
  {
    hide BodyOf, BlockAt, ParenAt, Ws, IsCompound, Trim, Tidy;
  }

  /** A rewritten block is all of the text. */
  lemma BlockKeepsItsParts(s: string, head: string, compiles: Compiler) returns (inner: string)
    requires StatementOf(s, head, compiles).Some? && IsCompound(s) && s[0] == '{'
    ensures BlockFrom(s, 0, inner, |s|) && StatementOf(s, head, compiles) == Some("{" + BodyOf(inner, compiles) + "}")
  {
    BlockStands(s, 0);
    inner := BlockAt(s, 0).value.text;
    hide Padding, BodyOf, BlockAt, CloseOf;
  }

  /** A block, `if` or `try` is cut off only where the text before it is complete:
      otherwise it may belong to a loop, an `else` or a label. What its code is does
      not depend on that text. */
  lemma CompoundNeedsWholeHead(s: string, head: string, other: string, compiles: Compiler)
    requires IsCompound(s) && (Trim(other) == "" || other == ";" || compiles(other))
    ensures StatementOf(s, head, compiles)
         == if Trim(head) == "" || head == ";" || compiles(head) then StatementOf(s, other, compiles) else None
  {
    hide BodyOf, BlockAt, ParenAt, CatchAt, FinallyAt, Ws, Trim, Tidy, Keyword;
  }

  predicate Begins(tail: string, word: string) {
    && |word| <= |tail| && tail[..|word|] == word
    && (|word| < |tail| ==> tail[|word|] == '$' || !NameCode(tail[|word|] as int))
  }

  lemma BeginsIff(tail: string, word: string)
    ensures WordAt(tail, word) <==> Begins(tail, word)
  {
    assert tail[..|tail|] == tail;
  }

  /** Which texts are rewritten as a block, `if` or `try`. */
  lemma CompoundIff(s: string)
    ensures IsCompound(s) <==> Begins(s, "try") || Begins(s, "if") || (s != "" && s[0] == '{')
  {
    BeginsIff(s, "try");
    BeginsIff(s, "if");
    hide WordAt, Begins;
    if s != "" { assert s[0..1] == [s[0]]; }
  }

  /** A cut is refused before what can only go on: after a newline or a brace before
      these characters, and anywhere before these words. */
  lemma RefusedIff(text: string, c: nat, compiles: Compiler)
    requires c <= |text| && Tidy(text[c..]) != ""
    requires forall code: string :: compiles(code)
    requires !IsCompound(Tidy(text[c..]))
    ensures var tail := Tidy(text[c..]);
            CodeAt(text, c, compiles) == None <==>
              || (c > 0 && text[c - 1] != ';' &&
                  tail[0] in {'(', '[', '`', '+', '-', '*', '/', '%', '.', ',', '?', ':', '=', '<', '>', '&', '|', '!'})
              || exists word :: word in {"in", "instanceof", "of", "else", "catch", "finally"} && Begins(tail, word)
  {
    hide Tidy, IsCompound, WordAt;
    var tail := Tidy(text[c..]);
    forall word: string ensures WordAt(tail, word) <==> Begins(tail, word) { BeginsIff(tail, word); }
    hide Begins;
  }
}
