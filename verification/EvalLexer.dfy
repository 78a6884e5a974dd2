/**
 A reference reading of the same text: an automaton that takes one character
 at a time and keeps the lexical mode, the bracket depth, and the depths at
 which enclosing templates were left for a `${`. The scanner's jumps are proved
 to agree with it.
 */
module EvalLexer {
  import opened Wrappers
  import opened EvalScanner

  datatype Mode =
    | Code | Line | BlockOpening | Block | BlockClosing
    | Quoted(quote: char) | QuotedEscape(quote: char)
    | Template | TemplateEscape

  /** `outer` holds one depth for every `${` that is still open. */
  datatype Lex = Lex(mode: Mode, depth: nat, outer: seq<nat>)

  /** A comment opener or a line comment looks one character ahead. */
  function InCode(text: string, i: nat, l: Lex): Lex
    requires i < |text| && l.mode.Code?
  {
    var c := text[i];
    if c == '/' && Is(text, i + 1, '/') then l.(mode := Line)
    else if c == '/' && Is(text, i + 1, '*') then l.(mode := BlockOpening)
    else if c == '"' || c == '\'' then l.(mode := Quoted(c))
    else if c == '`' then l.(mode := Template)
    else if IsOpener(c) then l.(depth := l.depth + 1)
    else if IsCloser(c) && l.depth == 1 && l.outer != [] then
      Lex(Template, l.outer[|l.outer| - 1], l.outer[..|l.outer| - 1])
    else if IsCloser(c) && l.depth > 0 then l.(depth := l.depth - 1)
    else l
  }

  function Advance(text: string, i: nat, l: Lex): Lex
    requires i < |text|
  {
    var c := text[i];
    match l.mode
    case Code => InCode(text, i, l)
    case Line => if Is(text, i + 1, '\n') then l.(mode := Code) else l
    case BlockOpening => l.(mode := Block)
    case Block => if ClosesComment(text, i) then l.(mode := BlockClosing) else l
    case BlockClosing => l.(mode := Code)
    case Quoted(q) =>
      if c == q || c == '\n' then l.(mode := Code)
      else if c == '\\' then l.(mode := QuotedEscape(q))
      else l
    case QuotedEscape(q) => l.(mode := Quoted(q))
    case Template =>
      if c == '`' then l.(mode := Code)
      else if c == '\\' then l.(mode := TemplateEscape)
      else if c == '$' && Is(text, i + 1, '{') then Lex(Code, 0, l.outer + [l.depth])
      else l
    case TemplateEscape => l.(mode := Template)
  }

  /** The state before character `k` when the state before `i` is `l`. */
  function At(text: string, i: nat, k: nat, l: Lex): Lex
    requires i <= k <= |text|
    decreases k
  {
    if i == k then l else Advance(text, k - 1, At(text, i, k - 1, l))
  }

  lemma {:induction false} AtConcat(text: string, i: nat, j: nat, k: nat, l: Lex)
    requires i <= j <= k <= |text|
    ensures At(text, i, k, l) == At(text, j, k, At(text, i, j, l))
    decreases k
  {
    hide Advance;
    if j < k { AtConcat(text, i, j, k - 1, l); }
  }

  // ------------------------------------------------------- inside a token

  /** Inside a comment, a string or a template that code of `base` began. */
  predicate Inside(s: Lex, base: Lex) {
    base.outer <= s.outer && (s.outer != base.outer || !s.mode.Code?)
  }

  /** Every state strictly between `i` and `m` is inside. */
  ghost predicate AllInside(text: string, i: nat, m: nat, l: Lex, base: Lex)
    requires m <= |text|
  {
    forall k :: i < k < m ==> Inside(At(text, i, k, l), base)
  }

  function Clip(text: string, e: nat): nat {
    if e < |text| then e else |text|
  }

  /** The scanner jumps from `i` to `e`, and so does the automaton: it spends
      everything between inside the token and is back in `base` at `e`. */
  ghost predicate Jumps(text: string, i: nat, e: nat, l: Lex, base: Lex) {
    && i <= e
    && AllInside(text, i, Clip(text, e), l, base)
    && (e < |text| ==> At(text, i, e, l) == base)
  }

  lemma JumpFromInside(text: string, i: nat, e: nat, l: Lex, base: Lex)
    requires i < |text| && i + 1 <= e && Jumps(text, i + 1, e, Advance(text, i, l), base)
    requires i + 1 < Clip(text, e) ==> Inside(Advance(text, i, l), base)
    ensures Jumps(text, i, e, l, base)
  {
    var l1 := Advance(text, i, l);
    assert At(text, i, i + 1, l) == l1 by { assert At(text, i, i, l) == l; }
    hide Advance;
    forall k | i < k < Clip(text, e) ensures Inside(At(text, i, k, l), base) {
      AtConcat(text, i, i + 1, k, l);
      if k == i + 1 {
      } else {
        assert Inside(At(text, i + 1, k, l1), base);
      }
    }
    if e < |text| { AtConcat(text, i, i + 1, e, l); }
  }

  lemma {:induction false} LineJumps(text: string, i: nat, base: Lex)
    requires i < |text| && text[i] != '\n' && base.mode.Code?
    ensures Jumps(text, i, LineEnd(text, i), base.(mode := Line), base)
    decreases |text| - i
  {
    var l := base.(mode := Line);
    if i + 1 == |text| || text[i + 1] == '\n' {
      assert LineEnd(text, i) == LineEnd(text, i + 1) == i + 1;
      assert Jumps(text, i + 1, i + 1, Advance(text, i, l), base);
    } else {
      LineJumps(text, i + 1, base);
    }
    JumpFromInside(text, i, LineEnd(text, i), l, base);
  }

  lemma {:induction false} CommentJumps(text: string, i: nat, base: Lex)
    requires i <= |text| && base.mode.Code?
    ensures Jumps(text, i, CommentEnd(text, i), base.(mode := Block), base)
    decreases |text| - i
  {
    var l := base.(mode := Block);
    if i < |text| {
      if ClosesComment(text, i) {
        assert Jumps(text, i + 2, i + 2, base, base);
        JumpFromInside(text, i + 1, i + 2, base.(mode := BlockClosing), base);
        JumpFromInside(text, i, i + 2, l, base);
      } else {
        CommentJumps(text, i + 1, base);
        JumpFromInside(text, i, CommentEnd(text, i), l, base);
      }
    }
  }

  lemma {:induction false} StringJumps(text: string, i: nat, q: char, base: Lex)
    requires base.mode.Code? && i <= |text|
    ensures Jumps(text, i, StringEnd(text, i, q) + 1, base.(mode := Quoted(q)), base)
    decreases |text| - i
  {
    var l := base.(mode := Quoted(q));
    if i == |text| {
    } else if text[i] == q || text[i] == '\n' {
      assert Jumps(text, i + 1, i + 1, base, base);
      JumpFromInside(text, i, i + 1, l, base);
    } else if text[i] == '\\' {
      if i + 1 < |text| {
        StringJumps(text, i + 2, q, base);
        JumpFromInside(text, i + 1, StringEnd(text, i, q) + 1, base.(mode := QuotedEscape(q)), base);
      }
      JumpFromInside(text, i, StringEnd(text, i, q) + 1, l, base);
    } else {
      StringJumps(text, i + 1, q, base);
      JumpFromInside(text, i, StringEnd(text, i, q) + 1, l, base);
    }
  }

  // ------------------------------------------------------------- composition

  /** A stretch spent inside, followed by a jump. */
  lemma JumpAfter(text: string, i: nat, m: nat, e: nat, l: Lex, base: Lex)
    requires i <= m <= |text| && m <= e
    requires forall k :: i < k <= m ==> Inside(At(text, i, k, l), base)
    requires Jumps(text, m, e, At(text, i, m, l), base)
    ensures Jumps(text, i, e, l, base)
  {
    hide Advance;
    forall k | i < k < Clip(text, e) ensures Inside(At(text, i, k, l), base) {
      if k > m {
        AtConcat(text, i, m, k, l);
        assert Inside(At(text, m, k, At(text, i, m, l)), base);
      }
    }
    if e < |text| { AtConcat(text, i, m, e, l); }
  }

  /** The bracket that closes a scan: depth one, in the scan's own code. */
  predicate Closing(text: string, k: nat, s: Lex, outer: seq<nat>)
    requires k < |text|
  {
    s == Lex(Code, 1, outer) && IsCloser(text[k])
  }

  function EndOf(text: string, j: int): nat {
    if 0 <= j <= |text| then j else |text|
  }

  /** The automaton, started at `i`, never leaves the scan's code below `outer`
      up to `j` (or the end, for -1), and `j` is the first closing bracket. */
  ghost predicate FindsFirst(text: string, i: nat, j: int, l: Lex, outer: seq<nat>)
    requires i <= |text|
  {
    var m := EndOf(text, j);
    && i <= m
    && (forall k :: i <= k <= m && k < |text| ==> outer <= At(text, i, k, l).outer)
    && (forall k :: i <= k < m ==> !Closing(text, k, At(text, i, k, l), outer))
    && (j >= 0 ==> m < |text| && Closing(text, m, At(text, i, m, l), outer))
  }

  lemma FindsAfter(text: string, i: nat, m: nat, j: int, l: Lex, outer: seq<nat>)
    requires i <= m <= |text|
    requires forall k :: i <= k < m ==> outer <= At(text, i, k, l).outer && !Closing(text, k, At(text, i, k, l), outer)
    requires FindsFirst(text, m, j, At(text, i, m, l), outer)
    ensures FindsFirst(text, i, j, l, outer)
  {
    hide Advance;
    var end := EndOf(text, j);
    forall k | m <= k <= end ensures At(text, i, k, l) == At(text, m, k, At(text, i, m, l)) {
      AtConcat(text, i, m, k, l);
    }
    forall k | i <= k <= end && k < |text| ensures outer <= At(text, i, k, l).outer {
      if k >= m { assert outer <= At(text, m, k, At(text, i, m, l)).outer; }
    }
    forall k | i <= k < end ensures !Closing(text, k, At(text, i, k, l), outer) {
      if k >= m { assert !Closing(text, k, At(text, m, k, At(text, i, m, l)), outer); }
    }
  }

  // ---------------------------------------------------------- the agreement

  lemma {:induction false} TemplateJumps(text: string, i: nat, base: Lex)
    requires i <= |text| && base.mode.Code?
    ensures Jumps(text, i, TemplateEnd(text, i) + 1, base.(mode := Template), base)
    decreases |text| - i, 0
  {
    var l := base.(mode := Template);
    if i == |text| {
    } else if text[i] == '`' {
      assert Jumps(text, i + 1, i + 1, base, base);
      JumpFromInside(text, i, i + 1, l, base);
    } else if text[i] == '\\' {
      if i + 1 < |text| {
        TemplateJumps(text, i + 2, base);
        JumpFromInside(text, i + 1, TemplateEnd(text, i) + 1, base.(mode := TemplateEscape), base);
      }
      JumpFromInside(text, i, TemplateEnd(text, i) + 1, l, base);
    } else if text[i] == '$' && Is(text, i + 1, '{') {
      HoleJumps(text, i, base);
    } else {
      TemplateJumps(text, i + 1, base);
      JumpFromInside(text, i, TemplateEnd(text, i) + 1, l, base);
    }
  }

  lemma OpenerScan(text: string, i: nat)
    requires i < |text| && IsOpener(text[i])
    ensures CloseOf(text, i) == CloseFrom(text, i + 1, 1) && SkipToken(text, i) == -1
  {
  }

  lemma EnteringAHole(text: string, i: nat, base: Lex)
    requires i + 1 < |text| && text[i] == '$' && text[i + 1] == '{'
    ensures var l := base.(mode := Template);
            At(text, i, i + 1, l) == Lex(Code, 0, base.outer + [base.depth]) &&
            At(text, i, i + 2, l) == Lex(Code, 1, base.outer + [base.depth])
  {
  }

  /** From a `${` to the bracket that closes it, nothing is back in `base`. */
  lemma HoleStaysInside(text: string, i: nat, close: int, base: Lex, k: nat)
    requires i + 1 < |text| && text[i] == '$' && text[i + 1] == '{'
    requires FindsFirst(text, i + 2, close, Lex(Code, 1, base.outer + [base.depth]), base.outer + [base.depth])
    requires i < k <= EndOf(text, close) && k < |text|
    ensures Inside(At(text, i, k, base.(mode := Template)), base)
  {
    EnteringAHole(text, i, base);
    hide Advance, At;
    var l, outer := base.(mode := Template), base.outer + [base.depth];
    if k >= i + 2 {
      AtConcat(text, i, i + 2, k, l);
      assert outer <= At(text, i + 2, k, Lex(Code, 1, outer)).outer;
    }
  }

  lemma TemplateAfterHole(text: string, i: nat)
    requires i + 1 < |text| && text[i] == '$' && text[i + 1] == '{'
    ensures TemplateEnd(text, i) ==
            if CloseOf(text, i + 1) < 0 then |text| else TemplateEnd(text, CloseOf(text, i + 1) + 1)
  {
  }

  /** A `${...}` is skipped as a whole, however deeply it nests. */
  lemma {:induction false} HoleJumps(text: string, i: nat, base: Lex)
    requires i + 1 < |text| && text[i] == '$' && text[i + 1] == '{' && base.mode.Code?
    ensures Jumps(text, i, TemplateEnd(text, i) + 1, base.(mode := Template), base)
    decreases |text| - i - 1, 4
  {
    hide Advance, At, TemplateEnd, CloseOf, CloseFrom;
    var l := base.(mode := Template);
    var outer := base.outer + [base.depth];
    var close := CloseOf(text, i + 1);
    OpenerScan(text, i + 1);
    CloseAgrees(text, i + 2, 1, outer);
    TemplateAfterHole(text, i);
    var m := EndOf(text, close);
    forall k | i < k <= m && k < |text| ensures Inside(At(text, i, k, l), base) {
      HoleStaysInside(text, i, close, base, k);
    }
    if close >= 0 {
      EnteringAHole(text, i, base);
      AtConcat(text, i, i + 2, m, l);
      LeavingAHole(text, m, base);
      TemplateJumps(text, m + 1, base);
      JumpFromInside(text, m, TemplateEnd(text, i) + 1, Lex(Code, 1, outer), base);
      JumpAfter(text, i, m, TemplateEnd(text, i) + 1, l, base);
    }
  }

  lemma LeavingAHole(text: string, m: nat, base: Lex)
    requires m < |text| && IsCloser(text[m])
    ensures Advance(text, m, Lex(Code, 1, base.outer + [base.depth])) == base.(mode := Template)
  {
  }

  /** `skipToken` jumps exactly over what the automaton spends inside a token. */
  lemma {:induction false} TokenJumps(text: string, i: nat, base: Lex)
    requires i < |text| && base.mode.Code? && SkipToken(text, i) >= 0
    ensures Jumps(text, i, SkipToken(text, i), base, base)
    decreases |text| - i, 1
  {
    var e := SkipToken(text, i);
    if text[i] == '/' && Is(text, i + 1, '/') {
      LineJumps(text, i + 1, base);
    } else if text[i] == '/' {
      CommentJumps(text, i + 2, base);
      JumpFromInside(text, i + 1, e, base.(mode := BlockOpening), base);
    } else if text[i] == '`' {
      TemplateJumps(text, i + 1, base);
    } else {
      StringJumps(text, i + 1, text[i], base);
    }
    JumpFromInside(text, i, e, base, base);
  }

  /** Outside tokens the scan and the automaton move one character at a time. */
  lemma PlainCode(text: string, i: nat, l: Lex)
    requires i < |text| && l.mode.Code? && SkipToken(text, i) == -1
    ensures Advance(text, i, l)
            == if IsOpener(text[i]) then l.(depth := l.depth + 1)
               else if IsCloser(text[i]) && l.depth == 1 && l.outer != [] then
                 Lex(Template, l.outer[|l.outer| - 1], l.outer[..|l.outer| - 1])
               else if IsCloser(text[i]) && l.depth > 0 then l.(depth := l.depth - 1)
               else l
  {
  }

  lemma {:induction false} CloseAgrees(text: string, i: nat, depth: nat, outer: seq<nat>)
    requires i <= |text| && depth >= 1
    ensures FindsFirst(text, i, CloseFrom(text, i, depth), Lex(Code, depth, outer), outer)
    decreases |text| - i, 2
  {
    var l := Lex(Code, depth, outer);
    var j := CloseFrom(text, i, depth);
    if i < |text| {
      var e := SkipToken(text, i);
      if e >= 0 {
        TokenJumps(text, i, l);
        assert !IsCloser(text[i]);
        var m := Clip(text, e);
        hide Advance, SkipToken;
        forall k | i <= k < m
          ensures outer <= At(text, i, k, l).outer && !Closing(text, k, At(text, i, k, l), outer)
        {
          if k > i { assert Inside(At(text, i, k, l), l); }
        }
        if e < |text| {
          CloseAgrees(text, e, depth, outer);
          FindsAfter(text, i, e, j, l, outer);
        }
      } else if IsCloser(text[i]) && depth == 1 {
      } else {
        PlainCode(text, i, l);
        var d := if IsOpener(text[i]) then depth + 1 else if IsCloser(text[i]) then depth - 1 else depth;
        assert At(text, i, i + 1, l) == Lex(Code, d, outer) by { assert At(text, i, i, l) == l; }
        hide Advance, SkipToken;
        CloseAgrees(text, i + 1, d, outer);
        FindsAfter(text, i, i + 1, j, l, outer);
      }
    }
  }

  // ------------------------------------------------- what the scanner finds

  const TOP := Lex(Code, 0, [])

  /** The bracket depth of the text itself, whatever template is open in it. */
  function BaseDepth(s: Lex): nat {
    if s.outer == [] then s.depth else s.outer[0]
  }

  lemma {:induction false} DepthStaysPositive(text: string, i: nat, k: nat, j: int)
    requires i <= k <= EndOf(text, j) && i <= |text|
    requires FindsFirst(text, i, j, Lex(Code, 1, []), [])
    ensures BaseDepth(At(text, i, k, Lex(Code, 1, []))) >= 1
    decreases k
  {
    var l := Lex(Code, 1, []);
    if i < k {
      DepthStaysPositive(text, i, k - 1, j);
      assert !Closing(text, k - 1, At(text, i, k - 1, l), []);
      OneStepStaysPositive(text, k - 1, At(text, i, k - 1, l));
    }
  }

  lemma OneStepStaysPositive(text: string, k: nat, s: Lex)
    requires k < |text| && BaseDepth(s) >= 1 && !Closing(text, k, s, [])
    ensures BaseDepth(Advance(text, k, s)) >= 1
  {
  }

  /** `closeOf` finds the least index after which the bracket depth outside
      strings, comments and templates is back to zero, or none. */
  lemma CloseOfIsExact(text: string, open: nat)
    requires open < |text| && IsOpener(text[open])
    ensures
      var e := CloseOf(text, open);
      if e < 0 then forall k :: open < k <= |text| ==> BaseDepth(At(text, open, k, TOP)) >= 1
      else && open < e && IsCloser(text[e]) && At(text, open, e + 1, TOP) == TOP
           && forall k :: open < k <= e ==> BaseDepth(At(text, open, k, TOP)) >= 1
  {
    hide Advance, CloseFrom, CloseOf, SkipToken;
    var e := CloseOf(text, open);
    var l := Lex(Code, 1, []);
    OpenerScan(text, open);
    CloseAgrees(text, open + 1, 1, []);
    PlainCode(text, open, TOP);
    assert At(text, open, open + 1, TOP) == l by { assert At(text, open, open, TOP) == TOP; }
    forall k | open < k <= EndOf(text, e) ensures BaseDepth(At(text, open, k, TOP)) >= 1 {
      AtConcat(text, open, open + 1, k, TOP);
      DepthStaysPositive(text, open + 1, k, e);
    }
    if e >= 0 {
      AtConcat(text, open, open + 1, e, TOP);
      ClosingReturnsToTop(text, e, l);
      assert At(text, open, e + 1, TOP) == Advance(text, e, At(text, open, e, TOP));
    }
  }

  lemma ClosingReturnsToTop(text: string, e: nat, l: Lex)
    requires e < |text| && Closing(text, e, l, [])
    ensures Advance(text, e, l) == TOP
  {
  }

  /** The state before `k` when reading from the start. */
  function Reading(text: string, k: nat): Lex
    requires k <= |text|
  {
    At(text, 0, k, TOP)
  }

  ghost predicate Increasing(cuts: seq<nat>) {
    forall i, j :: 0 <= i < j < |cuts| ==> cuts[i] < cuts[j]
  }

  /** A cut lies at depth zero, right after a `;`, a newline or a bracket. */
  ghost predicate IsCut(text: string, c: nat) {
    && 0 < c <= |text| && Reading(text, c) == TOP
    && (text[c - 1] == ';' || text[c - 1] == '\n' || IsCloser(text[c - 1]))
  }

  predicate EndsStatement(text: string, k: nat)
    requires k < |text|
  {
    Reading(text, k) == TOP && (text[k] == ';' || text[k] == '\n')
  }

  /** An ASCII letter, digit, `_` or `$`, by its code. */
  predicate NameCode(c: int) {
    0x30 <= c <= 0x39 || 0x41 <= c <= 0x5A || 0x61 <= c <= 0x7A || c == 0x5F || c == 0x24
  }

  /** The word `return`, at `k` and not part of a longer name. */
  predicate ReturnWord(text: string, k: nat) {
    && k + 6 <= |text| && text[k..k + 6] == "return"
    && (k > 0 ==> !NameCode(text[k - 1] as int)) && (k + 6 < |text| ==> !NameCode(text[k + 6] as int))
  }

  lemma ReturnIsAWord(text: string, k: nat)
    ensures ReturnsAt(text, k) <==> ReturnWord(text, k)
  {
  }

  /** What makes `boundaries` give up: an unclosed bracket, or `return`, in the
      outermost code. */
  predicate Hopeless(text: string, k: nat)
    requires k < |text|
  {
    Reading(text, k) == TOP
    && if IsOpener(text[k]) then CloseOf(text, k) < 0
       else text[k] != ';' && text[k] != '\n' && SkipToken(text, k) < 0 && ReturnWord(text, k)
  }

  ghost predicate CutsAreExact(text: string, i: nat, found: Option<seq<nat>>) {
    match found
    case None => exists k :: i <= k < |text| && Hopeless(text, k)
    case Some(cuts) =>
      && Increasing(cuts)
      && (forall x :: 0 <= x < |cuts| ==> i < cuts[x] && IsCut(text, cuts[x]))
      && (forall k :: i <= k < |text| && EndsStatement(text, k) ==> k + 1 in cuts)
      && (forall k :: i <= k < |text| ==> !Hopeless(text, k))
  }

  /** Nothing strictly between two places of the outermost code is outermost. */
  ghost predicate SkipsTo(text: string, i: nat, m: nat)
    requires m <= |text|
  {
    forall k :: i < k < m ==> Reading(text, k) != TOP
  }

  /** From `i` the scanner moves to `m`, recording a cut there or not. */
  lemma CutsAfter(text: string, i: nat, m: nat, first: seq<nat>, found: Option<seq<nat>>)
    requires i < m <= |text| && SkipsTo(text, i, m) && CutsAreExact(text, m, found)
    requires first == [] || (first == [m] && IsCut(text, m))
    requires !Hopeless(text, i) && (EndsStatement(text, i) ==> m == i + 1 && first == [m])
    ensures CutsAreExact(text, i, Prepend(first, found))
  {
  }

  /** A token, or a bracketed part, holds no place of the outermost code. */
  lemma TokenSkips(text: string, i: nat)
    requires i < |text| && Reading(text, i) == TOP && SkipToken(text, i) >= 0
    ensures
      var m := Clip(text, SkipToken(text, i));
      i < m && SkipsTo(text, i, m) && (m < |text| ==> Reading(text, m) == TOP)
  {
    TokenJumps(text, i, TOP);
    hide Advance, SkipToken;
    var m := Clip(text, SkipToken(text, i));
    forall k | i < k < m ensures Reading(text, k) != TOP {
      AtConcat(text, 0, i, k, TOP);
      assert Inside(At(text, i, k, TOP), TOP);
    }
    if m < |text| { AtConcat(text, 0, i, m, TOP); }
  }

  lemma BracketSkips(text: string, i: nat)
    requires i < |text| && Reading(text, i) == TOP && IsOpener(text[i]) && CloseOf(text, i) >= 0
    ensures
      var m := CloseOf(text, i) + 1;
      i < m && SkipsTo(text, i, m) && Reading(text, m) == TOP && IsCut(text, m)
  {
    CloseOfIsExact(text, i);
    hide Advance, CloseOf;
    var m := CloseOf(text, i) + 1;
    forall k | i < k < m ensures Reading(text, k) != TOP {
      AtConcat(text, 0, i, k, TOP);
      assert BaseDepth(At(text, i, k, TOP)) >= 1;
    }
    AtConcat(text, 0, i, m, TOP);
  }

  lemma PlainStep(text: string, i: nat)
    requires i < |text| && Reading(text, i) == TOP && SkipToken(text, i) < 0 && !IsOpener(text[i])
    ensures Reading(text, i + 1) == TOP
  {
  }

  lemma TokensEndNothing(text: string, i: nat)
    requires i < |text| && SkipToken(text, i) >= 0
    ensures !IsOpener(text[i]) && text[i] != ';' && text[i] != '\n'
  {
  }

  lemma {:induction false} CutsFromAreExact(text: string, i: nat)
    requires i <= |text| && (i < |text| ==> Reading(text, i) == TOP)
    ensures CutsAreExact(text, i, CutsFrom(text, i))
    decreases |text| - i
  {
    hide Advance, At, SkipToken, CloseOf, ReturnsAt, ReturnWord, IsCut;
    if i < |text| {
      ReturnIsAWord(text, i);
      var e := SkipToken(text, i);
      if e >= 0 {
        TokensEndNothing(text, i);
        TokenSkips(text, i);
        var m := Clip(text, e);
        CutsFromAreExact(text, m);
        CutsAfter(text, i, m, [], CutsFrom(text, m));
        NothingPrepended(CutsFrom(text, m));
        PastTheEnd(text, e);
      } else if IsOpener(text[i]) {
        var close := CloseOf(text, i);
        if close >= 0 {
          BracketSkips(text, i);
          CutsFromAreExact(text, close + 1);
          CutsAfter(text, i, close + 1, if text[i] == '{' then [close + 1] else [], CutsFrom(text, close + 1));
        } else {
          assert Hopeless(text, i);
        }
      } else {
        PlainStep(text, i);
        var ends := text[i] == ';' || text[i] == '\n';
        if ends || !ReturnsAt(text, i) {
          CutsFromAreExact(text, i + 1);
          if ends { CutAfterEnd(text, i); }
          CutsAfter(text, i, i + 1, if ends then [i + 1] else [], CutsFrom(text, i + 1));
          NothingPrepended(CutsFrom(text, i + 1));
        } else {
          assert Hopeless(text, i);
        }
      }
    }
  }

  lemma NothingPrepended(found: Option<seq<nat>>)
    ensures Prepend([], found) == found
  {
    if found.Some? { assert [] + found.value == found.value; }
  }

  lemma PastTheEnd(text: string, e: int)
    requires e >= 0
    ensures CutsFrom(text, e) == CutsFrom(text, Clip(text, e))
  {
  }

  lemma CutAfterEnd(text: string, i: nat)
    requires i < |text| && Reading(text, i + 1) == TOP && (text[i] == ';' || text[i] == '\n')
    ensures IsCut(text, i + 1)
  {
  }

  /** `boundaries` cuts at the start and at places of depth zero only, strictly
      increasing and missing no statement end; it gives up exactly when the
      outermost code has an unclosed bracket or a `return`. */
  lemma BoundariesAreExact(text: string)
    ensures match Boundaries(text)
            case None => exists k :: 0 <= k < |text| && Hopeless(text, k)
            case Some(cuts) =>
              && cuts != [] && cuts[0] == 0 && Increasing(cuts)
              && (forall x :: 0 < x < |cuts| ==> IsCut(text, cuts[x]))
              && (forall k :: 0 <= k < |text| && EndsStatement(text, k) ==> k + 1 in cuts)
              && (forall k :: 0 <= k < |text| ==> !Hopeless(text, k))
  {
    CutsFromAreExact(text, 0);
    hide Hopeless, EndsStatement, IsCut, CutsFrom;
  }
}
