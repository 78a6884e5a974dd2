/**
 The scanner of the completion-value rewriter: `skipToken`, `closeOf` and
 `boundaries`, on character sequences.

 Reading past the end of the text gives no character, as in the source.
 Regular expression literals are not recognised, as in the source.
 */
module EvalScanner {
  import opened Wrappers

  predicate Is(text: string, i: nat, c: char) {
    i < |text| && text[i] == c
  }

  predicate IsOpener(c: char) {
    c == '(' || c == '[' || c == '{'
  }

  predicate IsCloser(c: char) {
    c == ')' || c == ']' || c == '}'
  }

  // ---------------------------------------------------------- what they compute

  /** `text.indexOf('\n', i)`, or the end of the text. */
  function LineEnd(text: string, i: nat): (e: nat)
    requires i <= |text|
    ensures i <= e <= |text|
    ensures forall k :: i <= k < e ==> text[k] != '\n'
    ensures e < |text| ==> text[e] == '\n'
    decreases |text| - i
  {
    if i == |text| || text[i] == '\n' then i else LineEnd(text, i + 1)
  }

  predicate ClosesComment(text: string, i: nat) {
    Is(text, i, '*') && Is(text, i + 1, '/')
  }

  /** Just past the next end of a block comment from `i` on, or the end of the text. */
  function CommentEnd(text: string, i: nat): (e: nat)
    requires i <= |text|
    ensures i <= e <= |text|
    decreases |text| - i
  {
    if i == |text| then |text|
    else if ClosesComment(text, i) then i + 2
    else CommentEnd(text, i + 1)
  }

  /** Where a string's characters end: a quote, a newline, or past the text. */
  function StringEnd(text: string, i: nat, quote: char): (e: nat)
    ensures i <= e
    decreases if i < |text| then |text| - i else 0
  {
    if i < |text| && text[i] != quote && text[i] != '\n'
    then StringEnd(text, i + (if text[i] == '\\' then 2 else 1), quote)
    else i
  }

  /** Where a template's characters end; each `${` is skipped by `CloseOf`. */
  function TemplateEnd(text: string, i: nat): (e: nat)
    ensures i <= e
    decreases if i < |text| then |text| - i else 0, 0
  {
    if i >= |text| || text[i] == '`' then i
    else if text[i] == '\\' then TemplateEnd(text, i + 2)
    else if text[i] == '$' && Is(text, i + 1, '{') then
      var close := CloseOf(text, i + 1);
      TemplateEnd(text, if close < 0 then |text| else close + 1)
    else TemplateEnd(text, i + 1)
  }

  /** Just past the comment, string or template that starts at `i`, or -1. */
  function SkipToken(text: string, i: nat): (e: int)
    ensures e == -1 || i < e
    decreases if i < |text| then |text| - i else 0, 1
  {
    if Is(text, i, '/') && Is(text, i + 1, '/') then LineEnd(text, i)
    else if Is(text, i, '/') && Is(text, i + 1, '*') then CommentEnd(text, i + 2)
    else if Is(text, i, '"') || Is(text, i, '\'') then StringEnd(text, i + 1, text[i]) + 1
    else if Is(text, i, '`') then TemplateEnd(text, i + 1) + 1
    else -1
  }

  /** The scan of `closeOf` from `i` on, `depth` brackets deep. */
  function CloseFrom(text: string, i: nat, depth: nat): (e: int)
    ensures e == -1 || i <= e < |text|
    decreases if i < |text| then |text| - i else 0, 2
  {
    if i >= |text| then -1
    else
      var skipped := SkipToken(text, i);
      if skipped >= 0 then CloseFrom(text, skipped, depth)
      else if IsOpener(text[i]) then CloseFrom(text, i + 1, depth + 1)
      else if IsCloser(text[i]) && depth == 1 then i
      else if IsCloser(text[i]) && depth > 1 then CloseFrom(text, i + 1, depth - 1)
      else CloseFrom(text, i + 1, depth)
  }

  /** The index of the bracket that closes the one at `open`, or -1. */
  function CloseOf(text: string, open: nat): (e: int)
    ensures e == -1 || open <= e < |text|
    decreases if open < |text| then |text| - open else 0, 3
  {
    CloseFrom(text, open, 0)
  }

  // --------------------------------------------------------------- the loops

  method ScanLine(text: string, i: nat) returns (e: nat)
    requires i <= |text|
    ensures e == LineEnd(text, i)
  {
    e := i;
    while e < |text| && text[e] != '\n'
      invariant i <= e <= |text| && LineEnd(text, i) == LineEnd(text, e)
    {
      e := e + 1;
    }
  }

  method ScanComment(text: string, i: nat) returns (e: nat)
    requires i <= |text|
    ensures e == CommentEnd(text, i)
  {
    e := i;
    while e < |text|
      invariant i <= e <= |text| && CommentEnd(text, i) == CommentEnd(text, e)
    {
      if ClosesComment(text, e) {
        return e + 2;
      }
      e := e + 1;
    }
  }

  /** `skipToken` as the source runs it. */
  method ScanToken(text: string, start: nat) returns (e: int)
    ensures e == SkipToken(text, start)
    decreases if start < |text| then |text| - start else 0, 1
  {
    var i := start;
    if i >= |text| {
      return -1;
    }
    var c := text[i];
    if c == '/' && Is(text, i + 1, '/') {
      e := ScanLine(text, i);
      return;
    }
    if c == '/' && Is(text, i + 1, '*') {
      e := ScanComment(text, i + 2);
      return;
    }
    if c == '"' || c == '\'' {
      i := i + 1;
      while i < |text| && text[i] != c && text[i] != '\n'
        invariant start < i && StringEnd(text, start + 1, c) == StringEnd(text, i, c)
        decreases |text| - i
      {
        i := i + (if text[i] == '\\' then 2 else 1);
      }
      return i + 1;
    }
    if c == '`' {
      i := i + 1;
      while i < |text| && text[i] != '`'
        invariant start < i && TemplateEnd(text, start + 1) == TemplateEnd(text, i)
        decreases |text| - i
      {
        if text[i] == '\\' {
          i := i + 2;
        } else if text[i] == '$' && Is(text, i + 1, '{') {
          var close := ScanClose(text, i + 1);
          i := if close < 0 then |text| else close + 1;
        } else {
          i := i + 1;
        }
      }
      return i + 1;
    }
    return -1;
  }

  /** `closeOf` as the source runs it; every caller stands on an opener. */
  method ScanClose(text: string, open: nat) returns (e: int)
    requires open < |text| && IsOpener(text[open])
    ensures e == CloseOf(text, open)
    decreases |text| - open, 3
  {
    var depth: nat := 0;
    var i := open;
    while i < |text|
      invariant open <= i && CloseOf(text, open) == CloseFrom(text, i, depth)
      invariant i == open ==> depth == 0
      decreases |text| - i
    {
      var skipped := ScanToken(text, i);
      if skipped >= 0 {
        i := skipped;
        continue;
      }
      var c := text[i];
      if IsOpener(c) {
        depth := depth + 1;
      } else if IsCloser(c) && depth > 0 {
        depth := depth - 1;
        if depth == 0 {
          return i;
        }
      }
      i := i + 1;
    }
    return -1;
  }

  // ------------------------------------------------------------- boundaries

  predicate IsIdent(text: string, i: int) {
    0 <= i < |text|
    && ('A' <= text[i] <= 'Z' || 'a' <= text[i] <= 'z' || '0' <= text[i] <= '9' || text[i] == '_' || text[i] == '$')
  }

  predicate StartsWith(text: string, word: string, i: nat) {
    i + |word| <= |text| && text[i..i + |word|] == word
  }

  /** The word `return` on its own. */
  predicate ReturnsAt(text: string, i: nat) {
    !IsIdent(text, i - 1) && StartsWith(text, "return", i) && !IsIdent(text, i + 6)
  }

  /** The cuts that `boundaries` finds from `i` on. */
  function CutsFrom(text: string, i: nat): Option<seq<nat>>
    decreases if i < |text| then |text| - i else 0
  {
    if i >= |text| then Some([])
    else
      var skipped := SkipToken(text, i);
      if skipped >= 0 then CutsFrom(text, skipped)
      else if IsOpener(text[i]) then
        var e := CloseOf(text, i);
        if e < 0 then None
        else Prepend(if text[i] == '{' then [e + 1] else [], CutsFrom(text, e + 1))
      else if text[i] == ';' || text[i] == '\n' then Prepend([i + 1], CutsFrom(text, i + 1))
      else if ReturnsAt(text, i) then None
      else CutsFrom(text, i + 1)
  }

  function Prepend(cuts: seq<nat>, rest: Option<seq<nat>>): Option<seq<nat>> {
    match rest
    case None => None
    case Some(more) => Some(cuts + more)
  }

  function Boundaries(text: string): Option<seq<nat>> {
    Prepend([0], CutsFrom(text, 0))
  }

  /** `boundaries` as the source runs it. */
  method ScanBoundaries(text: string) returns (result: Option<seq<nat>>)
    ensures result == Boundaries(text)
  {
    hide SkipToken, CloseOf, ReturnsAt;
    var cuts: seq<nat> := [0];
    var i: nat := 0;
    while i < |text|
      invariant Boundaries(text) == Prepend(cuts, CutsFrom(text, i))
      decreases |text| - i
    {
      var skipped := ScanToken(text, i);
      if skipped >= 0 {
        i := skipped;
        continue;
      }
      var c := text[i];
      if IsOpener(c) {
        var e := ScanClose(text, i);
        if e < 0 {
          return None;
        }
        PrependTwice(cuts, [(e + 1) as nat], CutsFrom(text, e + 1));
        assert cuts + [] == cuts;
        PrependTwice(cuts, [], CutsFrom(text, e + 1));
        i := e + 1;
        if c == '{' {
          cuts := cuts + [i];
        }
        continue;
      }
      if c == ';' || c == '\n' {
        PrependTwice(cuts, [i + 1], CutsFrom(text, i + 1));
        cuts := cuts + [i + 1];
      } else if ReturnsAt(text, i) {
        return None;
      }
      i := i + 1;
    }
    assert cuts + [] == cuts;
    return Some(cuts);
  }

  lemma PrependTwice(a: seq<nat>, b: seq<nat>, rest: Option<seq<nat>>)
    ensures Prepend(a, Prepend(b, rest)) == Prepend(a + b, rest)
  {
    if rest.Some? {
      assert a + (b + rest.value) == a + b + rest.value;
    }
  }
}
