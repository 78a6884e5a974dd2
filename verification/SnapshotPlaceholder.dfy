/**
 What a reader finds in a placeholder line: which subtree it names, and how many
 tokens that holds. The line is read from its end, so the label in it, which is
 page text, cannot mislead.
 */
module SnapshotPlaceholder {
  import opened Wrappers
  import opened SnapshotTree
  import opened SnapshotBudget
  import opened Collapse

  predicate IsDigit(c: char) {
    '0' <= c <= '9'
  }

  /** The number that decimal digits stand for. */
  function Number(s: string): nat
    requires forall c :: c in s ==> IsDigit(c)
  {
    if s == "" then 0
    else
      var last := s[|s| - 1];
      assert last in s && IsDigit(last);
      10 * Number(s[..|s| - 1]) + (last as nat - '0' as nat)
  }

  /** The digits a text ends with. */
  function LastDigits(s: string): (d: string)
    ensures |d| <= |s| && s[|s| - |d|..] == d
    ensures forall c :: c in d ==> IsDigit(c)
  {
    if s == "" || !IsDigit(s[|s| - 1]) then "" else LastDigits(s[..|s| - 1]) + [s[|s| - 1]]
  }

  /** A number, and the text before it. */
  datatype Found = Found(number: nat, before: string)

  /** The number that stands right before `end` at the end of the text. */
  function NumberBefore(s: string, end: string): Option<Found> {
    if |s| < |end| || s[|s| - |end|..] != end then None
    else
      var front := s[..|s| - |end|];
      var d := LastDigits(front);
      if d == "" then None else Some(Found(Number(d), front[..|front| - |d|]))
  }

  datatype Reading = Reading(tokens: nat, index: nat)

  /** `… (7 tokens, see subtrees[2])` is read as 7 tokens and subtree 2. */
  function ReadPlaceholder(line: string): Option<Reading> {
    match NumberBefore(line, "])")
    case None => None
    case Some(index) =>
      match NumberBefore(index.before, " tokens, see subtrees[")
      case None => None
      case Some(tokens) => Some(Reading(tokens.number, index.number))
  }

  lemma {:induction false} NumberOfDigits(n: nat)
    ensures forall c :: c in Digits(n) ==> IsDigit(c)
    ensures Digits(n) != "" && Number(Digits(n)) == n
  {
    if n >= 10 {
      NumberOfDigits(n / 10);
      var d := Digits(n);
      assert d[..|d| - 1] == Digits(n / 10);
    }
  }

  lemma {:induction false} LastDigitsOf(front: string, d: string)
    requires front == "" || !IsDigit(front[|front| - 1])
    requires forall c :: c in d ==> IsDigit(c)
    ensures LastDigits(front + d) == d
  {
    if d == "" {
      assert front + d == front;
    } else {
      var n := |d| - 1;
      assert (front + d)[..|front + d| - 1] == front + d[..n];
      LastDigitsOf(front, d[..n]);
    }
  }

  lemma NumberIsFound(front: string, n: nat, end: string)
    requires front != "" && !IsDigit(front[|front| - 1])
    ensures NumberBefore(front + Digits(n) + end, end) == Some(Found(n, front))
  {
    var s := front + Digits(n) + end;
    NumberOfDigits(n);
    LastDigitsOf(front, Digits(n));
    hide Digits, LastDigits, Number;
    assert s[..|s| - |end|] == front + Digits(n) && s[|s| - |end|..] == end;
    assert (front + Digits(n))[..|front|] == front;
  }

  /** The least number of tokens, at 3.5 characters each, that holds the text. */
  predicate Holds(tokens: nat, text: string) {
    7 * tokens >= 2 * |text| && (tokens == 0 || 7 * (tokens - 1) < 2 * |text|)
  }

  lemma EstimateHolds(text: string)
    ensures Holds(EstimateTokens(text), text)
  {
  }

  /** The line says whose subtree it is, how large, and where to find it. */
  ghost predicate Names(line: string, s: Subtree, k: nat) {
    exists depth: nat, tokens: nat ::
      && Indent(depth) + "- [subtree: " + s.name + "] (" <= line
      && ReadPlaceholder(line) == Some(Reading(tokens, k)) && Holds(tokens, s.content)
  }

  lemma PlaceholderNames(s: Subtree, k: nat, depth: nat)
    ensures Names(PlaceholderLine(s, k, depth), s, k)
    ensures ReadPlaceholder(PlaceholderLine(s, k, depth)) == Some(Reading(EstimateTokens(s.content), k))
  {
    var head := Indent(depth) + "- [subtree: " + s.name + "] (";
    var tokens := EstimateTokens(s.content);
    LineParts(s, k, depth);
    EstimateHolds(s.content);
    hide Digits, EstimateTokens, Indent, PlaceholderLine, Holds, ReadPlaceholder;
    LineIsRead(head, tokens, k);
  }

  lemma LineParts(s: Subtree, k: nat, depth: nat)
    ensures PlaceholderLine(s, k, depth)
         == Indent(depth) + "- [subtree: " + s.name + "] ("
            + Digits(EstimateTokens(s.content)) + " tokens, see subtrees[" + Digits(k) + "])"
  {
    hide Digits, EstimateTokens, Indent;
    var a, b, c, d := Indent(depth) + "- [subtree: " + s.name, Digits(EstimateTokens(s.content)), Digits(k), "])";
    assert a + "] (" + b + " tokens, see subtrees[" + c + d == a + "] (" + b + (" tokens, see subtrees[" + c + d);
  }

  lemma LineIsRead(head: string, tokens: nat, k: nat)
    requires head != "" && head[|head| - 1] == '('
    ensures var line := head + Digits(tokens) + " tokens, see subtrees[" + Digits(k) + "])";
            head <= line && ReadPlaceholder(line) == Some(Reading(tokens, k))
  {
    var mid := head + Digits(tokens) + " tokens, see subtrees[";
    var line := mid + Digits(k) + "])";
    hide Digits, NumberBefore;
    assert head <= line by { assert line[..|head|] == head; }
    NumberIsFound(mid, k, "])");
    NumberIsFound(head, tokens, " tokens, see subtrees[");
  }
}
