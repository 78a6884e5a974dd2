/**
 The text locator against plain descriptions of what it computes: normalised text
 as words, an element's text as its visible leaves, document order as the order of
 paths, and the result as the first of its kind.
 */
module TextReference {
  import opened Wrappers
  import opened WhiteSpace
  import opened TextLocator

  // ------------------------------------------------------------------- words

  /** A gap is `\s` or a zero-width space. */
  lemma GapCodes(c: char)
    ensures IsGap(c) <==> IsSpace(c) || c as int == 8203
  {
  }

  predicate StartsWord(s: string) {
    s != "" && !IsGap(s[0])
  }

  /** The longest stretches without a gap, in order. */
  function Words(s: string): seq<string> {
    if s == "" then []
    else
      var rest := Words(s[1..]);
      if IsGap(s[0]) then rest
      else if StartsWord(s[1..]) && rest != [] then [[s[0]] + rest[0]] + rest[1..]
      else [[s[0]]] + rest
  }

  function Spaced(words: seq<string>): string {
    if words == [] then ""
    else if |words| == 1 then words[0]
    else words[0] + " " + Spaced(words[1..])
  }

  /** Every word is one: not empty, and without a gap. */
  lemma {:induction false} WordsAreWords(s: string)
    ensures forall k :: 0 <= k < |Words(s)| ==> Words(s)[k] != "" && forall c :: c in Words(s)[k] ==> !IsGap(c)
    ensures StartsWord(s) ==> Words(s) != []
  {
    if s != "" {
      WordsAreWords(s[1..]);
      var rest := Words(s[1..]);
      hide IsGap;
    }
  }

  function Solids(s: string): string {
    if s == "" then "" else (if IsGap(s[0]) then "" else [s[0]]) + Solids(s[1..])
  }

  function Flat(words: seq<string>): string {
    if words == [] then "" else words[0] + Flat(words[1..])
  }

  /** The words hold all that is no gap, in order. */
  lemma {:induction false} WordsHoldAll(s: string)
    ensures Flat(Words(s)) == Solids(s)
  {
    if s != "" {
      WordsHoldAll(s[1..]);
      var rest := Words(s[1..]);
      hide IsGap;
      if StartsWord(s) && StartsWord(s[1..]) && rest != [] {
        assert [s[0]] + rest[0] + Flat(rest[1..]) == [s[0]] + (rest[0] + Flat(rest[1..]));
        assert Words(s)[1..] == rest[1..];
      }
    }
  }

  predicate EndsInGap(s: string) {
    s != "" && IsGap(s[|s| - 1])
  }

  function Tail(s: string): string {
    if EndsInGap(s) && Words(s) != [] then " " else ""
  }

  lemma SpacedLonger(c: char, words: seq<string>)
    requires words != []
    ensures Spaced([[c] + words[0]] + words[1..]) == [c] + Spaced(words)
  {
    var longer := [[c] + words[0]] + words[1..];
    if |words| > 1 {
      assert longer[1..] == words[1..];
      assert [c] + words[0] + " " + Spaced(words[1..]) == [c] + (words[0] + " " + Spaced(words[1..]));
    }
  }

  lemma SpacedMore(w: string, words: seq<string>)
    ensures Spaced([w] + words) == if words == [] then w else w + " " + Spaced(words)
  {
    assert ([w] + words)[1..] == words;
  }

  lemma TailOfRest(s: string)
    requires |s| > 1
    ensures EndsInGap(s) == EndsInGap(s[1..])
  {
  }

  lemma SqueezeFirst(s: string)
    ensures Squeeze(s, false) == (if s == "" || StartsWord(s) then "" else " ") + Squeeze(s, true)
  {
  }

  lemma {:induction false} NoWords(s: string)
    requires Words(s) == [] && s != ""
    ensures EndsInGap(s)
  {
    hide IsGap;
    if |s| > 1 { NoWords(s[1..]); }
  }

  lemma WordGoesOn(s: string)
    requires StartsWord(s) && StartsWord(s[1..]) && Squeeze(s[1..], true) == Spaced(Words(s[1..])) + Tail(s[1..])
    ensures Squeeze(s, true) == Spaced(Words(s)) + Tail(s)
  {
    SqueezeFirst(s[1..]);
    WordsAreWords(s[1..]);
    TailOfRest(s);
    SpacedLonger(s[0], Words(s[1..]));
    hide IsGap;
    var a, b := Spaced(Words(s[1..])), Tail(s[1..]);
    assert [s[0]] + (a + b) == [s[0]] + a + b;
  }

  lemma WordEnds(s: string)
    requires StartsWord(s) && !StartsWord(s[1..]) && Squeeze(s[1..], true) == Spaced(Words(s[1..])) + Tail(s[1..])
    ensures Squeeze(s, true) == Spaced(Words(s)) + Tail(s)
  {
    var rest := Words(s[1..]);
    SqueezeFirst(s[1..]);
    SpacedMore([s[0]], rest);
    if |s| > 1 {
      TailOfRest(s);
      if rest == [] { NoWords(s[1..]); }
    }
    hide IsGap, Spaced;
    var a, b := Spaced(rest), Tail(s[1..]);
    assert [s[0]] + (" " + (a + b)) == [s[0]] + " " + a + b;
    assert Words(s) == [[s[0]]] + rest;
  }

  lemma {:induction false} SqueezeIsSpaced(s: string)
    ensures Squeeze(s, true) == Spaced(Words(s)) + Tail(s)
  {
    hide IsGap, Spaced;
    if s != "" {
      SqueezeIsSpaced(s[1..]);
      if !StartsWord(s) {
        if |s| > 1 { TailOfRest(s); }
      } else if StartsWord(s[1..]) {
        WordGoesOn(s);
      } else {
        WordEnds(s);
      }
    } else {
      NothingSpaced();
    }
  }

  lemma NothingSpaced()
    ensures Spaced(Words("")) == ""
  {
  }

  lemma {:induction false} TrimStartOf(before: string, s: string)
    requires (s == "" || !IsSpace(s[0])) && forall c :: c in before ==> IsSpace(c)
    ensures TrimStart(before + s) == s
  {
    hide IsSpace;
    if before == "" {
      assert before + s == s;
    } else {
      assert (before + s)[1..] == before[1..] + s && before[0] in before;
      TrimStartOf(before[1..], s);
    }
  }

  lemma {:induction false} TrimEndOf(s: string, after: string)
    requires (s == "" || !IsSpace(s[|s| - 1])) && forall c :: c in after ==> IsSpace(c)
    ensures TrimEnd(s + after) == s
  {
    hide IsSpace;
    if after == "" {
      assert s + after == s;
    } else {
      var n := |after| - 1;
      assert (s + after)[..|s + after| - 1] == s + after[..n] && after[n] in after;
      TrimEndOf(s, after[..n]);
    }
  }

  lemma {:induction false} SpacedIsSolid(words: seq<string>)
    requires forall k :: 0 <= k < |words| ==> words[k] != "" && forall c :: c in words[k] ==> !IsSpace(c)
    ensures var t := Spaced(words);
            (t == "" <==> words == []) && (t != "" ==> !IsSpace(t[0]) && !IsSpace(t[|t| - 1]))
  {
    hide IsSpace;
    if words != [] {
      var w := words[0];
      assert w[0] in w && w[|w| - 1] in w;
      if |words| > 1 { SpacedIsSolid(words[1..]); }
    }
  }

  /** Normalised text is the text's words, with one space between two of them. */
  lemma NormIsWords(s: string)
    ensures Norm(s) == Spaced(Words(s))
  {
    var t := Spaced(Words(s));
    SqueezeFirst(s);
    SqueezeIsSpaced(s);
    WordsAreWords(s);
    SpaceIsSpace();
    GapsAreSpaces();
    SpacedIsSolid(Words(s));
    hide IsSpace, IsGap, Squeeze, Spaced, Words;
    var before := if s == "" || StartsWord(s) then "" else " ";
    TrimStartOf(before, t + Tail(s));
    TrimEndOf(t, Tail(s));
  }

  lemma GapsAreSpaces()
    ensures forall c :: IsSpace(c) ==> IsGap(c)
  {
  }

  // ------------------------------------------------------------------- leaves

  /** A text in the document, and whether a skipped element holds it. */
  datatype Leaf = Leaf(text: string, skipped: bool)

  function Leaves(kids: seq<Node>, skipped: bool): seq<Leaf> {
    if kids == [] then []
    else
      var last := kids[|kids| - 1];
      Leaves(kids[..|kids| - 1], skipped) +
      match last
      case Text(v) => [Leaf(v, skipped)]
      case Element(skip, _, below) => Leaves(below, skipped || skip)
  }

  function Seen(leaves: seq<Leaf>): string {
    if leaves == [] then ""
    else Seen(leaves[..|leaves| - 1]) + if leaves[|leaves| - 1].skipped then "" else leaves[|leaves| - 1].text
  }

  lemma {:induction false} SeenConcat(a: seq<Leaf>, b: seq<Leaf>)
    ensures Seen(a + b) == Seen(a) + Seen(b)
  {
    if b == [] {
      assert a + b == a;
    } else {
      assert (a + b)[..|a + b| - 1] == a + b[..|b| - 1];
      SeenConcat(a, b[..|b| - 1]);
    }
  }

  lemma OneSeen(leaf: Leaf)
    ensures Seen([leaf]) == if leaf.skipped then "" else leaf.text
  {
    assert [leaf][..0] == [];
  }

  lemma {:induction false} SkippedAreUnseen(kids: seq<Node>)
    ensures Seen(Leaves(kids, true)) == ""
  {
    if kids != [] {
      var n := |kids| - 1;
      SkippedAreUnseen(kids[..n]);
      match kids[n]
      case Text(v) =>
        OneSeen(Leaf(v, true));
        SeenConcat(Leaves(kids[..n], true), [Leaf(v, true)]);
      case Element(_, _, below) =>
        SkippedAreUnseen(below);
        SeenConcat(Leaves(kids[..n], true), Leaves(below, true));
    }
  }

  /** An element's text is that of the leaves outside skipped elements, in order. */
  lemma {:induction false} TextIsSeenLeaves(kids: seq<Node>)
    ensures TextOf(kids) == Seen(Leaves(kids, false))
  {
    if kids != [] {
      var n := |kids| - 1;
      TextIsSeenLeaves(kids[..n]);
      match kids[n]
      case Text(v) =>
        OneSeen(Leaf(v, false));
        SeenConcat(Leaves(kids[..n], false), [Leaf(v, false)]);
      case Element(skip, _, below) =>
        if skip { SkippedAreUnseen(below); } else { TextIsSeenLeaves(below); }
        SeenConcat(Leaves(kids[..n], false), Leaves(below, skip));
    }
  }

  // ------------------------------------------------------------ document order

  /** The way from an element down to one below it, child by child. */
  type Path = seq<nat>

  function At(n: Node, path: Path): Option<Node>
    decreases path
  {
    if n.Text? then None
    else if path == [] then Some(n)
    else if path[0] >= |n.kids| then None
    else At(n.kids[path[0]], path[1..])
  }

  /** Document order: an element before what is below it, and a child with all of
      its own before the next child. */
  predicate Precedes(p: Path, q: Path) {
    q != [] && (p == [] || p[0] < q[0] || (p[0] == q[0] && Precedes(p[1..], q[1..])))
  }

  function Below(i: nat, paths: seq<Path>): seq<Path> {
    seq(|paths|, k requires 0 <= k < |paths| => [i] + paths[k])
  }

  function Paths(n: Node): seq<Path>
    decreases n, 0
  {
    match n
    case Text(_) => []
    case Element(_, _, kids) => [[]] + PathsFrom(kids, 0)
  }

  function PathsFrom(kids: seq<Node>, i: nat): seq<Path>
    requires i <= |kids|
    decreases kids, 1, |kids| - i
  {
    if i == |kids| then [] else Below(i, Paths(kids[i])) + PathsFrom(kids, i + 1)
  }

  lemma {:induction false} PathsLead(n: Node)
    ensures |Paths(n)| == |Elements(n)|
    ensures forall k :: 0 <= k < |Paths(n)| ==> At(n, Paths(n)[k]) == Some(Elements(n)[k])
    decreases n, 0
  {
    if n.Element? {
      PathsFromLead(n, 0);
      assert n.kids[0..] == n.kids;
    }
  }

  lemma {:induction false} PathsFromLead(n: Node, i: nat)
    requires n.Element? && i <= |n.kids|
    ensures |PathsFrom(n.kids, i)| == |ElementsOf(n.kids[i..])|
    ensures forall k :: 0 <= k < |PathsFrom(n.kids, i)| ==>
              At(n, PathsFrom(n.kids, i)[k]) == Some(ElementsOf(n.kids[i..])[k])
    decreases n.kids, 1, |n.kids| - i
  {
    if i < |n.kids| {
      PathsLead(n.kids[i]);
      PathsFromLead(n, i + 1);
      assert n.kids[i..][0] == n.kids[i] && n.kids[i..][1..] == n.kids[i + 1..];
      var here := Below(i, Paths(n.kids[i]));
      forall k | 0 <= k < |here| ensures At(n, here[k]) == Some(Elements(n.kids[i])[k]) {
        assert here[k][1..] == Paths(n.kids[i])[k];
      }
    }
  }

  ghost predicate InOrder(paths: seq<Path>) {
    forall k, l :: 0 <= k < l < |paths| ==> Precedes(paths[k], paths[l])
  }

  lemma {:induction false} PathsInOrder(n: Node)
    ensures InOrder(Paths(n))
    decreases n, 0
  {
    if n.Element? { PathsFromInOrder(n.kids, 0); }
  }

  lemma {:induction false} PathsFromInOrder(kids: seq<Node>, i: nat)
    requires i <= |kids|
    ensures InOrder(PathsFrom(kids, i))
    ensures forall p :: p in PathsFrom(kids, i) ==> p != [] && p[0] >= i
    decreases kids, 1, |kids| - i
  {
    if i < |kids| {
      PathsInOrder(kids[i]);
      PathsFromInOrder(kids, i + 1);
      var here, rest := Below(i, Paths(kids[i])), PathsFrom(kids, i + 1);
      forall k, l | 0 <= k < l < |here| ensures Precedes(here[k], here[l]) {
        assert here[k][1..] == Paths(kids[i])[k] && here[l][1..] == Paths(kids[i])[l];
      }
      forall k, l | 0 <= k < |here| && 0 <= l < |rest| ensures Precedes(here[k], rest[l]) {
        assert rest[l] in rest;
      }
    }
  }

  lemma {:induction false} PathsAreAll(n: Node, path: Path)
    requires At(n, path).Some?
    ensures path in Paths(n)
    decreases n, 0
  {
    if path != [] {
      PathsAreAll(n.kids[path[0]], path[1..]);
      PathsFromAreAll(n.kids, 0, path);
    }
  }

  lemma {:induction false} PathsFromAreAll(kids: seq<Node>, i: nat, path: Path)
    requires i <= |kids| && path != [] && i <= path[0] < |kids| && path[1..] in Paths(kids[path[0]])
    ensures path in PathsFrom(kids, i)
    decreases |kids| - i
  {
    if path[0] == i {
      var k :| 0 <= k < |Paths(kids[i])| && Paths(kids[i])[k] == path[1..];
      assert Below(i, Paths(kids[i]))[k] == [i] + path[1..] == path;
    } else {
      PathsFromAreAll(kids, i + 1, path);
    }
  }

  /** What is searched is every element at or below the root, once for each path to
      it, in document order. */
  lemma ElementsInDocumentOrder(root: Node)
    ensures var paths := Paths(root);
            && |paths| == |Elements(root)| && InOrder(paths)
            && (forall k :: 0 <= k < |paths| ==> At(root, paths[k]) == Some(Elements(root)[k]))
            && (forall p: Path :: At(root, p).Some? <==> p in paths)
  {
    PathsLead(root);
    PathsInOrder(root);
    forall p: Path ensures At(root, p).Some? <==> p in Paths(root) {
      if At(root, p).Some? { PathsAreAll(root, p); }
    }
  }

  // ---------------------------------------------------------------- the result

  /** A searched element with the needle in its text and no such child. */
  ghost predicate Candidate(e: Node, want: string) {
    && e.Element? && !e.skip && Includes(Spaced(Words(Seen(Leaves(e.kids, false)))), want)
    && forall k :: k in e.kids && k.Element? && !k.skip ==>
         !Includes(Spaced(Words(Seen(Leaves(k.kids, false)))), want)
  }

  lemma CandidateIff(e: Node, want: string)
    requires e.Element?
    ensures Candidate(e, want) <==> Matches(e, want) && !HasMatchingKid(e, want)
  {
    NormIsWords(OwnText(e));
    TextIsSeenLeaves(e.kids);
    forall k | k in e.kids && k.Element?
      ensures Matches(k, want) <==> !k.skip && Includes(Spaced(Words(Seen(Leaves(k.kids, false)))), want)
    {
      NormIsWords(OwnText(k));
      TextIsSeenLeaves(k.kids);
    }
    hide Includes, Norm, Words, Spaced, Seen, Leaves, TextOf;
  }

  lemma {:induction false} DeepestIsFilter(es: seq<Node>, want: string)
    requires forall e :: e in es ==> e.Element?
    ensures Deepest(MatchesIn(es, want), want) == Candidates(es, want)
  {
    hide Matches, HasMatchingKid, Candidate;
    if es != [] {
      var n := |es| - 1;
      assert es == es[..n] + [es[n]];
      DeepestIsFilter(es[..n], want);
      MatchesInConcat(es[..n], [es[n]], want);
      OneMatch(es[n], want);
      CandidateIff(es[n], want);
      var before := MatchesIn(es[..n], want);
      assert before + [] == before && es[n] in es;
      assert (before + [es[n]])[..|before|] == before;
    }
  }

  ghost function Candidates(es: seq<Node>, want: string): seq<Node> {
    if es == [] then []
    else
      var last := es[|es| - 1];
      Candidates(es[..|es| - 1], want) + if Candidate(last, want) then [last] else []
  }

  lemma {:induction false} CandidateAt(es: seq<Node>, want: string, k: nat) returns (i: nat)
    requires k < |Candidates(es, want)|
    ensures i < |es| && es[i] == Candidates(es, want)[k] && Candidate(es[i], want)
    ensures Candidates(es[..i], want) == Candidates(es, want)[..k]
  {
    hide Candidate;
    var n := |es| - 1;
    var before := Candidates(es[..n], want);
    if k < |before| {
      i := CandidateAt(es[..n], want, k);
      assert es[..n][..i] == es[..i] && before[..k] == Candidates(es, want)[..k];
    } else {
      i := n;
      assert Candidates(es, want)[..k] == before;
    }
  }

  lemma {:induction false} AllCandidates(es: seq<Node>, want: string, j: nat)
    requires j < |es| && Candidate(es[j], want)
    ensures es[j] in Candidates(es, want)
  {
    hide Candidate;
    var n := |es| - 1;
    if j < n { AllCandidates(es[..n], want, j); }
  }

  /** The element at `i` of the document order is what `find` is to give: a visible
      candidate with none before it, or, where none at all is visible, the first
      candidate. */
  ghost predicate IsAnswer(es: seq<Node>, want: string, i: nat)
    requires i < |es| && forall e :: e in es ==> e.Element?
  {
    && Candidate(es[i], want)
    && if es[i].shown then forall j :: 0 <= j < i ==> !(Candidate(es[j], want) && es[j].shown)
       else (forall j :: 0 <= j < i ==> !Candidate(es[j], want)) &&
            (forall j :: 0 <= j < |es| ==> !(Candidate(es[j], want) && es[j].shown))
  }

  /** Candidates of a longer list, and those before one of them. */
  lemma NoneBefore(es: seq<Node>, want: string, i: nat, k: nat)
    requires i < |es| && k < |Candidates(es, want)| && Candidates(es[..i], want) == Candidates(es, want)[..k]
    ensures forall j :: 0 <= j < i && Candidate(es[j], want) ==> es[j] in Candidates(es, want)[..k]
    ensures forall j :: 0 <= j < |es| && Candidate(es[j], want) ==> es[j] in Candidates(es, want)
  {
    hide Candidate, Candidates;
    forall j | 0 <= j < i && Candidate(es[j], want) ensures es[j] in Candidates(es, want)[..k] {
      assert es[..i][j] == es[j];
      AllCandidates(es[..i], want, j);
    }
    forall j | 0 <= j < |es| && Candidate(es[j], want) ensures es[j] in Candidates(es, want) {
      AllCandidates(es, want, j);
    }
  }

  /** The candidate to give: the first visible one, or the first. */
  ghost predicate IsChoice(cs: seq<Node>, k: nat)
    requires k < |cs|
  {
    if cs[k].Element? && cs[k].shown then forall j :: 0 <= j < k ==> !(cs[j].Element? && cs[j].shown)
    else k == 0 && forall j :: 0 <= j < |cs| ==> !(cs[j].Element? && cs[j].shown)
  }

  lemma ChoiceIsAnswer(es: seq<Node>, want: string, i: nat, k: nat)
    requires i < |es| && k < |Candidates(es, want)| && es[i] == Candidates(es, want)[k] && Candidate(es[i], want)
    requires Candidates(es[..i], want) == Candidates(es, want)[..k] && IsChoice(Candidates(es, want), k)
    requires forall e :: e in es ==> e.Element?
    ensures IsAnswer(es, want, i)
  {
    hide Candidate, Candidates;
    NoneBefore(es, want, i, k);
  }

  lemma FoundIsChoice(cs: seq<Node>) returns (k: nat)
    requires cs != []
    ensures k < |cs| && IsChoice(cs, k)
    ensures cs[k] == if FirstShown(cs, 0).Some? then FirstShown(cs, 0).value else cs[0]
  {
    FirstShownIsFirst(cs, 0);
    k := 0;
    if FirstShown(cs, 0).Some? {
      k :| 0 <= k < |cs| && cs[k] == FirstShown(cs, 0).value && cs[k].Element? && cs[k].shown &&
           forall j :: 0 <= j < k ==> !(cs[j].Element? && cs[j].shown);
    }
  }

  /** What is found is the first visible candidate in document order, or the first
      candidate if none is visible. */
  lemma FoundIsFirst(needle: string, root: Node) returns (i: nat)
    requires root.Element? && Found(Norm(needle), Some(root)).Some?
    ensures forall e :: e in Elements(root) ==> e.Element?
    ensures i < |Elements(root)| && Found(Norm(needle), Some(root)) == Some(Elements(root)[i])
    ensures IsAnswer(Elements(root), Norm(needle), i)
  {
    var es, want := Elements(root), Norm(needle);
    forall e | e in es ensures e.Element? { AllElements(root, e); }
    DeepestIsFilter(es, want);
    hide Candidate, Candidates, Norm, Elements, MatchesIn, Deepest, FirstShown, IsChoice, IsAnswer;
    var k := FoundIsChoice(Candidates(es, want));
    i := CandidateAt(es, want, k);
    ChoiceIsAnswer(es, want, i, k);
  }
}
