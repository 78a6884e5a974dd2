/**
 The text locator: whitespace-normalised matching, and the search for the
 deepest element whose text holds the needle.
 */
module TextLocator {
  import opened WhiteSpace
  import opened Wrappers

  // ----------------------------------------------------------- normalising

  /** The characters a run of which becomes one space. */
  predicate IsGap(c: char) {
    IsSpace(c) || c == '\U{200b}'
  }

  /** Each run of gaps becomes one space; `after` says a gap came just before. */
  function Squeeze(s: string, after: bool): string {
    if s == "" then ""
    else if IsGap(s[0]) then (if after then "" else " ") + Squeeze(s[1..], true)
    else [s[0]] + Squeeze(s[1..], false)
  }

  function Norm(s: string): string {
    Trim(Squeeze(s, false))
  }

  predicate OccursAt(s: string, want: string, i: nat) {
    i + |want| <= |s| && s[i..i + |want|] == want
  }

  /** `s.includes(want)`. */
  predicate Includes(s: string, want: string) {
    exists i: nat :: i <= |s| && OccursAt(s, want, i)
  }

  /** Text that starts and ends with something visible. */
  predicate Solid(want: string) {
    want != "" && !IsSpace(want[0]) && !IsSpace(want[|want| - 1])
  }

  lemma {:induction false} TrimEndIsSolid(s: string)
    ensures TrimEnd(s) <= s && (TrimEnd(s) == "" || !IsSpace(TrimEnd(s)[|TrimEnd(s)| - 1]))
  {
    if s != "" && IsSpace(s[|s| - 1]) { TrimEndIsSolid(s[..|s| - 1]); }
  }

  lemma {:induction false} TrimStartIsSolid(s: string)
    ensures TrimStart(s) == "" || !IsSpace(TrimStart(s)[0])
  {
    if s != "" && IsSpace(s[0]) { TrimStartIsSolid(s[1..]); }
  }

  lemma NormIsSolid(s: string)
    ensures Norm(s) == "" || Solid(Norm(s))
  {
    var t := Squeeze(s, false);
    TrimStartIsSolid(t);
    TrimEndIsSolid(TrimStart(t));
    assert Norm(s) != "" ==> Norm(s)[0] == TrimStart(t)[0];
  }

  lemma {:induction false} SqueezeConcat(a: string, b: string, after: bool) returns (mid: bool)
    ensures Squeeze(a + b, after) == Squeeze(a, after) + Squeeze(b, mid)
  {
    mid := after;
    if a == "" {
      assert a + b == b;
    } else {
      assert (a + b)[1..] == a[1..] + b;
      mid := SqueezeConcat(a[1..], b, IsGap(a[0]));
    }
  }

  /** A gap before a text takes away at most its first space. */
  lemma {:induction false} SqueezeAfterGap(s: string)
    ensures Squeeze(s, false) == Squeeze(s, true) || Squeeze(s, false) == " " + Squeeze(s, true)
  {
  }

  lemma Inner(a: string, s: string, b: string, want: string)
    requires Includes(s, want)
    ensures Includes(a + s + b, want)
  {
    var i: nat :| i <= |s| && OccursAt(s, want, i);
    assert (a + s + b)[|a| + i..|a| + i + |want|] == s[i..i + |want|];
    assert OccursAt(a + s + b, want, |a| + i);
  }

  lemma WithoutFirst(s: string, want: string)
    requires s != "" && Includes(s, want) && Solid(want) && IsSpace(s[0])
    ensures Includes(s[1..], want)
  {
    var i: nat :| i <= |s| && OccursAt(s, want, i);
    assert s[i] == want[0];
    assert s[1..][i - 1..i - 1 + |want|] == s[i..i + |want|];
    assert OccursAt(s[1..], want, i - 1);
  }

  lemma WithoutLast(s: string, want: string)
    requires s != "" && Includes(s, want) && Solid(want) && IsSpace(s[|s| - 1])
    ensures Includes(s[..|s| - 1], want)
  {
    var i: nat :| i <= |s| && OccursAt(s, want, i);
    assert s[i + |want| - 1] == want[|want| - 1];
    assert s[..|s| - 1][i..i + |want|] == s[i..i + |want|];
    assert OccursAt(s[..|s| - 1], want, i);
  }

  lemma {:induction false} TrimStartKeeps(s: string, want: string)
    requires Includes(s, want) && Solid(want)
    ensures Includes(TrimStart(s), want)
  {
    if s != "" && IsSpace(s[0]) {
      WithoutFirst(s, want);
      TrimStartKeeps(s[1..], want);
    }
  }

  lemma {:induction false} TrimEndKeeps(s: string, want: string)
    requires Includes(s, want) && Solid(want)
    ensures Includes(TrimEnd(s), want)
  {
    if s != "" && IsSpace(s[|s| - 1]) {
      WithoutLast(s, want);
      TrimEndKeeps(s[..|s| - 1], want);
    }
  }

  /** A part's match is a match of every text around it. */
  lemma PartMatchesWhole(a: string, x: string, b: string, want: string)
    requires Solid(want) && Includes(Norm(x), want)
    ensures Includes(Norm(a + x + b), want)
  {
    hide IsSpace, Squeeze, TrimStart, TrimEnd;
    var t := Squeeze(x, false);
    var before := TrimStartTakesSpace(t);
    var after := TrimEndTakesSpace(TrimStart(t));
    Inner(before, Norm(x), after, want);
    assert t == before + Norm(x) + after;
    var q := SqueezeConcat(a + x, b, false);
    var p := SqueezeConcat(a, x, false);
    SqueezeAfterGap(x);
    if p && t == " " + Squeeze(x, true) {
      SpaceIsSpace();
      WithoutFirst(t, want);
      assert t[1..] == Squeeze(x, true);
    }
    assert Includes(Squeeze(x, p), want);
    Inner(Squeeze(a, false), Squeeze(x, p), Squeeze(b, q), want);
    TrimStartKeeps(Squeeze(a + x + b, false), want);
    TrimEndKeeps(TrimStart(Squeeze(a + x + b, false)), want);
  }

  lemma SpaceIsSpace()
    ensures IsSpace(' ')
  {
  }

  // ------------------------------------------------------------ the document

  /** A text or an element; `skip` marks scripts, styles, `noscript` and
      templates, `shown` an element with a box. */
  datatype Node = Text(value: string) | Element(skip: bool, shown: bool, kids: seq<Node>)

  /** `ownText`: the text below an element, leaving out skipped ones. */
  function OwnText(el: Node): string
    requires el.Element?
    decreases el, 0
  {
    TextOf(el.kids)
  }

  function TextOf(kids: seq<Node>): string
    decreases kids, 1
  {
    if kids == [] then ""
    else
      var last := kids[|kids| - 1];
      TextOf(kids[..|kids| - 1]) +
      match last
      case Text(v) => v
      case Element(skip, _, _) => if skip then "" else OwnText(last)
  }

  method WriteText(el: Node) returns (out: string)
    requires el.Element?
    ensures out == OwnText(el)
    decreases el
  {
    out := "";
    for i := 0 to |el.kids|
      invariant out == TextOf(el.kids[..i])
    {
      assert el.kids[..i + 1][..i] == el.kids[..i];
      var child := el.kids[i];
      if child.Text? {
        out := out + child.value;
      } else if !child.skip {
        var text := WriteText(child);
        out := out + text;
      }
    }
    assert el.kids[..|el.kids|] == el.kids;
  }

  /** The element and every element below it, in document order. */
  function Elements(n: Node): (es: seq<Node>)
    decreases n, 0
  {
    match n
    case Text(_) => []
    case Element(_, _, kids) => [n] + ElementsOf(kids)
  }

  function ElementsOf(kids: seq<Node>): seq<Node>
    decreases kids, 1
  {
    if kids == [] then [] else Elements(kids[0]) + ElementsOf(kids[1..])
  }

  /** What the search is about: a searched element with the needle in its text. */
  predicate Matches(n: Node, want: string) {
    n.Element? && !n.skip && Includes(Norm(OwnText(n)), want)
  }

  predicate HasMatchingKid(el: Node, want: string) {
    el.Element? && exists k :: k in el.kids && Matches(k, want)
  }

  // --------------------------------------------------------------- the search

  method Find(needle: string, root: Option<Node>) returns (found: Option<Node>)
    requires root.Some? ==> root.value.Element?
    ensures found == Found(Norm(needle), root)
  {
    hide Norm, Matches, Deepest, MatchesIn, Elements, FirstShown;
    var want := Norm(needle);
    if want == "" || root.None? {
      return None;
    }
    var matches, ordered := Search(root.value, want);
    var deepest := KeepDeepest(root.value, ordered, matches, want);
    found := FindShown(deepest);
    if found.None? && deepest != [] {
      found := Some(deepest[0]);
    }
  }

  method Search(root: Node, want: string) returns (matches: set<Node>, ordered: seq<Node>)
    requires root.Element?
    ensures ordered == MatchesIn(Elements(root), want)
    ensures forall e :: e in matches <==> e in Elements(root) && Matches(e, want)
  {
    hide Norm, Matches, Includes, OwnText, Elements;
    var all := Elements(root);
    matches, ordered := {}, [];
    for i := 0 to |all|
      invariant ordered == MatchesIn(all[..i], want)
      invariant forall e :: e in matches <==> e in all[..i] && Matches(e, want)
    {
      assert all[..i + 1] == all[..i] + [all[i]];
      MatchesInConcat(all[..i], [all[i]], want);
      OneMatch(all[i], want);
      var el := all[i];
      ElementsAreElements(root, i);
      if el.skip {
        continue;
      }
      var text := WriteText(el);
      if Includes(Norm(text), want) {
        matches := matches + {el};
        ordered := ordered + [el];
      }
    }
    assert all[..|all|] == all;
  }

  method KeepDeepest(root: Node, ordered: seq<Node>, matches: set<Node>, want: string) returns (deepest: seq<Node>)
    requires ordered == MatchesIn(Elements(root), want)
    requires forall e :: e in matches <==> e in Elements(root) && Matches(e, want)
    ensures deepest == Deepest(ordered, want)
  {
    hide Matches, Elements, MatchesIn, HasMatchingKid;
    deepest := [];
    for i := 0 to |ordered|
      invariant deepest == Deepest(ordered[..i], want)
    {
      assert ordered[..i + 1][..i] == ordered[..i];
      OrderedMatch(Elements(root), want, ordered[i]);
      MatchingKids(root, ordered[i], matches, want);
      if forall k :: k in ordered[i].kids ==> k !in matches {
        deepest := deepest + [ordered[i]];
      }
    }
    assert ordered[..|ordered|] == ordered;
  }

  lemma MatchingKids(root: Node, e: Node, matches: set<Node>, want: string)
    requires e in Elements(root) && e.Element?
    requires forall m :: m in matches <==> m in Elements(root) && Matches(m, want)
    ensures HasMatchingKid(e, want) <==> exists k :: k in e.kids && k in matches
  {
    forall k | k in e.kids ensures k in matches <==> Matches(k, want) {
      OrderedMatch([], want, k);
      if k.Element? { KidListed(root, e, k); }
    }
    hide Matches, Elements;
  }

  method FindShown(es: seq<Node>) returns (found: Option<Node>)
    ensures found == FirstShown(es, 0)
  {
    for i := 0 to |es|
      invariant FirstShown(es, 0) == FirstShown(es, i)
    {
      if es[i].Element? && es[i].shown {
        return Some(es[i]);
      }
    }
    return None;
  }

  function MatchesIn(es: seq<Node>, want: string): seq<Node> {
    if es == [] then []
    else (if Matches(es[0], want) then [es[0]] else []) + MatchesIn(es[1..], want)
  }

  function Deepest(es: seq<Node>, want: string): seq<Node> {
    if es == [] then []
    else
      var last := es[|es| - 1];
      Deepest(es[..|es| - 1], want) + if HasMatchingKid(last, want) then [] else [last]
  }

  function FirstShown(es: seq<Node>, i: nat): Option<Node>
    decreases |es| - i
  {
    if i >= |es| then None
    else if es[i].Element? && es[i].shown then Some(es[i])
    else FirstShown(es, i + 1)
  }

  /** The first visible deepest match in document order, else the first one. */
  function Found(want: string, root: Option<Node>): Option<Node> {
    if want == "" || root.None? then None
    else
      var deepest := Deepest(MatchesIn(Elements(root.value), want), want);
      if FirstShown(deepest, 0).Some? then FirstShown(deepest, 0)
      else if deepest == [] then None
      else Some(deepest[0])
  }

  // -------------------------------------------------------------- its claims

  lemma {:induction false} MatchesInConcat(a: seq<Node>, b: seq<Node>, want: string)
    ensures MatchesIn(a + b, want) == MatchesIn(a, want) + MatchesIn(b, want)
  {
    hide Matches;
    var all := a + b;
    if a == [] {
      assert all == b;
    } else {
      assert all[0] == a[0] && all[1..] == a[1..] + b;
      MatchesInConcat(a[1..], b, want);
      var first := if Matches(a[0], want) then [a[0]] else [];
      assert MatchesIn(all, want) == first + (MatchesIn(a[1..], want) + MatchesIn(b, want));
      assert MatchesIn(a, want) == first + MatchesIn(a[1..], want);
    }
  }

  lemma OneMatch(e: Node, want: string)
    ensures MatchesIn([e], want) == if Matches(e, want) then [e] else []
    ensures e.Element? ==> (Matches(e, want) <==> !e.skip && Includes(Norm(OwnText(e)), want))
  {
  }

  lemma {:induction false} OrderedMatch(es: seq<Node>, want: string, e: Node)
    ensures e in MatchesIn(es, want) <==> e in es && Matches(e, want)
    ensures Matches(e, want) ==> e.Element?
  {
    if es != [] {
      OrderedMatch(es[1..], want, e);
      assert es == [es[0]] + es[1..];
    }
  }

  lemma {:induction false} DeepestMatch(es: seq<Node>, want: string, e: Node)
    ensures e in Deepest(es, want) <==> e in es && !HasMatchingKid(e, want)
  {
    if es != [] {
      var n := |es| - 1;
      DeepestMatch(es[..n], want, e);
      assert es == es[..n] + [es[n]];
    }
  }

  lemma {:induction false} FirstShownIsFirst(es: seq<Node>, i: nat)
    ensures match FirstShown(es, i)
            case None => forall j :: i <= j < |es| ==> !(es[j].Element? && es[j].shown)
            case Some(e) =>
              exists k :: i <= k < |es| && es[k] == e && e.Element? && e.shown &&
                          forall j :: i <= j < k ==> !(es[j].Element? && es[j].shown)
    decreases |es| - i
  {
    if i < |es| { FirstShownIsFirst(es, i + 1); }
  }

  lemma {:induction false} AllElements(n: Node, e: Node)
    requires e in Elements(n)
    ensures e.Element?
    decreases n, 0
  {
    if n.Element? && e != n { AllElementsOf(n.kids, e); }
  }

  lemma {:induction false} AllElementsOf(kids: seq<Node>, e: Node)
    requires e in ElementsOf(kids)
    ensures e.Element?
    decreases kids, 1
  {
    if e in Elements(kids[0]) { AllElements(kids[0], e); } else { AllElementsOf(kids[1..], e); }
  }

  lemma ElementsAreElements(n: Node, i: nat)
    requires i < |Elements(n)|
    ensures Elements(n)[i].Element?
  {
    AllElements(n, Elements(n)[i]);
  }

  lemma {:induction false} KidIn(kids: seq<Node>, k: Node)
    requires k in kids && k.Element?
    ensures k in ElementsOf(kids)
  {
    if k != kids[0] { KidIn(kids[1..], k); }
  }

  /** The elements below a listed one are listed. */
  lemma {:induction false} KidListed(n: Node, e: Node, k: Node)
    requires e in Elements(n) && e.Element? && k in e.kids && k.Element?
    ensures k in Elements(n)
    decreases n, 0
  {
    if e == n { KidIn(n.kids, k); } else { KidListedOf(n.kids, e, k); }
  }

  lemma {:induction false} KidListedOf(kids: seq<Node>, e: Node, k: Node)
    requires e in ElementsOf(kids) && e.Element? && k in e.kids && k.Element?
    ensures k in ElementsOf(kids)
    decreases kids, 1
  {
    if e in Elements(kids[0]) { KidListed(kids[0], e, k); } else { KidListedOf(kids[1..], e, k); }
  }

  /** `d` lies below `n` through searched elements only. */
  predicate Below(n: Node, d: Node)
    decreases n, 0
  {
    n.Element? && exists i :: 0 <= i < |n.kids| && Reached(n.kids[i], d)
  }

  predicate Reached(k: Node, d: Node)
    decreases k, 1
  {
    k.Element? && !k.skip && (k == d || Below(k, d))
  }

  lemma {:induction false} TextHoldsKid(kids: seq<Node>, i: nat) returns (a: string, b: string)
    requires i < |kids| && kids[i].Element? && !kids[i].skip
    ensures TextOf(kids) == a + OwnText(kids[i]) + b
    decreases |kids|
  {
    var n := |kids| - 1;
    if i == n {
      a, b := TextOf(kids[..n]), "";
    } else {
      a, b := TextHoldsKid(kids[..n], i);
      b := b + match kids[n]
               case Text(v) => v
               case Element(skip, _, _) => if skip then "" else OwnText(kids[n]);
    }
  }

  /** A match below an element, through searched ones, shows in a child of it. */
  lemma {:induction false} MatchBelowShows(n: Node, d: Node, want: string)
    requires Below(n, d) && Matches(d, want) && Solid(want)
    ensures HasMatchingKid(n, want)
    decreases n
  {
    hide Norm, Includes, OwnText, TextOf;
    var i :| 0 <= i < |n.kids| && Reached(n.kids[i], d);
    var k := n.kids[i];
    if k != d {
      MatchBelowShows(k, d, want);
      KidMatchShows(k, want);
    }
    assert Matches(k, want) && k in n.kids;
  }

  lemma KidMatchShows(k: Node, want: string)
    requires HasMatchingKid(k, want) && Solid(want)
    ensures Includes(Norm(OwnText(k)), want)
  {
    hide Norm, Includes;
    var m :| m in k.kids && Matches(m, want);
    var j :| 0 <= j < |k.kids| && k.kids[j] == m;
    var a, b := TextHoldsKid(k.kids, j);
    PartMatchesWhole(a, OwnText(k.kids[j]), b, want);
  }

  /** Some match has no matching child. */
  lemma {:induction false} SomeMatchIsDeepest(n: Node, want: string) returns (e: Node)
    requires Matches(n, want)
    ensures e in Elements(n) && Matches(e, want) && !HasMatchingKid(e, want)
    decreases n
  {
    hide Matches, Norm, Includes;
    e := n;
    if HasMatchingKid(n, want) {
      var k :| k in n.kids && Matches(k, want);
      OrderedMatch([], want, k);
      e := SomeMatchIsDeepest(k, want);
      BelowListed(n.kids, k, e);
    } else {
      OrderedMatch([], want, n);
    }
  }

  lemma {:induction false} BelowListed(kids: seq<Node>, k: Node, e: Node)
    requires k in kids && e in Elements(k)
    ensures e in ElementsOf(kids)
  {
    if k != kids[0] { BelowListed(kids[1..], k, e); }
  }

  lemma {:induction false} ElementsNest(n: Node, m: Node, e: Node)
    requires m in Elements(n) && e in Elements(m)
    ensures e in Elements(n)
    decreases n, 0
  {
    if m != n { ElementsNestOf(n.kids, m, e); }
  }

  lemma {:induction false} ElementsNestOf(kids: seq<Node>, m: Node, e: Node)
    requires m in ElementsOf(kids) && e in Elements(m)
    ensures e in ElementsOf(kids)
    decreases kids, 1
  {
    if m in Elements(kids[0]) { ElementsNest(kids[0], m, e); } else { ElementsNestOf(kids[1..], m, e); }
  }

  /** Nothing is found exactly when nothing searched matches. */
  lemma NothingFoundIff(needle: string, root: Node)
    requires root.Element? && Norm(needle) != ""
    ensures Found(Norm(needle), Some(root)) == None <==>
            forall e :: e in Elements(root) ==> !Matches(e, Norm(needle))
  {
    hide Norm, Matches, Includes, Elements, HasMatchingKid;
    var want := Norm(needle);
    var ordered := MatchesIn(Elements(root), want);
    var deepest := Deepest(ordered, want);
    FirstShownIsFirst(deepest, 0);
    if e :| e in Elements(root) && Matches(e, want) {
      var d := SomeMatchIsDeepest(e, want);
      ElementsNest(root, e, d);
      OrderedMatch(Elements(root), want, d);
      DeepestMatch(ordered, want, d);
    } else if deepest != [] {
      DeepestMatch(ordered, want, deepest[0]);
      OrderedMatch(Elements(root), want, deepest[0]);
    }
  }

  /** What is found matches, and nothing below it that is reached through
      searched elements does; a visible match is preferred. */
  lemma FoundIsDeepest(needle: string, root: Node, e: Node)
    requires root.Element? && Found(Norm(needle), Some(root)) == Some(e)
    ensures e in Elements(root) && Matches(e, Norm(needle))
    ensures forall d :: Below(e, d) ==> !Matches(d, Norm(needle))
    ensures !e.shown ==>
      forall d :: d in Elements(root) && Matches(d, Norm(needle)) && d.shown ==> HasMatchingKid(d, Norm(needle))
  {
    var want := Norm(needle);
    NormIsSolid(needle);
    hide Norm, Matches, Includes, Elements, HasMatchingKid, Below, Solid;
    var ordered := MatchesIn(Elements(root), want);
    var deepest := Deepest(ordered, want);
    FirstShownIsFirst(deepest, 0);
    assert e in deepest;
    DeepestMatch(ordered, want, e);
    OrderedMatch(Elements(root), want, e);
    forall d | Below(e, d) ensures !Matches(d, want) {
      if Matches(d, want) { MatchBelowShows(e, d, want); }
    }
    forall d | d in Elements(root) ensures d.Element? { AllElements(root, d); }
    if !e.shown {
      forall d | d in Elements(root) && Matches(d, want) && d.shown ensures HasMatchingKid(d, want) {
        OrderedMatch(Elements(root), want, d);
        DeepestMatch(ordered, want, d);
      }
    }
  }
}
