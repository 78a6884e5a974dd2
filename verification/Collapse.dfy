/**
 Collapsing of repeated siblings: `collapseRepeats`, `collapseTree` and
 `collectCollapsed`.
 */
module Collapse {
  import opened SnapshotTree

  // --------------------------------------------------------------- the hash

  predicate Counts(attr: string) {
    !("ref=" <= attr) && !("component=" <= attr)
  }

  function AttrHash(attrs: seq<string>): string {
    if attrs == [] then ""
    else (if Counts(attrs[0]) then "|" + attrs[0] else "") + AttrHash(attrs[1..])
  }

  function ClassHash(classes: string): string {
    if classes != "" then "|cls=" + classes else ""
  }

  /** `structHash`: label, class names and the attributes that are not unique. */
  function StructHash(n: Node): string {
    n.face.shown + ClassHash(n.face.classes) + AttrHash(n.face.attrs)
  }

  /** The end of the run of equal hashes that starts at `i`. */
  function RunEnd(kids: seq<Node>, i: nat): (j: nat)
    requires i < |kids|
    ensures i < j <= |kids|
    decreases |kids| - i
  {
    if i + 1 < |kids| && StructHash(kids[i + 1]) == StructHash(kids[i]) then RunEnd(kids, i + 1) else i + 1
  }

  /** The run holds equal hashes only, and is as long as it can be. */
  lemma {:induction false} RunIsMaximal(kids: seq<Node>, i: nat)
    requires i < |kids|
    ensures forall k :: i <= k < RunEnd(kids, i) ==> StructHash(kids[k]) == StructHash(kids[i])
    ensures RunEnd(kids, i) < |kids| ==> StructHash(kids[RunEnd(kids, i)]) != StructHash(kids[i])
    decreases |kids| - i
  {
    hide StructHash;
    if i + 1 < |kids| && StructHash(kids[i + 1]) == StructHash(kids[i]) {
      RunIsMaximal(kids, i + 1);
    }
  }

  function Digits(n: nat): string {
    if n < 10 then [('0' as int + n) as char] else Digits(n / 10) + [('0' as int + n % 10) as char]
  }

  /** The marker for a run: it shares the first node's element. */
  function Marker(first: Node, hidden: seq<Node>): Node {
    Node(first.id,
         Face("... " + Digits(|hidden|) + " more " + first.face.shown + " items", "",
              ["collapsed-run"], first.face.classes, first.face.anchor),
         [], hidden)
  }

  lemma MarkerHides(first: Node, hidden: seq<Node>)
    requires hidden != []
    ensures var m := Marker(first, hidden); IsMarker(m) && m.collapsed == hidden && m.kids == []
  {
  }

  function Run(kids: seq<Node>, i: nat, j: nat): seq<Node>
    requires i <= j <= |kids|
  {
    if j - i >= 5 then [kids[i], kids[i + 1], Marker(kids[i], kids[i + 2..j])] else kids[i..j]
  }

  function CollapseFrom(kids: seq<Node>, i: nat): seq<Node>
    requires i <= |kids|
    decreases |kids| - i
  {
    if i == |kids| then [] else Run(kids, i, RunEnd(kids, i)) + CollapseFrom(kids, RunEnd(kids, i))
  }

  /** `collapseRepeats`; fewer than five siblings are left alone. */
  function CollapseRepeats(kids: seq<Node>): seq<Node> {
    if |kids| < 5 then kids else CollapseFrom(kids, 0)
  }

  /** The inner scan for the end of a run. */
  method ScanRun(kids: seq<Node>, i: nat) returns (runEnd: nat)
    requires i < |kids|
    ensures runEnd == RunEnd(kids, i)
  {
    hide StructHash;
    var hash := StructHash(kids[i]);
    runEnd := i + 1;
    while runEnd < |kids| && StructHash(kids[runEnd]) == hash
      invariant i < runEnd <= |kids|
      invariant StructHash(kids[runEnd - 1]) == hash
      invariant RunEnd(kids, i) == RunEnd(kids, runEnd - 1)
    {
      runEnd := runEnd + 1;
    }
  }

  /** What a run of siblings leaves in the list. */
  method CollapseRun(kids: seq<Node>, i: nat, runEnd: nat) returns (part: seq<Node>)
    requires i <= runEnd <= |kids|
    ensures part == Run(kids, i, runEnd)
  {
    hide Marker;
    part := [];
    if runEnd - i >= 5 {
      var collapsed := [];
      for ci := i + 2 to runEnd
        invariant collapsed == kids[i + 2..ci]
      {
        collapsed := collapsed + [kids[ci]];
      }
      part := [kids[i], kids[i + 1], Marker(kids[i], collapsed)];
    } else {
      for ri := i to runEnd
        invariant part == kids[i..ri]
      {
        part := part + [kids[ri]];
      }
    }
  }

  method CollapseSiblings(kids: seq<Node>) returns (result: seq<Node>)
    ensures result == CollapseRepeats(kids)
  {
    hide Run, StructHash;
    if |kids| < 5 {
      return kids;
    }
    result := [];
    var i := 0;
    while i < |kids|
      invariant i <= |kids|
      invariant CollapseRepeats(kids) == result + CollapseFrom(kids, i)
    {
      var runEnd := ScanRun(kids, i);
      var part := CollapseRun(kids, i, runEnd);
      assert result + (part + CollapseFrom(kids, runEnd)) == (result + part) + CollapseFrom(kids, runEnd);
      result := result + part;
      i := runEnd;
    }
  }

  /** `collapseTree`: the children's own children first. */
  function CollapseTree(n: Node): Node
    decreases n, 1
  {
    n.(kids := CollapseRepeats(CollapseEach(n.kids)))
  }

  function CollapseEach(ns: seq<Node>): (r: seq<Node>)
    ensures |r| == |ns|
    decreases ns, 0
  {
    if ns == [] then [] else [CollapseTree(ns[0])] + CollapseEach(ns[1..])
  }

  // ------------------------------------------------------------ conservation

  /** A tree as it was built, without markers. */
  predicate Plain(n: Node)
    decreases n, 1
  {
    !IsMarker(n) && PlainAll(n.kids)
  }

  predicate PlainAll(ns: seq<Node>)
    decreases ns, 0
  {
    ns == [] || (Plain(ns[0]) && PlainAll(ns[1..]))
  }

  /** Puts every marker's nodes back where the marker stands, at every level. */
  function Restore(n: Node): Node
    decreases n, 1
  {
    n.(kids := RestoreAll(n.kids))
  }

  function RestoreAll(ns: seq<Node>): seq<Node>
    decreases ns, 0
  {
    if ns == [] then []
    else (if IsMarker(ns[0]) then RestoreAll(ns[0].collapsed) else [Restore(ns[0])]) + RestoreAll(ns[1..])
  }

  lemma {:induction false} RestoreAllConcat(a: seq<Node>, b: seq<Node>)
    ensures RestoreAll(a + b) == RestoreAll(a) + RestoreAll(b)
  {
    if a == [] {
      assert a + b == b;
    } else {
      assert (a + b)[1..] == a[1..] + b;
      RestoreAllConcat(a[1..], b);
    }
  }

  lemma RestoreUndoesRun(kids: seq<Node>, i: nat, j: nat)
    requires i <= j <= |kids|
    ensures RestoreAll(Run(kids, i, j)) == RestoreAll(kids[i..j])
  {
    hide StructHash, Marker;
    if j - i >= 5 {
      var shown, hidden := [kids[i], kids[i + 1]], kids[i + 2..j];
      var marker := Marker(kids[i], hidden);
      MarkerHides(kids[i], hidden);
      assert kids[i..j] == shown + hidden && Run(kids, i, j) == shown + [marker];
      RestoreAllConcat(shown, hidden);
      RestoreAllConcat(shown, [marker]);
      assert RestoreAll([marker]) == RestoreAll(hidden) + RestoreAll([]);
    }
  }

  lemma RestoreOfSplit(run: seq<Node>, rest: seq<Node>, kids: seq<Node>, i: nat, j: nat)
    requires i <= j <= |kids|
    requires RestoreAll(run) == RestoreAll(kids[i..j]) && RestoreAll(rest) == RestoreAll(kids[j..])
    ensures RestoreAll(run + rest) == RestoreAll(kids[i..])
  {
    hide RestoreAll;
    assert kids[i..] == kids[i..j] + kids[j..];
    RestoreAllConcat(run, rest);
    RestoreAllConcat(kids[i..j], kids[j..]);
  }

  lemma {:induction false} RestoreUndoesRuns(kids: seq<Node>, i: nat)
    requires i <= |kids|
    ensures RestoreAll(CollapseFrom(kids, i)) == RestoreAll(kids[i..])
    decreases |kids| - i
  {
    hide Run, RunEnd;
    if i == |kids| {
      assert kids[i..] == [];
    } else {
      var j := RunEnd(kids, i);
      RestoreUndoesRun(kids, i, j);
      RestoreUndoesRuns(kids, j);
      RestoreOfSplit(Run(kids, i, j), CollapseFrom(kids, j), kids, i, j);
    }
  }

  lemma {:induction false} CollapsedEachIsUnmarked(ns: seq<Node>)
    requires PlainAll(ns)
    ensures forall k :: 0 <= k < |ns| ==> !IsMarker(CollapseEach(ns)[k])
    decreases ns
  {
    if ns != [] {
      CollapsedEachIsUnmarked(ns[1..]);
    }
  }

  /** Collapsing loses nothing: putting the collapsed nodes back gives the
      original tree, every child in its place. */
  lemma {:induction false} RestoreUndoesCollapse(n: Node)
    requires Plain(n)
    ensures Restore(CollapseTree(n)) == n
    decreases n, 1
  {
    RestoreUndoesEach(n.kids);
    var each := CollapseEach(n.kids);
    if |each| >= 5 {
      RestoreUndoesRuns(each, 0);
      assert each[0..] == each;
    }
  }

  lemma {:induction false} RestoreUndoesEach(ns: seq<Node>)
    requires PlainAll(ns)
    ensures RestoreAll(CollapseEach(ns)) == ns
    decreases ns, 0
  {
    if ns != [] {
      RestoreUndoesCollapse(ns[0]);
      RestoreUndoesEach(ns[1..]);
      CollapsedEachIsUnmarked(ns);
    }
  }

  // ------------------------------------------------------- no run of five left

  /** Five adjacent siblings with one hash. Markers count too, but for the first
      of the five: the sibling after a marker may have a label like it. */
  predicate FiveAlike(ns: seq<Node>, i: nat) {
    i + 5 <= |ns| && !IsMarker(ns[i])
    && forall k :: i <= k < i + 5 ==> StructHash(ns[k]) == StructHash(ns[i])
  }

  lemma WindowInTheRest(run: seq<Node>, rest: seq<Node>, w: nat)
    requires w >= |run|
    ensures FiveAlike(run + rest, w) ==> FiveAlike(rest, w - |run|)
  {
    hide StructHash;
    if FiveAlike(run + rest, w) {
      forall k | w - |run| <= k < w - |run| + 5 ensures StructHash(rest[k]) == StructHash(rest[w - |run|]) {
        assert rest[k] == (run + rest)[k + |run|] && rest[w - |run|] == (run + rest)[w];
      }
    }
  }

  lemma {:induction false} DigitsAreDigits(n: nat)
    ensures Digits(n) != "" && forall c :: c in Digits(n) ==> '0' <= c <= '9'
  {
    if n >= 10 { DigitsAreDigits(n / 10); }
  }

  /** Text that starts both with `x` and with `front + x` repeats `front`. */
  lemma {:induction false} NoBar(front: string, x: string, s: string, i: nat)
    requires front != "" && '|' !in front && i < |front| + |x| <= |s|
    requires s[..|x|] == x && s[..|front| + |x|] == front + x
    ensures s[i] != '|'
    decreases i
  {
    var start := s[..|front| + |x|];
    assert s[i] == start[i];
    if i < |front| {
      assert start[i] == front[i];
    } else {
      var k := i - |front|;
      assert start[i] == x[k] == s[..|x|][k] == s[k];
      NoBar(front, x, s, k);
    }
  }

  lemma NeverEqual(front: string, x: string, tail: string, back: string)
    requires front != "" && '|' !in front && (tail == "" || tail[0] == '|')
    ensures x + tail != front + x + back
  {
    var s := x + tail;
    if s == front + x + back {
      assert s[..|x|] == x && s[..|front| + |x|] == front + x;
      assert s[|x|] == tail[0];
      NoBar(front, x, s, |x|);
    }
  }

  lemma MarkerHash(first: Node, hidden: seq<Node>)
    ensures StructHash(Marker(first, hidden))
         == "... " + Digits(|hidden|) + " more " + first.face.shown +
            (" items" + ClassHash(first.face.classes) + AttrHash(["collapsed-run"]))
  {
    hide Digits, AttrHash;
  }

  /** A marker's hash is never that of the run it stands for. */
  lemma MarkerUnlikeItsRun(first: Node, hidden: seq<Node>)
    ensures StructHash(Marker(first, hidden)) != StructHash(first)
  {
    MarkerHash(first, hidden);
    DigitsAreDigits(|hidden|);
    BarFirst(first.face.attrs);
    var cls, attrs := ClassHash(first.face.classes), AttrHash(first.face.attrs);
    assert cls + attrs == "" || (cls + attrs)[0] == '|';
    assert StructHash(first) == first.face.shown + (cls + attrs);
    hide StructHash, AttrHash, Marker, ClassHash, Digits;
    NeverEqual("... " + Digits(|hidden|) + " more ", first.face.shown, cls + attrs,
               " items" + cls + AttrHash(["collapsed-run"]));
  }

  lemma {:induction false} BarFirst(attrs: seq<string>)
    ensures AttrHash(attrs) != "" ==> AttrHash(attrs)[0] == '|'
  {
    if attrs != [] { BarFirst(attrs[1..]); }
  }

  lemma {:induction false} NoFiveAlikeFrom(kids: seq<Node>, i: nat, w: nat)
    requires i <= |kids|
    ensures !FiveAlike(CollapseFrom(kids, i), w)
    decreases |kids| - i
  {
    hide StructHash, Marker;
    if i < |kids| {
      var j := RunEnd(kids, i);
      var run, rest := Run(kids, i, j), CollapseFrom(kids, j);
      var all := CollapseFrom(kids, i);
      assert all == run + rest;
      if w >= |run| {
        NoFiveAlikeFrom(kids, j, w - |run|);
        WindowInTheRest(run, rest, w);
      } else if j - i >= 5 {
        MarkerHides(kids[i], kids[i + 2..j]);
        MarkerUnlikeItsRun(kids[i], kids[i + 2..j]);
        RunIsMaximal(kids, i);
        assert all[0] == kids[i] && all[1] == kids[i + 1] && all[2] == Marker(kids[i], kids[i + 2..j]);
      } else if j < |kids| {
        RunIsMaximal(kids, i);
        assert all[|run|] == kids[j] && all[w] == kids[i + w];
      }
    }
  }

  ghost predicate NoFiveAlike(ns: seq<Node>) {
    forall w: nat :: !FiveAlike(ns, w)
  }

  /** At every level, also inside collapsed nodes. */
  ghost predicate Tidy(n: Node)
    decreases n, 1
  {
    NoFiveAlike(n.kids) && TidyAll(n.kids) && TidyAll(n.collapsed)
  }

  ghost predicate TidyAll(ns: seq<Node>)
    decreases ns, 0
  {
    ns == [] || (Tidy(ns[0]) && TidyAll(ns[1..]))
  }

  lemma {:induction false} TidyAllConcat(a: seq<Node>, b: seq<Node>)
    ensures TidyAll(a + b) <==> TidyAll(a) && TidyAll(b)
  {
    if a == [] {
      assert a + b == b;
    } else {
      assert (a + b)[1..] == a[1..] + b;
      TidyAllConcat(a[1..], b);
    }
  }

  lemma {:induction false} RunsStayTidy(kids: seq<Node>, i: nat)
    requires i <= |kids| && TidyAll(kids[i..])
    ensures TidyAll(CollapseFrom(kids, i))
    decreases |kids| - i
  {
    hide StructHash, Marker;
    if i < |kids| {
      var j := RunEnd(kids, i);
      assert kids[i..] == kids[i..j] + kids[j..];
      TidyAllConcat(kids[i..j], kids[j..]);
      RunsStayTidy(kids, j);
      TidyAllConcat(Run(kids, i, j), CollapseFrom(kids, j));
      if j - i >= 5 {
        var shown, hidden := [kids[i], kids[i + 1]], kids[i + 2..j];
        var marker := Marker(kids[i], hidden);
        MarkerHides(kids[i], hidden);
        assert kids[i..j] == shown + hidden;
        TidyAllConcat(shown, hidden);
        assert Run(kids, i, j) == shown + [marker];
        TidyAllConcat(shown, [marker]);
        assert Tidy(marker) && TidyAll([marker][1..]);
      }
    }
  }

  /** After collapsing no five adjacent siblings are structurally equal. */
  lemma {:induction false} CollapsedIsTidy(n: Node)
    requires Plain(n)
    ensures Tidy(CollapseTree(n))
    decreases n, 1
  {
    hide StructHash, Marker;
    CollapsedEachIsTidy(n.kids);
    var each := CollapseEach(n.kids);
    assert each[0..] == each;
    RunsStayTidy(each, 0);
    forall w: nat ensures !FiveAlike(CollapseRepeats(each), w) {
      NoFiveAlikeFrom(each, 0, w);
    }
    assert CollapseTree(n).collapsed == [];
  }

  lemma {:induction false} CollapsedEachIsTidy(ns: seq<Node>)
    requires PlainAll(ns)
    ensures TidyAll(CollapseEach(ns))
    decreases ns, 0
  {
    if ns != [] {
      CollapsedIsTidy(ns[0]);
      CollapsedEachIsTidy(ns[1..]);
    }
  }

  // ------------------------------------------------------ what is printed where

  datatype Part = Part(name: string, content: string)

  /** `collectCollapsed`: one part per marker, never descending into a marker's
      own nodes. */
  function CollectCollapsed(n: Node): seq<Part>
    decreases n, 1
  {
    CollectFrom(n.kids)
  }

  function CollectFrom(ns: seq<Node>): seq<Part>
    decreases ns, 0
  {
    if ns == [] then []
    else (if IsMarker(ns[0]) then [Part(ns[0].face.shown, Join(RenderEach(ns[0].collapsed, 0, map[])))] else [])
         + CollectCollapsed(ns[0]) + CollectFrom(ns[1..])
  }

  /** The line lists behind those parts. */
  function CollectedLines(ns: seq<Node>): seq<seq<Line>>
    decreases ns, 0
  {
    if ns == [] then []
    else (if IsMarker(ns[0]) then [LinesOfAll(ns[0].collapsed, 0, map[])] else [])
         + CollectedLines(ns[0].kids) + CollectedLines(ns[1..])
  }

  lemma {:induction false} PartsPrintCollectedLines(ns: seq<Node>)
    ensures |CollectFrom(ns)| == |CollectedLines(ns)|
    ensures forall k :: 0 <= k < |CollectFrom(ns)| ==> CollectFrom(ns)[k].content == Join(Texts(CollectedLines(ns)[k]))
    decreases ns, 0
  {
    if ns != [] {
      PartsPrintCollectedLines(ns[0].kids);
      PartsPrintCollectedLines(ns[1..]);
      var collapsed := ns[0].collapsed;
      RenderEachPrintsLines([], collapsed, 0, map[]);
      assert [] + RenderEach(collapsed, 0, map[]) == RenderEach(collapsed, 0, map[]);
      assert [] + Texts(LinesOfAll(collapsed, 0, map[])) == Texts(LinesOfAll(collapsed, 0, map[]));
    }
  }

  /** The ordinary nodes behind at least `k` markers. */
  function Behind(n: Node, k: nat): multiset<nat>
    decreases n, 1
  {
    (if k == 0 && !IsMarker(n) then multiset{n.id} else multiset{})
    + BehindAll(n.kids, k)
    + BehindAll(n.collapsed, if k == 0 then 0 else k - 1)
  }

  function BehindAll(ns: seq<Node>, k: nat): multiset<nat>
    decreases ns, 0
  {
    if ns == [] then multiset{} else Behind(ns[0], k) + BehindAll(ns[1..], k)
  }

  /** The ordinary nodes that these lines show. */
  function Shown(lines: seq<Line>): multiset<nat> {
    if lines == [] then multiset{}
    else (if lines[0].marker then multiset{} else multiset{lines[0].id}) + Shown(lines[1..])
  }

  function ShownInAll(parts: seq<seq<Line>>): multiset<nat> {
    if parts == [] then multiset{} else Shown(parts[0]) + ShownInAll(parts[1..])
  }

  lemma {:induction false} ShownConcat(a: seq<Line>, b: seq<Line>)
    ensures Shown(a + b) == Shown(a) + Shown(b)
  {
    if a == [] {
      assert a + b == b;
    } else {
      assert (a + b)[1..] == a[1..] + b;
      ShownConcat(a[1..], b);
    }
  }

  lemma {:induction false} ShownInAllConcat(a: seq<seq<Line>>, b: seq<seq<Line>>)
    ensures ShownInAll(a + b) == ShownInAll(a) + ShownInAll(b)
  {
    if a == [] {
      assert a + b == b;
    } else {
      assert (a + b)[1..] == a[1..] + b;
      ShownInAllConcat(a[1..], b);
    }
  }

  lemma {:induction false} LinesShowAllButCollapsed(n: Node, depth: nat)
    ensures Shown(Lines(n, depth, map[])) + Behind(n, 1) == Behind(n, 0)
    decreases n, 1
  {
    var own := Line(n.id, IsMarker(n), OwnLine(n, depth));
    LinesOfAllShowAllButCollapsed(n.kids, depth + 1);
    ShownConcat([own], LinesOfAll(n.kids, depth + 1, map[]));
    assert Shown([own]) == (if IsMarker(n) then multiset{} else multiset{n.id}) + Shown([]);
  }

  lemma {:induction false} LinesOfAllShowAllButCollapsed(ns: seq<Node>, depth: nat)
    ensures Shown(LinesOfAll(ns, depth, map[])) + BehindAll(ns, 1) == BehindAll(ns, 0)
    decreases ns, 0
  {
    if ns != [] {
      LinesShowAllButCollapsed(ns[0], depth);
      LinesOfAllShowAllButCollapsed(ns[1..], depth);
      ShownConcat(Lines(ns[0], depth, map[]), LinesOfAll(ns[1..], depth, map[]));
    }
  }

  /** The part of a marker, if `n` is one. */
  function OwnPart(n: Node): seq<seq<Line>> {
    if IsMarker(n) then [LinesOfAll(n.collapsed, 0, map[])] else []
  }

  lemma OwnPartShows(n: Node)
    ensures ShownInAll(OwnPart(n)) + BehindAll(n.collapsed, 1) == BehindAll(n.collapsed, 0)
  {
    LinesOfAllShowAllButCollapsed(n.collapsed, 0);
    if IsMarker(n) { assert OwnPart(n)[1..] == []; }
  }

  lemma {:induction false} PartsShowTheFirstLayer(ns: seq<Node>)
    ensures ShownInAll(CollectedLines(ns)) + BehindAll(ns, 2) == BehindAll(ns, 1)
    decreases ns, 0
  {
    if ns != [] {
      var n := ns[0];
      PartsShowTheFirstLayer(n.kids);
      PartsShowTheFirstLayer(ns[1..]);
      OwnPartShows(n);
      ShownInAllConcat(OwnPart(n) + CollectedLines(n.kids), CollectedLines(ns[1..]));
      ShownInAllConcat(OwnPart(n), CollectedLines(n.kids));
      assert CollectedLines(ns) == OwnPart(n) + CollectedLines(n.kids) + CollectedLines(ns[1..]);
      assert BehindAll(ns, 1) == BehindAll(n.kids, 1) + BehindAll(n.collapsed, 0) + BehindAll(ns[1..], 1);
      assert BehindAll(ns, 2) == BehindAll(n.kids, 2) + BehindAll(n.collapsed, 1) + BehindAll(ns[1..], 2);
      hide ShownInAll, CollectedLines, BehindAll, OwnPart;
    }
  }

  lemma {:induction false} BehindAllConcat(a: seq<Node>, b: seq<Node>, k: nat)
    ensures BehindAll(a + b, k) == BehindAll(a, k) + BehindAll(b, k)
  {
    if a == [] {
      assert a + b == b;
    } else {
      assert (a + b)[1..] == a[1..] + b;
      BehindAllConcat(a[1..], b, k);
    }
  }

  lemma RunKeepsNodes(kids: seq<Node>, i: nat, j: nat)
    requires i <= j <= |kids|
    ensures BehindAll(Run(kids, i, j), 0) == BehindAll(kids[i..j], 0)
  {
    hide StructHash, Marker;
    if j - i >= 5 {
      var shown, hidden := [kids[i], kids[i + 1]], kids[i + 2..j];
      var marker := Marker(kids[i], hidden);
      MarkerHides(kids[i], hidden);
      assert kids[i..j] == shown + hidden && Run(kids, i, j) == shown + [marker];
      BehindAllConcat(shown, hidden, 0);
      BehindAllConcat(shown, [marker], 0);
      assert BehindAll([marker], 0) == Behind(marker, 0) + BehindAll([], 0);
    }
  }

  lemma BehindOfSplit(run: seq<Node>, rest: seq<Node>, kids: seq<Node>, i: nat, j: nat)
    requires i <= j <= |kids|
    requires BehindAll(run, 0) == BehindAll(kids[i..j], 0) && BehindAll(rest, 0) == BehindAll(kids[j..], 0)
    ensures BehindAll(run + rest, 0) == BehindAll(kids[i..], 0)
  {
    assert kids[i..] == kids[i..j] + kids[j..];
    BehindAllConcat(run, rest, 0);
    BehindAllConcat(kids[i..j], kids[j..], 0);
  }

  lemma {:induction false} RunsKeepNodes(kids: seq<Node>, i: nat)
    requires i <= |kids|
    ensures BehindAll(CollapseFrom(kids, i), 0) == BehindAll(kids[i..], 0)
    decreases |kids| - i
  {
    hide Run, RunEnd;
    if i == |kids| {
      assert kids[i..] == [];
    } else {
      var j := RunEnd(kids, i);
      RunKeepsNodes(kids, i, j);
      RunsKeepNodes(kids, j);
      BehindOfSplit(Run(kids, i, j), CollapseFrom(kids, j), kids, i, j);
    }
  }

  lemma {:induction false} CollapseKeepsNodes(n: Node)
    requires Plain(n)
    ensures Behind(CollapseTree(n), 0) == Behind(n, 0)
    decreases n, 1
  {
    CollapseEachKeepsNodes(n.kids);
    var each := CollapseEach(n.kids);
    assert each[0..] == each;
    RunsKeepNodes(each, 0);
  }

  lemma {:induction false} CollapseEachKeepsNodes(ns: seq<Node>)
    requires PlainAll(ns)
    ensures BehindAll(CollapseEach(ns), 0) == BehindAll(ns, 0)
    decreases ns, 0
  {
    if ns != [] {
      CollapseKeepsNodes(ns[0]);
      CollapseEachKeepsNodes(ns[1..]);
    }
  }

  /** With a budget, the original nodes are those the inline text shows, those
      the collapsed parts show, and those behind a marker that lies inside a
      collapsed node: the last are printed nowhere. */
  lemma OnlyNestedCollapsesAreLost(root: Node)
    requires Plain(root)
    ensures
      var t := CollapseTree(root);
      BehindAll(root.kids, 0)
      == Shown(LinesOfAll(t.kids, 0, map[])) + ShownInAll(CollectedLines(t.kids)) + BehindAll(t.kids, 2)
  {
    var t := CollapseTree(root);
    CollapseEachKeepsNodes(root.kids);
    RunsKeepNodes(CollapseEach(root.kids), 0);
    assert CollapseEach(root.kids)[0..] == CollapseEach(root.kids);
    hide CollapseFrom;
    LinesOfAllShowAllButCollapsed(t.kids, 0);
    PartsShowTheFirstLayer(t.kids);
  }

  /** Without a budget no part is collected, and every collapsed node is lost. */
  lemma WithoutBudgetCollapsesAreLost(root: Node)
    requires Plain(root)
    ensures var t := CollapseTree(root);
            BehindAll(root.kids, 0) == Shown(LinesOfAll(t.kids, 0, map[])) + BehindAll(t.kids, 1)
  {
    OnlyNestedCollapsesAreLost(root);
    PartsShowTheFirstLayer(CollapseTree(root).kids);
  }
}
