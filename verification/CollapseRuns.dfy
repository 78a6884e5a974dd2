/**
 Collapsing, said without the loop: the siblings fall into maximal runs of equal
 structure; a run of five or more keeps its first two and a marker for the rest,
 any other run is left as it is.
 */
module CollapseRuns {
  import opened SnapshotTree
  import opened Collapse
  import opened SnapshotPlaceholder

  function Flat(runs: seq<seq<Node>>): seq<Node> {
    if runs == [] then [] else runs[0] + Flat(runs[1..])
  }

  ghost predicate Alike(run: seq<Node>) {
    run != [] && forall k :: 0 <= k < |run| ==> StructHash(run[k]) == StructHash(run[0])
  }

  /** `runs` are the maximal runs of equal hashes. */
  ghost predicate AreRuns(runs: seq<seq<Node>>, kids: seq<Node>) {
    && Flat(runs) == kids && (forall r :: 0 <= r < |runs| ==> Alike(runs[r]))
    && forall r :: 0 <= r < |runs| - 1 ==> StructHash(runs[r][0]) != StructHash(runs[r + 1][0])
  }

  /** `m` stands for the nodes of the run but its first two, and says how many. */
  ghost predicate MarksRest(m: Node, run: seq<Node>)
    requires |run| >= 2
  {
    && m.collapsed == run[2..] && m.kids == [] && m.id == run[0].id
    && m.face.name == "" && m.face.attrs == ["collapsed-run"]
    && exists d: string :: m.face.shown == "... " + d + " more " + run[0].face.shown + " items" && Writes(d, |run| - 2)
  }

  /** `d` is the number in decimal. */
  ghost predicate Writes(d: string, n: nat) {
    d != "" && (forall c :: c in d ==> IsDigit(c)) && Number(d) == n
  }

  /** What a run leaves in the list. */
  ghost predicate Leaves(run: seq<Node>, part: seq<Node>) {
    if |run| < 5 then part == run
    else |part| == 3 && part[0] == run[0] && part[1] == run[1] && MarksRest(part[2], run)
  }

  ghost predicate EachLeaves(runs: seq<seq<Node>>, parts: seq<seq<Node>>) {
    |parts| == |runs| && forall r :: 0 <= r < |runs| ==> Leaves(runs[r], parts[r])
  }

  lemma RunLeaves(kids: seq<Node>, i: nat, j: nat)
    requires i < j <= |kids|
    ensures Leaves(kids[i..j], Run(kids, i, j))
  {
    if j - i >= 5 {
      var run, part := kids[i..j], Run(kids, i, j);
      MarkerMarks(run);
      assert kids[i + 2..j] == run[2..];
    }
  }

  lemma MarkerMarks(run: seq<Node>)
    requires |run| >= 2
    ensures MarksRest(Marker(run[0], run[2..]), run)
  {
    NumberOfDigits(|run| - 2);
    var d := Digits(|run| - 2);
    assert Writes(d, |run| - 2);
    hide Digits, Number;
  }

  lemma RunIsAlike(kids: seq<Node>, i: nat)
    requires i < |kids|
    ensures Alike(kids[i..RunEnd(kids, i)])
  {
    RunIsMaximal(kids, i);
    hide StructHash;
  }

  lemma FlatOne(run: seq<Node>, rest: seq<seq<Node>>)
    ensures Flat([run] + rest) == run + Flat(rest)
  {
  }

  lemma ConsRuns(run: seq<Node>, runs: seq<seq<Node>>, rest: seq<Node>)
    requires Alike(run) && AreRuns(runs, rest)
    requires runs != [] ==> runs[0] != [] && StructHash(run[0]) != StructHash(runs[0][0])
    ensures AreRuns([run] + runs, run + rest)
  {
    FlatOne(run, runs);
    hide StructHash;
    var all := [run] + runs;
    forall r | 0 <= r < |all| ensures Alike(all[r]) {
      if r > 0 { assert Alike(runs[r - 1]); }
    }
    forall r | 0 <= r < |all| - 1 ensures StructHash(all[r][0]) != StructHash(all[r + 1][0]) {
      if r > 0 { assert all[r] == runs[r - 1] && all[r + 1] == runs[r]; }
    }
  }

  lemma {:induction false} RunsFrom(kids: seq<Node>, i: nat) returns (runs: seq<seq<Node>>, parts: seq<seq<Node>>)
    requires i <= |kids|
    ensures AreRuns(runs, kids[i..]) && EachLeaves(runs, parts) && Flat(parts) == CollapseFrom(kids, i)
    ensures i < |kids| ==> runs != [] && runs[0] == kids[i..RunEnd(kids, i)]
    decreases |kids| - i
  {
    hide StructHash, Run, Leaves, Alike;
    if i == |kids| {
      runs, parts := [], [];
    } else {
      var j := RunEnd(kids, i);
      RunLeaves(kids, i, j);
      RunIsAlike(kids, i);
      RunIsMaximal(kids, i);
      var runs', parts' := RunsFrom(kids, j);
      runs, parts := [kids[i..j]] + runs', [Run(kids, i, j)] + parts';
      FlatOne(Run(kids, i, j), parts');
      assert kids[i..] == kids[i..j] + kids[j..];
      NoRuns(runs', kids[j..]);
      ConsRuns(kids[i..j], runs', kids[j..]);
    }
  }

  lemma {:induction false} ShortRunsStay(runs: seq<seq<Node>>, parts: seq<seq<Node>>)
    requires EachLeaves(runs, parts) && forall r :: 0 <= r < |runs| ==> |runs[r]| < 5
    ensures parts == runs
  {
  }

  lemma {:induction false} FlatIsLong(runs: seq<seq<Node>>, r: nat)
    requires r < |runs|
    ensures |runs[r]| <= |Flat(runs)|
  {
    if r > 0 { FlatIsLong(runs[1..], r - 1); }
  }

  /** `collapseRepeats` on any siblings, fewer than five included. */
  lemma CollapsedByRuns(kids: seq<Node>) returns (runs: seq<seq<Node>>, parts: seq<seq<Node>>)
    ensures AreRuns(runs, kids) && EachLeaves(runs, parts) && Flat(parts) == CollapseRepeats(kids)
  {
    runs, parts := RunsFrom(kids, 0);
    assert kids[0..] == kids;
    if |kids| < 5 {
      forall r | 0 <= r < |runs| ensures |runs[r]| < 5 { FlatIsLong(runs, r); }
      ShortRunsStay(runs, parts);
    }
  }

  lemma WithinFirst(a: seq<seq<Node>>, kids: seq<Node>, n: nat)
    requires AreRuns(a, kids) && a != [] && n < |a[0]|
    ensures |a[0]| <= |kids| && StructHash(kids[n]) == StructHash(kids[0])
  {
    hide StructHash;
    assert kids == a[0] + Flat(a[1..]) && Alike(a[0]);
  }

  lemma FlatRest(a: seq<seq<Node>>)
    requires a != []
    ensures |a| == 1 ==> Flat(a[1..]) == []
  {
  }

  lemma BehindFirst(a: seq<seq<Node>>, kids: seq<Node>)
    requires AreRuns(a, kids) && a != [] && |a[0]| < |kids|
    ensures StructHash(kids[|a[0]|]) != StructHash(kids[0])
  {
    hide StructHash;
    assert kids == a[0] + Flat(a[1..]) && Alike(a[0]);
    FlatRest(a);
    if |a| > 1 {
      assert Flat(a[1..]) == a[1] + Flat(a[1..][1..]) && Alike(a[1]);
      assert StructHash(a[0][0]) != StructHash(a[0 + 1][0]);
    }
  }

  lemma FirstRuns(a: seq<seq<Node>>, b: seq<seq<Node>>, kids: seq<Node>)
    requires AreRuns(a, kids) && AreRuns(b, kids) && a != [] && b != []
    ensures |a[0]| <= |b[0]|
  {
    hide AreRuns, StructHash;
    if |a[0]| > |b[0]| {
      WithinFirst(a, kids, |b[0]|);
      BehindFirst(b, kids);
    }
  }

  lemma NoRuns(a: seq<seq<Node>>, kids: seq<Node>)
    requires AreRuns(a, kids)
    ensures a == [] <==> kids == []
  {
    if a != [] { WithinFirstIsSome(a, kids); }
  }

  lemma WithinFirstIsSome(a: seq<seq<Node>>, kids: seq<Node>)
    requires AreRuns(a, kids) && a != []
    ensures kids != []
  {
    hide StructHash;
    assert kids == a[0] + Flat(a[1..]) && Alike(a[0]);
  }

  /** There is one way only to divide the siblings into maximal runs. */
  lemma {:induction false} RunsAreUnique(a: seq<seq<Node>>, b: seq<seq<Node>>, kids: seq<Node>)
    requires AreRuns(a, kids) && AreRuns(b, kids)
    ensures a == b
    decreases |a|
  {
    hide StructHash;
    NoRuns(a, kids);
    NoRuns(b, kids);
    if a != [] && b != [] {
      FirstRuns(a, b, kids);
      FirstRuns(b, a, kids);
      assert a[0] == kids[..|a[0]|] == b[0];
      var rest := kids[|a[0]|..];
      assert Flat(a[1..]) == rest && Flat(b[1..]) == rest;
      TailRuns(a, kids);
      TailRuns(b, kids);
      RunsAreUnique(a[1..], b[1..], rest);
      assert a == [a[0]] + a[1..] && b == [b[0]] + b[1..];
    }
  }

  lemma TailRuns(a: seq<seq<Node>>, kids: seq<Node>)
    requires AreRuns(a, kids) && a != []
    ensures AreRuns(a[1..], Flat(a[1..]))
  {
    hide StructHash;
    var t := a[1..];
    forall r | 0 <= r < |t| ensures Alike(t[r]) { assert t[r] == a[r + 1]; }
    forall r | 0 <= r < |t| - 1 ensures StructHash(t[r][0]) != StructHash(t[r + 1][0]) {
      assert t[r] == a[r + 1] && t[r + 1] == a[r + 2];
    }
  }

  // ------------------------------------------------------------------ the hash

  lemma {:induction false} AttrHashConcat(a: seq<string>, b: seq<string>)
    ensures AttrHash(a + b) == AttrHash(a) + AttrHash(b)
  {
    if a == [] {
      assert a + b == b;
    } else {
      assert (a + b)[1..] == a[1..] + b;
      AttrHashConcat(a[1..], b);
      var first := if Counts(a[0]) then "|" + a[0] else "";
      assert first + (AttrHash(a[1..]) + AttrHash(b)) == first + AttrHash(a[1..]) + AttrHash(b);
    }
  }

  /** Element references and component names are not looked at, and any other
      attribute is. */
  lemma OneAttributeMore(n: Node, a: seq<string>, attr: string, b: seq<string>)
    ensures var with, without := n.(face := n.face.(attrs := a + [attr] + b)), n.(face := n.face.(attrs := a + b));
            StructHash(with) == StructHash(without) <==> "ref=" <= attr || "component=" <= attr
  {
    AttrHashConcat(a + [attr], b);
    AttrHashConcat(a, [attr]);
    AttrHashConcat(a, b);
    hide AttrHash;
    AttrHashOne(attr);
    var front := n.face.shown + ClassHash(n.face.classes);
    assert |AttrHash(a + [attr] + b)| == |AttrHash(a + b)| + |AttrHash([attr])|;
    assert "ref=" <= attr || "component=" <= attr ==> AttrHash(a) + AttrHash([attr]) == AttrHash(a);
  }

  lemma AttrHashOne(attr: string)
    ensures AttrHash([attr]) == if "ref=" <= attr || "component=" <= attr then "" else "|" + attr
  {
    assert [attr][1..] == [];
  }

  /** Names, children and identity play no part. */
  lemma NamesDoNotCount(n: Node, m: Node)
    requires n.face.shown == m.face.shown && n.face.classes == m.face.classes && n.face.attrs == m.face.attrs
    ensures StructHash(n) == StructHash(m)
  {
  }

  /** With the same attributes, label and classes decide. */
  lemma LabelAndClassesCount(n: Node, m: Node)
    requires n.face.attrs == m.face.attrs
    requires '|' !in n.face.shown && '|' !in m.face.shown && '|' !in n.face.classes && '|' !in m.face.classes
    ensures StructHash(n) == StructHash(m) <==> n.face.shown == m.face.shown && n.face.classes == m.face.classes
  {
    var a, b := n.face.shown + ClassHash(n.face.classes), m.face.shown + ClassHash(m.face.classes);
    var t := AttrHash(n.face.attrs);
    if a + t == b + t {
      assert |a| == |b| && a == (a + t)[..|a|] == (b + t)[..|b|] == b;
      BeforeBar(n.face.shown, ClassHash(n.face.classes), m.face.shown, ClassHash(m.face.classes));
      ClassesAreSeen(n.face.classes, m.face.classes);
    }
  }

  lemma ClassesAreSeen(c: string, d: string)
    requires ClassHash(c) == ClassHash(d)
    ensures c == d
  {
    assert c != "" ==> ClassHash(c)[5..] == c;
    assert d != "" ==> ClassHash(d)[5..] == d;
  }

  /** Where the first bar is, or the end. */
  function FirstBar(s: string): nat {
    if s == "" || s[0] == '|' then 0 else 1 + FirstBar(s[1..])
  }

  lemma {:induction false} FirstBarOf(x: string, c: string)
    requires '|' !in x && (c == "" || c[0] == '|')
    ensures FirstBar(x + c) == |x|
  {
    if x == "" {
      assert x + c == c;
    } else {
      assert (x + c)[1..] == x[1..] + c && x[0] in x;
      FirstBarOf(x[1..], c);
    }
  }

  lemma BeforeBar(x: string, c: string, y: string, d: string)
    requires '|' !in x && '|' !in y && x + c == y + d
    requires (c == "" || c[0] == '|') && (d == "" || d[0] == '|')
    ensures x == y && c == d
  {
    FirstBarOf(x, c);
    FirstBarOf(y, d);
    var s := x + c;
    assert x == s[..|x|] && y == s[..|y|] && c == s[|x|..] && d == s[|y|..];
  }

  // ----------------------------------------------------------------- the parts

  /** The markers of a tree in the order of its lines. */
  function Markers(ns: seq<Node>): seq<Node>
    decreases ns, 0
  {
    if ns == [] then []
    else (if IsMarker(ns[0]) then [ns[0]] else []) + Markers(ns[0].kids) + Markers(ns[1..])
  }

  /** `collectCollapsed`: one part for each marker, in order, under its label and
      with its nodes rendered from the margin. */
  lemma {:induction false} PartsAreMarkers(ns: seq<Node>)
    ensures |CollectFrom(ns)| == |Markers(ns)|
    ensures forall k :: 0 <= k < |Markers(ns)| ==>
              IsMarker(Markers(ns)[k]) &&
              CollectFrom(ns)[k] == Part(Markers(ns)[k].face.shown,
                                         Join(RenderEach(Markers(ns)[k].collapsed, 0, map[])))
    decreases ns, 0
  {
    hide Join, RenderEach;
    if ns != [] {
      PartsAreMarkers(ns[0].kids);
      PartsAreMarkers(ns[1..]);
    }
  }
}
