/**
 Snapshots with overlays: the pointers left in the page hide nothing, because
 what they stand for is shown above.
 */
module SnapshotCoverage {
  import opened SnapshotTree
  import opened SnapshotBudget
  import opened Collapse

  /** Below `n`, a node that is left out of the page is one of these overlays. */
  predicate PointsInto(n: Node, skips: Skips, overlays: seq<Node>)
    decreases n, 1
  {
    (Skipped(n, skips) ==> n in overlays) && AllPointInto(n.kids, skips, overlays)
  }

  predicate AllPointInto(ns: seq<Node>, skips: Skips, overlays: seq<Node>)
    decreases ns, 0
  {
    ns == [] || (PointsInto(ns[0], skips, overlays) && AllPointInto(ns[1..], skips, overlays))
  }

  /** What a node's lines show does not depend on where it stands. */
  lemma DepthShowsTheSame(n: Node, depth: nat)
    ensures Shown(Lines(n, depth, map[])) == Shown(Lines(n, 0, map[]))
  {
    LinesShowAllButCollapsed(n, depth);
    LinesShowAllButCollapsed(n, 0);
    hide Shown, Lines, Behind;
    var a, b, c, all := Shown(Lines(n, depth, map[])), Shown(Lines(n, 0, map[])), Behind(n, 1), Behind(n, 0);
    assert a == all - c && b == all - c;
  }

  lemma {:induction false} MemberIsShown(ns: seq<Node>, n: Node)
    requires n in ns
    ensures Shown(Lines(n, 0, map[])) <= Shown(LinesOfAll(ns, 0, map[]))
  {
    ShownConcat(Lines(ns[0], 0, map[]), LinesOfAll(ns[1..], 0, map[]));
    if n != ns[0] { MemberIsShown(ns[1..], n); }
  }

  /** A node that the whole page shows is shown in the page with pointers, or by
      an overlay. */
  lemma {:induction false} PointersHideNothing(n: Node, depth: nat, skips: Skips, overlays: seq<Node>, id: nat)
    requires PointsInto(n, skips, overlays) && id in Shown(Lines(n, depth, map[]))
    ensures id in Shown(Lines(n, depth, skips)) || id in Shown(LinesOfAll(overlays, 0, map[]))
    decreases n, 1
  {
    if Skipped(n, skips) {
      DepthShowsTheSame(n, depth);
      MemberIsShown(overlays, n);
    } else {
      var own := [Line(n.id, IsMarker(n), OwnLine(n, depth))];
      ShownConcat(own, LinesOfAll(n.kids, depth + 1, map[]));
      ShownConcat(own, LinesOfAll(n.kids, depth + 1, skips));
      assert Lines(n, depth, map[]) == own + LinesOfAll(n.kids, depth + 1, map[]);
      if id !in Shown(own) { PointersHideNone(n.kids, depth + 1, skips, overlays, id); }
    }
  }

  lemma {:induction false} PointersHideNone(ns: seq<Node>, depth: nat, skips: Skips, overlays: seq<Node>, id: nat)
    requires AllPointInto(ns, skips, overlays) && id in Shown(LinesOfAll(ns, depth, map[]))
    ensures id in Shown(LinesOfAll(ns, depth, skips)) || id in Shown(LinesOfAll(overlays, 0, map[]))
    decreases ns, 0
  {
    if ns == [] {
      assert false;
    } else {
      ShownConcat(Lines(ns[0], depth, map[]), LinesOfAll(ns[1..], depth, map[]));
      ShownConcat(Lines(ns[0], depth, skips), LinesOfAll(ns[1..], depth, skips));
      if id in Shown(Lines(ns[0], depth, map[])) {
        PointersHideNothing(ns[0], depth, skips, overlays, id);
      } else {
        PointersHideNone(ns[1..], depth, skips, overlays, id);
      }
    }
  }

  /** With overlays shown first, a node of the original tree is still shown by an
      overlay, in the page or in a collapsed part, unless it is behind a marker
      that lies inside a collapsed node. */
  lemma OverlaysHideNothing(root: Node, os: seq<Overlay>, id: nat)
    requires Plain(root) && id in BehindAll(root.kids, 0)
    requires AllPointInto(CollapseTree(root).kids, PointersTo(os), OverlayNodes(os))
    ensures var kids := CollapseTree(root).kids;
            || id in Shown(LinesOfAll(OverlayNodes(os), 0, map[]))
            || id in Shown(LinesOfAll(kids, 0, PointersTo(os)))
            || id in ShownInAll(CollectedLines(kids))
            || id in BehindAll(kids, 2)
  {
    var kids := CollapseTree(root).kids;
    OnlyNestedCollapsesAreLost(root);
    hide Shown, LinesOfAll, AllPointInto, CollapseTree, BehindAll, ShownInAll, CollectedLines;
    if id in Shown(LinesOfAll(kids, 0, map[])) {
      PointersHideNone(kids, 0, PointersTo(os), OverlayNodes(os), id);
    }
  }
}
