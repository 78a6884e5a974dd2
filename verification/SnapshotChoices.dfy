/**
 What a budget spills and what it leaves inline: nothing is spilled that fits.
 Sizes are stated in the characters of the text, at 3.5 for a token.
 */
module SnapshotChoices {
  import opened Wrappers
  import opened SnapshotTree
  import opened SnapshotBudget
  import opened SnapshotPlaceholder
  import opened SnapshotReassembly
  import opened Collapse

  /** There is room for the node's own line and 48 tokens more. */
  predicate HasRoomFor48More(used: nat, line: string, max: nat) {
    used + 48 <= max && HasRoom(used, line, max - 48)
  }

  /** One node: a pointer for an overlay shown above; all of it inline if there is
      room; if not, its own line inline and then its children, if it has any, is
      less than 24 levels down and there is room; if not, one subtree. */
  lemma EmitChooses(e: Emitted, n: Node, depth: nat, level: nat, skips: Skips, max: nat)
    ensures
      var f := Emit(e, n, depth, level, skips, max);
      var text, line := RenderNode(n, depth, skips), OwnLine(n, depth);
      if (!IsMarker(n) && n.id in skips) || HasRoom(e.used, text, max) then
        && f.subtrees == e.subtrees && f.split == e.split
        && |f.pieces| == |e.pieces| + 1 && f.pieces[..|e.pieces|] == e.pieces && f.pieces[|e.pieces|].text == text
      else if n.kids != [] && level < 24 && HasRoomFor48More(e.used, line, max) then
        && |f.pieces| > |e.pieces| && f.pieces[..|e.pieces|] == e.pieces && f.pieces[|e.pieces|] == Piece(line, Own)
        && f == EmitKids(Push(e.(split := true), Piece(line, Own)), n, 0, depth, level, skips, max)
      else
        && f.subtrees == e.subtrees + [Subtree(SectionLabel(n), text)] && f.split
        && |f.pieces| == |e.pieces| + 1 && f.pieces[..|e.pieces|] == e.pieces
        && f.pieces[|e.pieces|].kind == Placeholder
  {
    hide EstimateTokens, RenderNode, SectionLabel, PlaceholderLine, EmitKids;
    var text, line := RenderNode(n, depth, skips), OwnLine(n, depth);
    RoomIffFits(e, text, max);
    RoomFor48(e.used, line, max);
    var entered := Push(e.(split := true), Piece(line, Own));
    if n.kids != [] && level < 24 {
      KidsOnlyAdd(entered, n, depth, level, skips, max);
      assert entered.pieces == e.pieces + [Piece(line, Own)];
    }
    hide OwnLine;
  }

  lemma RoomFor48(used: nat, line: string, max: nat)
    ensures used + EstimateTokens(line) + 48 <= max <==> HasRoomFor48More(used, line, max)
  {
  }

  lemma KidsOnlyAdd(entered: Emitted, n: Node, depth: nat, level: nat, skips: Skips, max: nat)
    ensures entered.pieces <= EmitKids(entered, n, 0, depth, level, skips, max).pieces
  {
    EmitKidsReassembles([], entered, n, 0, depth, level, skips, max);
    hide EmitKids, NewTexts, Labelled;
  }

  /** Child by child, until fewer than 24 tokens are left while more than one child
      is to come: these go into one subtree, whose label tells how many. */
  lemma KidsChoose(e: Emitted, n: Node, ci: nat, depth: nat, level: nat, skips: Skips, max: nat)
    requires ci < |n.kids|
    ensures
      var f := EmitKids(e, n, ci, depth, level, skips, max);
      if e.used + 24 > max && |n.kids| - ci > 1 then
        && |f.subtrees| == |e.subtrees| + 1 && f.subtrees[..|e.subtrees|] == e.subtrees
        && f.subtrees[|e.subtrees|].content == Join(RenderEach(n.kids[ci..], depth + 1, skips))
        && NumberBefore(f.subtrees[|e.subtrees|].name, " nodes)")
           == Some(Found(|n.kids| - ci, "rest of " + SectionLabel(n) + " ("))
        && |f.pieces| == |e.pieces| + 1 && f.pieces[|e.pieces|].kind == Placeholder
      else
        f == EmitKids(Emit(e, n.kids[ci], depth + 1, level + 1, skips, max), n, ci + 1, depth, level, skips, max)
  {
    hide EstimateTokens, RenderEach, SectionLabel, PlaceholderLine, Emit, RestLabel, Join, NumberBefore;
    RestLabelTells(n, |n.kids| - ci);
  }

  lemma RestLabelTells(n: Node, left: nat)
    ensures NumberBefore(RestLabel(n, left), " nodes)") == Some(Found(left, "rest of " + SectionLabel(n) + " ("))
  {
    var front := "rest of " + SectionLabel(n) + " (";
    assert RestLabel(n, left) == front + Digits(left) + " nodes)";
    hide SectionLabel, Digits, NumberBefore, RestLabel;
    NumberIsFound(front, left, " nodes)");
  }

  /** If the header and the whole page fit together, that is what is shown, with no
      subtree, pointer or placeholder. */
  lemma WholePageIfItFits(header: string, os: seq<Overlay>, ns: seq<Node>, max: nat)
    requires HasRoom(EstimateTokens(header), Join(RenderEach(ns, 0, map[])), max)
    ensures
      var e, full := Snapshot(header, os, ns, max), Join(RenderEach(ns, 0, map[]));
      && e.subtrees == [] && !e.split
      && e.pieces == (if header == "" then [] else [Piece(header, Header)])
                     + (if full == "" then [] else [Piece(full, Whole)])
      && e.used == EstimateTokens(header) + EstimateTokens(full)
  {
    hide Join, RenderEach;
    RoomIffFits(Start(header), Join(RenderEach(ns, 0, map[])), max);
  }

  /** If they do not, every overlay is emitted first, and then the page's sections,
      with pointers to the overlays. */
  lemma OverlaysFirstIfNot(header: string, os: seq<Overlay>, ns: seq<Node>, max: nat)
    requires !HasRoom(EstimateTokens(header), Join(RenderEach(ns, 0, map[])), max)
    ensures
      exists mid: Emitted ::
        && Grows(Start(header), mid) && Grows(mid, Snapshot(header, os, ns, max))
        && Join(NewTexts(Start(header), mid)) == Join(RenderEach(OverlayNodes(os), 0, map[]))
        && Join(NewTexts(mid, Snapshot(header, os, ns, max))) == Join(RenderEach(ns, 0, PointersTo(os)))
  {
    hide Join, RenderEach, EmitSections, Grows, NewTexts;
    var e := Start(header);
    RoomIffFits(e, Join(RenderEach(ns, 0, map[])), max);
    var mid := EmitSections(e, OverlayNodes(os), map[], max);
    SectionsReassemble([], e, OverlayNodes(os), map[], max);
    SectionsReassemble([], mid, ns, PointersTo(os), max);
    NoPrefix(NewTexts(e, mid));
    NoPrefix(RenderEach(OverlayNodes(os), 0, map[]));
    NoPrefix(NewTexts(mid, Snapshot(header, os, ns, max)));
    NoPrefix(RenderEach(ns, 0, PointersTo(os)));
  }

  lemma NoPrefix(texts: seq<string>)
    ensures [] + texts == texts
  {
  }

  /** A subtree's label: what the node shows, or `section`, its anchor, and the first
      thirty characters of its name, if it has one, in quotes. */
  lemma SectionLabelSays(n: Node)
    ensures var base := (if n.face.shown == "" then "section" else n.face.shown) + n.face.anchor;
            && (n.face.name == "" ==> SectionLabel(n) == base)
            && (0 < |n.face.name| <= 30 ==> SectionLabel(n) == base + " \"" + n.face.name + "\"")
            && (|n.face.name| > 30 ==> SectionLabel(n) == base + " \"" + n.face.name[..30] + "\"")
  {
    var base, name := (if n.face.shown == "" then "section" else n.face.shown) + n.face.anchor, n.face.name;
    if 0 < |name| <= 30 { assert name[..|name|] == name; }
    var short := name[..if |name| < 30 then |name| else 30];
    assert base + (" \"" + short + "\"") == base + " \"" + short + "\"";
  }
}
