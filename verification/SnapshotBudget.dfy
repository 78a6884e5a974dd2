/**
 Budgeted rendering: `emitNode` and `spill`, with the pieces, the subtrees and
 the token account they change.
 */
module SnapshotBudget {
  import opened SnapshotTree
  import Collapse

  const MIN_RECURSE_TOKENS: nat := 48
  const MAX_LEVEL: nat := 24

  /** `Math.ceil(text.length / 3.5)`. */
  function EstimateTokens(text: string): nat {
    (2 * |text| + 6) / 7
  }

  datatype Kind = Header | Whole | Own | Pointer | Placeholder

  /** One entry of `snapshotLines`, with the push it comes from. */
  datatype Piece = Piece(text: string, kind: Kind)

  datatype Subtree = Subtree(name: string, content: string)

  datatype Emitted = Emitted(pieces: seq<Piece>, subtrees: seq<Subtree>, used: nat, split: bool)

  // -------------------------------------------------------------- emission

  function SectionLabel(n: Node): string {
    (if n.face.shown == "" then "section" else n.face.shown) + n.face.anchor
    + (if n.face.name != "" then " \"" + n.face.name[..if |n.face.name| < 30 then |n.face.name| else 30] + "\"" else "")
  }

  function PlaceholderLine(s: Subtree, k: nat, depth: nat): string {
    Indent(depth) + "- [subtree: " + s.name + "] (" + Collapse.Digits(EstimateTokens(s.content))
    + " tokens, see subtrees[" + Collapse.Digits(k) + "])"
  }

  function Push(e: Emitted, p: Piece): Emitted {
    e.(pieces := e.pieces + [p], used := e.used + EstimateTokens(p.text))
  }

  function Spill(e: Emitted, s: Subtree, depth: nat): Emitted {
    Push(e.(split := true, subtrees := e.subtrees + [s]),
         Piece(PlaceholderLine(s, |e.subtrees|, depth), Placeholder))
  }

  function RestLabel(n: Node, left: nat): string {
    "rest of " + SectionLabel(n) + " (" + Collapse.Digits(left) + " nodes)"
  }

  predicate Fits(e: Emitted, text: string, max: nat) {
    e.used + EstimateTokens(text) <= max
  }

  predicate CanRecurse(e: Emitted, n: Node, depth: nat, level: nat, max: nat) {
    n.kids != [] && level < MAX_LEVEL
    && e.used + EstimateTokens(OwnLine(n, depth)) + MIN_RECURSE_TOKENS <= max
  }

  /** `emitNode` while a budget is active. */
  function Emit(e: Emitted, n: Node, depth: nat, level: nat, skips: Skips, max: nat): Emitted
    decreases n, |n.kids| + 1
  {
    var text := RenderNode(n, depth, skips);
    if Skipped(n, skips) then Push(e, Piece(text, Pointer))
    else if Fits(e, text, max) then Push(e, Piece(text, Whole))
    else if !CanRecurse(e, n, depth, level, max) then Spill(e, Subtree(SectionLabel(n), text), depth)
    else EmitKids(Push(e.(split := true), Piece(OwnLine(n, depth), Own)), n, 0, depth, level, skips, max)
  }

  predicate SpillsRest(e: Emitted, n: Node, ci: nat, max: nat) {
    max < e.used + MIN_RECURSE_TOKENS / 2 && ci + 1 < |n.kids|
  }

  /** The children that have not been emitted yet, as one subtree. */
  function RestSubtree(n: Node, ci: nat, depth: nat, skips: Skips): Subtree
    requires ci <= |n.kids|
  {
    Subtree(RestLabel(n, |n.kids| - ci), Join(RenderEach(n.kids[ci..], depth + 1, skips)))
  }

  /** Its loop over the children from `ci` on. */
  function EmitKids(e: Emitted, n: Node, ci: nat, depth: nat, level: nat, skips: Skips, max: nat): Emitted
    requires ci <= |n.kids|
    decreases n, |n.kids| - ci
  {
    if ci == |n.kids| then e
    else if SpillsRest(e, n, ci, max) then Spill(e, RestSubtree(n, ci, depth, skips), depth + 1)
    else EmitKids(Emit(e, n.kids[ci], depth + 1, level + 1, skips, max), n, ci + 1, depth, level, skips, max)
  }

  function EmitSections(e: Emitted, ns: seq<Node>, skips: Skips, max: nat): Emitted
    decreases ns
  {
    if ns == [] then e else EmitSections(Emit(e, ns[0], 0, 0, skips, max), ns[1..], skips, max)
  }

  // ---------------------------------------------------------- the whole text

  /** An overlay shown first, and the id its place in the page points to. */
  datatype Overlay = Overlay(node: Node, oid: string)

  function OverlayNodes(os: seq<Overlay>): seq<Node> {
    if os == [] then [] else [os[0].node] + OverlayNodes(os[1..])
  }

  function PointersTo(os: seq<Overlay>): Skips {
    if os == [] then map[] else map[os[0].node.id := os[0].oid] + PointersTo(os[1..])
  }

  function Start(header: string): Emitted {
    if header == "" then Emitted([], [], 0, false)
    else Emitted([Piece(header, Header)], [], EstimateTokens(header), false)
  }

  /** The inline part of the sections `ns` under a budget. `header` is the overlay
      line, empty without overlays. */
  function Snapshot(header: string, os: seq<Overlay>, ns: seq<Node>, max: nat): Emitted {
    var e := Start(header);
    var full := Join(RenderEach(ns, 0, map[]));
    if Fits(e, full, max) then (if full == "" then e else Push(e, Piece(full, Whole)))
    else EmitSections(EmitSections(e, OverlayNodes(os), map[], max), ns, PointersTo(os), max)
  }

  /** What `collectCollapsed` adds, one subtree for each collapsed run. */
  function Collected(parts: seq<Collapse.Part>): seq<Subtree> {
    seq(|parts|, i requires 0 <= i < |parts| => Subtree(parts[i].name, parts[i].content))
  }

  /** Without a budget everything is inline and nothing is charged; with one the
      collapsed runs follow the spilled subtrees. */
  function Rendered(header: string, os: seq<Overlay>, ns: seq<Node>, max: nat): Emitted {
    var full := Join(RenderEach(ns, 0, map[]));
    if max == 0 then
      Emitted(Start(header).pieces + (if full == "" then [] else [Piece(full, Whole)]), [], 0, false)
    else
      var e := Snapshot(header, os, ns, max);
      e.(subtrees := e.subtrees + Collected(Collapse.CollectFrom(ns)))
  }

  /** The emitting half of the script, as the object its closures share. */
  class Emitter {
    const max: nat
    var snapshotLines: seq<Piece>
    var subtrees: seq<Subtree>
    var usedTokens: nat
    var split: bool

    ghost function View(): Emitted
      reads this
    {
      Emitted(snapshotLines, subtrees, usedTokens, split)
    }

    constructor (header: string, max: nat)
      ensures View() == (if max > 0 then Start(header) else Start(header).(used := 0)) && this.max == max
    {
      this.max := max;
      subtrees, split := [], false;
      snapshotLines := if header == "" then [] else [Piece(header, Header)];
      usedTokens := if header == "" || max == 0 then 0 else EstimateTokens(header);
    }

    method PushPiece(p: Piece)
      modifies this
      ensures View() == Push(old(View()), p)
    {
      snapshotLines := snapshotLines + [p];
      usedTokens := usedTokens + EstimateTokens(p.text);
    }

    method SpillSubtree(name: string, content: string, depth: nat)
      modifies this
      ensures View() == Spill(old(View()), Subtree(name, content), depth)
    {
      split := true;
      subtrees := subtrees + [Subtree(name, content)];
      PushPiece(Piece(PlaceholderLine(Subtree(name, content), |subtrees| - 1, depth), Placeholder));
    }

    method EmitNode(n: Node, depth: nat, level: nat, skips: Skips)
      modifies this
      ensures View() == Emit(old(View()), n, depth, level, skips, max)
      decreases n
    {
      hide EstimateTokens, RenderNode, OwnLine, Spill, Push, SectionLabel;
      var text := RenderNode(n, depth, skips);
      if Skipped(n, skips) {
        PushPiece(Piece(text, Pointer));
        return;
      }
      if usedTokens + EstimateTokens(text) <= max {
        PushPiece(Piece(text, Whole));
        return;
      }
      var line := OwnLine(n, depth);
      var canRecurse := n.kids != [] && level < MAX_LEVEL
                        && usedTokens + EstimateTokens(line) + MIN_RECURSE_TOKENS <= max;
      if !canRecurse {
        SpillSubtree(SectionLabel(n), text, depth);
        return;
      }
      split := true;
      PushPiece(Piece(line, Own));
      ghost var entered := View();
      var ci := 0;
      while ci < |n.kids|
        invariant ci <= |n.kids|
        invariant EmitKids(entered, n, 0, depth, level, skips, max) == EmitKids(View(), n, ci, depth, level, skips, max)
      {
        if max < usedTokens + MIN_RECURSE_TOKENS / 2 && ci + 1 < |n.kids| {
          var rest := RenderEach(n.kids[ci..], depth + 1, skips);
          SpillSubtree(RestLabel(n, |n.kids| - ci), Join(rest), depth + 1);
          return;
        }
        EmitNode(n.kids[ci], depth + 1, level + 1, skips);
        ci := ci + 1;
      }
    }

    /** The sections of the page, one after the other. */
    method EmitAll(ns: seq<Node>, skips: Skips)
      modifies this
      ensures View() == EmitSections(old(View()), ns, skips, max)
    {
      hide Emit;
      for i := 0 to |ns|
        invariant EmitSections(old(View()), ns, skips, max) == EmitSections(View(), ns[i..], skips, max)
      {
        EmitNode(ns[i], 0, 0, skips);
      }
    }

    /** Everything at once when it fits; else the overlays first, then the page
        with a pointer in each overlay's place. */
    method EmitSnapshot(ghost header: string, os: seq<Overlay>, ns: seq<Node>)
      requires View() == Start(header)
      modifies this
      ensures View() == Snapshot(header, os, ns, max)
    {
      hide EstimateTokens, EmitSections, RenderEach, Push;
      var fullText := Join(RenderEach(ns, 0, map[]));
      if usedTokens + EstimateTokens(fullText) <= max {
        if fullText != "" {
          PushPiece(Piece(fullText, Whole));
        }
      } else {
        EmitAll(OverlayNodes(os), map[]);
        EmitAll(ns, PointersTo(os));
      }
    }

    /** `budgetActive` or not, from the header on. */
    method Render(ghost header: string, os: seq<Overlay>, root: Node)
      requires View() == if max > 0 then Start(header) else Start(header).(used := 0)
      modifies this
      ensures View() == Rendered(header, os, root.kids, max)
    {
      hide EstimateTokens, EmitSections, RenderEach, Snapshot;
      if max == 0 {
        var fullText := Join(RenderEach(root.kids, 0, map[]));
        if fullText != "" {
          snapshotLines := snapshotLines + [Piece(fullText, Whole)];
        }
        return;
      }
      EmitSnapshot(header, os, root.kids);
      var collapsedParts := Collapse.CollectCollapsed(root);
      ghost var before := subtrees;
      for i := 0 to |collapsedParts|
        invariant subtrees == before + Collected(collapsedParts[..i])
        invariant View() == Snapshot(header, os, root.kids, max).(subtrees := subtrees)
      {
        assert Collected(collapsedParts[..i + 1])
            == Collected(collapsedParts[..i]) + [Subtree(collapsedParts[i].name, collapsedParts[i].content)];
        subtrees := subtrees + [Subtree(collapsedParts[i].name, collapsedParts[i].content)];
      }
      assert collapsedParts[..|collapsedParts|] == collapsedParts;
    }
  }
}
