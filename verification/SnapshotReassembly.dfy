/**
 Spilled output reassembles exactly: putting every subtree back where its
 placeholder stands gives the unlimited rendering.
 */
module SnapshotReassembly {
  import opened SnapshotTree
  import opened SnapshotBudget
  import opened SnapshotPlaceholder
  import opened Wrappers
  import Collapse

  /** The subtree that a placeholder names, as a reader of its line finds it. */
  function Target(p: Piece): Option<nat> {
    if !p.kind.Placeholder? then None
    else
      match ReadPlaceholder(p.text)
      case None => None
      case Some(reading) => Some(reading.index)
  }

  /** The pieces' texts, each placeholder replaced by the subtree it names. */
  function Expand(pieces: seq<Piece>, subtrees: seq<Subtree>): seq<string> {
    if pieces == [] then []
    else
      var target := Target(pieces[0]);
      [if target.Some? && target.value < |subtrees| then subtrees[target.value].content else pieces[0].text]
      + Expand(pieces[1..], subtrees)
  }

  /** The subtrees that these pieces name, in order. */
  function Named(pieces: seq<Piece>): seq<nat> {
    if pieces == [] then [] else OwnName(pieces[0]) + Named(pieces[1..])
  }

  function OwnName(p: Piece): seq<nat> {
    if Target(p).Some? then [Target(p).value] else []
  }

  function Range(from: nat, to: nat): seq<nat>
    requires from <= to
    decreases (to as int) - (from as int)
  {
    if from == to then [] else [from] + Range(from + 1, to)
  }

  lemma {:induction false} RangeConcat(a: nat, b: nat, c: nat)
    requires a <= b <= c
    ensures Range(a, b) + Range(b, c) == Range(a, c)
    decreases (b as int) - (a as int)
  {
    if a < b { RangeConcat(a + 1, b, c); }
  }

  lemma {:induction false} ExpandConcat(a: seq<Piece>, b: seq<Piece>, subtrees: seq<Subtree>)
    ensures Expand(a + b, subtrees) == Expand(a, subtrees) + Expand(b, subtrees)
  {
    if a == [] {
      assert a + b == b;
    } else {
      assert (a + b)[1..] == a[1..] + b;
      ExpandConcat(a[1..], b, subtrees);
    }
  }

  lemma NamedFirst(p: Piece, rest: seq<Piece>)
    ensures Named([p] + rest) == OwnName(p) + Named(rest)
  {
    assert ([p] + rest)[1..] == rest;
  }

  lemma Associates(a: seq<nat>, b: seq<nat>, c: seq<nat>)
    ensures a + (b + c) == (a + b) + c
  {
  }

  lemma {:induction false} NamedConcat(a: seq<Piece>, b: seq<Piece>)
    ensures Named(a + b) == Named(a) + Named(b)
  {
    hide Target;
    if a == [] {
      assert a + b == b;
    } else {
      var p, rest := a[0], a[1..];
      NamedConcat(rest, b);
      NamedFirst(p, rest);
      NamedFirst(p, rest + b);
      hide Named, OwnName;
      assert a == [p] + rest;
      assert a + b == [p] + (rest + b);
      Associates(OwnName(p), Named(rest), Named(b));
    }
  }

  predicate NamesBelow(pieces: seq<Piece>, n: nat) {
    forall i :: 0 <= i < |pieces| && Target(pieces[i]).Some? ==> Target(pieces[i]).value < n
  }

  lemma {:induction false} ExpandIsStable(pieces: seq<Piece>, s: seq<Subtree>, t: seq<Subtree>)
    requires s <= t && NamesBelow(pieces, |s|)
    ensures Expand(pieces, s) == Expand(pieces, t)
  {
    if pieces != [] {
      assert NamesBelow(pieces[1..], |s|);
      ExpandIsStable(pieces[1..], s, t);
    }
  }

  /** Every placeholder can be read: it names one of the subtrees, by its index and
      its label, and gives its size. */
  ghost predicate Labelled(pieces: seq<Piece>, subtrees: seq<Subtree>) {
    forall i :: 0 <= i < |pieces| && pieces[i].kind.Placeholder? ==>
      && Target(pieces[i]).Some? && Target(pieces[i]).value < |subtrees|
      && Names(pieces[i].text, subtrees[Target(pieces[i]).value], Target(pieces[i]).value)
  }

  /** From `e` to `f` pieces and subtrees only grow, and the new placeholders
      name the new subtrees, each once and in order. */
  ghost predicate Grows(e: Emitted, f: Emitted) {
    && e.pieces <= f.pieces && e.subtrees <= f.subtrees
    && Named(New(e, f)) == Range(|e.subtrees|, |f.subtrees|)
    && Labelled(New(e, f), f.subtrees)
  }

  function New(e: Emitted, f: Emitted): seq<Piece> {
    if |e.pieces| <= |f.pieces| then f.pieces[|e.pieces|..] else []
  }

  function NewTexts(e: Emitted, f: Emitted): seq<string> {
    Expand(New(e, f), f.subtrees)
  }

  lemma GrowsBack(e: Emitted)
    ensures Grows(e, e) && New(e, e) == []
  {
  }

  lemma GrowsOn(e: Emitted, f: Emitted, g: Emitted)
    requires Grows(e, f) && Grows(f, g)
    ensures Grows(e, g) && NewTexts(e, g) == NewTexts(e, f) + NewTexts(f, g)
  {
    hide PlaceholderLine, Target, Names;
    assert New(e, g) == New(e, f) + New(f, g);
    NamedConcat(New(e, f), New(f, g));
    RangeConcat(|e.subtrees|, |f.subtrees|, |g.subtrees|);
    ExpandConcat(New(e, f), New(f, g), g.subtrees);
    LabelledNames(New(e, f), f.subtrees);
    ExpandIsStable(New(e, f), f.subtrees, g.subtrees);
    LabelledConcat(New(e, f), New(f, g), f.subtrees, g.subtrees);
  }

  lemma LabelledNames(pieces: seq<Piece>, subtrees: seq<Subtree>)
    requires Labelled(pieces, subtrees)
    ensures NamesBelow(pieces, |subtrees|)
  {
    hide ReadPlaceholder, Names;
  }

  lemma LabelledConcat(a: seq<Piece>, b: seq<Piece>, s: seq<Subtree>, t: seq<Subtree>)
    requires s <= t && Labelled(a, s) && Labelled(b, t)
    ensures Labelled(a + b, t)
  {
  }

  lemma OnePiece(p: Piece, subtrees: seq<Subtree>)
    requires Target(p).Some? ==> Target(p).value < |subtrees|
    ensures Expand([p], subtrees) == [if Target(p).Some? then subtrees[Target(p).value].content else p.text]
    ensures Named([p]) == if Target(p).Some? then [Target(p).value] else []
  {
  }

  /** A group of texts stands for its joined text inside a longer list. */
  lemma RegroupStep(before: seq<string>, group: seq<string>, text: string, after: seq<string>, rest: seq<string>)
    requires group != [] && Join(group) == text
    requires Join(before + [text] + after) == Join(before + [text] + rest)
    ensures Join(before + (group + after)) == Join(before + ([text] + rest))
  {
    hide Join;
    JoinRegroups(before, group, after);
    assert before + (group + after) == before + group + after;
    assert before + ([text] + rest) == before + [text] + rest;
  }

  lemma PushGrows(e: Emitted, p: Piece)
    requires !p.kind.Placeholder?
    ensures Grows(e, Push(e, p)) && NewTexts(e, Push(e, p)) == [p.text]
  {
    assert New(e, Push(e, p)) == [p];
    OnePiece(p, e.subtrees);
  }

  lemma SpillNames(s: Subtree, k: nat, depth: nat)
    ensures var p := Piece(PlaceholderLine(s, k, depth), Placeholder); Target(p) == Some(k) && Names(p.text, s, k)
  {
    PlaceholderNames(s, k, depth);
    hide ReadPlaceholder, PlaceholderLine, Names;
  }

  lemma SpillGrows(e: Emitted, s: Subtree, depth: nat)
    ensures Grows(e, Spill(e, s, depth)) && NewTexts(e, Spill(e, s, depth)) == [s.content]
  {
    hide PlaceholderLine, Names, Target, Grows, NewTexts, EstimateTokens;
    SpillNames(s, |e.subtrees|, depth);
    NamedPieceGrows(e, Spill(e, s, depth), Piece(PlaceholderLine(s, |e.subtrees|, depth), Placeholder), s);
  }

  lemma NamedPieceGrows(e: Emitted, f: Emitted, p: Piece, s: Subtree)
    requires f.pieces == e.pieces + [p] && f.subtrees == e.subtrees + [s]
    requires Target(p) == Some(|e.subtrees|) && Names(p.text, s, |e.subtrees|)
    ensures Grows(e, f) && NewTexts(e, f) == [s.content]
  {
    hide Names, Target;
    assert New(e, f) == [p];
    OnePiece(p, f.subtrees);
    assert Range(|e.subtrees| + 1, |f.subtrees|) == [];
  }

  /** One node, at any depth and with overlay pointers in place. */
  lemma {:induction false} EmitReassembles(e: Emitted, n: Node, depth: nat, level: nat, skips: Skips, max: nat)
    ensures var f := Emit(e, n, depth, level, skips, max);
            Grows(e, f) && NewTexts(e, f) != [] && Join(NewTexts(e, f)) == RenderNode(n, depth, skips)
    decreases n, |n.kids| + 1
  {
    hide Push, Spill, Grows, NewTexts, OwnLine, SectionLabel, EstimateTokens;
    var text := RenderNode(n, depth, skips);
    PushGrows(e, Piece(text, Pointer));
    PushGrows(e, Piece(text, Whole));
    SpillGrows(e, Subtree(SectionLabel(n), text), depth);
    assert Join([text]) == text;
    if !Skipped(n, skips) && !Fits(e, text, max) && CanRecurse(e, n, depth, level, max) {
      var line := OwnLine(n, depth);
      var entered := Push(e.(split := true), Piece(line, Own));
      EnteringGrows(e, line);
      EmitKidsReassembles([line], entered, n, 0, depth, level, skips, max);
      GrowsOn(e, entered, EmitKids(entered, n, 0, depth, level, skips, max));
      assert n.kids[0..] == n.kids;
    }
  }

  lemma EnteringGrows(e: Emitted, line: string)
    ensures var entered := Push(e.(split := true), Piece(line, Own));
            Grows(e, entered) && NewTexts(e, entered) == [line]
  {
    var entered := Push(e.(split := true), Piece(line, Own));
    assert New(e, entered) == [Piece(line, Own)];
    OnePiece(Piece(line, Own), e.subtrees);
  }

  lemma SpillStandsFor(before: seq<string>, e: Emitted, name: string, rest: seq<string>, depth: nat)
    requires rest != []
    ensures var f := Spill(e, Subtree(name, Join(rest)), depth);
            Grows(e, f) && Join(before + NewTexts(e, f)) == Join(before + rest)
  {
    hide Spill, Grows, NewTexts, Join;
    SpillGrows(e, Subtree(name, Join(rest)), depth);
    RegroupStep(before, rest, Join(rest), [], []);
    assert rest + [] == rest && [Join(rest)] + [] == [Join(rest)];
  }

  lemma StepStandsFor(before: seq<string>, e: Emitted, f: Emitted, g: Emitted, text: string, rest: seq<string>)
    requires Grows(e, f) && Grows(f, g)
    requires NewTexts(e, f) != [] && Join(NewTexts(e, f)) == text
    requires Join(before + [text] + NewTexts(f, g)) == Join(before + [text] + rest)
    ensures Grows(e, g) && NewTexts(e, g) != []
    ensures Join(before + NewTexts(e, g)) == Join(before + ([text] + rest))
  {
    hide Grows, NewTexts, Join;
    GrowsOn(e, f, g);
    RegroupStep(before, NewTexts(e, f), text, NewTexts(f, g), rest);
  }

  lemma {:induction false} EmitKidsReassembles(before: seq<string>, e: Emitted, n: Node, ci: nat,
                                               depth: nat, level: nat, skips: Skips, max: nat)
    requires ci <= |n.kids|
    ensures var f := EmitKids(e, n, ci, depth, level, skips, max);
            Grows(e, f) && Join(before + NewTexts(e, f)) == Join(before + RenderEach(n.kids[ci..], depth + 1, skips))
    decreases n, |n.kids| - ci
  {
    if ci == |n.kids| {
      GrowsBack(e);
    } else {
      hide Push, Spill, Grows, NewTexts, OwnLine, SectionLabel, EstimateTokens, Emit, Join, RestLabel, RenderNode, Fits,
           CanRecurse;
      EachFrom(n.kids, ci, depth + 1, skips);
      hide RenderEach;
      var rest := RenderEach(n.kids[ci..], depth + 1, skips);
      if SpillsRest(e, n, ci, max) {
        SpillStandsFor(before, e, RestLabel(n, |n.kids| - ci), rest, depth + 1);
      } else {
        var text := RenderNode(n.kids[ci], depth + 1, skips);
        var f := Emit(e, n.kids[ci], depth + 1, level + 1, skips, max);
        EmitReassembles(e, n.kids[ci], depth + 1, level + 1, skips, max);
        EmitKidsReassembles(before + [text], f, n, ci + 1, depth, level, skips, max);
        var g := EmitKids(f, n, ci + 1, depth, level, skips, max);
        StepStandsFor(before, e, f, g, text, RenderEach(n.kids[ci + 1..], depth + 1, skips));
      }
    }
  }

  lemma EachFrom(ns: seq<Node>, i: nat, depth: nat, skips: Skips)
    requires i < |ns|
    ensures RenderEach(ns[i..], depth, skips)
         == [RenderNode(ns[i], depth, skips)] + RenderEach(ns[i + 1..], depth, skips)
  {
    assert ns[i..][0] == ns[i] && ns[i..][1..] == ns[i + 1..];
  }

  lemma {:induction false} SectionsReassemble(before: seq<string>, e: Emitted, ns: seq<Node>, skips: Skips, max: nat)
    ensures var f := EmitSections(e, ns, skips, max);
            && Grows(e, f) && Join(before + NewTexts(e, f)) == Join(before + RenderEach(ns, 0, skips))
            && (NewTexts(e, f) == [] <==> ns == [])
    decreases ns
  {
    if ns == [] {
      GrowsBack(e);
    } else {
      hide Grows, NewTexts, Emit, Join;
      var text := RenderNode(ns[0], 0, skips);
      var f := Emit(e, ns[0], 0, 0, skips, max);
      EmitReassembles(e, ns[0], 0, 0, skips, max);
      SectionsReassemble(before + [text], f, ns[1..], skips, max);
      var g := EmitSections(f, ns[1..], skips, max);
      StepStandsFor(before, e, f, g, text, RenderEach(ns[1..], 0, skips));
    }
  }

  /** A text as a list of lines to join; no text is no line. */
  function IfAny(text: string): seq<string> {
    if text == "" then [] else [text]
  }

  /** The text can be charged without going over the budget. */
  predicate HasRoom(used: nat, text: string, max: nat) {
    used <= max && 2 * |text| <= 7 * (max - used)
  }

  lemma RoomIffFits(e: Emitted, text: string, max: nat)
    ensures Fits(e, text, max) <==> HasRoom(e.used, text, max)
  {
  }

  /** What the whole snapshot stands for once its subtrees are put back: the
      header, then the full page, or the overlays and the page with pointers. */
  function Meaning(header: string, os: seq<Overlay>, ns: seq<Node>, max: nat): string {
    var full := Join(RenderEach(ns, 0, map[]));
    if HasRoom(EstimateTokens(header), full, max) then Join(IfAny(header) + IfAny(full))
    else Join(IfAny(header) + RenderEach(OverlayNodes(os), 0, map[]) + RenderEach(ns, 0, PointersTo(os)))
  }

  /** Every subtree is named by exactly one placeholder, in order, and putting
      them all back gives the unlimited rendering. */
  lemma SnapshotReassembles(header: string, os: seq<Overlay>, ns: seq<Node>, max: nat)
    ensures var e := Snapshot(header, os, ns, max);
            && Named(e.pieces) == Range(0, |e.subtrees|)
            && Labelled(e.pieces, e.subtrees)
            && Join(Expand(e.pieces, e.subtrees)) == Meaning(header, os, ns, max)
  {
    hide EstimateTokens, Push, EmitSections, Grows, NewTexts, Join, RenderEach;
    var none := Emitted([], [], 0, false);
    var e := Start(header);
    var head := IfAny(header);
    StartGrows(header);
    RoomIffFits(e, Join(RenderEach(ns, 0, map[])), max);
    StartIsCharged(header);
    var full := Join(RenderEach(ns, 0, map[]));
    var f := Snapshot(header, os, ns, max);
    if Fits(e, full, max) {
      GrowsBack(e);
      PushGrows(e, Piece(full, Whole));
      GrowsOn(none, e, f);
      assert head + [] == head;
    } else {
      var mid := EmitSections(e, OverlayNodes(os), map[], max);
      var overlays := RenderEach(OverlayNodes(os), 0, map[]);
      SectionsReassemble(head, e, OverlayNodes(os), map[], max);
      SectionsReassemble(head + NewTexts(e, mid), mid, ns, PointersTo(os), max);
      GrowsOn(none, e, mid);
      GrowsOn(none, mid, f);
      SamePrefix(head + NewTexts(e, mid), head + overlays, RenderEach(ns, 0, PointersTo(os)));
    }
    GrowsFromNothing(f);
  }

  lemma StartIsCharged(header: string)
    ensures Start(header).used == EstimateTokens(header)
  {
  }

  lemma GrowsFromNothing(f: Emitted)
    requires Grows(Emitted([], [], 0, false), f)
    ensures Named(f.pieces) == Range(0, |f.subtrees|) && Labelled(f.pieces, f.subtrees)
    ensures NewTexts(Emitted([], [], 0, false), f) == Expand(f.pieces, f.subtrees)
  {
  }

  lemma StartGrows(header: string)
    ensures var none := Emitted([], [], 0, false);
            Grows(none, Start(header)) && NewTexts(none, Start(header)) == IfAny(header)
  {
    if header != "" {
      var p := Piece(header, Header);
      assert New(Emitted([], [], 0, false), Start(header)) == [p];
      OnePiece(p, []);
    }
  }

  /** Lists that join to the same text still do when the same list follows. */
  lemma SamePrefix(a: seq<string>, b: seq<string>, c: seq<string>)
    requires Join(a) == Join(b) && (a == [] <==> b == [])
    ensures Join(a + c) == Join(b + c)
  {
    if c == [] || a == [] {
      assert a + c == (if c == [] then a else c) && b + c == (if c == [] then b else c);
    } else {
      JoinConcat(a, c);
      JoinConcat(b, c);
    }
  }

  /** The whole rendering: the placeholders name the spilled subtrees, all of
      them, once and in order; the collapsed runs follow unnamed; and putting
      the named ones back gives the unlimited text. Without a budget nothing is
      spilled and the text is the full page. */
  lemma RenderedReassembles(header: string, os: seq<Overlay>, ns: seq<Node>, max: nat)
    ensures var e := Rendered(header, os, ns, max);
            var spilled := if max == 0 then 0 else |Snapshot(header, os, ns, max).subtrees|;
            && spilled <= |e.subtrees| && Named(e.pieces) == Range(0, spilled) && Labelled(e.pieces, e.subtrees)
            && e.subtrees[spilled..] == (if max == 0 then [] else Collected(Collapse.CollectFrom(ns)))
            && Join(Expand(e.pieces, e.subtrees)) ==
               if max == 0 then Join(IfAny(header) + IfAny(Join(RenderEach(ns, 0, map[]))))
               else Meaning(header, os, ns, max)
  {
    hide Snapshot, RenderEach, Join, Meaning, EstimateTokens;
    var e := Rendered(header, os, ns, max);
    if max > 0 {
      var f := Snapshot(header, os, ns, max);
      SnapshotReassembles(header, os, ns, max);
      LabelledNames(f.pieces, f.subtrees);
      ExpandIsStable(f.pieces, f.subtrees, e.subtrees);
      LabelledMore(f.pieces, f.subtrees, e.subtrees);
    } else {
      UnlimitedExpands(header, Join(RenderEach(ns, 0, map[])));
    }
  }

  lemma LabelledMore(pieces: seq<Piece>, s: seq<Subtree>, t: seq<Subtree>)
    requires s <= t && Labelled(pieces, s)
    ensures Labelled(pieces, t)
  {
    hide ReadPlaceholder, Names;
  }

  lemma UnlimitedExpands(header: string, full: string)
    ensures var pieces := Start(header).pieces + (if full == "" then [] else [Piece(full, Whole)]);
            Named(pieces) == [] &&
            Expand(pieces, []) == IfAny(header) + IfAny(full)
  {
    var head, rest := Start(header).pieces, if full == "" then [] else [Piece(full, Whole)];
    if header != "" { OnePiece(head[0], []); }
    if full != "" { OnePiece(rest[0], []); }
    ExpandConcat(head, rest, []);
    NamedConcat(head, rest);
  }
}
