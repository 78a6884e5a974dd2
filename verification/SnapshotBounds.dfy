/** The token account of budgeted rendering, and what it bounds. */
module SnapshotBounds {
  import opened SnapshotTree
  import opened SnapshotBudget

  function Sum(pieces: seq<Piece>): nat {
    if pieces == [] then 0 else Sum(pieces[..|pieces| - 1]) + EstimateTokens(pieces[|pieces| - 1].text)
  }

  lemma SumOfPush(pieces: seq<Piece>, p: Piece)
    ensures Sum(pieces + [p]) == Sum(pieces) + EstimateTokens(p.text)
  {
  }

  lemma {:induction false} SumGrows(pieces: seq<Piece>, i: nat)
    requires i <= |pieces|
    ensures Sum(pieces[..i]) <= Sum(pieces)
  {
    if i < |pieces| {
      SumGrows(pieces[..|pieces| - 1], i);
      assert pieces[..|pieces| - 1][..i] == pieces[..i];
    } else {
      assert pieces[..i] == pieces;
    }
  }

  // ------------------------------------------------------------- the account

  /** A piece of page text, rather than a header, a pointer or a placeholder. */
  predicate IsText(p: Piece) {
    p.kind.Whole? || p.kind.Own?
  }

  /** Right after every piece of page text the budget is kept. */
  ghost predicate TextFits(pieces: seq<Piece>, max: nat) {
    forall i :: 0 <= i < |pieces| && IsText(pieces[i]) ==> Sum(pieces[..i + 1]) <= max
  }

  /** `usedTokens` is the exact sum of the estimates of all pieces. */
  ghost predicate Accounted(e: Emitted, max: nat) {
    e.used == Sum(e.pieces) && TextFits(e.pieces, max)
  }

  lemma PushKeepsAccount(e: Emitted, p: Piece, max: nat)
    requires Accounted(e, max) && (IsText(p) ==> e.used + EstimateTokens(p.text) <= max)
    ensures Accounted(Push(e, p), max)
  {
    hide EstimateTokens;
    SumOfPush(e.pieces, p);
    var pieces := e.pieces + [p];
    forall i | 0 <= i < |pieces| && IsText(pieces[i]) ensures Sum(pieces[..i + 1]) <= max {
      if i < |e.pieces| {
        assert pieces[..i + 1] == e.pieces[..i + 1];
      } else {
        assert pieces[..i + 1] == pieces;
      }
    }
  }

  lemma SpillKeepsAccount(e: Emitted, s: Subtree, depth: nat, max: nat)
    requires Accounted(e, max)
    ensures Accounted(Spill(e, s, depth), max)
  {
    hide EstimateTokens, PlaceholderLine, Push;
    var f := e.(split := true, subtrees := e.subtrees + [s]);
    PushKeepsAccount(f, Piece(PlaceholderLine(s, |e.subtrees|, depth), Placeholder), max);
  }

  lemma {:induction false} EmitKeepsAccount(e: Emitted, n: Node, depth: nat, level: nat, skips: Skips, max: nat)
    requires Accounted(e, max)
    ensures Accounted(Emit(e, n, depth, level, skips, max), max)
    decreases n, |n.kids| + 1
  {
    hide EstimateTokens, RenderNode, OwnLine, Spill, Push, SectionLabel, Accounted;
    var text := RenderNode(n, depth, skips);
    if Skipped(n, skips) {
      PushKeepsAccount(e, Piece(text, Pointer), max);
    } else if Fits(e, text, max) {
      PushKeepsAccount(e, Piece(text, Whole), max);
    } else if !CanRecurse(e, n, depth, level, max) {
      SpillKeepsAccount(e, Subtree(SectionLabel(n), text), depth, max);
    } else {
      var f := e.(split := true);
      assert Accounted(f, max) by { SplitKeepsAccount(e, f, max); }
      PushKeepsAccount(f, Piece(OwnLine(n, depth), Own), max);
      EmitKidsKeepAccount(Push(f, Piece(OwnLine(n, depth), Own)), n, 0, depth, level, skips, max);
    }
  }

  lemma SplitKeepsAccount(e: Emitted, f: Emitted, max: nat)
    requires Accounted(e, max) && f == e.(split := true)
    ensures Accounted(f, max)
  {
  }

  lemma {:induction false} EmitKidsKeepAccount(e: Emitted, n: Node, ci: nat, depth: nat, level: nat, skips: Skips,
                                               max: nat)
    requires ci <= |n.kids| && Accounted(e, max)
    ensures Accounted(EmitKids(e, n, ci, depth, level, skips, max), max)
    decreases n, |n.kids| - ci
  {
    if ci < |n.kids| {
      hide Emit, Spill, Accounted, RestSubtree, SpillsRest;
      if SpillsRest(e, n, ci, max) {
        SpillKeepsAccount(e, RestSubtree(n, ci, depth, skips), depth + 1, max);
      } else {
        var f := Emit(e, n.kids[ci], depth + 1, level + 1, skips, max);
        EmitKeepsAccount(e, n.kids[ci], depth + 1, level + 1, skips, max);
        EmitKidsKeepAccount(f, n, ci + 1, depth, level, skips, max);
      }
    }
  }

  lemma {:induction false} SectionsKeepAccount(e: Emitted, ns: seq<Node>, skips: Skips, max: nat)
    requires Accounted(e, max)
    ensures Accounted(EmitSections(e, ns, skips, max), max)
    decreases ns
  {
    if ns != [] {
      hide Emit, Accounted;
      EmitKeepsAccount(e, ns[0], 0, 0, skips, max);
      SectionsKeepAccount(Emit(e, ns[0], 0, 0, skips, max), ns[1..], skips, max);
    }
  }

  lemma StartIsAccounted(header: string, max: nat)
    ensures Accounted(Start(header), max)
  {
  }

  /** In the finished snapshot `usedTokens` is exact, and the budget was kept
      right after every piece of page text. */
  lemma SnapshotKeepsAccount(header: string, os: seq<Overlay>, ns: seq<Node>, max: nat)
    ensures Accounted(Snapshot(header, os, ns, max), max)
  {
    hide EstimateTokens, Push, EmitSections;
    var e := Start(header);
    StartIsAccounted(header, max);
    var full := Join(RenderEach(ns, 0, map[]));
    if Fits(e, full, max) {
      PushKeepsAccount(e, Piece(full, Whole), max);
    } else {
      hide Accounted;
      SectionsKeepAccount(e, OverlayNodes(os), map[], max);
      SectionsKeepAccount(EmitSections(e, OverlayNodes(os), map[], max), ns, PointersTo(os), max);
    }
  }

  // -------------------------------------------------------- late placeholders

  const LOW: nat := MIN_RECURSE_TOKENS / 2

  /** Fewer than 24 tokens remain. */
  predicate Low(used: nat, max: nat) {
    max < used + LOW
  }

  /** The placeholders among the pieces `lo..hi` that were pushed when fewer
      than 24 tokens remained. */
  function Late(pieces: seq<Piece>, lo: nat, hi: nat, max: nat): nat
    requires lo <= hi <= |pieces|
    decreases hi
  {
    if lo == hi then 0
    else Late(pieces, lo, hi - 1, max)
         + (if pieces[hi - 1].kind.Placeholder? && Low(Sum(pieces[..hi - 1]), max) then 1 else 0)
  }

  lemma {:induction false} LateIsStable(p: seq<Piece>, q: seq<Piece>, lo: nat, hi: nat, max: nat)
    requires p <= q && lo <= hi <= |p|
    ensures Late(p, lo, hi, max) == Late(q, lo, hi, max)
    decreases hi
  {
    hide Sum;
    if lo < hi {
      LateIsStable(p, q, lo, hi - 1, max);
      assert p[..hi - 1] == q[..hi - 1];
    }
  }

  lemma {:induction false} LateSplits(p: seq<Piece>, lo: nat, mid: nat, hi: nat, max: nat)
    requires lo <= mid <= hi <= |p|
    ensures Late(p, lo, hi, max) == Late(p, lo, mid, max) + Late(p, mid, hi, max)
    decreases hi
  {
    hide Sum;
    if mid < hi { LateSplits(p, lo, mid, hi - 1, max); }
  }

  lemma {:induction false} NoneLateYet(p: seq<Piece>, lo: nat, hi: nat, max: nat)
    requires lo <= hi <= |p| && !Low(Sum(p[..hi]), max)
    ensures Late(p, lo, hi, max) == 0
    decreases hi
  {
    if lo < hi {
      SumGrows(p[..hi], hi - 1);
      assert p[..hi][..hi - 1] == p[..hi - 1];
      hide Sum;
      NoneLateYet(p, lo, hi - 1, max);
    }
  }

  /** Late placeholders between two states of one emission. */
  function LateBetween(e: Emitted, f: Emitted, max: nat): nat
    requires |e.pieces| <= |f.pieces|
  {
    Late(f.pieces, |e.pieces|, |f.pieces|, max)
  }

  ghost predicate Advances(e: Emitted, f: Emitted) {
    e.pieces <= f.pieces && e.used <= f.used && f.used == Sum(f.pieces)
  }

  lemma LateAddsUp(e: Emitted, f: Emitted, g: Emitted, max: nat)
    requires Advances(e, f) && Advances(f, g)
    ensures Advances(e, g) && LateBetween(e, g, max) == LateBetween(e, f, max) + LateBetween(f, g, max)
  {
    hide Sum;
    LateSplits(g.pieces, |e.pieces|, |f.pieces|, |g.pieces|, max);
    LateIsStable(f.pieces, g.pieces, |e.pieces|, |f.pieces|, max);
  }

  lemma PushAdvances(e: Emitted, p: Piece, max: nat)
    requires e.used == Sum(e.pieces)
    ensures Advances(e, Push(e, p))
    ensures LateBetween(e, Push(e, p), max) == if p.kind.Placeholder? && Low(e.used, max) then 1 else 0
  {
    hide EstimateTokens;
    SumOfPush(e.pieces, p);
    var q := e.pieces + [p];
    assert q[..|q| - 1] == e.pieces;
    assert Late(q, |e.pieces|, |q| - 1, max) == 0;
  }

  lemma SpillAdvances(e: Emitted, s: Subtree, depth: nat, max: nat)
    requires e.used == Sum(e.pieces)
    ensures Advances(e, Spill(e, s, depth))
    ensures LateBetween(e, Spill(e, s, depth), max) == if Low(e.used, max) then 1 else 0
  {
    hide EstimateTokens, PlaceholderLine, Push;
    var f := e.(split := true, subtrees := e.subtrees + [s]);
    PushAdvances(f, Piece(PlaceholderLine(s, |e.subtrees|, depth), Placeholder), max);
  }

  /** One per enclosing loop still to come, and one in all when low already. */
  function LateLimit(used: nat, level: nat, max: nat): nat
    requires level <= MAX_LEVEL
  {
    if Low(used, max) then 1 else MAX_LEVEL - level
  }

  lemma {:induction false} EmitAddsFewLate(e: Emitted, n: Node, depth: nat, level: nat, skips: Skips, max: nat)
    requires e.used == Sum(e.pieces) && level <= MAX_LEVEL
    ensures var f := Emit(e, n, depth, level, skips, max);
            Advances(e, f) && LateBetween(e, f, max) <= LateLimit(e.used, level, max)
    decreases n, |n.kids| + 1
  {
    hide EstimateTokens, RenderNode, OwnLine, Spill, Push, SectionLabel, Sum, Late, Advances;
    var text := RenderNode(n, depth, skips);
    if Skipped(n, skips) {
      PushAdvances(e, Piece(text, Pointer), max);
    } else if Fits(e, text, max) {
      PushAdvances(e, Piece(text, Whole), max);
    } else if !CanRecurse(e, n, depth, level, max) {
      SpillAdvances(e, Subtree(SectionLabel(n), text), depth, max);
    } else {
      var entered := Push(e.(split := true), Piece(OwnLine(n, depth), Own));
      EnteringAdvances(e, OwnLine(n, depth), max);
      EmitKidsAddFewLate(entered, n, 0, depth, level, skips, max);
      LateAddsUp(e, entered, EmitKids(entered, n, 0, depth, level, skips, max), max);
    }
  }

  lemma EnteringAdvances(e: Emitted, line: string, max: nat)
    requires e.used == Sum(e.pieces)
    ensures var entered := Push(e.(split := true), Piece(line, Own));
            Advances(e, entered) && LateBetween(e, entered, max) == 0
            && entered.used == e.used + EstimateTokens(line) && entered.used == Sum(entered.pieces)
  {
    hide EstimateTokens;
    PushAdvances(e.(split := true), Piece(line, Own), max);
  }

  lemma {:induction false} EmitKidsAddFewLate(e: Emitted, n: Node, ci: nat, depth: nat, level: nat,
                                              skips: Skips, max: nat)
    requires ci <= |n.kids| && e.used == Sum(e.pieces) && level < MAX_LEVEL
    ensures var f := EmitKids(e, n, ci, depth, level, skips, max);
            Advances(e, f) && LateBetween(e, f, max) <= LateLimit(e.used, level, max)
            && (ci == |n.kids| ==> LateBetween(e, f, max) == 0)
    decreases n, |n.kids| - ci
  {
    hide Emit, Spill, RestSubtree, Sum, Late, Advances, LateBetween, RenderEach, Join;
    if ci == |n.kids| {
      NothingAdvances(e, max);
    } else if SpillsRest(e, n, ci, max) {
      SpillAdvances(e, RestSubtree(n, ci, depth, skips), depth + 1, max);
    } else {
      var f := Emit(e, n.kids[ci], depth + 1, level + 1, skips, max);
      EmitAddsFewLate(e, n.kids[ci], depth + 1, level + 1, skips, max);
      AdvancesMeans(e, f);
      EmitKidsAddFewLate(f, n, ci + 1, depth, level, skips, max);
      var g := EmitKids(f, n, ci + 1, depth, level, skips, max);
      assert EmitKids(e, n, ci, depth, level, skips, max) == g;
      hide EmitKids;
      KidAddsFewLate(e, f, g, level, ci + 1 == |n.kids|, max);
    }
  }

  lemma NothingAdvances(e: Emitted, max: nat)
    requires e.used == Sum(e.pieces)
    ensures Advances(e, e) && LateBetween(e, e, max) == 0
  {
  }

  /** A child and what the loop does after it: once low, at most one more. */
  lemma KidAddsFewLate(e: Emitted, f: Emitted, g: Emitted, level: nat, last: bool, max: nat)
    requires level < MAX_LEVEL && Advances(e, f) && Advances(f, g) && (Low(e.used, max) ==> last)
    requires LateBetween(e, f, max) <= LateLimit(e.used, level + 1, max)
    requires LateBetween(f, g, max) <= LateLimit(f.used, level, max) && (last ==> LateBetween(f, g, max) == 0)
    ensures Advances(e, g) && LateBetween(e, g, max) <= LateLimit(e.used, level, max)
  {
    LateAddsUp(e, f, g, max);
    if !Low(f.used, max) { NotLateBefore(e, f, max); }
    hide Sum, Late;
  }

  lemma AdvancesMeans(e: Emitted, f: Emitted)
    requires Advances(e, f)
    ensures f.used == Sum(f.pieces) && e.used <= f.used
  {
  }

  lemma NotLateBefore(e: Emitted, f: Emitted, max: nat)
    requires Advances(e, f) && !Low(f.used, max)
    ensures LateBetween(e, f, max) == 0
  {
    hide Sum;
    assert f.pieces[..|f.pieces|] == f.pieces;
    NoneLateYet(f.pieces, |e.pieces|, |f.pieces|, max);
  }

  /** Once fewer than 24 tokens remain, the section in progress adds at most 24
      more placeholders, and a section that starts then adds at most one. */
  lemma SectionAddsFewPlaceholders(e: Emitted, n: Node, skips: Skips, max: nat)
    requires Accounted(e, max)
    ensures
      var f := Emit(e, n, 0, 0, skips, max);
      && e.pieces <= f.pieces
      && LateBetween(e, f, max) <= 24
      && (Low(e.used, max) ==> Placeholders(f.pieces, |e.pieces|, |f.pieces|) <= 1)
  {
    EmitAddsFewLate(e, n, 0, 0, skips, max);
    var f := Emit(e, n, 0, 0, skips, max);
    if Low(e.used, max) {
      assert f.pieces[..|e.pieces|] == e.pieces && f.pieces[..|f.pieces|] == f.pieces;
      hide Emit, Sum;
      AllLate(f.pieces, |e.pieces|, |f.pieces|, max);
    }
  }

  /** The placeholders among the pieces `lo..hi`. */
  function Placeholders(pieces: seq<Piece>, lo: nat, hi: nat): nat
    requires lo <= hi <= |pieces|
    decreases hi
  {
    if lo == hi then 0
    else Placeholders(pieces, lo, hi - 1) + (if pieces[hi - 1].kind.Placeholder? then 1 else 0)
  }

  lemma {:induction false} AllLate(p: seq<Piece>, lo: nat, hi: nat, max: nat)
    requires lo <= hi <= |p| && Low(Sum(p[..lo]), max)
    ensures Late(p, lo, hi, max) == Placeholders(p, lo, hi)
    decreases hi
  {
    hide Sum;
    if lo < hi {
      SumGrows(p[..hi - 1], lo);
      assert p[..hi - 1][..lo] == p[..lo];
      AllLate(p, lo, hi - 1, max);
    }
  }

  // ---------------------------------------------------------- the joined text

  function TextsOf(pieces: seq<Piece>): seq<string> {
    if pieces == [] then [] else [pieces[0].text] + TextsOf(pieces[1..])
  }

  function Lengths(texts: seq<string>): nat {
    if texts == [] then 0 else |texts[0]| + Lengths(texts[1..])
  }

  lemma {:induction false} JoinLength(texts: seq<string>)
    requires texts != []
    ensures |Join(texts)| == Lengths(texts) + |texts| - 1
  {
    if |texts| > 1 { JoinLength(texts[1..]); }
  }

  lemma {:induction false} SumFromFront(pieces: seq<Piece>)
    requires pieces != []
    ensures Sum(pieces) == EstimateTokens(pieces[0].text) + Sum(pieces[1..])
  {
    hide EstimateTokens;
    if |pieces| > 1 {
      var init := pieces[..|pieces| - 1];
      SumFromFront(init);
      assert pieces[1..][..|pieces| - 2] == init[1..];
    } else {
      assert pieces[..0] == [] && pieces[1..] == [];
    }
  }

  /** Rounding each piece up covers rounding their total length up. */
  lemma {:induction false} SumCoversLengths(pieces: seq<Piece>)
    ensures |TextsOf(pieces)| == |pieces|
    ensures 2 * Lengths(TextsOf(pieces)) <= 7 * Sum(pieces)
  {
    if pieces != [] {
      SumFromFront(pieces);
      SumCoversLengths(pieces[1..]);
      assert TextsOf(pieces)[1..] == TextsOf(pieces[1..]);
    }
  }

  /** The joined text's estimate exceeds the account by no more than the
      newlines between the pieces. */
  lemma JoinedEstimate(pieces: seq<Piece>)
    requires pieces != []
    ensures EstimateTokens(Join(TextsOf(pieces))) <= Sum(pieces) + (2 * (|pieces| - 1) + 6) / 7
  {
    SumCoversLengths(pieces);
    JoinLength(TextsOf(pieces));
  }
}
