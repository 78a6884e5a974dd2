/**
 The walk that builds the snapshot tree and stitches portals into it, in place.
 What the document looks like is an input; so is every look at the clock. Each
 method makes of the tree what the functions of `StitchWalk` say.
 */
module Stitcher {
  import opened Wrappers
  import opened StitchForest
  import opened StitchWalk

  /** `n` or a node above it is the portal's node, or stands for its element. */
  predicate OwnedAbove(parent: map<Node, Node>, elOf: map<Node, El>, n: Node, k: nat, existing: Option<Node>,
                       target: El)
    requires Level(parent, n, k)
    decreases k
  {
    existing == Some(n) || (n in elOf && elOf[n] == target)
    || (n != ROOT && OwnedAbove(parent, elOf, parent[n], k - 1, existing, target))
  }

  lemma {:induction false} NotOwnedIsNotOnChain(parent: map<Node, Node>, elOf: map<Node, El>, n: Node, k: nat,
                                                t: Node, target: El)
    requires Level(parent, n, k) && !OwnedAbove(parent, elOf, n, k, Some(t), target)
    ensures !OnChain(parent, n, k, t)
    decreases k
  {
    if n != ROOT { NotOwnedIsNotOnChain(parent, elOf, parent[n], k - 1, t, target); }
  }

  function Limit(opts: Options): nat {
    if opts.maxElements > 1 then opts.maxElements else 1
  }

  /** Every node has its element, and what refers to a node refers to a built one. */
  ghost predicate Coherent(built: nat, elOf: map<Node, El>, nodeOf: map<El, Node>, links: seq<Link>) {
    && (forall n: Node :: n in elOf <==> n <= built)
    && (forall e :: e in nodeOf ==> 1 <= nodeOf[e] <= built)
    && (forall l :: l in links && l.node.Some? ==> 1 <= l.node.value <= built)
  }

  lemma CoherentAdd(built: nat, elOf: map<Node, El>, nodeOf: map<El, Node>, links: seq<Link>, el: El,
                    ids: seq<Id>, depth: int)
    requires Coherent(built, elOf, nodeOf, links)
    ensures Coherent(built + 1, elOf[built + 1 := el], nodeOf[el := built + 1], links + LinksOf(ids, depth))
    ensures Coherent(built + 1, elOf[built + 1 := el], nodeOf[el := built + 1], links)
  {
  }

  /** From the end of the list, up to the first link that has its node. */
  method ScanLinks(all: seq<Link>, n: Node) returns (links: seq<Link>)
    ensures links == LinkedBack(all, n)
  {
    links := all;
    var i := |links|;
    ghost var after: seq<Link> := [];
    assert all[..i] == all;
    while i > 0
      invariant 0 <= i <= |links| == |all| && links == all[..i] + after
      invariant LinkedBack(all, n) == LinkedBack(all[..i], n) + after
    {
      i := i - 1;
      assert all[..i + 1][..i] == all[..i] && all[..i + 1][i] == all[i] == links[i];
      if links[i].node.Some? {
        return;
      }
      after := [all[i].(node := Some(n))] + after;
      links := links[i := links[i].(node := Some(n))];
    }
  }

  method ScanRootLinks(all: seq<Link>, n: Node) returns (links: seq<Link>)
    ensures links == LinkedToRoot(all, n)
  {
    links := all;
    var i := |links|;
    ghost var after: seq<Link> := [];
    assert all[..i] == all;
    while i > 0
      invariant 0 <= i <= |links| == |all| && links == all[..i] + after
      invariant LinkedToRoot(all, n) == LinkedToRoot(all[..i], n) + after
    {
      i := i - 1;
      assert all[..i + 1][..i] == all[..i] && all[..i + 1][i] == all[i] == links[i];
      if links[i].node.None? && links[i].depth == 0 {
        links := links[i := links[i].(node := Some(n))];
      }
      after := [links[i]] + after;
    }
  }

  lemma CoherentLinked(built: nat, elOf: map<Node, El>, nodeOf: map<El, Node>, links: seq<Link>, n: Node)
    requires Coherent(built, elOf, nodeOf, links) && 1 <= n <= built
    ensures Coherent(built, elOf, nodeOf, LinkedBack(links, n))
    ensures Coherent(built, elOf, nodeOf, LinkedToRoot(links, n))
  {
  }

  lemma NodeHasChildren(f: Forest, p: Node)
    requires Tree(f) && IsNode(f, p)
    ensures p in f.children
  {
  }

  lemma NoLinks(depth: int)
    ensures LinksOf([], depth) == []
  {
  }

  lemma NoShadow(st: Stage, dom: Dom, opts: Options, host: Node, depth: int)
    ensures Shadowed(st, dom, opts, [], host, depth) == st
  {
  }

  lemma NoWalk(st: Stage, dom: Dom, opts: Options, top: Node, topDepth: int)
    ensures Walked(st, dom, opts, [], top, topDepth) == st
  {
  }

  lemma NothingVisited(st: Stage, dom: Dom, opts: Options, walk: seq<El>)
    ensures Main(st, dom, opts, walk, []) == st
  {
  }

  lemma {:induction false} OwnedAboveIff(g: Grown, n: Node, k: nat, existing: Option<Node>, target: El)
    requires Level(g.forest.parent, n, k) && ROOT !in g.forest.parent
    requires existing == if target in g.nodeOf then Some(g.nodeOf[target]) else None
    ensures OwnedAbove(g.forest.parent, g.elOf, n, k, existing, target) <==> Owned(g, n, target)
    decreases k
  {
    var parent := g.forest.parent;
    if n != ROOT {
      OwnedAboveIff(g, parent[n], k - 1, existing, target);
      if Owned(g, parent[n], target) {
        var s: nat :| OwnedAt(g, parent[n], target, s);
        assert Up(parent, n, s + 1) == Up(parent, parent[n], s) && OwnedAt(g, n, target, s + 1);
      }
      if Owned(g, n, target) {
        var s: nat :| OwnedAt(g, n, target, s);
        if s > 0 { assert Up(parent, n, s) == Up(parent, parent[n], s - 1) && OwnedAt(g, parent[n], target, s - 1); }
      }
      assert OwnedAt(g, n, target, 0) ==> Owned(g, n, target);
    } else {
      forall s: nat ensures Up(parent, ROOT, s) == ROOT { }
      assert OwnedAt(g, n, target, 0) <==> OwnedAbove(parent, g.elOf, n, k, existing, target);
    }
  }

  lemma OwnedIff(g: Grown, n: Node, k: nat, target: El)
    requires Level(g.forest.parent, n, k) && Tree(g.forest)
    ensures var existing := if target in g.nodeOf then Some(g.nodeOf[target]) else None;
            OwnedAbove(g.forest.parent, g.elOf, n, k, existing, target) <==> Owned(g, n, target)
  {
    OwnedAboveIff(g, n, k, if target in g.nodeOf then Some(g.nodeOf[target]) else None, target);
  }

  /** What was followed stays so when the snapshot is marked truncated later on. */
  lemma FollowedStill(steps: seq<Pass>, dom: Dom, opts: Options, was: bool, truncated: bool)
    requires LinksFollowed(steps, dom, opts, was) && (was ==> truncated)
    ensures LinksFollowed(steps, dom, opts, truncated)
  {
    hide PortalBuilt, Cyclic, Idle, Moved;
  }

  lemma FollowedOn(steps: seq<Pass>, t: Pass, dom: Dom, opts: Options, truncated: bool)
    requires LinksFollowed(steps, dom, opts, truncated)
    requires var i := |steps| - 1;
             i < |steps[i].g.links| && LinkStep(steps[i], t, dom, opts, steps[i].g.links[i], truncated)
    ensures LinksFollowed(steps + [t], dom, opts, truncated)
  {
    hide LinkStep;
  }

  lemma TakenStill(steps: seq<Pass>, dom: Dom, opts: Options, els: seq<El>, was: bool, truncated: bool)
    requires OrphansTaken(steps, dom, opts, els, was) && (was ==> truncated)
    ensures OrphansTaken(steps, dom, opts, els, truncated)
  {
    hide PortalBuilt, IsOrphan;
  }

  class Stitcher {
    var built: nat
    var children: map<Node, seq<Node>>
    var parent: map<Node, Node>
    var elOf: map<Node, El>
    var nodeOf: map<El, Node>
    var depthOf: map<El, int>
    var elementCount: int
    var truncated: bool
    var links: seq<Link>
    var claimed: set<Id>
    var stitched: set<El>
    var portalCount: nat

    ghost function View(): Forest
      reads `built, `children, `parent
    {
      Forest(built, children, parent)
    }

    ghost function Current(): Grown
      reads `built, `children, `parent, `elOf, `nodeOf, `links, `claimed
    {
      Grown(View(), elOf, nodeOf, links, claimed)
    }

    ghost function Now(): Pass
      reads this
    {
      Pass(Current(), stitched, portalCount)
    }

    ghost predicate Valid()
      reads `built, `children, `parent, `elOf, `nodeOf, `elementCount, `links
    {
      && Tree(View())
      && elementCount == built
      && Coherent(built, elOf, nodeOf, links)
    }

    /** As the constructor leaves it. */
    ghost predicate Fresh(dom: Dom)
      reads this
    {
      Now() == Pass(Nothing(dom), {}, 0) && depthOf == map[] && !truncated
    }

    constructor (dom: Dom)
      ensures Valid() && Fresh(dom)
    {
      built, children, parent := 0, map[ROOT := []], map[];
      elOf, nodeOf, depthOf := map[ROOT := dom.root], map[], map[];
      elementCount, truncated := 0, false;
      links, claimed, stitched, portalCount := [], {}, {}, 0;
      new;
      EmptyIsTree();
    }

    /** `buildNode`, and the push and the map entries that follow it. */
    method AddNode(dom: Dom, opts: Options, el: El, depth: int, p: Node) returns (n: Node)
      requires Valid() && p <= built
      modifies `built, `children, `parent, `elOf, `nodeOf, `elementCount, `links, `claimed
      ensures Valid() && n == built == old(built) + 1 && elementCount == old(elementCount) + 1
      ensures Current() == Added(old(Current()), dom, opts, el, depth, p)
      ensures old(links) <= links
    {
      hide Tree, Coherent, LinksOf, Added;
      AttachKeepsTree(View(), p);
      NodeHasChildren(View(), p);
      AddedBelow(Current(), dom, opts, el, depth, p);
      CoherentAdd(built, elOf, nodeOf, links, el, dom.linked(el), depth);
      NoLinks(depth);
      n := built + 1;
      if opts.followPortals {
        links := links + LinksOf(dom.linked(el), depth);
        claimed := claimed + set id | id in dom.linked(el);
      }
      built := n;
      children := children[p := children[p] + [n]][n := []];
      parent := parent[n := p];
      elOf := elOf[n := el];
      nodeOf := nodeOf[el := n];
      elementCount := elementCount + 1;
    }

    /** The links just found belong to the node just built. */
    method BackLink(n: Node, isRoot: bool)
      requires Valid() && 1 <= n <= built
      modifies `links
      ensures Valid()
      ensures links == if isRoot then LinkedToRoot(old(links), n) else LinkedBack(old(links), n)
    {
      hide Tree, Coherent;
      CoherentLinked(built, elOf, nodeOf, links, n);
      if isRoot {
        links := ScanRootLinks(links, n);
      } else {
        links := ScanLinks(links, n);
      }
    }

    /** No room or no time for another node. */
    method OutOfBudget(opts: Options) returns (stop: bool)
      requires Valid()
      modifies `truncated
      ensures Valid() && (!stop ==> elementCount < opts.maxElements)
      ensures truncated == (old(truncated) || stop)
    {
      var late: bool := *;
      stop := elementCount >= opts.maxElements || late;
      if stop {
        truncated := true;
      }
    }

    /** Pass 1: the main walk. */
    method WalkMain(dom: Dom, opts: Options) returns (ghost cuts: seq<nat>)
      requires Valid() && Fresh(dom)
      modifies this
      ensures Valid() && elementCount <= Limit(opts) && stitched == {} && portalCount == 0
      ensures var walk := dom.walk(dom.root);
              && CutsFit(dom, opts, walk, cuts) && (truncated || Full(dom, opts, walk, cuts))
              && Stage(Current(), depthOf) == Main(Begun(dom, opts), dom, opts, walk, cuts)
    {
      hide Tree, Coherent, Added, Visited, Main, LinkedToRoot;
      depthOf := depthOf[dom.root := 0];
      NodesAreBuilt();
      if dom.rootIsElement {
        var rn := AddNode(dom, opts, dom.root, 0, ROOT);
        BackLink(rn, true);
      }
      var walk := dom.walk(dom.root);
      cuts := [];
      NothingVisited(Begun(dom, opts), dom, opts, walk);
      hide Begun;
      for i := 0 to |walk|
        invariant Valid() && elementCount <= Limit(opts) && stitched == {} && portalCount == 0
        invariant |cuts| == i && CutsFit(dom, opts, walk, cuts)
        invariant truncated || forall k :: 0 <= k < i ==> cuts[k] == |ShadowOf(dom, opts, walk[k])|
        invariant Stage(Current(), depthOf) == Main(Begun(dom, opts), dom, opts, walk, cuts)
      {
        var stop := OutOfBudget(opts);
        if stop {
          break;
        }
        ghost var cut := VisitMain(dom, opts, walk[i]);
        MainStep(Begun(dom, opts), dom, opts, walk, cuts, cut);
        cuts := cuts + [cut];
      }
    }

    /** One element of the main walk: below the node of its parent element. */
    method VisitMain(dom: Dom, opts: Options, el: El) returns (ghost cut: nat)
      requires Valid() && elementCount < opts.maxElements
      modifies this
      ensures Valid() && elementCount <= Limit(opts) && stitched == old(stitched) && portalCount == old(portalCount)
      ensures old(truncated) ==> truncated
      ensures cut <= |ShadowOf(dom, opts, el)| && (truncated || cut == |ShadowOf(dom, opts, el)|)
      ensures Stage(Current(), depthOf) == Visited(old(Stage(Current(), depthOf)), dom, opts, el, cut)
    {
      hide Tree, Coherent, Added, Shadowed;
      cut := |ShadowOf(dom, opts, el)|;
      var up := dom.parent(el);
      var parentDepth := if up.Some? && up.value in depthOf then depthOf[up.value] else 0;
      var depth := parentDepth + 1;
      depthOf := depthOf[el := depth];
      if opts.maxDepth > 0 && depth > opts.maxDepth {
        return;
      }
      var n := AddMain(dom, opts, el, depth);
      ghost var placed := Stage(Current(), depthOf);
      if opts.shadowDom && dom.shadow(el).Some? {
        cut := WalkShadow(dom, opts, dom.shadow(el).value, n, depth);
      } else {
        NoShadow(placed, dom, opts, n, depth + 1);
      }
    }

    /** The node, below the one of its parent element or the root, and its links. */
    method AddMain(dom: Dom, opts: Options, el: El, depth: int) returns (n: Node)
      requires Valid()
      modifies `built, `children, `parent, `elOf, `nodeOf, `elementCount, `links, `claimed
      ensures Valid() && n == built == old(built) + 1 && elementCount == old(elementCount) + 1
      ensures Current() == Placed(old(Current()), dom, opts, el, depth)
    {
      NodesAreBuilt();
      hide Tree, Coherent, Attach, LinksOf, Added;
      var up := dom.parent(el);
      var p := if up.Some? && up.value in nodeOf then nodeOf[up.value] else ROOT;
      n := AddNode(dom, opts, el, depth, p);
      BackLink(n, false);
    }

    lemma NodesAreBuilt()
      requires Valid()
      ensures forall e :: e in nodeOf ==> 1 <= nodeOf[e] <= built
      ensures forall n: Node :: n <= built ==> n in elOf && n in children
      ensures forall n: Node :: 1 <= n <= built ==> n in parent && parent[n] <= built
      ensures forall l :: l in links && l.node.Some? ==> 1 <= l.node.value <= built
    {
    }

    method WalkShadow(dom: Dom, opts: Options, walk: seq<El>, host: Node, hostDepth: int) returns (ghost cut: nat)
      requires Valid() && 1 <= host <= built && elementCount <= Limit(opts)
      modifies this
      ensures Valid() && elementCount <= Limit(opts) && stitched == old(stitched) && portalCount == old(portalCount)
      ensures old(truncated) ==> truncated
      ensures cut <= |walk| && (truncated || cut == |walk|)
      ensures Stage(Current(), depthOf)
           == Shadowed(old(Stage(Current(), depthOf)), dom, opts, walk[..cut], host, hostDepth + 1)
    {
      hide Tree, Coherent, Attach, Added, LinksOf, Shadowed;
      var depth := hostDepth + 1;
      NoShadow(Stage(Current(), depthOf), dom, opts, host, depth);
      assert walk[..0] == [];
      for i := 0 to |walk|
        invariant Valid() && elementCount <= Limit(opts) && host <= built
        invariant stitched == old(stitched) && portalCount == old(portalCount) && (old(truncated) ==> truncated)
        invariant Stage(Current(), depthOf)
               == Shadowed(old(Stage(Current(), depthOf)), dom, opts, walk[..i], host, depth)
      {
        ShadowStep(old(Stage(Current(), depthOf)), dom, opts, walk, i, host, depth);
        NodesAreBuilt();
        var el := walk[i];
        var stop := OutOfBudget(opts);
        if stop {
          cut := i;
          return;
        }
        depthOf := depthOf[el := depth];
        if opts.maxDepth == 0 || depth <= opts.maxDepth {
          var up := dom.parent(el);
          var p := if up.Some? && up.value in nodeOf then nodeOf[up.value] else host;
          var n := AddNode(dom, opts, el, depth, p);
        }
      }
      cut := |walk|;
    }

    /** The walk below a portal's own node. */
    method WalkPortal(dom: Dom, opts: Options, portal: El, top: Node, topDepth: int) returns (ghost cut: nat)
      requires Valid() && 1 <= top <= built && elementCount <= Limit(opts)
      modifies this
      ensures Valid() && elementCount <= Limit(opts) && stitched == old(stitched) && portalCount == old(portalCount)
      ensures built >= old(built) && old(links) <= links && (old(truncated) ==> truncated)
      ensures cut <= |dom.walk(portal)| && (truncated || cut == |dom.walk(portal)|)
      ensures Current() == Walked(Stage(old(Current()), map[portal := topDepth]), dom, opts, dom.walk(portal)[..cut],
                                  top, topDepth).g
    {
      hide Tree, Coherent, Attach, Added, LinksOf, Walked;
      var walk := dom.walk(portal);
      ghost var st := Stage(Current(), map[portal := topDepth]);
      NoWalk(st, dom, opts, top, topDepth);
      assert walk[..0] == [];
      var depths: map<El, int> := map[portal := topDepth];
      for i := 0 to |walk|
        invariant Valid() && elementCount <= Limit(opts) && top <= built
        invariant stitched == old(stitched) && portalCount == old(portalCount)
        invariant built >= old(built) && old(links) <= links && (old(truncated) ==> truncated)
        invariant Stage(Current(), depths) == Walked(st, dom, opts, walk[..i], top, topDepth)
      {
        WalkedStep(st, dom, opts, walk, i, top, topDepth);
        NodesAreBuilt();
        var el := walk[i];
        var stop := OutOfBudget(opts);
        if stop {
          cut := i;
          return;
        }
        var up := dom.parent(el);
        var parentDepth := if up.Some? && up.value in depths then depths[up.value] else topDepth;
        var depth := parentDepth + 1;
        depths := depths[el := depth];
        if opts.maxDepth == 0 || depth <= opts.maxDepth {
          var p := if up.Some? && up.value in nodeOf then nodeOf[up.value] else top;
          var n := AddNode(dom, opts, el, depth, p);
        }
      }
      cut := |walk|;
      assert walk[..|walk|] == walk;
    }

    /** A portal gets its own node below `p`, and the walk goes on below that. */
    method BuildPortal(dom: Dom, opts: Options, portal: El, depth: int, p: Node)
      requires Valid() && p <= built && elementCount < opts.maxElements
      modifies this
      ensures Valid() && elementCount <= Limit(opts) && stitched == old(stitched)
      ensures built > old(built) && old(links) <= links && (old(truncated) ==> truncated)
      ensures portalCount == old(portalCount) + 1
      ensures PortalStep(old(Current()), Current(), dom, opts, portal, depth, p, truncated)
    {
      hide Tree, Coherent, Attach, Added, Walked;
      portalCount := portalCount + 1;
      var n := AddNode(dom, opts, portal, depth, p);
      ghost var added := Current();
      ghost var cut := WalkPortal(dom, opts, portal, n, depth);
      assert Current() == PortalBuilt(old(Current()), dom, opts, portal, depth, p, cut);
    }

    /** Climbs from the link's node: would the portal own one of its owners? */
    method IsCyclic(from: Node, existing: Option<Node>, target: El, ghost k: nat) returns (cyclic: bool)
      requires Valid() && Level(parent, from, k)
      ensures cyclic == OwnedAbove(parent, elOf, from, k, existing, target)
    {
      hide Tree;
      var a := from;
      ghost var j := k;
      while true
        invariant Level(parent, a, j)
        invariant OwnedAbove(parent, elOf, from, k, existing, target)
               == OwnedAbove(parent, elOf, a, j, existing, target)
        decreases j
      {
        if existing == Some(a) || (a in elOf && elOf[a] == target) {
          return true;
        }
        if a == ROOT {
          return false;
        }
        a, j := parent[a], j - 1;
      }
    }

    /** An existing node moves to its semantic owner. */
    method MoveNode(t: Node, p: Node, ghost k: nat)
      requires Valid() && 1 <= t <= built && 1 <= p <= built
      requires Level(parent, p, k) && !OnChain(parent, p, k, t)
      modifies `children, `parent
      ensures Valid() && View() == Move(old(View()), t, p)
    {
      MoveKeepsTree(View(), t, p, k);
      hide Tree;
      var before := parent[t];
      children := children[before := Without(children[before], t)];
      children := children[p := children[p] + [t]];
      parent := parent[t := p];
    }

    /** Pass 2, one link. A portal that already has a node is moved, not built
        again: no node is added, and the count stays. */
    method StitchLink(dom: Dom, opts: Options, link: Link) returns (more: bool)
      requires Valid() && elementCount <= Limit(opts)
      requires link.node.Some? ==> 1 <= link.node.value <= built
      modifies this
      ensures Valid() && elementCount <= Limit(opts) && built >= old(built) && old(links) <= links
      ensures built == old(built) ==> links == old(links)
      ensures (old(truncated) ==> truncated) && (!more ==> truncated && Now() == old(Now()))
      ensures more ==> LinkStep(old(Now()), Now(), dom, opts, link, truncated)
    {
      hide Tree, Coherent, TargetStep;
      NodesAreBuilt();
      more := true;
      var found := dom.byId(link.target);
      if found.None? || link.node.None? || found.value in stitched || !dom.accepted(found.value) {
        return;
      }
      var target, owner := found.value, link.node.value;
      var stop := OutOfBudget(opts);
      if stop {
        return false;
      }
      StitchTarget(dom, opts, target, link.depth + 1, owner);
    }

    /** The link's target, below its owner unless it is above it. */
    method StitchTarget(dom: Dom, opts: Options, target: El, depth: int, owner: Node)
      requires Valid() && elementCount < opts.maxElements && 1 <= owner <= built
      modifies this
      ensures Valid() && elementCount <= Limit(opts) && built >= old(built) && old(links) <= links
      ensures (built == old(built) ==> links == old(links)) && (old(truncated) ==> truncated)
      ensures TargetStep(old(Now()), Now(), dom, opts, target, depth, owner, truncated)
    {
      hide Tree, Coherent, Attach, Added, Move, OwnedAbove, OnChain, PortalStep, Owned;
      NodesAreBuilt();
      var existing := if target in nodeOf then Some(nodeOf[target]) else None;
      ghost var k := HeightOf(owner);
      var cyclic := IsCyclic(owner, existing, target, k);
      OwnedIff(Current(), owner, k, target);
      if cyclic || dom.contains(target, elOf[owner]) {
        return;
      }
      stitched := stitched + {target};
      if existing.Some? {
        NotOwnedIsNotOnChain(parent, elOf, owner, k, existing.value, target);
        MoveNode(existing.value, owner, k);
        portalCount := portalCount + 1;
        return;
      }
      BuildPortal(dom, opts, target, depth, owner);
    }

    ghost function HeightOf(n: Node): (k: nat)
      requires Valid() && n <= built
      reads this
      ensures Level(parent, n, k)
    {
      assert IsNode(View(), n) && HasLevel(parent, n);
      var k: nat :| Level(parent, n, k);
      k
    }

    /** Pass 2: the links, also those found on the way. */
    method StitchPortals(dom: Dom, opts: Options) returns (ghost steps: seq<Pass>)
      requires Valid() && elementCount <= Limit(opts)
      modifies this
      ensures Valid() && elementCount <= Limit(opts) && (old(truncated) ==> truncated)
      ensures LinksFollowed(steps, dom, opts, truncated) && steps[0] == old(Now()) && steps[|steps| - 1] == Now()
      ensures truncated || |steps| - 1 == |links|
    {
      hide Tree, Coherent, LinkStep;
      var i, most := 0, Limit(opts);
      steps := [Now()];
      while i < |links|
        invariant 0 <= i <= |links| && |steps| == i + 1
        invariant Valid() && elementCount <= Limit(opts) && (old(truncated) ==> truncated)
        invariant steps[0] == old(Now()) && steps[i] == Now()
        invariant LinksFollowed(steps, dom, opts, truncated)
        decreases most - built, |links| - i
      {
        NodesAreBuilt();
        var link := links[i];
        ghost var was := truncated;
        var more := StitchLink(dom, opts, link);
        FollowedStill(steps, dom, opts, was, truncated);
        if !more {
          break;
        }
        FollowedOn(steps, Now(), dom, opts, truncated);
        steps := steps + [Now()];
        i := i + 1;
      }
    }

    /** Portals that nothing refers to, in full-document snapshots only. */
    method StitchOrphans(dom: Dom, opts: Options) returns (ghost steps: seq<Pass>)
      requires Valid() && elementCount <= Limit(opts)
      modifies this
      ensures Valid() && elementCount <= Limit(opts) && (old(truncated) ==> truncated)
      ensures OrphansTaken(steps, dom, opts, Searched(dom, opts), truncated)
      ensures steps[0] == old(Now()) && steps[|steps| - 1] == Now()
      ensures truncated || |steps| - 1 == |Searched(dom, opts)|
    {
      hide Tree, Coherent, PortalStep;
      var all := if opts.scoped then [] else dom.bodyChildren;
      steps := [Now()];
      for i := 0 to |all|
        invariant Valid() && elementCount <= Limit(opts) && (old(truncated) ==> truncated)
        invariant |steps| == i + 1 && steps[0] == old(Now()) && steps[i] == Now()
        invariant OrphansTaken(steps, dom, opts, all, truncated)
      {
        var orphan := all[i];
        ghost var was := truncated;
        if dom.idOf(orphan).Some? && dom.idOf(orphan).value in claimed {
          steps := steps + [Now()];
          continue;
        }
        if orphan in nodeOf || !dom.accepted(orphan) {
          steps := steps + [Now()];
          continue;
        }
        var stop := OutOfBudget(opts);
        if stop {
          TakenStill(steps, dom, opts, all, was, truncated);
          break;
        }
        if !dom.portalClass(orphan) {
          steps := steps + [Now()];
          continue;
        }
        BuildPortal(dom, opts, orphan, 1, ROOT);
        TakenStill(steps, dom, opts, all, was, truncated);
        steps := steps + [Now()];
      }
    }

    /** The whole pass: a tree, with as many built nodes as were counted, and what
        the walks, the links and the orphans make of the document. */
    method Build(dom: Dom, opts: Options) returns (ghost course: Course)
      requires Valid() && Fresh(dom)
      modifies this
      ensures Tree(View()) && elementCount == built <= Limit(opts)
      ensures LeadsTo(course, dom, opts, Now(), truncated)
    {
      hide Tree, Coherent, LinkStep, OrphanStep;
      ghost var cuts := WalkMain(dom, opts);
      course := Course(cuts, [], []);
      if opts.followPortals {
        ghost var followed := StitchPortals(dom, opts);
        ghost var was := truncated;
        ghost var taken := StitchOrphans(dom, opts);
        FollowedStill(followed, dom, opts, was, truncated);
        course := Course(cuts, followed, taken);
      }
    }
  }
}
