/**
 What the walks of a snapshot build, as functions: the main walk with the shadow
 roots it meets, the walk below a portal, one portal link and one orphan. `cut`
 tells how far a walk came before the budget ended it.
 */
module StitchWalk {
  import opened Wrappers
  import opened StitchForest

  type El = nat
  type Id = nat

  /** `walk(e)` lists what a tree walker accepts below `e`, in its order. */
  datatype Dom = Dom(
    root: El, rootIsElement: bool,
    walk: El -> seq<El>, shadow: El -> Option<seq<El>>,
    parent: El -> Option<El>, contains: (El, El) -> bool, accepted: El -> bool,
    linked: El -> seq<Id>, byId: Id -> Option<El>,
    bodyChildren: seq<El>, idOf: El -> Option<Id>, portalClass: El -> bool)

  datatype Options = Options(maxElements: int, maxDepth: int, followPortals: bool, shadowDom: bool, scoped: bool)

  /** An `aria-controls` or `aria-owns` reference, and the node that made it. */
  datatype Link = Link(target: Id, depth: int, node: Option<Node>)

  function LinksOf(ids: seq<Id>, depth: int): seq<Link> {
    seq(|ids|, i requires 0 <= i < |ids| => Link(ids[i], depth, None))
  }

  function LinkedBack(links: seq<Link>, n: Node): seq<Link> {
    var last := |links| - 1;
    if links == [] || links[last].node.Some? then links
    else LinkedBack(links[..last], n) + [links[last].(node := Some(n))]
  }

  function LinkedToRoot(links: seq<Link>, n: Node): seq<Link> {
    var last := |links| - 1;
    if links == [] then []
    else
      var l := links[last];
      LinkedToRoot(links[..last], n) + [if l.node.None? && l.depth == 0 then l.(node := Some(n)) else l]
  }

  // ------------------------------------------------------------------ the tree

  /** The tree, which element each node is for and which node each element has,
      and the references found so far with the ids that they claim. */
  datatype Grown = Grown(
    forest: Forest, elOf: map<Node, El>, nodeOf: map<El, Node>, links: seq<Link>, claimed: set<Id>)

  function Nothing(dom: Dom): Grown {
    Grown(EMPTY, map[ROOT := dom.root], map[], [], {})
  }

  /** An element's node, new below `p`, with the references the element makes. */
  function Added(g: Grown, dom: Dom, opts: Options, el: El, depth: int, p: Node): Grown {
    if p !in g.forest.children then g
    else
      var n, ids := g.forest.size + 1, if opts.followPortals then dom.linked(el) else [];
      Grown(Attach(g.forest, p), g.elOf[n := el], g.nodeOf[el := n],
            g.links + LinksOf(ids, depth), g.claimed + set id | id in ids)
  }

  /** The node of the parent element, or `other` if it has none. */
  function ParentNode(g: Grown, dom: Dom, el: El, other: Node): Node {
    var up := dom.parent(el);
    if up.Some? && up.value in g.nodeOf then g.nodeOf[up.value] else other
  }

  function DepthOf(depths: map<El, int>, dom: Dom, el: El, topDepth: int): int {
    var up := dom.parent(el);
    1 + if up.Some? && up.value in depths then depths[up.value] else topDepth
  }

  predicate Within(opts: Options, depth: int) {
    opts.maxDepth == 0 || depth <= opts.maxDepth
  }

  /** The main walk has no limit when `maxDepth` is negative either. */
  predicate MainWithin(opts: Options, depth: int) {
    opts.maxDepth <= 0 || depth <= opts.maxDepth
  }

  /** A walk under way: the tree so far, and the depths of what it has seen. */
  datatype Stage = Stage(g: Grown, depths: map<El, int>)

  // -------------------------------------------------------------- the main walk

  /** A shadow tree: its elements all count as one level below the host. */
  function Shadowed(st: Stage, dom: Dom, opts: Options, walk: seq<El>, host: Node, depth: int): Stage {
    if walk == [] then st
    else
      var el := walk[|walk| - 1];
      var s := Shadowed(st, dom, opts, walk[..|walk| - 1], host, depth);
      Stage(if Within(opts, depth) then Added(s.g, dom, opts, el, depth, ParentNode(s.g, dom, el, host)) else s.g,
            s.depths[el := depth])
  }

  /** The elements of an open shadow root, if the snapshot looks into it. */
  function ShadowOf(dom: Dom, opts: Options, el: El): seq<El> {
    if opts.shadowDom && dom.shadow(el).Some? then dom.shadow(el).value else []
  }

  /** An element's node below its parent's or the root, with the open links. */
  function Placed(g: Grown, dom: Dom, opts: Options, el: El, depth: int): Grown {
    var h := Added(g, dom, opts, el, depth, ParentNode(g, dom, el, ROOT));
    h.(links := LinkedBack(h.links, h.forest.size))
  }

  /** One element of the main walk, and `cut` elements of its shadow root. */
  function Visited(st: Stage, dom: Dom, opts: Options, el: El, cut: nat): Stage
    requires cut <= |ShadowOf(dom, opts, el)|
  {
    var depth := DepthOf(st.depths, dom, el, 0);
    var d := st.depths[el := depth];
    if !MainWithin(opts, depth) then Stage(st.g, d)
    else
      var h := Placed(st.g, dom, opts, el, depth);
      Shadowed(Stage(h, d), dom, opts, ShadowOf(dom, opts, el)[..cut], h.forest.size, depth + 1)
  }

  ghost predicate CutsFit(dom: Dom, opts: Options, walk: seq<El>, cuts: seq<nat>) {
    |cuts| <= |walk| && forall i :: 0 <= i < |cuts| ==> cuts[i] <= |ShadowOf(dom, opts, walk[i])|
  }

  /** The first `|cuts|` elements of the main walk. */
  function Main(st: Stage, dom: Dom, opts: Options, walk: seq<El>, cuts: seq<nat>): Stage
    requires CutsFit(dom, opts, walk, cuts)
    decreases cuts
  {
    if cuts == [] then st
    else
      var n := |cuts| - 1;
      Visited(Main(st, dom, opts, walk, cuts[..n]), dom, opts, walk[n], cuts[n])
  }

  /** The root's own node, if it is an element. */
  function Begun(dom: Dom, opts: Options): Stage {
    var g := Nothing(dom);
    var depths: map<El, int> := map[dom.root := 0];
    if !dom.rootIsElement then Stage(g, depths)
    else
      var h := Added(g, dom, opts, dom.root, 0, ROOT);
      Stage(h.(links := LinkedToRoot(h.links, h.forest.size)), depths)
  }

  /** All of the main walk and of its shadow roots. */
  ghost predicate Full(dom: Dom, opts: Options, walk: seq<El>, cuts: seq<nat>)
    requires CutsFit(dom, opts, walk, cuts)
  {
    |cuts| == |walk| && forall i :: 0 <= i < |cuts| ==> cuts[i] == |ShadowOf(dom, opts, walk[i])|
  }

  // --------------------------------------------------------------- the portals

  /** A walk below `top`: every element not too deep is added below the node of
      its parent element, or below `top`. */
  function Walked(st: Stage, dom: Dom, opts: Options, walk: seq<El>, top: Node, topDepth: int): Stage {
    if walk == [] then st
    else
      var el := walk[|walk| - 1];
      var s := Walked(st, dom, opts, walk[..|walk| - 1], top, topDepth);
      var depth := DepthOf(s.depths, dom, el, topDepth);
      Stage(if Within(opts, depth) then Added(s.g, dom, opts, el, depth, ParentNode(s.g, dom, el, top)) else s.g,
            s.depths[el := depth])
  }

  /** A portal's own node below `p`, and `cut` elements of the walk below it. */
  function PortalBuilt(g: Grown, dom: Dom, opts: Options, portal: El, depth: int, p: Node, cut: nat): Grown
    requires cut <= |dom.walk(portal)|
  {
    var h := Added(g, dom, opts, portal, depth, p);
    Walked(Stage(h, map[portal := depth]), dom, opts, dom.walk(portal)[..cut], h.forest.size, depth).g
  }

  /** The pass over the links and orphans: the tree, the portals already stitched,
      and how many portals there are. */
  datatype Pass = Pass(g: Grown, stitched: set<El>, portalCount: nat)

  /** The link leads to nothing to stitch. */
  predicate Idle(s: Pass, dom: Dom, link: Link) {
    || dom.byId(link.target).None? || link.node.None?
    || dom.byId(link.target).value in s.stitched || !dom.accepted(dom.byId(link.target).value)
  }

  /** A node at or above `owner` is the target's, or stands for it. */
  ghost predicate Owned(g: Grown, owner: Node, target: El) {
    exists s: nat :: OwnedAt(g, owner, target, s)
  }

  predicate OwnedAt(g: Grown, owner: Node, target: El, s: nat) {
    var a := Up(g.forest.parent, owner, s);
    (target in g.nodeOf && g.nodeOf[target] == a) || (a in g.elOf && g.elOf[a] == target)
  }

  /** The target is above its owner, in the tree or in the document. */
  ghost predicate Cyclic(g: Grown, dom: Dom, owner: Node, target: El) {
    Owned(g, owner, target) || (owner in g.elOf && dom.contains(target, g.elOf[owner]))
  }

  /** An existing node moves to its owner. */
  function Moved(g: Grown, target: El, owner: Node): Grown {
    if target in g.nodeOf && g.nodeOf[target] in g.forest.parent
       && g.forest.parent[g.nodeOf[target]] in g.forest.children && owner in g.forest.children
    then g.(forest := Move(g.forest, g.nodeOf[target], owner)) else g
  }

  /** One link, seen to its end unless the snapshot is marked truncated. */
  ghost predicate LinkStep(s: Pass, t: Pass, dom: Dom, opts: Options, link: Link, truncated: bool) {
    if Idle(s, dom, link) then t == s
    else TargetStep(s, t, dom, opts, dom.byId(link.target).value, link.depth + 1, link.node.value, truncated)
  }

  ghost predicate TargetStep(s: Pass, t: Pass, dom: Dom, opts: Options, target: El, depth: int, owner: Node,
                             truncated: bool) {
    if Cyclic(s.g, dom, owner, target) then t == s
    else
      && t.stitched == s.stitched + {target} && t.portalCount == s.portalCount + 1
      && if target in s.g.nodeOf then t.g == Moved(s.g, target, owner)
         else PortalStep(s.g, t.g, dom, opts, target, depth, owner, truncated)
  }

  ghost predicate PortalStep(g: Grown, h: Grown, dom: Dom, opts: Options, portal: El, depth: int, p: Node,
                             truncated: bool) {
    exists cut: nat :: cut <= |dom.walk(portal)| && (truncated || cut == |dom.walk(portal)|) &&
                       h == PortalBuilt(g, dom, opts, portal, depth, p, cut)
  }

  /** One link after the other, from `steps[0]` on. */
  ghost predicate LinksFollowed(steps: seq<Pass>, dom: Dom, opts: Options, truncated: bool) {
    steps != [] && forall i :: 0 <= i < |steps| - 1 ==>
      i < |steps[i].g.links| && LinkStep(steps[i], steps[i + 1], dom, opts, steps[i].g.links[i], truncated)
  }

  /** A portal that nothing refers to. */
  predicate IsOrphan(g: Grown, dom: Dom, el: El) {
    && !(dom.idOf(el).Some? && dom.idOf(el).value in g.claimed)
    && el !in g.nodeOf && dom.accepted(el) && dom.portalClass(el)
  }

  ghost predicate OrphanStep(s: Pass, t: Pass, dom: Dom, opts: Options, el: El, truncated: bool) {
    if IsOrphan(s.g, dom, el)
    then t.stitched == s.stitched && t.portalCount == s.portalCount + 1 &&
         PortalStep(s.g, t.g, dom, opts, el, 1, ROOT, truncated)
    else t == s
  }

  ghost predicate OrphansTaken(steps: seq<Pass>, dom: Dom, opts: Options, els: seq<El>, truncated: bool) {
    0 < |steps| <= |els| + 1 && forall i :: 0 <= i < |steps| - 1 ==>
      OrphanStep(steps[i], steps[i + 1], dom, opts, els[i], truncated)
  }

  /** Orphans are looked for in full-document snapshots only. */
  function Searched(dom: Dom, opts: Options): seq<El> {
    if opts.scoped then [] else dom.bodyChildren
  }

  /** What a snapshot is built of, phase by phase. */
  datatype Course = Course(cuts: seq<nat>, links: seq<Pass>, orphans: seq<Pass>)

  /** `end` is where this course leads: through the main walk, then link after link,
      then orphan after orphan, and each phase to its end unless the snapshot is
      marked truncated. */
  ghost predicate LeadsTo(c: Course, dom: Dom, opts: Options, end: Pass, truncated: bool) {
    var walk := dom.walk(dom.root);
    && CutsFit(dom, opts, walk, c.cuts) && (truncated || Full(dom, opts, walk, c.cuts))
    && var start := Pass(Main(Begun(dom, opts), dom, opts, walk, c.cuts).g, {}, 0);
       if !opts.followPortals then end == start
       else
         && LinksFollowed(c.links, dom, opts, truncated) && c.links[0] == start
         && var linked := c.links[|c.links| - 1];
            && (truncated || |c.links| - 1 == |linked.g.links|)
            && OrphansTaken(c.orphans, dom, opts, Searched(dom, opts), truncated) && c.orphans[0] == linked
            && (truncated || |c.orphans| - 1 == |Searched(dom, opts)|)
            && end == c.orphans[|c.orphans| - 1]
  }

  // -------------------------------------------------- steps seen one by one

  lemma MainStep(st: Stage, dom: Dom, opts: Options, walk: seq<El>, cuts: seq<nat>, cut: nat)
    requires CutsFit(dom, opts, walk, cuts) && |cuts| < |walk| && cut <= |ShadowOf(dom, opts, walk[|cuts|])|
    ensures CutsFit(dom, opts, walk, cuts + [cut])
    ensures Main(st, dom, opts, walk, cuts + [cut])
         == Visited(Main(st, dom, opts, walk, cuts), dom, opts, walk[|cuts|], cut)
  {
    hide Visited;
    assert (cuts + [cut])[..|cuts|] == cuts;
  }

  lemma ShadowStep(st: Stage, dom: Dom, opts: Options, walk: seq<El>, i: nat, host: Node, depth: int)
    requires i < |walk|
    ensures var s := Shadowed(st, dom, opts, walk[..i], host, depth);
            Shadowed(st, dom, opts, walk[..i + 1], host, depth) ==
            Stage(if Within(opts, depth)
                  then Added(s.g, dom, opts, walk[i], depth, ParentNode(s.g, dom, walk[i], host)) else s.g,
                  s.depths[walk[i] := depth])
  {
    hide Added;
    assert walk[..i + 1][..i] == walk[..i];
  }

  lemma WalkedStep(st: Stage, dom: Dom, opts: Options, walk: seq<El>, i: nat, top: Node, topDepth: int)
    requires i < |walk|
    ensures var s := Walked(st, dom, opts, walk[..i], top, topDepth);
            var depth := DepthOf(s.depths, dom, walk[i], topDepth);
            Walked(st, dom, opts, walk[..i + 1], top, topDepth) ==
            Stage(if Within(opts, depth)
                  then Added(s.g, dom, opts, walk[i], depth, ParentNode(s.g, dom, walk[i], top)) else s.g,
                  s.depths[walk[i] := depth])
  {
    hide Added;
    assert walk[..i + 1][..i] == walk[..i];
  }

  lemma AddedBelow(g: Grown, dom: Dom, opts: Options, el: El, depth: int, p: Node)
    requires p in g.forest.children
    ensures var h, ids := Added(g, dom, opts, el, depth, p), if opts.followPortals then dom.linked(el) else [];
            && h.forest == Attach(g.forest, p) && h.forest.size == g.forest.size + 1
            && h.elOf == g.elOf[g.forest.size + 1 := el] && h.nodeOf == g.nodeOf[el := g.forest.size + 1]
            && h.links == g.links + LinksOf(ids, depth) && h.claimed == g.claimed + set id | id in ids
  {
  }
}
