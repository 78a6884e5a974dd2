/**
 Where the portals end up: each target below its owner right after its link, each
 orphan below the root, unless the budget ended the snapshot.
 */
module StitchPlaces {
  import opened Wrappers
  import opened StitchForest
  import opened StitchWalk
  import opened StitchDocument

  /** Every link that has a node has one of the tree. */
  ghost predicate LinksFit(g: Grown) {
    forall l :: l in g.links && l.node.Some? ==> 1 <= l.node.value <= g.forest.size
  }

  /** The references of an element, if the snapshot follows them. */
  function IdsOf(dom: Dom, opts: Options, el: El): seq<Id> {
    if opts.followPortals then dom.linked(el) else []
  }

  /** The claimed ids are those that elements with a node refer to. */
  ghost predicate ClaimsFit(g: Grown, dom: Dom, opts: Options) {
    forall id :: id in g.claimed <==>
      exists n: Node :: 1 <= n <= g.forest.size && n in g.elOf && id in IdsOf(dom, opts, g.elOf[n])
  }

  ghost predicate Good(g: Grown, dom: Dom, opts: Options) {
    && Sound(g) && LinksFit(g) && ClaimsFit(g, dom, opts)
    && forall n: Node :: n in g.forest.parent ==> g.forest.parent[n] <= g.forest.size
  }

  /** Links, claims and nodes only grow. */
  ghost predicate Grows(g: Grown, h: Grown) {
    g.links <= h.links && g.claimed <= h.claimed && g.nodeOf.Keys <= h.nodeOf.Keys
  }

  /** What was there stays where it was. */
  ghost predicate Keeps(g: Grown, h: Grown) {
    && Grows(g, h) && g.forest.size <= h.forest.size
    && forall n: Node :: n <= g.forest.size ==>
         (n in g.forest.parent ==> n in h.forest.parent && h.forest.parent[n] == g.forest.parent[n]) &&
         (n in g.elOf ==> n in h.elOf && h.elOf[n] == g.elOf[n]) &&
         (n in g.forest.children ==> n in h.forest.children && g.forest.children[n] <= h.forest.children[n])
  }

  lemma KeepsOn(f: Grown, g: Grown, h: Grown)
    requires Keeps(f, g) && Keeps(g, h)
    ensures Keeps(f, h)
  {
  }

  lemma KeepsItself(g: Grown)
    ensures Keeps(g, g)
  {
  }

  lemma AddedKeeps(g: Grown, dom: Dom, opts: Options, el: El, depth: int, p: Node)
    requires Good(g, dom, opts) && p <= g.forest.size
    ensures var h := Added(g, dom, opts, el, depth, p);
            && Good(h, dom, opts) && Keeps(g, h) && h.forest.size == g.forest.size + 1
            && IsBelow(h, el, p) && h.nodeOf[el] == h.forest.size
            && p in h.forest.children && h.forest.size in h.forest.children[p]
  {
    hide Added, LinksOf, Good, Keeps, IsBelow, LinksFit, ClaimsFit;
    var h, ids := Added(g, dom, opts, el, depth, p), IdsOf(dom, opts, el);
    GoodIsSound(g, dom, opts);
    AddedBelow(g, dom, opts, el, depth, p);
    LinksOfFit(g, ids, depth);
    AttachedIsGood(g, h, dom, opts, el, p);
    AttachedClaims(g, h, dom, opts, el, p);
    AttachedKeeps(g, h, dom, opts, el, p);
    GoodIf(h, dom, opts);
  }

  lemma GoodIf(g: Grown, dom: Dom, opts: Options)
    requires Sound(g) && LinksFit(g) && ClaimsFit(g, dom, opts)
    requires forall n: Node :: n in g.forest.parent ==> g.forest.parent[n] <= g.forest.size
    ensures Good(g, dom, opts)
  {
  }

  lemma GoodIsSound(g: Grown, dom: Dom, opts: Options)
    requires Good(g, dom, opts)
    ensures Sound(g) && LinksFit(g)
  {
  }

  /** `h` is `g` with one node more. */
  ghost predicate IsAttached(g: Grown, h: Grown, dom: Dom, opts: Options, el: El, p: Node) {
    && p in g.forest.children && h.forest == Attach(g.forest, p) && h.forest.size == g.forest.size + 1
    && h.elOf == g.elOf[h.forest.size := el] && h.nodeOf == g.nodeOf[el := h.forest.size]
    && g.links <= h.links && h.claimed == g.claimed + set id | id in IdsOf(dom, opts, el)
  }

  lemma AttachedIsGood(g: Grown, h: Grown, dom: Dom, opts: Options, el: El, p: Node)
    requires Good(g, dom, opts) && p <= g.forest.size && IsAttached(g, h, dom, opts, el, p)
    requires forall l :: l in h.links && l.node.Some? ==> 1 <= l.node.value <= g.forest.size
    ensures Sound(h) && LinksFit(h)
    ensures forall n: Node :: n in h.forest.parent ==> h.forest.parent[n] <= h.forest.size
  {
    hide ClaimsFit;
  }

  lemma AttachedClaims(g: Grown, h: Grown, dom: Dom, opts: Options, el: El, p: Node)
    requires Good(g, dom, opts) && p <= g.forest.size && IsAttached(g, h, dom, opts, el, p)
    ensures ClaimsFit(h, dom, opts)
  {
    hide IdsOf, LinksFit;
    var n := h.forest.size;
    forall id ensures id in h.claimed <==>
        exists m: Node :: 1 <= m <= h.forest.size && m in h.elOf && id in IdsOf(dom, opts, h.elOf[m])
    {
      if id in IdsOf(dom, opts, el) {
        assert h.elOf[n] == el;
      } else if id in g.claimed {
        var m: Node :| 1 <= m <= g.forest.size && m in g.elOf && id in IdsOf(dom, opts, g.elOf[m]);
        assert h.elOf[m] == g.elOf[m];
      }
    }
  }

  lemma AttachedKeeps(g: Grown, h: Grown, dom: Dom, opts: Options, el: El, p: Node)
    requires Good(g, dom, opts) && p <= g.forest.size && IsAttached(g, h, dom, opts, el, p)
    ensures Keeps(g, h) && IsBelow(h, el, p) && h.nodeOf[el] == h.forest.size
    ensures p in h.forest.children && h.forest.size in h.forest.children[p]
  {
  }

  lemma LinksOfFit(g: Grown, ids: seq<Id>, depth: int)
    requires LinksFit(g)
    ensures forall l :: l in g.links + LinksOf(ids, depth) && l.node.Some? ==> 1 <= l.node.value <= g.forest.size
  {
  }

  lemma {:induction false} WalkedKeeps(st: Stage, dom: Dom, opts: Options, walk: seq<El>, top: Node, topDepth: int)
    requires Good(st.g, dom, opts) && top <= st.g.forest.size
    ensures var t := Walked(st, dom, opts, walk, top, topDepth); Good(t.g, dom, opts) && Keeps(st.g, t.g)
    decreases |walk|
  {
    hide Good, Keeps, Added;
    if walk == [] {
      KeepsItself(st.g);
    } else {
      var n := |walk| - 1;
      WalkedKeeps(st, dom, opts, walk[..n], top, topDepth);
      var s := Walked(st, dom, opts, walk[..n], top, topDepth);
      var depth := DepthOf(s.depths, dom, walk[n], topDepth);
      if Within(opts, depth) {
        ParentIsThere(st.g, s.g, dom, opts, walk[n], top);
        var p := ParentNode(s.g, dom, walk[n], top);
        AddedKeeps(s.g, dom, opts, walk[n], depth, p);
        KeepsOn(st.g, s.g, Added(s.g, dom, opts, walk[n], depth, p));
      }
    }
  }

  lemma ParentIsThere(f: Grown, g: Grown, dom: Dom, opts: Options, el: El, other: Node)
    requires Good(g, dom, opts) && Keeps(f, g) && other <= f.forest.size
    ensures ParentNode(g, dom, el, other) <= g.forest.size
  {
  }

  /** A new portal's node is below the given one, whatever the walk below it adds. */
  lemma PortalIsBelow(g: Grown, h: Grown, dom: Dom, opts: Options, portal: El, depth: int, p: Node, truncated: bool)
    requires Good(g, dom, opts) && p <= g.forest.size && PortalStep(g, h, dom, opts, portal, depth, p, truncated)
    ensures var n := g.forest.size + 1;
            && Good(h, dom, opts) && Keeps(g, h) && portal in h.nodeOf
            && n in h.elOf && h.elOf[n] == portal && n in h.forest.parent && h.forest.parent[n] == p
            && p in h.forest.children && n in h.forest.children[p]
  {
    hide Added, Good, Walked, Keeps, IsBelow;
    var cut: nat :| cut <= |dom.walk(portal)| && h == PortalBuilt(g, dom, opts, portal, depth, p, cut);
    var a := Added(g, dom, opts, portal, depth, p);
    var st, walk := Stage(a, map[portal := depth]), dom.walk(portal)[..cut];
    AddedKeeps(g, dom, opts, portal, depth, p);
    WalkedKeeps(st, dom, opts, walk, a.forest.size, depth);
    PortalParts(g, dom, opts, portal, depth, p, cut);
    KeepsOn(g, a, h);
    PlaceKept(a, h, dom, opts, portal, p);
  }

  lemma PortalParts(g: Grown, dom: Dom, opts: Options, portal: El, depth: int, p: Node, cut: nat)
    requires cut <= |dom.walk(portal)|
    ensures var a := Added(g, dom, opts, portal, depth, p);
            PortalBuilt(g, dom, opts, portal, depth, p, cut)
            == Walked(Stage(a, map[portal := depth]), dom, opts, dom.walk(portal)[..cut], a.forest.size, depth).g
  {
  }

  lemma PlaceKept(a: Grown, h: Grown, dom: Dom, opts: Options, portal: El, p: Node)
    requires Good(a, dom, opts) && Keeps(a, h) && IsBelow(a, portal, p) && a.nodeOf[portal] == a.forest.size
    requires p in a.forest.children && a.forest.size in a.forest.children[p]
    ensures var n := a.forest.size;
            && portal in h.nodeOf && n in h.elOf && h.elOf[n] == portal
            && n in h.forest.parent && h.forest.parent[n] == p
            && p in h.forest.children && n in h.forest.children[p]
  {
    assert a.forest.parent[a.forest.size] == p <= a.forest.size;
  }

  /** The node that a target gets, or has. */
  function NodeFor(g: Grown, target: El): Node {
    if target in g.nodeOf then g.nodeOf[target] else g.forest.size + 1
  }

  /** `n` stands for the element and is listed below `p`. */
  ghost predicate Stands(g: Grown, n: Node, el: El, p: Node) {
    && n in g.elOf && g.elOf[n] == el && n in g.forest.parent && g.forest.parent[n] == p
    && p in g.forest.children && n in g.forest.children[p]
  }

  lemma MovedStands(g: Grown, dom: Dom, opts: Options, target: El, owner: Node)
    requires Good(g, dom, opts) && target in g.nodeOf && owner <= g.forest.size
    ensures var h := Moved(g, target, owner);
            && Good(h, dom, opts) && Grows(g, h) && h.forest.size == g.forest.size
            && Stands(h, g.nodeOf[target], target, owner)
  {
    hide Without;
  }

  /** Right after its own link, a target that is not idle and not above its owner is
      below that owner; any other link changes nothing. */
  lemma TargetIsBelowOwner(s: Pass, t: Pass, dom: Dom, opts: Options, link: Link, truncated: bool)
    requires Good(s.g, dom, opts) && link in s.g.links && LinkStep(s, t, dom, opts, link, truncated)
    ensures Good(t.g, dom, opts) && Grows(s.g, t.g)
    ensures if Idle(s, dom, link) || Cyclic(s.g, dom, link.node.value, dom.byId(link.target).value) then t == s
            else
              var target, owner := dom.byId(link.target).value, link.node.value;
              && target in t.stitched && t.portalCount == s.portalCount + 1
              && Stands(t.g, NodeFor(s.g, target), target, owner)
              && (target in s.g.nodeOf ==> t.g.forest.size == s.g.forest.size)
  {
    hide Cyclic, Moved, PortalStep;
    if !Idle(s, dom, link) && !Cyclic(s.g, dom, link.node.value, dom.byId(link.target).value) {
      var target, owner := dom.byId(link.target).value, link.node.value;
      assert owner <= s.g.forest.size;
      if target in s.g.nodeOf {
        MovedStands(s.g, dom, opts, target, owner);
      } else {
        PortalIsBelow(s.g, t.g, dom, opts, target, link.depth + 1, owner, truncated);
      }
    }
    hide Good, Stands;
  }

  lemma OrphanIsBelowRoot(s: Pass, t: Pass, dom: Dom, opts: Options, el: El, truncated: bool)
    requires Good(s.g, dom, opts) && OrphanStep(s, t, dom, opts, el, truncated)
    ensures Good(t.g, dom, opts) && Grows(s.g, t.g)
    ensures if IsOrphan(s.g, dom, el)
            then el in t.g.nodeOf && t.portalCount == s.portalCount + 1 &&
                 Stands(t.g, s.g.forest.size + 1, el, ROOT)
            else t == s
  {
    hide PortalStep, IsOrphan;
    if IsOrphan(s.g, dom, el) { PortalIsBelow(s.g, t.g, dom, opts, el, 1, ROOT, truncated); }
    hide Good, Stands;
  }

  // ------------------------------------------------------------ from the start

  lemma {:induction false} ShadowedIsGood(st: Stage, dom: Dom, opts: Options, walk: seq<El>, host: Node, depth: int)
    requires Good(st.g, dom, opts) && host <= st.g.forest.size
    ensures var t := Shadowed(st, dom, opts, walk, host, depth); Good(t.g, dom, opts) && Keeps(st.g, t.g)
    decreases |walk|
  {
    hide Good, Keeps, Added;
    if walk == [] {
      KeepsItself(st.g);
    } else {
      var n := |walk| - 1;
      ShadowedIsGood(st, dom, opts, walk[..n], host, depth);
      var s := Shadowed(st, dom, opts, walk[..n], host, depth);
      if Within(opts, depth) {
        ParentIsThere(st.g, s.g, dom, opts, walk[n], host);
        var p := ParentNode(s.g, dom, walk[n], host);
        AddedKeeps(s.g, dom, opts, walk[n], depth, p);
        KeepsOn(st.g, s.g, Added(s.g, dom, opts, walk[n], depth, p));
      }
    }
  }

  lemma {:induction false} BackLinksFit(links: seq<Link>, n: Node, size: nat)
    requires 1 <= n <= size && forall l :: l in links && l.node.Some? ==> 1 <= l.node.value <= size
    ensures forall l :: l in LinkedBack(links, n) && l.node.Some? ==> 1 <= l.node.value <= size
    ensures forall l :: l in LinkedToRoot(links, n) && l.node.Some? ==> 1 <= l.node.value <= size
  {
    if links != [] {
      var last := |links| - 1;
      forall l | l in links[..last] ensures l in links { }
      BackLinksFit(links[..last], n, size);
      assert links[last] in links;
    }
  }

  lemma LinkedIsGood(g: Grown, dom: Dom, opts: Options, links: seq<Link>)
    requires Good(g, dom, opts) && forall l :: l in links && l.node.Some? ==> 1 <= l.node.value <= g.forest.size
    ensures Good(g.(links := links), dom, opts)
  {
  }

  lemma PlacedIsGood(g: Grown, dom: Dom, opts: Options, el: El, depth: int)
    requires Good(g, dom, opts)
    ensures var h := Placed(g, dom, opts, el, depth); Good(h, dom, opts) && h.forest.size == g.forest.size + 1
  {
    hide Added, Good, LinkedBack, Keeps, IsBelow, ParentNode;
    var p := ParentNode(g, dom, el, ROOT);
    KeepsItself(g);
    ParentIsThere(g, g, dom, opts, el, ROOT);
    var a := Added(g, dom, opts, el, depth, p);
    AddedKeeps(g, dom, opts, el, depth, p);
    GoodIsSound(a, dom, opts);
    BackLinksFit(a.links, a.forest.size, a.forest.size);
    LinkedIsGood(a, dom, opts, LinkedBack(a.links, a.forest.size));
  }

  lemma VisitedIsGood(st: Stage, dom: Dom, opts: Options, el: El, cut: nat)
    requires Good(st.g, dom, opts) && cut <= |ShadowOf(dom, opts, el)|
    ensures Good(Visited(st, dom, opts, el, cut).g, dom, opts)
  {
    hide Placed, Shadowed, Good, Keeps, ShadowOf;
    var depth := DepthOf(st.depths, dom, el, 0);
    PlacedIsGood(st.g, dom, opts, el, depth);
    var h := Placed(st.g, dom, opts, el, depth);
    var shadow := ShadowOf(dom, opts, el)[..cut];
    ShadowedIsGood(Stage(h, st.depths[el := depth]), dom, opts, shadow, h.forest.size, depth + 1);
  }

  lemma BegunIsGood(dom: Dom, opts: Options)
    ensures Good(Begun(dom, opts).g, dom, opts)
  {
    var a := Added(Nothing(dom), dom, opts, dom.root, 0, ROOT);
    AddedKeeps(Nothing(dom), dom, opts, dom.root, 0, ROOT);
    BackLinksFit(a.links, a.forest.size, a.forest.size);
    LinkedIsGood(a, dom, opts, LinkedToRoot(a.links, a.forest.size));
    hide Added, LinkedToRoot;
  }

  lemma {:induction false} MainIsGood(dom: Dom, opts: Options, walk: seq<El>, cuts: seq<nat>)
    requires CutsFit(dom, opts, walk, cuts)
    ensures Good(Main(Begun(dom, opts), dom, opts, walk, cuts).g, dom, opts)
    decreases cuts
  {
    hide Good, Visited, Begun;
    if cuts == [] {
      BegunIsGood(dom, opts);
    } else {
      var n := |cuts| - 1;
      MainIsGood(dom, opts, walk, cuts[..n]);
      VisitedIsGood(Main(Begun(dom, opts), dom, opts, walk, cuts[..n]), dom, opts, walk[n], cuts[n]);
    }
  }

  lemma {:induction false} LinksAreGood(steps: seq<Pass>, dom: Dom, opts: Options, truncated: bool, i: nat)
    requires LinksFollowed(steps, dom, opts, truncated) && Good(steps[0].g, dom, opts) && i < |steps|
    ensures Good(steps[i].g, dom, opts) && Grows(steps[0].g, steps[i].g)
    decreases i
  {
    hide Good, LinkStep;
    if i > 0 {
      LinksAreGood(steps, dom, opts, truncated, i - 1);
      var link := steps[i - 1].g.links[i - 1];
      TargetIsBelowOwner(steps[i - 1], steps[i], dom, opts, link, truncated);
    }
  }

  lemma {:induction false} LinksGrow(steps: seq<Pass>, dom: Dom, opts: Options, truncated: bool, i: nat, j: nat)
    requires LinksFollowed(steps, dom, opts, truncated) && Good(steps[0].g, dom, opts) && i <= j < |steps|
    ensures Grows(steps[i].g, steps[j].g)
    decreases j
  {
    hide Good, LinkStep;
    if i < j {
      LinksGrow(steps, dom, opts, truncated, i, j - 1);
      LinksAreGood(steps, dom, opts, truncated, j - 1);
      TargetIsBelowOwner(steps[j - 1], steps[j], dom, opts, steps[j - 1].g.links[j - 1], truncated);
    }
  }

  lemma {:induction false} OrphansGrow(steps: seq<Pass>, dom: Dom, opts: Options, els: seq<El>, truncated: bool,
                                       i: nat, j: nat)
    requires OrphansTaken(steps, dom, opts, els, truncated) && Good(steps[0].g, dom, opts) && i <= j < |steps|
    ensures Good(steps[j].g, dom, opts) && Grows(steps[i].g, steps[j].g)
    decreases j
  {
    hide Good, OrphanStep;
    if j > 0 {
      OrphansGrow(steps, dom, opts, els, truncated, if i < j then i else j - 1, j - 1);
      OrphanIsBelowRoot(steps[j - 1], steps[j], dom, opts, els[j - 1], truncated);
    }
  }

  lemma CourseIsGood(c: Course, dom: Dom, opts: Options, end: Pass, truncated: bool)
    requires LeadsTo(c, dom, opts, end, truncated) && opts.followPortals
    ensures Good(c.links[0].g, dom, opts) && Good(c.links[|c.links| - 1].g, dom, opts)
  {
    MainIsGood(dom, opts, dom.walk(dom.root), c.cuts);
    hide Good, Main;
    LinksAreGood(c.links, dom, opts, truncated, |c.links| - 1);
  }

  /** The link has an owner and an accepted target that is not stitched yet, does not
      contain the owner's element, and is neither the owner nor above it. */
  ghost predicate Stitches(s: Pass, dom: Dom, link: Link, target: El) {
    && dom.byId(link.target) == Some(target) && link.node.Some?
    && target !in s.stitched && dom.accepted(target)
    && (link.node.value in s.g.elOf ==> !dom.contains(target, s.g.elOf[link.node.value]))
    && forall k: nat :: NotAt(s.g, link.node.value, target, k)
  }

  /** The node `k` steps above is not the target's, nor for its element. */
  predicate NotAt(g: Grown, owner: Node, target: El, k: nat) {
    var a := Up(g.forest.parent, owner, k);
    && (a in g.elOf ==> g.elOf[a] != target)
    && (target in g.nodeOf ==> g.nodeOf[target] != a)
  }

  lemma StitchesIff(s: Pass, dom: Dom, link: Link, target: El)
    requires dom.byId(link.target) == Some(target)
    ensures Stitches(s, dom, link, target) <==>
              !Idle(s, dom, link) && !Cyclic(s.g, dom, link.node.value, target)
  {
    if link.node.Some? {
      var owner := link.node.value;
      forall k: nat ensures NotAt(s.g, owner, target, k) <==> !OwnedAt(s.g, owner, target, k) { }
      assert Owned(s.g, owner, target) <==> exists k: nat :: OwnedAt(s.g, owner, target, k);
      hide NotAt, OwnedAt;
    }
  }

  /** In a snapshot that is not marked truncated every link was followed, those found
      on the way included: link `i` at step `i`, and then its target stands below its
      owner; a link that does not stitch its target changes nothing. */
  lemma EveryLinkIsFollowed(c: Course, dom: Dom, opts: Options, end: Pass, i: nat)
    requires LeadsTo(c, dom, opts, end, false) && opts.followPortals && i < |c.links[|c.links| - 1].g.links|
    ensures i + 1 < |c.links|
    ensures var s, t, link := c.links[i], c.links[i + 1], c.links[|c.links| - 1].g.links[i];
            && i < |s.g.links| && s.g.links[i] == link
            && match dom.byId(link.target)
               case None => t == s
               case Some(target) =>
                 if Stitches(s, dom, link, target)
                 then target in t.stitched && Stands(t.g, NodeFor(s.g, target), target, link.node.value)
                 else t == s
  {
    CourseIsGood(c, dom, opts, end, false);
    hide Good, Main, Cyclic, Stands, Stitches;
    LinksAreGood(c.links, dom, opts, false, i);
    LinksGrow(c.links, dom, opts, false, i, |c.links| - 1);
    var link := c.links[i].g.links[i];
    TargetIsBelowOwner(c.links[i], c.links[i + 1], dom, opts, link, false);
    if dom.byId(link.target).Some? { StitchesIff(c.links[i], dom, link, dom.byId(link.target).value); }
  }

  /** An element with a node refers to this one. */
  ghost predicate ReferredTo(g: Grown, dom: Dom, el: El) {
    dom.idOf(el).Some? &&
    exists n: Node :: 1 <= n <= g.forest.size && n in g.elOf && dom.idOf(el).value in dom.linked(g.elOf[n])
  }

  lemma ClaimedIff(g: Grown, dom: Dom, opts: Options, el: El)
    requires Good(g, dom, opts) && opts.followPortals
    ensures ReferredTo(g, dom, el) <==> dom.idOf(el).Some? && dom.idOf(el).value in g.claimed
  {
    hide Sound, LinksFit;
  }

  /** And of the body's children with a portal's class that are accepted, each one
      that nothing refers to has a node: if it had none at its step, one below the
      root. */
  lemma EveryOrphanIsShown(c: Course, dom: Dom, opts: Options, end: Pass, i: nat)
    requires LeadsTo(c, dom, opts, end, false) && opts.followPortals && !opts.scoped && i < |dom.bodyChildren|
    requires var el := dom.bodyChildren[i];
             dom.accepted(el) && dom.portalClass(el) && !ReferredTo(end.g, dom, el)
    ensures dom.bodyChildren[i] in end.g.nodeOf && i + 1 < |c.orphans|
    ensures var el := dom.bodyChildren[i];
            el !in c.orphans[i].g.nodeOf ==> Stands(c.orphans[i + 1].g, c.orphans[i].g.forest.size + 1, el, ROOT)
  {
    CourseIsGood(c, dom, opts, end, false);
    hide Good, Main, Stands, LinksFollowed, ReferredTo;
    var el, els, n := dom.bodyChildren[i], dom.bodyChildren, |c.orphans| - 1;
    OrphansGrow(c.orphans, dom, opts, els, false, i, n);
    OrphansGrow(c.orphans, dom, opts, els, false, i + 1, n);
    OrphansGrow(c.orphans, dom, opts, els, false, 0, i);
    ClaimedIff(end.g, dom, opts, el);
    OrphanIsBelowRoot(c.orphans[i], c.orphans[i + 1], dom, opts, el, false);
  }

  /** One that an element with a node refers to, or that has a node itself, is left
      to its link. */
  lemma OthersAreNoOrphans(c: Course, dom: Dom, opts: Options, end: Pass, truncated: bool, i: nat)
    requires LeadsTo(c, dom, opts, end, truncated) && opts.followPortals && i + 1 < |c.orphans|
    requires var el, g := Searched(dom, opts)[i], c.orphans[i].g;
             ReferredTo(g, dom, el) || el in g.nodeOf || !dom.accepted(el) || !dom.portalClass(el)
    ensures c.orphans[i + 1] == c.orphans[i]
  {
    CourseIsGood(c, dom, opts, end, truncated);
    hide Good, Main, LinksFollowed, Searched, ReferredTo;
    OrphansGrow(c.orphans, dom, opts, Searched(dom, opts), truncated, 0, i);
    ClaimedIff(c.orphans[i].g, dom, opts, Searched(dom, opts)[i]);
  }

  /** A snapshot of a chosen part of the page takes no orphans. */
  lemma ScopedTakesNone(c: Course, dom: Dom, opts: Options, end: Pass, truncated: bool)
    requires LeadsTo(c, dom, opts, end, truncated) && opts.followPortals && opts.scoped
    ensures end == c.links[|c.links| - 1]
  {
    hide Main, LinksFollowed;
  }
}
