/**
 Which node a reference belongs to: without shadow roots, each belongs to the node
 of the element that makes it, one level deeper than the portal's owner.
 */
module StitchLinks {
  import opened Wrappers
  import opened StitchForest
  import opened StitchWalk
  import opened StitchDocument

  /** The references of nodes 1 to `n`, each with its own node and its depth. */
  function OwnLinks(st: Stage, dom: Dom, n: nat): seq<Link> {
    if n == 0 || n !in st.g.elOf || st.g.elOf[n] !in st.depths then []
    else OwnLinks(st, dom, n - 1) + LinksAt(dom.linked(st.g.elOf[n]), st.depths[st.g.elOf[n]], n)
  }

  function LinksAt(ids: seq<Id>, depth: int, n: Node): seq<Link> {
    seq(|ids|, i requires 0 <= i < |ids| => Link(ids[i], depth, Some(n)))
  }

  /** When no link is open, the links a new element brings get its node. */
  lemma {:induction false} LinksGetTheirNode(links: seq<Link>, ids: seq<Id>, depth: int, n: Node)
    requires forall l :: l in links ==> l.node.Some?
    ensures LinkedBack(links + LinksOf(ids, depth), n) == links + LinksAt(ids, depth, n)
    decreases |ids|
  {
    var all := links + LinksOf(ids, depth);
    if ids == [] {
      assert all == links && links + LinksAt(ids, depth, n) == links;
    } else {
      var last := |ids| - 1;
      LinksGetTheirNode(links, ids[..last], depth, n);
      assert all[..|all| - 1] == links + LinksOf(ids[..last], depth);
    }
  }

  lemma {:induction false} RootLinksGetTheirNode(ids: seq<Id>, n: Node)
    ensures LinkedToRoot(LinksOf(ids, 0), n) == LinksAt(ids, 0, n)
    decreases |ids|
  {
    if ids != [] {
      var last, all := |ids| - 1, LinksOf(ids, 0);
      RootLinksGetTheirNode(ids[..last], n);
      assert all[..|all| - 1] == LinksOf(ids[..last], 0);
    }
  }

  lemma {:induction false} OwnLinksAreClosed(st: Stage, dom: Dom, n: nat)
    ensures forall l :: l in OwnLinks(st, dom, n) ==> l.node.Some?
  {
    if n > 0 { OwnLinksAreClosed(st, dom, n - 1); }
  }

  /** All nodes stand for elements of known depth. */
  ghost predicate Known(st: Stage) {
    forall n: Node :: 1 <= n <= st.g.forest.size ==> n in st.g.elOf && st.g.elOf[n] in st.depths
  }

  lemma {:induction false} OwnLinksStay(s: Stage, t: Stage, dom: Dom, el: El, n: nat)
    requires Known(s) && Extends(s, t, {el}) && n <= s.g.forest.size
    requires forall m: Node :: 1 <= m <= s.g.forest.size && m in s.g.elOf ==> s.g.elOf[m] != el
    ensures OwnLinks(t, dom, n) == OwnLinks(s, dom, n)
  {
    if n > 0 { OwnLinksStay(s, t, dom, el, n - 1); }
  }

  ghost predicate LinksOwn(st: Stage, dom: Dom) {
    Known(st) && st.g.links == OwnLinks(st, dom, st.g.forest.size)
  }

  lemma BegunLinksOwn(dom: Dom, opts: Options)
    requires opts.followPortals
    ensures LinksOwn(Begun(dom, opts), dom)
  {
    if dom.rootIsElement {
      AddedBelow(Nothing(dom), dom, opts, dom.root, 0, ROOT);
      RootLinksGetTheirNode(dom.linked(dom.root), 1);
      var st := Begun(dom, opts);
      assert [] + LinksOf(dom.linked(dom.root), 0) == LinksOf(dom.linked(dom.root), 0);
      assert OwnLinks(st, dom, 0) == [];
      hide Added, LinkedToRoot;
      assert OwnLinks(st, dom, 1) == [] + LinksAt(dom.linked(dom.root), 0, 1);
    }
  }

  lemma NothingInShadow(dom: Dom, opts: Options, st: Stage, el: El, cut: nat)
    requires !opts.shadowDom && cut <= |ShadowOf(dom, opts, el)|
    ensures Visited(st, dom, opts, el, cut) == PlacedStage(st, dom, opts, el)
  {
    hide Placed;
  }

  lemma PlacedLinks(st: Stage, dom: Dom, opts: Options, el: El)
    requires opts.followPortals && Sound(st.g)
    ensures var depth := DepthOf(st.depths, dom, el, 0);
            var t := PlacedStage(st, dom, opts, el);
            if MainWithin(opts, depth)
            then && t.g.forest.size == st.g.forest.size + 1
                 && t.g.elOf == st.g.elOf[t.g.forest.size := el] && t.depths == st.depths[el := depth]
                 && t.g.links == LinkedBack(st.g.links + LinksOf(dom.linked(el), depth), t.g.forest.size)
            else t.g == st.g && t.depths == st.depths[el := depth]
  {
    ParentIsNode(st.g, dom, el, ROOT);
    AddedBelow(st.g, dom, opts, el, DepthOf(st.depths, dom, el, 0), ParentNode(st.g, dom, el, ROOT));
    hide Added, LinkedBack, LinksOf, ParentNode;
  }

  lemma PlacedLinksOwn(st: Stage, dom: Dom, opts: Options, el: El)
    requires opts.followPortals && Sound(st.g) && LinksOwn(st, dom) && el !in st.g.nodeOf
    requires forall m: Node :: 1 <= m <= st.g.forest.size && m in st.g.elOf ==> st.g.elOf[m] != el
    ensures LinksOwn(PlacedStage(st, dom, opts, el), dom)
  {
    hide LinkedBack, LinksOf, LinksAt, Sound, Extends;
    var t, depth, size := PlacedStage(st, dom, opts, el), DepthOf(st.depths, dom, el, 0), st.g.forest.size;
    PlacedLinks(st, dom, opts, el);
    PlacedIsOneMore(st, dom, opts, el);
    OwnLinksStay(st, t, dom, el, size);
    OwnLinksAreClosed(st, dom, size);
    LinksGetTheirNode(st.g.links, dom.linked(el), depth, size + 1);
    hide PlacedStage;
  }

  /** Elements that have a node are those in `nodeOf`, each once. */
  ghost predicate Once(g: Grown) {
    forall n: Node :: 1 <= n <= g.forest.size ==> n in g.elOf && g.elOf[n] in g.nodeOf
  }

  lemma PlacedOnce(st: Stage, dom: Dom, opts: Options, el: El)
    requires Sound(st.g) && Once(st.g) && opts.followPortals
    ensures Once(PlacedStage(st, dom, opts, el).g)
  {
    ParentIsNode(st.g, dom, el, ROOT);
    AddedBelow(st.g, dom, opts, el, DepthOf(st.depths, dom, el, 0), ParentNode(st.g, dom, el, ROOT));
    hide Added, LinkedBack, LinksOf, ParentNode;
  }

  lemma BegunOnce(dom: Dom, opts: Options)
    ensures Once(Begun(dom, opts).g)
  {
    AddedBelow(Nothing(dom), dom, opts, dom.root, 0, ROOT);
    hide Added, LinkedToRoot;
  }

  /** In the main walk of a document without shadow roots: the references found are
      those of the elements that have nodes, each with its element's node and depth. */
  lemma {:induction false} MainLinksAreOwn(dom: Dom, opts: Options, cuts: seq<nat>)
    requires Document(dom, opts, dom.walk(dom.root)) && CutsFit(dom, opts, dom.walk(dom.root), cuts)
    requires opts.followPortals && !opts.shadowDom
    ensures var st := Main(Begun(dom, opts), dom, opts, dom.walk(dom.root), cuts); LinksOwn(st, dom) && Once(st.g)
    decreases cuts
  {
    hide Document, LinksOwn, Once, Begun, Visited, Shows, PlacedStage;
    var walk := dom.walk(dom.root);
    if cuts == [] {
      BegunLinksOwn(dom, opts);
      BegunOnce(dom, opts);
    } else {
      var n := |cuts| - 1;
      MainLinksAreOwn(dom, opts, cuts[..n]);
      MainShows(dom, opts, cuts[..n]);
      var st := Main(Begun(dom, opts), dom, opts, walk, cuts[..n]);
      ShowsIsSound(st, dom, opts, walk, cuts[..n]);
      VisitIsFresh(st, dom, opts, walk, cuts[..n]);
      OnceIsNew(st.g, walk[n]);
      NothingInShadow(dom, opts, st, walk[n], cuts[n]);
      PlacedLinksOwn(st, dom, opts, walk[n]);
      PlacedOnce(st, dom, opts, walk[n]);
    }
  }

  lemma OnceIsNew(g: Grown, el: El)
    requires Once(g) && el !in g.nodeOf
    ensures forall m: Node :: 1 <= m <= g.forest.size && m in g.elOf ==> g.elOf[m] != el
  {
  }
}
