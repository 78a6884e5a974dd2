/**
 What a snapshot's tree shows of the document: after the main walk, every element
 that is not too deep, in its place and in order; after the portals, each target
 below its owner and each orphan below the root.
 */
module StitchDocument {
  import opened Wrappers
  import opened StitchForest
  import opened StitchWalk

  // ------------------------------------------------------------- the document

  ghost predicate Distinct(es: seq<El>) {
    forall i, j :: 0 <= i < j < |es| ==> es[i] != es[j]
  }

  /** `e` is in the shadow root of one of these. */
  ghost predicate InShadow(dom: Dom, opts: Options, walk: seq<El>, e: El) {
    exists i :: 0 <= i < |walk| && e in ShadowOf(dom, opts, walk[i])
  }

  /** A walk meets no element twice, and a parent before its child; a shadow root's
      elements are in no other tree, and their parents in none but their own. */
  ghost predicate Document(dom: Dom, opts: Options, walk: seq<El>) {
    && Distinct(walk) && dom.root !in walk && !InShadow(dom, opts, walk, dom.root)
    && (forall e :: e in walk ==> Distinct(ShadowOf(dom, opts, e)) && !InShadow(dom, opts, walk, e))
    && (forall i, j, e :: 0 <= i < j < |walk| && e in ShadowOf(dom, opts, walk[i]) ==>
          e !in ShadowOf(dom, opts, walk[j]))
    && (forall i :: 0 <= i < |walk| && dom.parent(walk[i]).Some? ==>
          dom.parent(walk[i]).value !in walk[i..] && !InShadow(dom, opts, walk, dom.parent(walk[i]).value))
    && (forall i, k :: 0 <= i < |walk| && 0 <= k < |ShadowOf(dom, opts, walk[i])| ==>
          ParentInside(dom, opts, walk, walk[i], k))
  }

  ghost predicate ParentInside(dom: Dom, opts: Options, walk: seq<El>, host: El, k: nat)
    requires k < |ShadowOf(dom, opts, host)|
  {
    var shadow := ShadowOf(dom, opts, host);
    var up := dom.parent(shadow[k]);
    up.Some? ==>
      && up.value != dom.root && up.value !in walk && up.value !in shadow[k..]
      && forall e :: e in walk && e != host ==> up.value !in ShadowOf(dom, opts, e)
  }

  // ----------------------------------------------------------- what a step adds

  ghost predicate Sound(g: Grown) {
    var f := g.forest;
    && (forall n: Node :: n in f.children <==> n <= f.size) && (forall n: Node :: n in f.parent <==> 1 <= n <= f.size)
    && (forall n: Node :: n in g.elOf <==> n <= f.size)
    && (forall e :: e in g.nodeOf ==> 1 <= g.nodeOf[e] <= f.size && g.elOf[g.nodeOf[e]] == e)
  }

  /** From `s` to `t` nodes are only added, and only for these elements. */
  ghost predicate Extends(s: Stage, t: Stage, els: set<El>) {
    && s.g.forest.size <= t.g.forest.size
    && (forall n: Node :: n <= s.g.forest.size ==>
          (n in t.g.forest.parent <==> n in s.g.forest.parent) &&
          (n in s.g.forest.parent ==> t.g.forest.parent[n] == s.g.forest.parent[n]) &&
          (n in t.g.elOf <==> n in s.g.elOf) && (n in s.g.elOf ==> t.g.elOf[n] == s.g.elOf[n]))
    && forall e :: e !in els ==>
         (e in t.depths <==> e in s.depths) && (e in s.depths ==> t.depths[e] == s.depths[e]) &&
         (e in t.g.nodeOf <==> e in s.g.nodeOf) && (e in s.g.nodeOf ==> t.g.nodeOf[e] == s.g.nodeOf[e])
  }

  lemma ExtendsOn(r: Stage, s: Stage, t: Stage, a: set<El>, b: set<El>)
    requires Extends(r, s, a) && Extends(s, t, b)
    ensures Extends(r, t, a + b)
  {
  }

  /** The node of `el` is below `p`. */
  ghost predicate IsBelow(g: Grown, el: El, p: Node) {
    && el in g.nodeOf && g.nodeOf[el] in g.elOf && g.elOf[g.nodeOf[el]] == el
    && g.nodeOf[el] in g.forest.parent && g.forest.parent[g.nodeOf[el]] == p
  }

  /** An element comes into the tree, or is too deep. */
  lemma OneMore(st: Stage, dom: Dom, opts: Options, el: El, depth: int, within: bool, p: Node)
    requires Sound(st.g) && p <= st.g.forest.size && el !in st.g.nodeOf
    ensures var t := Stage(if within then Added(st.g, dom, opts, el, depth, p) else st.g, st.depths[el := depth]);
            && Sound(t.g) && Extends(st, t, {el}) && el in t.depths && t.depths[el] == depth
            && (el in t.g.nodeOf <==> within)
            && (within ==> IsBelow(t.g, el, p) && t.g.nodeOf[el] == t.g.forest.size == st.g.forest.size + 1)
            && (!within ==> t.g == st.g)
  {
    hide Added, LinksOf, Sound, Extends, IsBelow;
    var t := Stage(if within then Added(st.g, dom, opts, el, depth, p) else st.g, st.depths[el := depth]);
    SoundHasChildren(st.g, p);
    if within { AddedBelow(st.g, dom, opts, el, depth, p); }
    OneAttached(st, t, el, depth, within, p);
  }

  lemma SoundHasChildren(g: Grown, p: Node)
    requires Sound(g) && p <= g.forest.size
    ensures p in g.forest.children
  {
  }

  lemma OneAttached(st: Stage, t: Stage, el: El, depth: int, within: bool, p: Node)
    requires Sound(st.g) && p in st.g.forest.children && el !in st.g.nodeOf && t.depths == st.depths[el := depth]
    requires if !within then t.g == st.g
             else
               var n := st.g.forest.size + 1;
               t.g.forest == Attach(st.g.forest, p) && t.g.forest.size == n &&
               t.g.elOf == st.g.elOf[n := el] && t.g.nodeOf == st.g.nodeOf[el := n]
    ensures Sound(t.g) && Extends(st, t, {el}) && (el in t.g.nodeOf <==> within)
    ensures within ==> IsBelow(t.g, el, p) && t.g.nodeOf[el] == t.g.forest.size == st.g.forest.size + 1
  {
  }

  // ---------------------------------------------------------------- the facts

  /** A main element has its parent's depth and one, and if that is not too much a
      node below its parent's, or below the root. */
  ghost predicate MainFact(st: Stage, dom: Dom, opts: Options, el: El) {
    var up, nodeOf := dom.parent(el), st.g.nodeOf;
    && el in st.depths
    && st.depths[el] == (if up.Some? && up.value in st.depths then st.depths[up.value] + 1 else 1)
    && (el in nodeOf <==> opts.maxDepth <= 0 || st.depths[el] <= opts.maxDepth)
    && (el in nodeOf ==> IsBelow(st.g, el, if up.Some? && up.value in nodeOf then nodeOf[up.value] else ROOT))
  }

  /** A shadow element is one deeper than its host, and if that is not too much it
      has a node below its parent's, or below the host's. */
  ghost predicate ShadowFact(st: Stage, dom: Dom, opts: Options, host: El, el: El) {
    var up, nodeOf := dom.parent(el), st.g.nodeOf;
    && host in nodeOf && host in st.depths && el in st.depths && st.depths[el] == st.depths[host] + 1
    && (el in nodeOf <==> opts.maxDepth == 0 || st.depths[el] <= opts.maxDepth)
    && (el in nodeOf ==> IsBelow(st.g, el, if up.Some? && up.value in nodeOf then nodeOf[up.value] else nodeOf[host]))
  }

  /** The element and its parent are none of the new ones. */
  predicate Untouched(dom: Dom, el: El, els: set<El>) {
    el !in els && (dom.parent(el).Some? ==> dom.parent(el).value !in els)
  }

  lemma MainFactStays(s: Stage, t: Stage, dom: Dom, opts: Options, el: El, els: set<El>)
    requires Sound(s.g) && MainFact(s, dom, opts, el) && Extends(s, t, els) && Untouched(dom, el, els)
    ensures MainFact(t, dom, opts, el)
  {
  }

  lemma ShadowFactStays(s: Stage, t: Stage, dom: Dom, opts: Options, host: El, el: El, els: set<El>)
    requires Sound(s.g) && ShadowFact(s, dom, opts, host, el) && Extends(s, t, els)
    requires Untouched(dom, el, els) && host !in els
    ensures ShadowFact(t, dom, opts, host, el)
  {
  }

  // ---------------------------------------------------------------- shadow roots

  function SetOf(es: seq<El>): set<El> {
    set e | e in es
  }

  /** Elements with numbers that rise, all above `low`, those that have one. */
  ghost predicate Rising(g: Grown, es: seq<El>, low: nat) {
    && (forall k :: 0 <= k < |es| && es[k] in g.nodeOf ==> g.nodeOf[es[k]] > low)
    && forall k, l :: 0 <= k < l < |es| && es[k] in g.nodeOf && es[l] in g.nodeOf ==> g.nodeOf[es[k]] < g.nodeOf[es[l]]
  }

  lemma RisingStays(s: Stage, t: Stage, es: seq<El>, low: nat, els: set<El>)
    requires Rising(s.g, es, low) && Extends(s, t, els) && forall e :: e in es ==> e !in els
    ensures Rising(t.g, es, low)
  {
  }

  /** Nothing of the shadow root has been met, and its elements come after their
      parents. */
  ghost predicate FreshShadow(g: Grown, dom: Dom, opts: Options, host: El) {
    var shadow := ShadowOf(dom, opts, host);
    && Distinct(shadow) && host !in shadow
    && (forall k :: 0 <= k < |shadow| ==> shadow[k] !in g.nodeOf)
    && (forall k :: 0 <= k < |shadow| && dom.parent(shadow[k]).Some? ==>
          dom.parent(shadow[k]).value !in shadow[k..])
  }

  lemma {:induction false} ShadowIsShown(st: Stage, dom: Dom, opts: Options, host: El, cut: nat)
    requires Sound(st.g) && host in st.g.nodeOf && host in st.depths
    requires cut <= |ShadowOf(dom, opts, host)| && FreshShadow(st.g, dom, opts, host)
    ensures var shadow := ShadowOf(dom, opts, host)[..cut];
            var t := Shadowed(st, dom, opts, shadow, st.g.nodeOf[host], st.depths[host] + 1);
            && Sound(t.g) && Extends(st, t, SetOf(shadow)) && Rising(t.g, shadow, st.g.forest.size)
            && forall k :: 0 <= k < cut ==> ShadowFact(t, dom, opts, host, shadow[k])
    decreases cut
  {
    hide Sound, Extends, ShadowFact, Added, FreshShadow, Rising;
    var all, n, depth := ShadowOf(dom, opts, host), st.g.nodeOf[host], st.depths[host] + 1;
    if cut == 0 {
      NothingAdded(st);
      assert all[..0] == [] && SetOf([]) == {};
    } else {
      var i := cut - 1;
      ShadowIsShown(st, dom, opts, host, i);
      var s := Shadowed(st, dom, opts, all[..i], n, depth);
      var t := Shadowed(st, dom, opts, all[..i + 1], n, depth);
      ShadowStep(st, dom, opts, all, i, n, depth);
      hide Shadowed;
      OneMoreShadow(st, s, t, dom, opts, host, i);
    }
  }

  lemma NothingAdded(st: Stage)
    ensures Extends(st, st, {}) && Rising(st.g, [], st.g.forest.size)
  {
  }

  lemma OneMoreShadow(st: Stage, s: Stage, t: Stage, dom: Dom, opts: Options, host: El, i: nat)
    requires Sound(st.g) && host in st.g.nodeOf && host in st.depths && i < |ShadowOf(dom, opts, host)|
    requires FreshShadow(st.g, dom, opts, host)
    requires var shadow := ShadowOf(dom, opts, host);
             && Sound(s.g) && Extends(st, s, SetOf(shadow[..i])) && Rising(s.g, shadow[..i], st.g.forest.size)
             && (forall k :: 0 <= k < i ==> ShadowFact(s, dom, opts, host, shadow[k]))
    requires var el, depth := ShadowOf(dom, opts, host)[i], st.depths[host] + 1;
             t == Stage(if Within(opts, depth)
                        then Added(s.g, dom, opts, el, depth, ParentNode(s.g, dom, el, st.g.nodeOf[host])) else s.g,
                        s.depths[el := depth])
    ensures var shadow := ShadowOf(dom, opts, host)[..i + 1];
            && Sound(t.g) && Extends(st, t, SetOf(shadow)) && Rising(t.g, shadow, st.g.forest.size)
            && forall k :: 0 <= k < i + 1 ==> ShadowFact(t, dom, opts, host, shadow[k])
  {
    hide Rising, ShadowFact, Added, Extends, Sound, IsBelow, ParentNode, FreshShadow, Distinct, ShadowOf, Within;
    var shadow := ShadowOf(dom, opts, host);
    var el, depth, n := shadow[i], st.depths[host] + 1, st.g.nodeOf[host];
    NextInShadow(st.g, dom, opts, host, i);
    HostIsThere(st, s, dom, opts, host, i);
    ParentIsNode(s.g, dom, el, n);
    OneMore(s, dom, opts, el, depth, Within(opts, depth), ParentNode(s.g, dom, el, n));
    NewShadowFact(s, t, dom, opts, host, el);
    forall k | 0 <= k < i ensures ShadowFact(t, dom, opts, host, shadow[k]) {
      ShadowFactStays(s, t, dom, opts, host, shadow[k], {el});
    }
    RisingStays(s, t, shadow[..i], st.g.forest.size, {el});
    ExtendsOn(st, s, t, SetOf(shadow[..i]), {el});
    NumbersAreBelow(s.g, shadow[..i]);
    RisingOn(s, t, shadow[..i], el, st.g.forest.size);
  }

  lemma NextInShadow(g: Grown, dom: Dom, opts: Options, host: El, i: nat)
    requires FreshShadow(g, dom, opts, host) && i < |ShadowOf(dom, opts, host)|
    ensures var shadow := ShadowOf(dom, opts, host);
            && shadow[i] != host && shadow[i] !in shadow[..i] && dom.parent(shadow[i]) != Some(shadow[i])
            && (forall k :: 0 <= k < i ==> Untouched(dom, shadow[k], {shadow[i]}))
            && SetOf(shadow[..i + 1]) == SetOf(shadow[..i]) + {shadow[i]}
            && shadow[..i + 1] == shadow[..i] + [shadow[i]]
  {
    var shadow := ShadowOf(dom, opts, host);
    assert shadow[i..][0] == shadow[i];
    forall k | 0 <= k < i ensures Untouched(dom, shadow[k], {shadow[i]}) {
      assert shadow[k..][i - k] == shadow[i];
    }
  }

  lemma HostIsThere(st: Stage, s: Stage, dom: Dom, opts: Options, host: El, i: nat)
    requires Sound(st.g) && host in st.g.nodeOf && host in st.depths && FreshShadow(st.g, dom, opts, host)
    requires i < |ShadowOf(dom, opts, host)| && Extends(st, s, SetOf(ShadowOf(dom, opts, host)[..i]))
    ensures host in s.g.nodeOf && s.g.nodeOf[host] == st.g.nodeOf[host] <= s.g.forest.size
    ensures host in s.depths && s.depths[host] == st.depths[host]
    ensures ShadowOf(dom, opts, host)[i] !in s.g.nodeOf && st.g.forest.size <= s.g.forest.size
  {
    var shadow := ShadowOf(dom, opts, host);
    assert shadow[i] !in SetOf(shadow[..i]);
  }

  lemma ParentIsNode(g: Grown, dom: Dom, el: El, other: Node)
    requires Sound(g) && other <= g.forest.size
    ensures ParentNode(g, dom, el, other) <= g.forest.size
  {
  }

  lemma NumbersAreBelow(g: Grown, es: seq<El>)
    requires Sound(g)
    ensures forall e :: e in es && e in g.nodeOf ==> g.nodeOf[e] <= g.forest.size
  {
  }

  /** A new element's number is above all there were. */
  lemma RisingOn(s: Stage, t: Stage, es: seq<El>, el: El, low: nat)
    requires Rising(t.g, es, low) && Extends(s, t, {el}) && el !in es && low <= s.g.forest.size
    requires forall e :: e in es && e in s.g.nodeOf ==> s.g.nodeOf[e] <= s.g.forest.size
    requires el in t.g.nodeOf ==> t.g.nodeOf[el] == s.g.forest.size + 1
    ensures Rising(t.g, es + [el], low)
  {
    var all := es + [el];
    forall k, l | 0 <= k < l < |all| && all[k] in t.g.nodeOf && all[l] in t.g.nodeOf
      ensures t.g.nodeOf[all[k]] < t.g.nodeOf[all[l]]
    {
      assert all[k] in es;
    }
  }

  lemma NewShadowFact(s: Stage, t: Stage, dom: Dom, opts: Options, host: El, el: El)
    requires Sound(s.g) && host in s.g.nodeOf && host in s.depths && el != host
    requires dom.parent(el) != Some(el)
    requires var depth := s.depths[host] + 1;
             && Extends(s, t, {el}) && el in t.depths && t.depths[el] == depth
             && (el in t.g.nodeOf <==> Within(opts, depth))
             && (el in t.g.nodeOf ==> IsBelow(t.g, el, ParentNode(s.g, dom, el, s.g.nodeOf[host])))
    ensures ShadowFact(t, dom, opts, host, el)
  {
  }

  // -------------------------------------------------------------- the main walk

  /** The elements in the order in which they are met. */
  function Visits(dom: Dom, opts: Options, walk: seq<El>, cuts: seq<nat>): seq<El>
    requires CutsFit(dom, opts, walk, cuts)
    decreases cuts
  {
    if cuts == [] then []
    else
      var n := |cuts| - 1;
      Visits(dom, opts, walk, cuts[..n]) + [walk[n]] + ShadowOf(dom, opts, walk[n])[..cuts[n]]
  }

  lemma {:induction false} VisitsAre(dom: Dom, opts: Options, walk: seq<El>, cuts: seq<nat>, e: El)
    requires CutsFit(dom, opts, walk, cuts) && e in Visits(dom, opts, walk, cuts)
    ensures e in walk[..|cuts|] || exists i :: 0 <= i < |cuts| && e in ShadowOf(dom, opts, walk[i])
    decreases cuts
  {
    var n := |cuts| - 1;
    if e in Visits(dom, opts, walk, cuts[..n]) {
      VisitsAre(dom, opts, walk, cuts[..n], e);
    } else if e in ShadowOf(dom, opts, walk[n])[..cuts[n]] {
      assert e in ShadowOf(dom, opts, walk[n]);
    }
  }

  /** What is met next has not been met before. */
  lemma NextIsNew(dom: Dom, opts: Options, walk: seq<El>, cuts: seq<nat>)
    requires Document(dom, opts, walk) && CutsFit(dom, opts, walk, cuts) && |cuts| < |walk|
    ensures var el := walk[|cuts|];
            && el != dom.root && el !in Visits(dom, opts, walk, cuts) && el !in ShadowOf(dom, opts, el)
            && forall e :: e in ShadowOf(dom, opts, el) ==> e != dom.root && e !in Visits(dom, opts, walk, cuts)
  {
    var n := |cuts|;
    var el := walk[n];
    assert el in walk && !InShadow(dom, opts, walk, el);
    if el in Visits(dom, opts, walk, cuts) { VisitsAre(dom, opts, walk, cuts, el); }
    forall e | e in ShadowOf(dom, opts, el) ensures e != dom.root && e !in Visits(dom, opts, walk, cuts) {
      assert InShadow(dom, opts, walk, e);
      if e in Visits(dom, opts, walk, cuts) { VisitsAre(dom, opts, walk, cuts, e); }
    }
  }

  /** The root has its own node, if it is an element, and depth zero. */
  ghost predicate RootShown(st: Stage, dom: Dom) {
    && dom.root in st.depths && st.depths[dom.root] == 0
    && (dom.root in st.g.nodeOf <==> dom.rootIsElement)
    && (dom.rootIsElement ==> IsBelow(st.g, dom.root, ROOT))
  }

  ghost predicate FactsHold(st: Stage, dom: Dom, opts: Options, walk: seq<El>, cuts: seq<nat>)
    requires CutsFit(dom, opts, walk, cuts)
  {
    && (forall i :: 0 <= i < |cuts| ==> MainFact(st, dom, opts, walk[i]))
    && (forall i, k :: 0 <= i < |cuts| && walk[i] in st.g.nodeOf && 0 <= k < cuts[i] ==>
          ShadowFact(st, dom, opts, walk[i], ShadowOf(dom, opts, walk[i])[k]))
  }

  /** Nothing is known but the root and these. */
  ghost predicate OnlyThese(st: Stage, dom: Dom, es: seq<El>) {
    forall e :: e in st.depths || e in st.g.nodeOf ==> e == dom.root || e in es
  }

  /** What the stage has shown so far. */
  ghost predicate Shows(st: Stage, dom: Dom, opts: Options, walk: seq<El>, cuts: seq<nat>)
    requires CutsFit(dom, opts, walk, cuts)
  {
    && Sound(st.g) && OnlyThese(st, dom, Visits(dom, opts, walk, cuts)) && RootShown(st, dom)
    && FactsHold(st, dom, opts, walk, cuts) && Rising(st.g, Visits(dom, opts, walk, cuts), 0)
  }

  lemma BegunShows(dom: Dom, opts: Options)
    ensures Shows(Begun(dom, opts), dom, opts, dom.walk(dom.root), [])
  {
    var none := Stage(Nothing(dom), map[]);
    var p := ROOT;
    OneMore(none, dom, opts, dom.root, 0, dom.rootIsElement, p);
    BegunIsOneMore(dom, opts);
    hide Added;
    var s := Stage(if dom.rootIsElement then Added(none.g, dom, opts, dom.root, 0, p) else none.g, map[dom.root := 0]);
    LinksAside(none, s, Begun(dom, opts), dom.root, p);
    hide LinkedToRoot, Begun;
  }

  lemma BegunIsOneMore(dom: Dom, opts: Options)
    ensures var s := if dom.rootIsElement then Added(Nothing(dom), dom, opts, dom.root, 0, ROOT) else Nothing(dom);
            Begun(dom, opts) == Stage(s.(links := Begun(dom, opts).g.links), map[dom.root := 0])
  {
    hide Added, LinkedToRoot;
  }

  lemma RisingJoin(g: Grown, a: seq<El>, b: seq<El>, low: nat, mid: nat)
    requires Rising(g, a, low) && Rising(g, b, mid) && low <= mid
    requires forall e :: e in a && e in g.nodeOf ==> g.nodeOf[e] <= mid
    ensures Rising(g, a + b, low)
  {
    var all := a + b;
    forall k, l | 0 <= k < l < |all| && all[k] in g.nodeOf && all[l] in g.nodeOf
      ensures g.nodeOf[all[k]] < g.nodeOf[all[l]]
    {
      if l >= |a| {
        assert all[l] == b[l - |a|];
        if k < |a| { assert all[k] in a; } else { assert all[k] == b[k - |a|]; }
      }
    }
  }

  /** The element itself, before its shadow root is looked into. */
  ghost function PlacedStage(st: Stage, dom: Dom, opts: Options, el: El): Stage {
    var depth := DepthOf(st.depths, dom, el, 0);
    Stage(if MainWithin(opts, depth) then Placed(st.g, dom, opts, el, depth) else st.g, st.depths[el := depth])
  }

  lemma PlacedIsOneMore(st: Stage, dom: Dom, opts: Options, el: El)
    requires Sound(st.g) && el !in st.g.nodeOf
    ensures var t, depth := PlacedStage(st, dom, opts, el), DepthOf(st.depths, dom, el, 0);
            && Sound(t.g) && Extends(st, t, {el}) && el in t.depths && t.depths[el] == depth
            && (el in t.g.nodeOf <==> MainWithin(opts, depth))
            && (el in t.g.nodeOf ==> IsBelow(t.g, el, ParentNode(st.g, dom, el, ROOT)) &&
                                     t.g.nodeOf[el] == t.g.forest.size == st.g.forest.size + 1)
  {
    var depth := DepthOf(st.depths, dom, el, 0);
    var p := ParentNode(st.g, dom, el, ROOT);
    ParentIsNode(st.g, dom, el, ROOT);
    OneMore(st, dom, opts, el, depth, MainWithin(opts, depth), p);
    var t := Stage(if MainWithin(opts, depth) then Added(st.g, dom, opts, el, depth, p) else st.g,
                   st.depths[el := depth]);
    hide Added, LinkedBack, ParentNode;
    LinksAside(st, t, PlacedStage(st, dom, opts, el), el, p);
  }

  /** The links play no part in where a node is. */
  lemma LinksAside(st: Stage, s: Stage, t: Stage, el: El, p: Node)
    requires t == Stage(s.g.(links := t.g.links), s.depths)
    ensures Sound(s.g) ==> Sound(t.g)
    ensures Extends(st, s, {el}) ==> Extends(st, t, {el})
    ensures IsBelow(s.g, el, p) ==> IsBelow(t.g, el, p)
  {
  }

  /** A visit is the element and then the elements of its shadow root. */
  lemma VisitInTwo(st: Stage, dom: Dom, opts: Options, el: El, cut: nat)
    requires cut <= |ShadowOf(dom, opts, el)|
    requires var h := PlacedStage(st, dom, opts, el);
             el in h.g.nodeOf ==> h.g.nodeOf[el] == h.g.forest.size && el in h.depths
    requires var h := PlacedStage(st, dom, opts, el);
             el in h.g.nodeOf <==> MainWithin(opts, DepthOf(st.depths, dom, el, 0))
    ensures var h := PlacedStage(st, dom, opts, el);
            Visited(st, dom, opts, el, cut) ==
              if el in h.g.nodeOf
              then Shadowed(h, dom, opts, ShadowOf(dom, opts, el)[..cut], h.g.nodeOf[el], h.depths[el] + 1)
              else h
  {
    hide Placed, Shadowed;
  }

  lemma NextFact(st: Stage, h: Stage, dom: Dom, opts: Options, el: El)
    requires Sound(st.g) && el !in st.g.nodeOf && dom.parent(el) != Some(el) && Extends(st, h, {el})
    requires el in h.depths && h.depths[el] == DepthOf(st.depths, dom, el, 0)
    requires el in h.g.nodeOf <==> MainWithin(opts, h.depths[el])
    requires el in h.g.nodeOf ==> IsBelow(h.g, el, ParentNode(st.g, dom, el, ROOT))
    ensures MainFact(h, dom, opts, el)
  {
  }

  ghost predicate Steps(st: Stage, t: Stage, dom: Dom, opts: Options, el: El, cut: nat)
    requires cut <= |ShadowOf(dom, opts, el)|
  {
    var shadow := ShadowOf(dom, opts, el)[..cut];
    && Sound(t.g) && Extends(st, t, {el} + SetOf(shadow)) && MainFact(t, dom, opts, el)
    && (el in t.g.nodeOf ==> t.g.nodeOf[el] == st.g.forest.size + 1 &&
                             forall k :: 0 <= k < cut ==> ShadowFact(t, dom, opts, el, shadow[k]))
    && Rising(t.g, [el] + shadow, st.g.forest.size)
    && forall e :: e in t.depths && e !in st.depths ==> e in [el] + shadow
  }

  /** What one visit adds. */
  lemma VisitShows(st: Stage, dom: Dom, opts: Options, el: El, cut: nat)
    requires Sound(st.g) && el !in st.g.nodeOf && dom.parent(el) != Some(el)
    requires cut <= |ShadowOf(dom, opts, el)| && FreshShadow(st.g, dom, opts, el)
    requires dom.parent(el).Some? ==> dom.parent(el).value !in ShadowOf(dom, opts, el)
    ensures Steps(st, Visited(st, dom, opts, el, cut), dom, opts, el, cut)
  {
    hide PlacedStage, Visited, Shadowed, Sound, Extends, MainFact, ShadowFact, Rising, IsBelow, Steps, FreshShadow,
         ShadowOf, MainWithin, DepthOf, ParentNode;
    var h, t := PlacedStage(st, dom, opts, el), Visited(st, dom, opts, el, cut);
    PlacedIsOneMore(st, dom, opts, el);
    NextFact(st, h, dom, opts, el);
    VisitInTwo(st, dom, opts, el, cut);
    NoneYet(st, h, dom, opts, el);
    if el in h.g.nodeOf {
      ShadowIsShown(h, dom, opts, el, cut);
      ShadowComes(st, h, t, dom, opts, el, cut);
    } else {
      NothingComes(st, h, dom, opts, el, cut);
    }
  }

  lemma NoneYet(st: Stage, h: Stage, dom: Dom, opts: Options, el: El)
    requires Extends(st, h, {el}) && FreshShadow(st.g, dom, opts, el)
    ensures FreshShadow(h.g, dom, opts, el) && el !in ShadowOf(dom, opts, el)
  {
  }

  lemma ShadowComes(st: Stage, h: Stage, t: Stage, dom: Dom, opts: Options, el: El, cut: nat)
    requires cut <= |ShadowOf(dom, opts, el)| && el !in ShadowOf(dom, opts, el)
    requires dom.parent(el).Some? ==> dom.parent(el).value !in ShadowOf(dom, opts, el)
    requires Sound(h.g) && Extends(st, h, {el}) && MainFact(h, dom, opts, el)
    requires el in h.g.nodeOf && h.g.nodeOf[el] == h.g.forest.size == st.g.forest.size + 1
    requires var shadow := ShadowOf(dom, opts, el)[..cut];
             && Sound(t.g) && Extends(h, t, SetOf(shadow)) && Rising(t.g, shadow, h.g.forest.size)
             && forall k :: 0 <= k < cut ==> ShadowFact(t, dom, opts, el, shadow[k])
    ensures Steps(st, t, dom, opts, el, cut)
  {
    hide MainFact, ShadowFact, Rising, Sound, Extends;
    var shadow := ShadowOf(dom, opts, el)[..cut];
    assert Untouched(dom, el, SetOf(shadow));
    MainFactStays(h, t, dom, opts, el, SetOf(shadow));
    ExtendsOn(st, h, t, {el}, SetOf(shadow));
    StageGrows(h, t, SetOf(shadow), el);
    OneRises(t.g, el, st.g.forest.size);
    RisingJoin(t.g, [el], shadow, st.g.forest.size, h.g.forest.size);
    OnlyTheNew(st, t, el, shadow);
  }

  lemma OnlyTheNew(st: Stage, t: Stage, el: El, shadow: seq<El>)
    requires Extends(st, t, {el} + SetOf(shadow))
    ensures forall e :: e in t.depths && e !in st.depths ==> e in [el] + shadow
  {
  }

  lemma StageGrows(h: Stage, t: Stage, els: set<El>, el: El)
    requires Extends(h, t, els) && el !in els && el in h.g.nodeOf
    ensures el in t.g.nodeOf && t.g.nodeOf[el] == h.g.nodeOf[el]
  {
  }

  lemma OneRises(g: Grown, el: El, low: nat)
    requires el in g.nodeOf ==> g.nodeOf[el] > low
    ensures Rising(g, [el], low)
  {
  }

  lemma NothingComes(st: Stage, h: Stage, dom: Dom, opts: Options, el: El, cut: nat)
    requires cut <= |ShadowOf(dom, opts, el)| && Sound(h.g) && Extends(st, h, {el}) && MainFact(h, dom, opts, el)
    requires el !in h.g.nodeOf && FreshShadow(h.g, dom, opts, el)
    ensures Steps(st, h, dom, opts, el, cut)
  {
  }

  /** Earlier elements and their parents are none of those that a visit adds. */
  lemma EarlierUntouched(dom: Dom, opts: Options, walk: seq<El>, n: nat, cut: nat, i: nat)
    requires Document(dom, opts, walk) && i < n < |walk| && cut <= |ShadowOf(dom, opts, walk[n])|
    ensures var els := {walk[n]} + SetOf(ShadowOf(dom, opts, walk[n])[..cut]);
            && Untouched(dom, walk[i], els)
            && forall k :: 0 <= k < |ShadowOf(dom, opts, walk[i])| ==>
                 Untouched(dom, ShadowOf(dom, opts, walk[i])[k], els)
  {
    var shadow := ShadowOf(dom, opts, walk[n]);
    assert walk[n] in walk[i..] by { assert walk[i..][n - i] == walk[n]; }
    assert walk[i] in walk && walk[n] in walk;
    forall e | e in shadow[..cut] ensures InShadow(dom, opts, walk, e) && e in shadow { }
    forall k | 0 <= k < |ShadowOf(dom, opts, walk[i])|
      ensures Untouched(dom, ShadowOf(dom, opts, walk[i])[k], {walk[n]} + SetOf(shadow[..cut]))
    {
      var e := ShadowOf(dom, opts, walk[i])[k];
      assert ParentInside(dom, opts, walk, walk[i], k);
      assert e in ShadowOf(dom, opts, walk[i]) && InShadow(dom, opts, walk, e);
    }
  }

  lemma VisitIsFresh(st: Stage, dom: Dom, opts: Options, walk: seq<El>, cuts: seq<nat>)
    requires Document(dom, opts, walk) && CutsFit(dom, opts, walk, cuts) && |cuts| < |walk|
    requires Shows(st, dom, opts, walk, cuts)
    ensures var el := walk[|cuts|];
            var shadow := ShadowOf(dom, opts, el);
            && el !in st.g.nodeOf && dom.parent(el) != Some(el) && FreshShadow(st.g, dom, opts, el)
            && (dom.parent(el).Some? ==> dom.parent(el).value !in shadow)
  {
    NextIsNew(dom, opts, walk, cuts);
    var n := |cuts|;
    var el := walk[n];
    var shadow := ShadowOf(dom, opts, el);
    assert el in walk && walk[n..][0] == el;
    forall k | 0 <= k < |shadow| && dom.parent(shadow[k]).Some? ensures dom.parent(shadow[k]).value !in shadow[k..] {
      assert ParentInside(dom, opts, walk, walk[n], k);
    }
    assert dom.parent(el).Some? ==> !InShadow(dom, opts, walk, dom.parent(el).value);
    hide MainFact, ShadowFact, Rising, Sound;
  }

  lemma StepShows(st: Stage, t: Stage, dom: Dom, opts: Options, walk: seq<El>, cuts: seq<nat>, cut: nat)
    requires Document(dom, opts, walk) && CutsFit(dom, opts, walk, cuts) && |cuts| < |walk|
    requires cut <= |ShadowOf(dom, opts, walk[|cuts|])| && Shows(st, dom, opts, walk, cuts)
    requires Steps(st, t, dom, opts, walk[|cuts|], cut)
    ensures CutsFit(dom, opts, walk, cuts + [cut]) && Shows(t, dom, opts, walk, cuts + [cut])
  {
    var n, more := |cuts|, cuts + [cut];
    var el := walk[n];
    var shadow := ShadowOf(dom, opts, el)[..cut];
    var els := {el} + SetOf(shadow);
    var seen := Visits(dom, opts, walk, cuts);
    NextIsNew(dom, opts, walk, cuts);
    OneVisitMore(dom, opts, walk, cuts, cut);
    hide MainFact, ShadowFact, Rising, Document, Visits, Sound, Extends, OnlyThese, RootShown, FactsHold;
    NotAmong(seen, dom.root, el, shadow, ShadowOf(dom, opts, el));
    RootStays(st, t, dom, els);
    NothingElse(st, t, dom, seen, el, shadow);
    FactsStay(st, t, dom, opts, walk, cuts, cut);
    RisingStays(st, t, seen, 0, els);
    NumbersStay(st, t, seen, els);
    RisingJoin(t.g, seen, [el] + shadow, 0, st.g.forest.size);
  }

  lemma OneVisitMore(dom: Dom, opts: Options, walk: seq<El>, cuts: seq<nat>, cut: nat)
    requires CutsFit(dom, opts, walk, cuts) && |cuts| < |walk| && cut <= |ShadowOf(dom, opts, walk[|cuts|])|
    ensures CutsFit(dom, opts, walk, cuts + [cut])
    ensures Visits(dom, opts, walk, cuts + [cut])
         == Visits(dom, opts, walk, cuts) + ([walk[|cuts|]] + ShadowOf(dom, opts, walk[|cuts|])[..cut])
  {
    assert (cuts + [cut])[..|cuts|] == cuts;
  }

  lemma NotAmong(seen: seq<El>, root: El, el: El, shadow: seq<El>, all: seq<El>)
    requires shadow <= all && el != root && el !in seen && forall e :: e in all ==> e != root && e !in seen
    ensures forall e :: e in seen || e == root ==> e !in {el} + SetOf(shadow)
  {
    forall e | e in shadow ensures e in all {
      var i :| 0 <= i < |shadow| && shadow[i] == e;
      assert all[i] == e;
    }
  }

  lemma RootStays(st: Stage, t: Stage, dom: Dom, els: set<El>)
    requires Sound(st.g) && RootShown(st, dom) && Extends(st, t, els) && dom.root !in els
    ensures RootShown(t, dom)
  {
  }

  lemma NothingElse(st: Stage, t: Stage, dom: Dom, seen: seq<El>, el: El, shadow: seq<El>)
    requires OnlyThese(st, dom, seen) && Extends(st, t, {el} + SetOf(shadow))
    ensures OnlyThese(t, dom, seen + ([el] + shadow))
  {
  }

  lemma FactsStay(st: Stage, t: Stage, dom: Dom, opts: Options, walk: seq<El>, cuts: seq<nat>, cut: nat)
    requires Document(dom, opts, walk) && CutsFit(dom, opts, walk, cuts) && |cuts| < |walk|
    requires cut <= |ShadowOf(dom, opts, walk[|cuts|])| && CutsFit(dom, opts, walk, cuts + [cut])
    requires Sound(st.g) && FactsHold(st, dom, opts, walk, cuts) && Steps(st, t, dom, opts, walk[|cuts|], cut)
    ensures FactsHold(t, dom, opts, walk, cuts + [cut])
  {
    hide MainFact, ShadowFact, Rising, Document, Sound, Extends;
    var n, more := |cuts|, cuts + [cut];
    forall i | 0 <= i < n
      ensures MainFact(t, dom, opts, walk[i])
      ensures walk[i] in t.g.nodeOf ==> forall k :: 0 <= k < cuts[i] ==>
                ShadowFact(t, dom, opts, walk[i], ShadowOf(dom, opts, walk[i])[k])
    {
      EarlierStays(st, t, dom, opts, walk, cuts, cut, i);
    }
    forall k | 0 <= k < cut && walk[n] in t.g.nodeOf
      ensures ShadowFact(t, dom, opts, walk[n], ShadowOf(dom, opts, walk[n])[k])
    {
      assert ShadowOf(dom, opts, walk[n])[..cut][k] == ShadowOf(dom, opts, walk[n])[k];
    }
  }

  lemma NumbersStay(st: Stage, t: Stage, es: seq<El>, els: set<El>)
    requires Sound(st.g) && Extends(st, t, els) && forall e :: e in es ==> e !in els
    ensures forall e :: e in es && e in t.g.nodeOf ==> t.g.nodeOf[e] <= st.g.forest.size
  {
  }

  lemma EarlierStays(st: Stage, t: Stage, dom: Dom, opts: Options, walk: seq<El>, cuts: seq<nat>, cut: nat, i: nat)
    requires Document(dom, opts, walk) && CutsFit(dom, opts, walk, cuts) && i < |cuts| < |walk|
    requires cut <= |ShadowOf(dom, opts, walk[|cuts|])| && Sound(st.g) && FactsHold(st, dom, opts, walk, cuts)
    requires Extends(st, t, {walk[|cuts|]} + SetOf(ShadowOf(dom, opts, walk[|cuts|])[..cut]))
    ensures MainFact(t, dom, opts, walk[i])
    ensures walk[i] in t.g.nodeOf ==> forall k :: 0 <= k < cuts[i] ==>
              ShadowFact(t, dom, opts, walk[i], ShadowOf(dom, opts, walk[i])[k])
  {
    var els := {walk[|cuts|]} + SetOf(ShadowOf(dom, opts, walk[|cuts|])[..cut]);
    EarlierUntouched(dom, opts, walk, |cuts|, cut, i);
    hide MainFact, ShadowFact, Rising, Document;
    MainFactStays(st, t, dom, opts, walk[i], els);
    HostStays(st, t, walk[i], els);
    if walk[i] in t.g.nodeOf {
      forall k | 0 <= k < cuts[i] ensures ShadowFact(t, dom, opts, walk[i], ShadowOf(dom, opts, walk[i])[k]) {
        ShadowFactStays(st, t, dom, opts, walk[i], ShadowOf(dom, opts, walk[i])[k], els);
      }
    }
  }

  lemma HostStays(st: Stage, t: Stage, host: El, els: set<El>)
    requires Extends(st, t, els) && host !in els
    ensures host in t.g.nodeOf <==> host in st.g.nodeOf
  {
  }

  lemma {:induction false} MainShows(dom: Dom, opts: Options, cuts: seq<nat>)
    requires Document(dom, opts, dom.walk(dom.root)) && CutsFit(dom, opts, dom.walk(dom.root), cuts)
    ensures var walk := dom.walk(dom.root);
            Shows(Main(Begun(dom, opts), dom, opts, walk, cuts), dom, opts, walk, cuts)
    decreases cuts
  {
    hide Shows, Document, Visited, Begun, Steps;
    var walk := dom.walk(dom.root);
    if cuts == [] {
      BegunShows(dom, opts);
    } else {
      var n := |cuts| - 1;
      MainShows(dom, opts, cuts[..n]);
      var st := Main(Begun(dom, opts), dom, opts, walk, cuts[..n]);
      VisitIsFresh(st, dom, opts, walk, cuts[..n]);
      ShowsIsSound(st, dom, opts, walk, cuts[..n]);
      VisitShows(st, dom, opts, walk[n], cuts[n]);
      StepShows(st, Visited(st, dom, opts, walk[n], cuts[n]), dom, opts, walk, cuts[..n], cuts[n]);
      assert cuts[..n] + [cuts[n]] == cuts;
    }
  }

  lemma ShowsIsSound(st: Stage, dom: Dom, opts: Options, walk: seq<El>, cuts: seq<nat>)
    requires CutsFit(dom, opts, walk, cuts) && Shows(st, dom, opts, walk, cuts)
    ensures Sound(st.g)
  {
  }

  // ------------------------------------------------------ the children's order

  ghost predicate Sorted(ns: seq<Node>) {
    forall a, b :: 0 <= a < b < |ns| ==> ns[a] < ns[b]
  }

  /** Every child list is in the order in which its nodes were built. */
  ghost predicate InOrder(g: Grown) {
    forall p :: p in g.forest.children ==>
      Sorted(g.forest.children[p]) && forall n :: n in g.forest.children[p] ==> n <= g.forest.size
  }

  lemma SortedOn(ns: seq<Node>, n: Node)
    requires Sorted(ns) && forall m :: m in ns ==> m < n
    ensures Sorted(ns + [n])
  {
    forall a | 0 <= a < |ns| ensures ns[a] < n { assert ns[a] in ns; }
  }

  lemma AttachInOrder(f: Forest, p: Node)
    requires p in f.children
    requires forall q :: q in f.children ==> Sorted(f.children[q]) && forall n :: n in f.children[q] ==> n <= f.size
    ensures var g := Attach(f, p);
            forall q :: q in g.children ==> Sorted(g.children[q]) && forall n :: n in g.children[q] ==> n <= g.size
  {
    var g := Attach(f, p);
    forall q | q in g.children ensures Sorted(g.children[q]) && forall n :: n in g.children[q] ==> n <= g.size {
      if q == f.size + 1 {
        assert g.children[q] == [];
      } else if q == p {
        assert g.children[q] == f.children[p] + [f.size + 1];
        SortedOn(f.children[p], f.size + 1);
      } else {
        assert g.children[q] == f.children[q];
      }
    }
  }

  lemma AddedInOrder(g: Grown, dom: Dom, opts: Options, el: El, depth: int, p: Node)
    requires InOrder(g)
    ensures InOrder(Added(g, dom, opts, el, depth, p))
  {
    if p in g.forest.children {
      AddedBelow(g, dom, opts, el, depth, p);
      AttachInOrder(g.forest, p);
    }
  }

  lemma {:induction false} ShadowedInOrder(st: Stage, dom: Dom, opts: Options, walk: seq<El>, host: Node, depth: int)
    requires InOrder(st.g)
    ensures InOrder(Shadowed(st, dom, opts, walk, host, depth).g)
    decreases |walk|
  {
    hide InOrder, Added;
    if walk != [] {
      var n := |walk| - 1;
      ShadowedInOrder(st, dom, opts, walk[..n], host, depth);
      var s := Shadowed(st, dom, opts, walk[..n], host, depth);
      AddedInOrder(s.g, dom, opts, walk[n], depth, ParentNode(s.g, dom, walk[n], host));
    }
  }

  lemma VisitedInOrder(st: Stage, dom: Dom, opts: Options, el: El, cut: nat)
    requires InOrder(st.g) && cut <= |ShadowOf(dom, opts, el)|
    ensures InOrder(Visited(st, dom, opts, el, cut).g)
  {
    var depth := DepthOf(st.depths, dom, el, 0);
    AddedInOrder(st.g, dom, opts, el, depth, ParentNode(st.g, dom, el, ROOT));
    PlacedInOrder(st.g, dom, opts, el, depth);
    hide InOrder, Added, Shadowed, Placed;
    var h := Placed(st.g, dom, opts, el, depth);
    var shadow := ShadowOf(dom, opts, el)[..cut];
    ShadowedInOrder(Stage(h, st.depths[el := depth]), dom, opts, shadow, h.forest.size, depth + 1);
  }

  lemma PlacedInOrder(g: Grown, dom: Dom, opts: Options, el: El, depth: int)
    requires InOrder(Added(g, dom, opts, el, depth, ParentNode(g, dom, el, ROOT)))
    ensures InOrder(Placed(g, dom, opts, el, depth))
  {
    hide Added, LinkedBack;
  }

  lemma {:induction false} MainInOrder(dom: Dom, opts: Options, walk: seq<El>, cuts: seq<nat>)
    requires CutsFit(dom, opts, walk, cuts)
    ensures InOrder(Main(Begun(dom, opts), dom, opts, walk, cuts).g)
    decreases cuts
  {
    if cuts == [] {
      AddedInOrder(Nothing(dom), dom, opts, dom.root, 0, ROOT);
      hide Added, LinkedToRoot;
    } else {
      hide InOrder, Visited, Begun;
      var n := |cuts| - 1;
      MainInOrder(dom, opts, walk, cuts[..n]);
      VisitedInOrder(Main(Begun(dom, opts), dom, opts, walk, cuts[..n]), dom, opts, walk[n], cuts[n]);
    }
  }

  // ------------------------------------------------------------- the main result

  /** After the whole main walk of a document: an element of the walk has a node
      exactly if it is not too deep, below the node of its parent element, or below
      the root; an element of an open shadow root has one exactly if its host has
      and it is not too deep; nothing else has one; nodes are numbered, and listed
      below their parents, in the order of the walks. */
  lemma MainWalkShowsDocument(dom: Dom, opts: Options, cuts: seq<nat>)
    requires Document(dom, opts, dom.walk(dom.root)) && CutsFit(dom, opts, dom.walk(dom.root), cuts)
    requires Full(dom, opts, dom.walk(dom.root), cuts)
    ensures var walk := dom.walk(dom.root);
            var st := Main(Begun(dom, opts), dom, opts, walk, cuts);
            && (forall e :: e in walk ==> MainFact(st, dom, opts, e))
            && (forall h, e :: h in walk && h in st.g.nodeOf && IsShadow(dom, opts, h, e) ==>
                  ShadowFact(st, dom, opts, h, e))
            && (dom.root in st.g.nodeOf <==> dom.rootIsElement) && (dom.rootIsElement ==> IsBelow(st.g, dom.root, ROOT))
            && (forall e :: e in st.g.nodeOf && e != dom.root ==>
                  e in walk || exists h :: h in walk && IsShadow(dom, opts, h, e))
            && Rising(st.g, Visits(dom, opts, walk, cuts), 0) && InOrder(st.g)
  {
    hide Main, MainFact, ShadowFact, Rising, Document, InOrder, Sound, IsBelow, Begun, Visits, IsShadow, ShadowOf;
    var walk := dom.walk(dom.root);
    var st := Main(Begun(dom, opts), dom, opts, walk, cuts);
    MainShows(dom, opts, cuts);
    MainInOrder(dom, opts, walk, cuts);
    forall h, e | h in walk && h in st.g.nodeOf && IsShadow(dom, opts, h, e)
      ensures ShadowFact(st, dom, opts, h, e)
    {
      IsShadowIff(dom, opts, h, e);
      var i :| 0 <= i < |walk| && walk[i] == h;
      var k :| 0 <= k < |ShadowOf(dom, opts, h)| && ShadowOf(dom, opts, h)[k] == e;
    }
    forall e | e in st.g.nodeOf && e != dom.root
      ensures e in walk || exists h :: h in walk && IsShadow(dom, opts, h, e)
    {
      VisitsAre(dom, opts, walk, cuts, e);
      if e !in walk {
        var i :| 0 <= i < |cuts| && e in ShadowOf(dom, opts, walk[i]);
        IsShadowIff(dom, opts, walk[i], e);
      }
    }
  }

  /** The element is in the open shadow root of `host`, and the snapshot looks there. */
  predicate IsShadow(dom: Dom, opts: Options, host: El, e: El) {
    opts.shadowDom && dom.shadow(host).Some? && e in dom.shadow(host).value
  }

  lemma IsShadowIff(dom: Dom, opts: Options, host: El, e: El)
    ensures IsShadow(dom, opts, host, e) <==> e in ShadowOf(dom, opts, host)
  {
  }

  // ---------------------------------------------------------- below a portal

  /** An element below a portal has its parent's depth and one, and if that is not
      too much a node below its parent's, or below the portal's. */
  ghost predicate PortalFact(st: Stage, dom: Dom, opts: Options, el: El, top: Node, topDepth: int) {
    var up, nodeOf := dom.parent(el), st.g.nodeOf;
    && el in st.depths
    && st.depths[el] == 1 + (if up.Some? && up.value in st.depths then st.depths[up.value] else topDepth)
    && (el in nodeOf <==> opts.maxDepth == 0 || st.depths[el] <= opts.maxDepth)
    && (el in nodeOf ==> IsBelow(st.g, el, if up.Some? && up.value in nodeOf then nodeOf[up.value] else top))
  }

  /** None of these has a node yet, none comes twice, and none before its parent. */
  ghost predicate FreshWalk(g: Grown, dom: Dom, walk: seq<El>) {
    && Distinct(walk) && (forall k :: 0 <= k < |walk| ==> walk[k] !in g.nodeOf)
    && forall k :: 0 <= k < |walk| && dom.parent(walk[k]).Some? ==> dom.parent(walk[k]).value !in walk[k..]
  }

  lemma PortalFactStays(s: Stage, t: Stage, dom: Dom, opts: Options, el: El, top: Node, topDepth: int, els: set<El>)
    requires Sound(s.g) && PortalFact(s, dom, opts, el, top, topDepth) && Extends(s, t, els)
    requires Untouched(dom, el, els)
    ensures PortalFact(t, dom, opts, el, top, topDepth)
  {
  }

  lemma NewPortalFact(s: Stage, t: Stage, dom: Dom, opts: Options, el: El, top: Node, topDepth: int)
    requires Sound(s.g) && dom.parent(el) != Some(el) && Extends(s, t, {el}) && el in t.depths
    requires t.depths[el] == DepthOf(s.depths, dom, el, topDepth)
    requires el in t.g.nodeOf <==> Within(opts, t.depths[el])
    requires el in t.g.nodeOf ==> IsBelow(t.g, el, ParentNode(s.g, dom, el, top))
    ensures PortalFact(t, dom, opts, el, top, topDepth)
  {
  }

  lemma NextInWalk(g: Grown, dom: Dom, walk: seq<El>, i: nat)
    requires FreshWalk(g, dom, walk) && i < |walk|
    ensures walk[i] !in walk[..i] && dom.parent(walk[i]) != Some(walk[i])
    ensures forall k :: 0 <= k < i ==> Untouched(dom, walk[k], {walk[i]})
    ensures SetOf(walk[..i + 1]) == SetOf(walk[..i]) + {walk[i]} && walk[..i + 1] == walk[..i] + [walk[i]]
  {
    assert walk[i..][0] == walk[i];
    forall k | 0 <= k < i ensures Untouched(dom, walk[k], {walk[i]}) {
      assert walk[k..][i - k] == walk[i];
    }
  }

  lemma NotYetThere(st: Stage, s: Stage, dom: Dom, walk: seq<El>, i: nat)
    requires i < |walk| && walk[i] !in walk[..i] && Extends(st, s, SetOf(walk[..i])) && FreshWalk(st.g, dom, walk)
    ensures walk[i] !in s.g.nodeOf && st.g.forest.size <= s.g.forest.size
  {
    assert walk[i] !in SetOf(walk[..i]);
  }

  /** A walk below a portal shows every element that is not too deep, in its place
      and in order. */
  lemma {:induction false} WalkIsShown(st: Stage, dom: Dom, opts: Options, walk: seq<El>, top: Node, topDepth: int,
                                       cut: nat)
    requires Sound(st.g) && top <= st.g.forest.size && cut <= |walk| && FreshWalk(st.g, dom, walk)
    ensures var t := Walked(st, dom, opts, walk[..cut], top, topDepth);
            && Sound(t.g) && Extends(st, t, SetOf(walk[..cut])) && Rising(t.g, walk[..cut], st.g.forest.size)
            && forall k :: 0 <= k < cut ==> PortalFact(t, dom, opts, walk[k], top, topDepth)
    decreases cut
  {
    hide Sound, Extends, PortalFact, Added, FreshWalk, Rising, Walked, IsBelow, ParentNode, DepthOf, Within, Distinct;
    if cut == 0 {
      NothingWalked(st, dom, opts, top, topDepth);
      NothingAdded(st);
      assert walk[..0] == [] && SetOf([]) == {};
    } else {
      var i := cut - 1;
      WalkIsShown(st, dom, opts, walk, top, topDepth, i);
      var s := Walked(st, dom, opts, walk[..i], top, topDepth);
      var t := Walked(st, dom, opts, walk[..i + 1], top, topDepth);
      var el := walk[i];
      var depth, p := DepthOf(s.depths, dom, el, topDepth), ParentNode(s.g, dom, el, top);
      WalkedStep(st, dom, opts, walk, i, top, topDepth);
      NextInWalk(st.g, dom, walk, i);
      NotYetThere(st, s, dom, walk, i);
      ParentIsNode(s.g, dom, el, top);
      OneMore(s, dom, opts, el, depth, Within(opts, depth), p);
      NewPortalFact(s, t, dom, opts, el, top, topDepth);
      forall k | 0 <= k < i ensures PortalFact(t, dom, opts, walk[k], top, topDepth) {
        PortalFactStays(s, t, dom, opts, walk[k], top, topDepth, {el});
      }
      RisingStays(s, t, walk[..i], st.g.forest.size, {el});
      ExtendsOn(st, s, t, SetOf(walk[..i]), {el});
      NumbersAreBelow(s.g, walk[..i]);
      RisingOn(s, t, walk[..i], el, st.g.forest.size);
    }
  }

  lemma NothingWalked(st: Stage, dom: Dom, opts: Options, top: Node, topDepth: int)
    ensures Walked(st, dom, opts, [], top, topDepth) == st
  {
  }

  /** A portal built to its end: its own node below `p`, and below that every element
      of its walk that is not too deep. */
  lemma PortalShowsItsElements(g: Grown, dom: Dom, opts: Options, portal: El, depth: int, p: Node)
    requires Sound(g) && p <= g.forest.size && portal !in g.nodeOf && portal !in dom.walk(portal)
    requires FreshWalk(g, dom, dom.walk(portal))
    ensures
      var n, walk := g.forest.size + 1, dom.walk(portal);
      var h := PortalBuilt(g, dom, opts, portal, depth, p, |walk|);
      && IsBelow(h, portal, p) && h.nodeOf[portal] == n && Rising(h, walk, n)
      && exists depths: map<El, int> ::
           portal in depths && depths[portal] == depth &&
           forall e :: e in walk ==> PortalFact(Stage(h, depths), dom, opts, e, n, depth)
  {
    hide Added, Walked, Sound, Extends, IsBelow, PortalFact, Rising, FreshWalk;
    var walk, none := dom.walk(portal), Stage(g, map[]);
    OneMore(none, dom, opts, portal, depth, true, p);
    var a := Added(g, dom, opts, portal, depth, p);
    var st := Stage(a, map[portal := depth]);
    assert none.depths[portal := depth] == st.depths;
    StillFresh(none, st, dom, portal, walk);
    assert walk[..|walk|] == walk;
    WalkIsShown(st, dom, opts, walk, a.forest.size, depth, |walk|);
    var t := Walked(st, dom, opts, walk, a.forest.size, depth);
    PortalStays(st, t, portal, p, SetOf(walk));
    assert PortalBuilt(g, dom, opts, portal, depth, p, |walk|) == t.g;
    forall e | e in walk ensures PortalFact(Stage(t.g, t.depths), dom, opts, e, a.forest.size, depth) {
      var k :| 0 <= k < |walk| && walk[k] == e;
    }
  }

  lemma StillFresh(s: Stage, t: Stage, dom: Dom, portal: El, walk: seq<El>)
    requires FreshWalk(s.g, dom, walk) && Extends(s, t, {portal}) && portal !in walk
    ensures FreshWalk(t.g, dom, walk)
  {
  }

  lemma PortalStays(s: Stage, t: Stage, portal: El, p: Node, els: set<El>)
    requires Sound(s.g) && Extends(s, t, els) && portal !in els && IsBelow(s.g, portal, p) && portal in s.depths
    ensures IsBelow(t.g, portal, p) && t.g.nodeOf[portal] == s.g.nodeOf[portal]
    ensures portal in t.depths && t.depths[portal] == s.depths[portal]
  {
  }
}
