/**
 The tree the snapshot walk builds, as two views that must agree: the child
 lists and the recorded parents. Node 0 stands for the document; every other
 node was built for an element.
 */
module StitchForest {

  type Node = nat

  const ROOT: Node := 0

  datatype Forest = Forest(size: nat, children: map<Node, seq<Node>>, parent: map<Node, Node>)

  /** Nodes `1..size` are built. */
  predicate Built(f: Forest, n: Node) {
    1 <= n <= f.size
  }

  predicate IsNode(f: Forest, n: Node) {
    n <= f.size
  }

  ghost predicate Total(f: Forest) {
    (forall n: Node :: n in f.children <==> IsNode(f, n)) &&
    (forall n: Node :: n in f.parent <==> Built(f, n)) &&
    (forall n: Node :: Built(f, n) ==> IsNode(f, f.parent[n]))
  }

  /** How often `c` is listed under `p`. */
  function Listed(f: Forest, p: Node, c: Node): nat
    requires p in f.children
  {
    multiset(f.children[p])[c]
  }

  /** A built node is listed once under its recorded parent, and not elsewhere. */
  ghost predicate ListedOnce(f: Forest, q: Node, c: Node)
    requires Total(f) && IsNode(f, q)
  {
    Listed(f, q, c) == if Built(f, c) && f.parent[c] == q then 1 else 0
  }

  ghost predicate OneParent(f: Forest)
    requires Total(f)
  {
    forall q: Node, c: Node :: IsNode(f, q) ==> ListedOnce(f, q, c)
  }

  /** Following the recorded parents from `n` arrives at the root after `k` steps. */
  predicate Level(parent: map<Node, Node>, n: Node, k: nat)
    decreases k
  {
    if n == ROOT then k == 0
    else k > 0 && n in parent && Level(parent, parent[n], k - 1)
  }

  ghost predicate HasLevel(parent: map<Node, Node>, n: Node) {
    exists k: nat :: Level(parent, n, k)
  }

  ghost predicate Rooted(f: Forest) {
    forall n: Node :: IsNode(f, n) ==> HasLevel(f.parent, n)
  }

  ghost predicate Tree(f: Forest) {
    Total(f) && OneParent(f) && Rooted(f)
  }

  const EMPTY := Forest(0, map[ROOT := []], map[])

  lemma EmptyIsTree()
    ensures Tree(EMPTY)
  {
    assert Level(EMPTY.parent, ROOT, 0);
  }

  // ------------------------------------------------------------ a new node

  /** `p.children.push(n)` for a node just built. */
  function Attach(f: Forest, p: Node): Forest
    requires p in f.children
  {
    var n := f.size + 1;
    Forest(n, f.children[p := f.children[p] + [n]][n := []], f.parent[n := p])
  }

  lemma {:induction false} LevelKept(parent: map<Node, Node>, n: Node, p: Node, m: Node, k: nat)
    requires Level(parent, m, k) && n !in parent
    ensures Level(parent[n := p], m, k)
    decreases k
  {
    if m != ROOT { LevelKept(parent, n, p, parent[m], k - 1); }
  }

  lemma ListedIn(f: Forest, q: Node, c: Node)
    requires Total(f) && OneParent(f) && IsNode(f, q)
    ensures ListedOnce(f, q, c)
  {
  }

  lemma AttachTotal(f: Forest, p: Node)
    requires Total(f) && IsNode(f, p)
    ensures Total(Attach(f, p)) && Attach(f, p).size == f.size + 1
  {
  }

  lemma AttachListed(f: Forest, p: Node, q: Node, c: Node)
    requires Total(f) && OneParent(f) && IsNode(f, p) && IsNode(Attach(f, p), q) && Total(Attach(f, p))
    ensures ListedOnce(Attach(f, p), q, c)
  {
    if IsNode(f, q) { ListedIn(f, q, c); }
    hide OneParent, Total;
    var n := f.size + 1;
    if q == p {
      assert multiset(f.children[p] + [n]) == multiset(f.children[p]) + multiset{n};
    }
  }

  lemma AttachLevel(f: Forest, p: Node, m: Node)
    requires Total(f) && Rooted(f) && IsNode(f, p) && IsNode(Attach(f, p), m)
    ensures HasLevel(Attach(f, p).parent, m)
  {
    var n := f.size + 1;
    var base := if m == n then p else m;
    assert HasLevel(f.parent, base);
    var k: nat :| Level(f.parent, base, k);
    LevelKept(f.parent, n, p, base, k);
    assert m == n ==> Level(Attach(f, p).parent, n, k + 1);
  }

  lemma AttachKeepsTree(f: Forest, p: Node)
    requires Tree(f) && IsNode(f, p)
    ensures Tree(Attach(f, p))
    ensures Attach(f, p).size == f.size + 1
  {
    AttachTotal(f, p);
    hide ListedOnce, HasLevel, Total, Attach;
    var g := Attach(f, p);
    forall q: Node, c: Node | IsNode(g, q) ensures ListedOnce(g, q, c) {
      AttachListed(f, p, q, c);
    }
    forall m: Node | IsNode(g, m) ensures HasLevel(g.parent, m) {
      AttachLevel(f, p, m);
    }
  }

  // --------------------------------------------------------- moving a node

  /** `children.filter(child => child !== t)`. */
  function Without(s: seq<Node>, t: Node): seq<Node> {
    if s == [] then []
    else (if s[0] == t then [] else [s[0]]) + Without(s[1..], t)
  }

  lemma {:induction false} WithoutCounts(s: seq<Node>, t: Node, c: Node)
    ensures multiset(Without(s, t))[c] == if c == t then 0 else multiset(s)[c]
  {
    if s != [] {
      assert s == [s[0]] + s[1..];
      WithoutCounts(s[1..], t, c);
    }
  }

  /** An existing node moves below another one. */
  function Move(f: Forest, t: Node, p: Node): Forest
    requires t in f.parent && f.parent[t] in f.children && p in f.children
  {
    var kept := f.children[f.parent[t] := Without(f.children[f.parent[t]], t)];
    Forest(f.size, kept[p := kept[p] + [t]], f.parent[t := p])
  }

  /** `t` is `n` or one of the nodes above it. */
  predicate OnChain(parent: map<Node, Node>, n: Node, k: nat, t: Node)
    requires Level(parent, n, k)
    decreases k
  {
    n == t || (n != ROOT && OnChain(parent, parent[n], k - 1, t))
  }

  lemma {:induction false} ChainKept(parent: map<Node, Node>, t: Node, p: Node, n: Node, k: nat)
    requires Level(parent, n, k) && !OnChain(parent, n, k, t)
    ensures Level(parent[t := p], n, k)
    decreases k
  {
    if n != ROOT { ChainKept(parent, t, p, parent[n], k - 1); }
  }

  lemma {:induction false} ChainMoved(parent: map<Node, Node>, t: Node, p: Node, n: Node, k: nat, j: nat)
    requires Level(parent, n, k) && Level(parent, p, j) && !OnChain(parent, p, j, t) && t != ROOT
    ensures HasLevel(parent[t := p], n)
    decreases k
  {
    if n == ROOT {
      assert Level(parent[t := p], ROOT, 0);
    } else if n == t {
      ChainKept(parent, t, p, p, j);
      assert Level(parent[t := p], t, j + 1);
    } else {
      ChainMoved(parent, t, p, parent[n], k - 1, j);
      var i: nat :| Level(parent[t := p], parent[n], i);
      assert Level(parent[t := p], n, i + 1);
    }
  }

  lemma MoveTotal(f: Forest, t: Node, p: Node)
    requires Total(f) && Built(f, t) && IsNode(f, p)
    ensures Total(Move(f, t, p)) && Move(f, t, p).size == f.size
  {
  }

  lemma MoveListed(f: Forest, t: Node, p: Node, q: Node, c: Node)
    requires Total(f) && OneParent(f) && Built(f, t) && IsNode(f, p) && IsNode(f, q) && Total(Move(f, t, p))
    ensures ListedOnce(Move(f, t, p), q, c)
  {
    ListedIn(f, q, c);
    hide OneParent, Total, Without;
    var before := f.parent[t];
    WithoutCounts(f.children[before], t, c);
    var kept := f.children[before := Without(f.children[before], t)];
    assert multiset(kept[q])[c] == if q == before && c == t then 0 else multiset(f.children[q])[c];
    if q == p {
      assert multiset(kept[p] + [t]) == multiset(kept[p]) + multiset{t};
      assert Move(f, t, p).children[q] == kept[p] + [t];
    } else {
      assert Move(f, t, p).children[q] == kept[q];
    }
  }

  lemma MoveLevel(f: Forest, t: Node, p: Node, j: nat, n: Node)
    requires Total(f) && Rooted(f) && Built(f, t) && IsNode(f, p) && IsNode(f, n)
    requires Level(f.parent, p, j) && !OnChain(f.parent, p, j, t)
    ensures HasLevel(Move(f, t, p).parent, n)
  {
    assert HasLevel(f.parent, n);
    var k: nat :| Level(f.parent, n, k);
    ChainMoved(f.parent, t, p, n, k, j);
  }

  /** Moving a node below one that is not below it loses no node, lists none
      twice and closes no cycle. */
  lemma MoveKeepsTree(f: Forest, t: Node, p: Node, j: nat)
    requires Tree(f) && Built(f, t) && IsNode(f, p)
    requires Level(f.parent, p, j) && !OnChain(f.parent, p, j, t)
    ensures Tree(Move(f, t, p))
    ensures Move(f, t, p).size == f.size
  {
    MoveTotal(f, t, p);
    hide ListedOnce, HasLevel, Total, Move;
    var g := Move(f, t, p);
    forall q: Node, c: Node | IsNode(g, q) ensures ListedOnce(g, q, c) {
      MoveListed(f, t, p, q, c);
    }
    forall n: Node | IsNode(g, n) ensures HasLevel(g.parent, n) {
      MoveLevel(f, t, p, j, n);
    }
  }

  // -------------------------------------------------- what a tree is good for

  /** The node `s` steps above `n`. */
  function Up(parent: map<Node, Node>, n: Node, s: nat): Node
    decreases s
  {
    if s == 0 || n !in parent then n else Up(parent, parent[n], s - 1)
  }

  /** Rendering order: a node, then what is below it, `fuel` levels deep. */
  function Order(f: Forest, n: Node, fuel: nat): seq<Node>
    decreases fuel, 0
  {
    if fuel == 0 || n !in f.children then []
    else [n] + OrderAll(f, f.children[n], fuel - 1)
  }

  function OrderAll(f: Forest, ns: seq<Node>, fuel: nat): seq<Node>
    decreases fuel, 1, ns
  {
    if ns == [] then [] else Order(f, ns[0], fuel) + OrderAll(f, ns[1..], fuel)
  }

  lemma {:induction false} LevelIsUnique(parent: map<Node, Node>, n: Node, j: nat, k: nat)
    requires Level(parent, n, j) && Level(parent, n, k)
    ensures j == k
    decreases k
  {
    if n != ROOT { LevelIsUnique(parent, parent[n], j - 1, k - 1); }
  }

  lemma {:induction false} UpLevel(f: Forest, n: Node, k: nat, s: nat)
    requires Total(f) && IsNode(f, n) && Level(f.parent, n, k) && s <= k
    ensures IsNode(f, Up(f.parent, n, s)) && Level(f.parent, Up(f.parent, n, s), k - s)
    decreases s
  {
    if s > 0 { UpLevel(f, f.parent[n], k - 1, s - 1); }
  }

  lemma {:induction false} UpOnce(f: Forest, n: Node, k: nat, s: nat)
    requires Total(f) && IsNode(f, n) && Level(f.parent, n, k) && s < k
    ensures Built(f, Up(f.parent, n, s)) && Up(f.parent, n, s + 1) == f.parent[Up(f.parent, n, s)]
    decreases s
  {
    if s > 0 { UpOnce(f, f.parent[n], k - 1, s - 1); }
  }

  lemma ListedUnder(f: Forest, r: Node, c: Node)
    requires Total(f) && OneParent(f) && IsNode(f, r) && c in f.children[r]
    ensures Built(f, c) && f.parent[c] == r
  {
    ListedIn(f, r, c);
  }

  /** The step below `r` on the way to `n` is listed under `r` if `r` is on it. */
  lemma NextIsListed(f: Forest, r: Node, n: Node, k: nat, s: nat)
    requires Total(f) && OneParent(f) && IsNode(f, r) && IsNode(f, n)
    requires Level(f.parent, n, k) && s < k
    ensures Listed(f, r, Up(f.parent, n, s)) == if Up(f.parent, n, s + 1) == r then 1 else 0
  {
    UpOnce(f, n, k, s);
    ListedIn(f, r, Up(f.parent, n, s));
  }

  /** `n` is rendered below `r` once if `r` is above it, and otherwise never. */
  lemma {:induction false} OrderCounts(f: Forest, r: Node, i: nat, n: Node, k: nat, fuel: nat)
    requires Total(f) && OneParent(f) && IsNode(f, r) && IsNode(f, n)
    requires Level(f.parent, r, i) && Level(f.parent, n, k) && k < i + fuel
    ensures multiset(Order(f, r, fuel))[n] == if i <= k && Up(f.parent, n, k - i) == r then 1 else 0
    decreases fuel, 0
  {
    hide OneParent, OrderAll, Level;
    if fuel > 0 {
      var below := OrderAll(f, f.children[r], fuel - 1);
      assert Order(f, r, fuel) == [r] + below;
      assert multiset([r] + below) == multiset{r} + multiset(below);
      forall c | c in f.children[r] ensures Built(f, c) && f.parent[c] == r {
        ListedUnder(f, r, c);
      }
      OrderAllCounts(f, r, i, f.children[r], n, k, fuel - 1);
      if n == r { LevelIsUnique(f.parent, n, i, k); }
      if i < k { NextIsListed(f, r, n, k, k - i - 1); }
    }
  }

  lemma {:induction false} OrderAllCounts(f: Forest, r: Node, i: nat, cs: seq<Node>, n: Node, k: nat, fuel: nat)
    requires Total(f) && OneParent(f) && IsNode(f, r) && IsNode(f, n)
    requires forall c :: c in cs ==> Built(f, c) && f.parent[c] == r
    requires Level(f.parent, r, i) && Level(f.parent, n, k) && k < i + 1 + fuel
    ensures multiset(OrderAll(f, cs, fuel))[n] == if i < k then multiset(cs)[Up(f.parent, n, k - i - 1)] else 0
    decreases fuel, 1, cs
  {
    hide OneParent, Order;
    if cs != [] {
      var c := cs[0];
      assert Level(f.parent, c, i + 1);
      OrderCounts(f, c, i + 1, n, k, fuel);
      OrderAllCounts(f, r, i, cs[1..], n, k, fuel);
      assert cs == [c] + cs[1..];
      assert OrderAll(f, cs, fuel) == Order(f, c, fuel) + OrderAll(f, cs[1..], fuel);
      assert multiset(OrderAll(f, cs, fuel)) == multiset(Order(f, c, fuel)) + multiset(OrderAll(f, cs[1..], fuel));
      assert multiset(cs) == multiset{c} + multiset(cs[1..]);
    }
  }

  /** Rendering from the root shows every node exactly once. */
  lemma RenderedExactlyOnce(f: Forest, n: Node, k: nat, fuel: nat)
    requires Tree(f) && IsNode(f, n) && Level(f.parent, n, k) && k < fuel
    ensures multiset(Order(f, ROOT, fuel))[n] == 1
  {
    assert Level(f.parent, ROOT, 0);
    OrderCounts(f, ROOT, 0, n, k, fuel);
    UpLevel(f, n, k, k);
  }
}
