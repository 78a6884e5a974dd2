/** The snapshot's tree and its unlimited rendering. */
module SnapshotTree {

  /** What a node's line shows. `classes` holds its element's first five class
      names, which only the sibling hash looks at, and `anchor` the `#id` or
      `.class` suffix of a section label. */
  datatype Face = Face(shown: string, name: string, attrs: seq<string>, classes: string, anchor: string)

  /** `id` is the identity of the node object. `collapsed` is non-empty exactly
      on the marker that stands for a run of repeated siblings. */
  datatype Node = Node(id: nat, face: Face, kids: seq<Node>, collapsed: seq<Node>)

  predicate IsMarker(n: Node) {
    n.collapsed != []
  }

  // ------------------------------------------------------------------- text

  function JoinWith(parts: seq<string>, glue: string): string {
    if parts == [] then ""
    else if |parts| == 1 then parts[0]
    else parts[0] + glue + JoinWith(parts[1..], glue)
  }

  /** `parts.join('\n')`. */
  function Join(parts: seq<string>): string {
    JoinWith(parts, "\n")
  }

  function Indent(depth: nat): string {
    if depth == 0 then "" else "  " + Indent(depth - 1)
  }

  function Escape(name: string): string {
    if name == "" then ""
    else (if name[0] == '"' then "\\\"" else [name[0]]) + Escape(name[1..])
  }

  function OwnLine(n: Node, depth: nat): string {
    Indent(depth) + "- " + n.face.shown
    + (if n.face.name != "" then " \"" + Escape(n.face.name) + "\"" else "")
    + (if n.face.attrs != [] then " [" + JoinWith(n.face.attrs, ", ") + "]" else "")
  }

  function PointerLine(overlay: string, depth: nat): string {
    Indent(depth) + "- [overlay " + overlay + ": shown above]"
  }

  // --------------------------------------------------------------- rendering

  /** The overlays whose place in the page keeps only a pointer. */
  type Skips = map<nat, string>

  /** Markers are objects of their own, never overlays. */
  predicate Skipped(n: Node, skips: Skips) {
    !IsMarker(n) && n.id in skips
  }

  /** `renderNode`. */
  function RenderNode(n: Node, depth: nat, skips: Skips): string
    decreases n, 1
  {
    if Skipped(n, skips) then PointerLine(skips[n.id], depth)
    else Join([OwnLine(n, depth)] + RenderEach(n.kids, depth + 1, skips))
  }

  function RenderEach(ns: seq<Node>, depth: nat, skips: Skips): (r: seq<string>)
    ensures |r| == |ns|
    decreases ns, 0
  {
    if ns == [] then [] else [RenderNode(ns[0], depth, skips)] + RenderEach(ns[1..], depth, skips)
  }

  lemma {:induction false} JoinConcat(a: seq<string>, b: seq<string>)
    requires a != [] && b != []
    ensures Join(a + b) == Join(a) + "\n" + Join(b)
  {
    if |a| == 1 {
      assert (a + b)[1..] == b;
    } else {
      assert (a + b)[1..] == a[1..] + b;
      JoinConcat(a[1..], b);
    }
  }

  /** Joining groups first and then the group texts makes no difference. */
  lemma JoinRegroups(a: seq<string>, b: seq<string>, c: seq<string>)
    requires b != []
    ensures Join(a + b + c) == Join(a + [Join(b)] + c)
  {
    assert Join([Join(b)]) == Join(b);
    if a == [] && c == [] {
      assert a + b + c == b && a + [Join(b)] + c == [Join(b)];
    } else if a == [] {
      assert a + b + c == b + c && a + [Join(b)] + c == [Join(b)] + c;
      JoinConcat(b, c);
      JoinConcat([Join(b)], c);
    } else if c == [] {
      assert a + b + c == a + b && a + [Join(b)] + c == a + [Join(b)];
      JoinConcat(a, b);
      JoinConcat(a, [Join(b)]);
    } else {
      JoinConcat(a + b, c);
      JoinConcat(a, b);
      JoinConcat(a + [Join(b)], c);
      JoinConcat(a, [Join(b)]);
    }
  }

  // ------------------------------------------------- which node shows a line

  datatype Line = Line(id: nat, marker: bool, text: string)

  /** The rendering as a flat list of lines, each with the node it shows. */
  function Lines(n: Node, depth: nat, skips: Skips): (r: seq<Line>)
    ensures r != []
    decreases n, 1
  {
    if Skipped(n, skips) then [Line(n.id, false, PointerLine(skips[n.id], depth))]
    else [Line(n.id, IsMarker(n), OwnLine(n, depth))] + LinesOfAll(n.kids, depth + 1, skips)
  }

  function LinesOfAll(ns: seq<Node>, depth: nat, skips: Skips): seq<Line>
    decreases ns, 0
  {
    if ns == [] then [] else Lines(ns[0], depth, skips) + LinesOfAll(ns[1..], depth, skips)
  }

  function Texts(lines: seq<Line>): seq<string> {
    seq(|lines|, i requires 0 <= i < |lines| => lines[i].text)
  }

  lemma TextsConcat(a: seq<Line>, b: seq<Line>)
    ensures Texts(a + b) == Texts(a) + Texts(b)
  {
  }

  /** `renderNode` prints exactly these lines. */
  lemma {:induction false} RenderPrintsLines(n: Node, depth: nat, skips: Skips)
    ensures RenderNode(n, depth, skips) == Join(Texts(Lines(n, depth, skips)))
    decreases n, 1
  {
    if Skipped(n, skips) {
      assert Texts(Lines(n, depth, skips)) == [PointerLine(skips[n.id], depth)];
    } else {
      var own := OwnLine(n, depth);
      RenderEachPrintsLines([own], n.kids, depth + 1, skips);
      TextsConcat([Line(n.id, IsMarker(n), own)], LinesOfAll(n.kids, depth + 1, skips));
      assert Texts([Line(n.id, IsMarker(n), own)]) == [own];
    }
  }

  lemma {:induction false} RenderEachPrintsLines(before: seq<string>, ns: seq<Node>, depth: nat, skips: Skips)
    ensures Join(before + RenderEach(ns, depth, skips)) == Join(before + Texts(LinesOfAll(ns, depth, skips)))
    decreases ns, 0
  {
    if ns != [] {
      var text := RenderNode(ns[0], depth, skips);
      var first := Texts(Lines(ns[0], depth, skips));
      var rest := LinesOfAll(ns[1..], depth, skips);
      RenderPrintsLines(ns[0], depth, skips);
      RenderEachPrintsLines(before + [text], ns[1..], depth, skips);
      assert before + RenderEach(ns, depth, skips) == before + [text] + RenderEach(ns[1..], depth, skips);
      JoinRegroups(before, first, Texts(rest));
      TextsConcat(Lines(ns[0], depth, skips), rest);
      assert Texts(LinesOfAll(ns, depth, skips)) == first + Texts(rest);
      hide Texts, LinesOfAll, Lines, RenderEach, Join;
      assert before + (first + Texts(rest)) == before + first + Texts(rest);
    }
  }
}
