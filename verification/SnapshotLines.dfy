/**
 What can be read back from a rendered line: how deep its node is, and its name.
 */
module SnapshotLines {
  import opened SnapshotTree

  /** The spaces a line starts with. */
  function Margin(line: string): nat {
    if line == "" || line[0] != ' ' then 0 else 1 + Margin(line[1..])
  }

  lemma {:induction false} MarginOf(depth: nat, rest: string)
    requires rest != "" && rest[0] != ' '
    ensures Margin(Indent(depth) + rest) == 2 * depth
    ensures |Indent(depth)| == 2 * depth && (Indent(depth) + rest)[2 * depth..] == rest
  {
    var line := Indent(depth) + rest;
    if depth == 0 {
      assert line == rest;
    } else {
      MarginOf(depth - 1, rest);
      assert line[1..][1..] == Indent(depth - 1) + rest && line[0] == ' ' && line[1] == ' ';
      assert line[2..][2 * (depth - 1)..] == line[2 * depth..];
    }
  }

  /** Takes the backslash off every escaped quote. */
  function Unescape(s: string): string {
    if s == "" then ""
    else if s[0] == '\\' && |s| > 1 && s[1] == '"' then "\"" + Unescape(s[2..])
    else [s[0]] + Unescape(s[1..])
  }

  /** Escaping loses nothing, and leaves no quote without a backslash before it. */
  lemma {:induction false} EscapeReadsBack(name: string)
    ensures Unescape(Escape(name)) == name
    ensures forall i :: 0 <= i < |Escape(name)| && Escape(name)[i] == '"' ==> i > 0 && Escape(name)[i - 1] == '\\'
  {
    if name != "" {
      EscapeReadsBack(name[1..]);
      var rest, e := Escape(name[1..]), Escape(name);
      if name[0] == '"' {
        assert e == "\\\"" + rest && e[2..] == rest;
        forall i | 0 <= i < |e| && e[i] == '"' ensures i > 0 && e[i - 1] == '\\' {
          assert i >= 2 ==> e[i] == rest[i - 2] && e[i - 1] == if i > 2 then rest[i - 3] else '"';
        }
      } else {
        assert e == [name[0]] + rest && e[1..] == rest;
        assert !(|e| > 1 && e[1] == '"');
        forall i | 0 <= i < |e| && e[i] == '"' ensures i > 0 && e[i - 1] == '\\' {
          assert i >= 1 && e[i] == rest[i - 1];
          assert i >= 2 && e[i - 1] == rest[i - 2];
        }
      }
    }
  }

  /** A node's line: two spaces for each level, then what it shows, its name with
      every quote escaped, and its attributes. */
  lemma LineReadsBack(n: Node, depth: nat)
    ensures Margin(OwnLine(n, depth)) == 2 * depth <= |OwnLine(n, depth)|
    ensures OwnLine(n, depth)[2 * depth..]
         == "- " + n.face.shown
            + (if n.face.name != "" then " \"" + Escape(n.face.name) + "\"" else "")
            + (if n.face.attrs != [] then " [" + JoinWith(n.face.attrs, ", ") + "]" else "")
  {
    var name := if n.face.name != "" then " \"" + Escape(n.face.name) + "\"" else "";
    var attrs := if n.face.attrs != [] then " [" + JoinWith(n.face.attrs, ", ") + "]" else "";
    var rest := "- " + n.face.shown + name + attrs;
    MarginOf(depth, rest);
    Regroup(Indent(depth), "- ", n.face.shown, name, attrs);
    hide Indent, Escape, JoinWith, Margin;
  }

  lemma Regroup(a: string, b: string, c: string, d: string, e: string)
    ensures a + b + c + d + e == a + (b + c + d + e)
  {
  }

  /** A pointer stands where its overlay would, and names it. */
  lemma PointerReadsBack(overlay: string, depth: nat)
    ensures Margin(PointerLine(overlay, depth)) == 2 * depth <= |PointerLine(overlay, depth)|
    ensures PointerLine(overlay, depth)[2 * depth..] == "- [overlay " + overlay + ": shown above]"
  {
    var rest := "- [overlay " + overlay + ": shown above]";
    MarginOf(depth, rest);
    assert PointerLine(overlay, depth) == Indent(depth) + rest;
  }
}
