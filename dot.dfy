/** `dot_file_generator`: the Graphviz description of a family, one line per
    person and one arrow per father, mother or spouse edge. The lines are
    first built as statements, then rendered to text. The sets `fathers()`,
    `mothers()` and `spouses()` are iterated in an order the graph library
    chooses, so the order is a parameter here. */
module Dot {
  import opened Text
  import opened Persons
  import opened FamilyGraph

  datatype Style = Blue | Orange | Dotted

  datatype Statement =
    | Open
    | NodeDecl(uid: int, caption: string)
    | Arrow(src: int, dst: int, style: Style)
    | Close

  /** The caption of a person's box: `str(person)`, or the first given name. */
  function NodeLabel(p: Person, firstNamesOnly: bool): string
  {
    if firstNamesOnly then FirstName(p) else Str(p)
  }

  /** One box per person, in node order. */
  function NodeStatements(nodes: seq<Person>, firstNamesOnly: bool): seq<Statement>
  {
    seq(|nodes|, i requires 0 <= i < |nodes| => NodeDecl(nodes[i].uid, NodeLabel(nodes[i], firstNamesOnly)))
  }

  /** One arrow from src to each target, in order. */
  function ArrowsTo(src: int, targets: seq<int>, style: Style): seq<Statement>
  {
    if targets == [] then [] else [Arrow(src, targets[0], style)] + ArrowsTo(src, targets[1..], style)
  }

  /** The inner loop for every source in turn: `children(father)` (father or
      mother edges, whatever the source's own role) or `all_spouses`. */
  function ArrowsFrom(g: Graph, srcs: seq<int>, labels: set<Label>, style: Style): seq<Statement>
  {
    if srcs == [] then []
    else ArrowsTo(srcs[0], Targets(g.edges, srcs[0], labels), style) + ArrowsFrom(g, srcs[1..], labels, style)
  }

  /** The whole statement list: opening, boxes, blue father arrows, orange
      mother arrows, dotted spouse arrows, closing. */
  function Statements(g: Graph, firstNamesOnly: bool, fathers: seq<int>, mothers: seq<int>, spouses: seq<int>)
    : (r: seq<Statement>)
    ensures |r| >= |g.nodes| + 2 && r[0] == Open && r[|r| - 1] == Close
    ensures forall i :: 0 <= i < |g.nodes| ==> r[i + 1] == NodeDecl(g.nodes[i].uid, NodeLabel(g.nodes[i], firstNamesOnly))
  {
    [Open] + NodeStatements(g.nodes, firstNamesOnly)
    + ArrowsFrom(g, fathers, ParentLabels, Blue)
    + ArrowsFrom(g, mothers, ParentLabels, Orange)
    + ArrowsFrom(g, spouses, SpouseLabels, Dotted)
    + [Close]
  }

  /** An iteration order of a set: every member exactly once. */
  ghost predicate Enumerates(order: seq<int>, s: set<int>)
  {
    (forall x :: x in order <==> x in s)
    && forall i, j :: 0 <= i < j < |order| ==> order[i] != order[j]
  }

  function Quote(s: string): string
  {
    "\"" + s + "\""
  }

  function StyleAttribute(style: Style): string
  {
    match style
    case Blue => "[color=blue]"
    case Orange => "[color=orange]"
    case Dotted => "[style=\"dotted\"]"
  }

  /** What follows the quoted uid on a box or arrow line. */
  function AfterUid(st: Statement): string
    requires st.NodeDecl? || st.Arrow?
  {
    if st.NodeDecl? then " [label=" + Quote(st.caption) + ", shape=\"box\"];"
    else ArrowTail(IntToString(st.dst), st.style)
  }

  /** What follows the source's quoted uid on an arrow line, given the text of the head. */
  function ArrowTail(head: string, style: Style): string
  {
    " -> " + Quote(head) + (" " + StyleAttribute(style) + ";")
  }

  /** The text of one statement. */
  function Render(st: Statement): (r: string)
    ensures r == "digraph family_tree {" <==> st.Open?
    ensures r == "}" <==> st.Close?
  {
    match st
    case Open => "digraph family_tree {"
    case NodeDecl(u, _) => "  " + Quote(IntToString(u)) + AfterUid(st)
    case Arrow(a, _, _) => "  " + Quote(IntToString(a)) + AfterUid(st)
    case Close => "}"
  }

  /** The lines `dot_file_generator` yields. */
  function DotFile(g: Graph, firstNamesOnly: bool, fathers: seq<int>, mothers: seq<int>, spouses: seq<int>)
    : (r: seq<string>)
    ensures |r| >= 2 && r[0] == "digraph family_tree {" && r[|r| - 1] == "}"
  {
    var sts := Statements(g, firstNamesOnly, fathers, mothers, spouses);
    seq(|sts|, i requires 0 <= i < |sts| => Render(sts[i]))
  }

  /** Every box names a registered person with its caption, and every
      registered person gets a box. */
  lemma DotBoxesArePersons(g: Graph, firstNamesOnly: bool, fathers: seq<int>, mothers: seq<int>, spouses: seq<int>,
                           u: int, caption: string)
    ensures NodeDecl(u, caption) in Statements(g, firstNamesOnly, fathers, mothers, spouses)
      <==> exists p :: p in g.nodes && p.uid == u && caption == NodeLabel(p, firstNamesOnly)
  {
    BoxesComeFromNodes(g, firstNamesOnly, fathers, mothers, spouses, u, caption);
    NodeBoxes(g.nodes, firstNamesOnly, u, caption);
  }

  /** The only boxes of the file are those of the node loop. */
  lemma BoxesComeFromNodes(g: Graph, firstNamesOnly: bool, fathers: seq<int>, mothers: seq<int>, spouses: seq<int>,
                           u: int, caption: string)
    ensures NodeDecl(u, caption) in Statements(g, firstNamesOnly, fathers, mothers, spouses)
      <==> NodeDecl(u, caption) in NodeStatements(g.nodes, firstNamesOnly)
  {
    var nodes := NodeStatements(g.nodes, firstNamesOnly);
    var fs := ArrowsFrom(g, fathers, ParentLabels, Blue);
    var ms := ArrowsFrom(g, mothers, ParentLabels, Orange);
    var ss := ArrowsFrom(g, spouses, SpouseLabels, Dotted);
    assert Statements(g, firstNamesOnly, fathers, mothers, spouses) == [Open] + nodes + fs + ms + ss + [Close];
    ArrowsHaveNoBoxes(g, fathers, ParentLabels, Blue, u, caption);
    ArrowsHaveNoBoxes(g, mothers, ParentLabels, Orange, u, caption);
    ArrowsHaveNoBoxes(g, spouses, SpouseLabels, Dotted, u, caption);
  }

  /** The node loop draws one box per person, with that person's caption. */
  lemma NodeBoxes(people: seq<Person>, firstNamesOnly: bool, u: int, caption: string)
    ensures NodeDecl(u, caption) in NodeStatements(people, firstNamesOnly)
      <==> exists p :: p in people && p.uid == u && caption == NodeLabel(p, firstNamesOnly)
  {
    var nodes := NodeStatements(people, firstNamesOnly);
    if NodeDecl(u, caption) in nodes {
      var i :| 0 <= i < |nodes| && nodes[i] == NodeDecl(u, caption);
      assert people[i] in people;
    }
    if exists p :: p in people && p.uid == u && caption == NodeLabel(p, firstNamesOnly) {
      var p :| p in people && p.uid == u && caption == NodeLabel(p, firstNamesOnly);
      var i :| 0 <= i < |people| && people[i] == p;
      assert nodes[i] == NodeDecl(u, caption);
    }
  }

  lemma {:induction false} ArrowsHaveNoBoxes(g: Graph, srcs: seq<int>, labels: set<Label>, style: Style,
                                             u: int, caption: string)
    ensures NodeDecl(u, caption) !in ArrowsFrom(g, srcs, labels, style)
    decreases |srcs|
  {
    if srcs != [] {
      ArrowsToOnlyArrows(srcs[0], Targets(g.edges, srcs[0], labels), style, u, caption);
      ArrowsHaveNoBoxes(g, srcs[1..], labels, style, u, caption);
    }
  }

  lemma {:induction false} ArrowsToOnlyArrows(src: int, targets: seq<int>, style: Style, u: int, caption: string)
    ensures NodeDecl(u, caption) !in ArrowsTo(src, targets, style)
    decreases |targets|
  {
    if targets != [] {
      ArrowsToOnlyArrows(src, targets[1..], style, u, caption);
    }
  }

  /** The arrows to a target list repeat each target as often as it occurs. */
  lemma {:induction false} ArrowsToCount(src: int, targets: seq<int>, style: Style, st: Statement)
    ensures multiset(ArrowsTo(src, targets, style))[st]
      == if st.Arrow? && st.src == src && st.style == style then multiset(targets)[st.dst] else 0
    decreases |targets|
  {
    if targets != [] {
      ArrowsToCount(src, targets[1..], style, st);
      assert targets == [targets[0]] + targets[1..];
    }
  }

  /** Over sources listed once each, an arrow a -> b of the style occurs once
      per matching edge from a to b when a is listed, and never otherwise. */
  lemma {:induction false} ArrowsFromCount(g: Graph, srcs: seq<int>, labels: set<Label>, style: Style,
                                           a: int, b: int)
    requires forall i, j :: 0 <= i < j < |srcs| ==> srcs[i] != srcs[j]
    ensures multiset(ArrowsFrom(g, srcs, labels, style))[Arrow(a, b, style)]
      == if a in srcs then EdgeCount(g.edges, a, b, labels) else 0
    decreases |srcs|
  {
    if srcs != [] {
      var s := srcs[0];
      var rest := srcs[1..];
      ArrowsToCount(s, Targets(g.edges, s, labels), style, Arrow(a, b, style));
      TargetsCount(g.edges, s, labels, b);
      ArrowsFromCount(g, rest, labels, style, a, b);
      assert a in srcs <==> a == s || a in rest;
      assert a == s ==> a !in rest;
    }
  }

  /** Arrows of one style carry only that style. */
  lemma {:induction false} ArrowsFromHaveStyle(g: Graph, srcs: seq<int>, labels: set<Label>, style: Style,
                                               a: int, b: int, other: Style)
    requires other != style
    ensures multiset(ArrowsFrom(g, srcs, labels, style))[Arrow(a, b, other)] == 0
    decreases |srcs|
  {
    if srcs != [] {
      ArrowsToCount(srcs[0], Targets(g.edges, srcs[0], labels), style, Arrow(a, b, other));
      ArrowsFromHaveStyle(g, srcs[1..], labels, style, a, b, other);
    }
  }

  /** Only edges of a kind leave the sources of that kind. */
  lemma SpouseCountNeedsSource(g: Graph, a: int, b: int)
    ensures a !in Sources(g, Spouse) ==> EdgeCount(g.edges, a, b, SpouseLabels) == 0
  {
    var e := Edge(a, b, Spouse);
    if multiset(g.edges)[e] > 0 {
      assert e in g.edges;
    }
  }

  /** The arrows of the file are the edges of the family: from every father,
      one blue arrow per father or mother edge to each child; from every
      mother, one orange arrow per such edge; one dotted arrow per spouse
      edge. Nothing else is drawn, and nothing is drawn twice unless the
      edge itself is stored twice. */
  lemma DotArrowsAreEdges(g: Graph, firstNamesOnly: bool, fathers: seq<int>, mothers: seq<int>, spouses: seq<int>,
                          a: int, b: int)
    requires Enumerates(fathers, Sources(g, Father))
    requires Enumerates(mothers, Sources(g, Mother))
    requires Enumerates(spouses, Sources(g, Spouse))
    ensures var m := multiset(Statements(g, firstNamesOnly, fathers, mothers, spouses));
      && m[Arrow(a, b, Blue)] == (if a in Sources(g, Father) then EdgeCount(g.edges, a, b, ParentLabels) else 0)
      && m[Arrow(a, b, Orange)] == (if a in Sources(g, Mother) then EdgeCount(g.edges, a, b, ParentLabels) else 0)
      && m[Arrow(a, b, Dotted)] == EdgeCount(g.edges, a, b, SpouseLabels)
  {
    BlueArrows(g, firstNamesOnly, fathers, mothers, spouses, a, b);
    OrangeArrows(g, firstNamesOnly, fathers, mothers, spouses, a, b);
    DottedArrows(g, firstNamesOnly, fathers, mothers, spouses, a, b);
  }

  /** An arrow of the file comes from one of the three arrow loops. */
  lemma ArrowCount(g: Graph, firstNamesOnly: bool, fathers: seq<int>, mothers: seq<int>, spouses: seq<int>,
                   st: Statement)
    requires st.Arrow?
    ensures multiset(Statements(g, firstNamesOnly, fathers, mothers, spouses))[st]
      == multiset(ArrowsFrom(g, fathers, ParentLabels, Blue))[st]
       + multiset(ArrowsFrom(g, mothers, ParentLabels, Orange))[st]
       + multiset(ArrowsFrom(g, spouses, SpouseLabels, Dotted))[st]
  {
    var nodes := NodeStatements(g.nodes, firstNamesOnly);
    var fs := ArrowsFrom(g, fathers, ParentLabels, Blue);
    var ms := ArrowsFrom(g, mothers, ParentLabels, Orange);
    var ss := ArrowsFrom(g, spouses, SpouseLabels, Dotted);
    assert Statements(g, firstNamesOnly, fathers, mothers, spouses) == [Open] + nodes + fs + ms + ss + [Close];
    assert forall x :: x in nodes ==> x.NodeDecl?;
    assert st !in nodes;
  }

  lemma BlueArrows(g: Graph, firstNamesOnly: bool, fathers: seq<int>, mothers: seq<int>, spouses: seq<int>,
                   a: int, b: int)
    requires Enumerates(fathers, Sources(g, Father))
    ensures multiset(Statements(g, firstNamesOnly, fathers, mothers, spouses))[Arrow(a, b, Blue)]
      == if a in Sources(g, Father) then EdgeCount(g.edges, a, b, ParentLabels) else 0
  {
    ArrowCount(g, firstNamesOnly, fathers, mothers, spouses, Arrow(a, b, Blue));
    ArrowsFromCount(g, fathers, ParentLabels, Blue, a, b);
    ArrowsFromHaveStyle(g, mothers, ParentLabels, Orange, a, b, Blue);
    ArrowsFromHaveStyle(g, spouses, SpouseLabels, Dotted, a, b, Blue);
  }

  lemma OrangeArrows(g: Graph, firstNamesOnly: bool, fathers: seq<int>, mothers: seq<int>, spouses: seq<int>,
                     a: int, b: int)
    requires Enumerates(mothers, Sources(g, Mother))
    ensures multiset(Statements(g, firstNamesOnly, fathers, mothers, spouses))[Arrow(a, b, Orange)]
      == if a in Sources(g, Mother) then EdgeCount(g.edges, a, b, ParentLabels) else 0
  {
    ArrowCount(g, firstNamesOnly, fathers, mothers, spouses, Arrow(a, b, Orange));
    ArrowsFromCount(g, mothers, ParentLabels, Orange, a, b);
    ArrowsFromHaveStyle(g, fathers, ParentLabels, Blue, a, b, Orange);
    ArrowsFromHaveStyle(g, spouses, SpouseLabels, Dotted, a, b, Orange);
  }

  lemma DottedArrows(g: Graph, firstNamesOnly: bool, fathers: seq<int>, mothers: seq<int>, spouses: seq<int>,
                     a: int, b: int)
    requires Enumerates(spouses, Sources(g, Spouse))
    ensures multiset(Statements(g, firstNamesOnly, fathers, mothers, spouses))[Arrow(a, b, Dotted)]
      == EdgeCount(g.edges, a, b, SpouseLabels)
  {
    ArrowCount(g, firstNamesOnly, fathers, mothers, spouses, Arrow(a, b, Dotted));
    ArrowsFromCount(g, spouses, SpouseLabels, Dotted, a, b);
    ArrowsFromHaveStyle(g, fathers, ParentLabels, Blue, a, b, Dotted);
    ArrowsFromHaveStyle(g, mothers, ParentLabels, Orange, a, b, Dotted);
    SpouseCountNeedsSource(g, a, b);
  }

  /** Past the indentation and the opening quote comes the uid, its closing
      quote and the rest of the line. */
  lemma QuotedHead(x: string, rest: string)
    ensures ("  " + Quote(x) + rest)[3..] == x + "\"" + rest
  {
    assert "  " + Quote(x) + rest == "  \"" + (x + "\"" + rest);
  }

  lemma AfterUidMark(st: Statement)
    requires st.NodeDecl? || st.Arrow?
    ensures |AfterUid(st)| >= 2 && AfterUid(st)[1] == (if st.NodeDecl? then '[' else '-')
  {
  }

  /** `str` of an int has no quote in it. */
  lemma IntToStringUnquoted(n: int)
    ensures '"' !in IntToString(n)
  {
    if n < 0 {
      assert IntToString(n) == "-" + NatToString(-n);
    }
  }

  /** Distinct ints print differently. */
  lemma IntToStringInjective(m: int, n: int)
    requires IntToString(m) == IntToString(n)
    ensures m == n
  {
    IntToStringRoundTrip(m);
    IntToStringRoundTrip(n);
  }

  /** A quote-free head followed by a quote is recovered from the string. */
  lemma SplitAtQuote(x: string, y: string, x': string, y': string)
    requires '"' !in x && '"' !in x'
    requires x + "\"" + y == x' + "\"" + y'
    ensures x == x' && y == y'
  {
    var s := x + "\"" + y;
    var s' := x' + "\"" + y';
    assert s[|x|] == '"' && s'[|x'|] == '"';
    assert forall k :: 0 <= k < |x'| ==> s'[k] == x'[k] != '"';
    assert forall k :: 0 <= k < |x| ==> s[k] == x[k] != '"';
    assert |x| == |x'|;
    assert x == s[..|x|] && x' == s'[..|x'|];
    assert y == s[|x| + 1..] && y' == s'[|x'| + 1..];
  }

  lemma StyleAttributeInjective(s: Style, t: Style)
    requires StyleAttribute(s) + ";" == StyleAttribute(t) + ";"
    ensures s == t
  {
  }

  /** The text after the uid decides a box's caption ... */
  lemma BoxTailInjective(c: string, c': string)
    requires AfterUid(NodeDecl(0, c)) == AfterUid(NodeDecl(0, c'))
    ensures c == c'
  {
    var a, b := AfterUid(NodeDecl(0, c)), AfterUid(NodeDecl(0, c'));
    var tail := "\", shape=\"box\"];";
    assert a == " [label=\"" + c + tail;
    assert b == " [label=\"" + c' + tail;
    assert c == a[9..|a| - |tail|];
    assert c' == b[9..|b| - |tail|];
  }

  /** Past the arrow and the opening quote comes the head's text, its
      closing quote and the rest of the line. */
  lemma DropArrowPrefix(x: string, y: string)
    ensures |" -> " + Quote(x) + y| >= 5 && (" -> " + Quote(x) + y)[5..] == x + "\"" + y
  {
    var t := x + "\"" + y;
    assert " -> " + Quote(x) + y == " -> \"" + t;
  }

  /** ... and an arrow's head and style. */
  lemma ArrowTailInjective(d: int, s: Style, d': int, s': Style)
    requires AfterUid(Arrow(0, d, s)) == AfterUid(Arrow(0, d', s'))
    ensures d == d' && s == s'
  {
    var x, x' := IntToString(d), IntToString(d');
    var y, y' := " " + StyleAttribute(s) + ";", " " + StyleAttribute(s') + ";";
    assert ArrowTail(x, s) == ArrowTail(x', s');
    DropArrowPrefix(x, y);
    DropArrowPrefix(x', y');
    IntToStringUnquoted(d);
    IntToStringUnquoted(d');
    SplitAtQuote(x, y, x', y');
    IntToStringInjective(d, d');
    assert y[1..] == StyleAttribute(s) + ";" && y'[1..] == StyleAttribute(s') + ";";
    StyleAttributeInjective(s, s');
  }

  /** The file can be read back: distinct statements render to distinct lines. */
  lemma RenderInjective(s: Statement, t: Statement)
    requires Render(s) == Render(t)
    ensures s == t
  {
    var a, b := Render(s), Render(t);
    if (s.NodeDecl? || s.Arrow?) && (t.NodeDecl? || t.Arrow?) {
      var u := if s.NodeDecl? then s.uid else s.src;
      var v := if t.NodeDecl? then t.uid else t.src;
      QuotedHead(IntToString(u), AfterUid(s));
      QuotedHead(IntToString(v), AfterUid(t));
      IntToStringUnquoted(u);
      IntToStringUnquoted(v);
      SplitAtQuote(IntToString(u), AfterUid(s), IntToString(v), AfterUid(t));
      IntToStringInjective(u, v);
      AfterUidMark(s);
      AfterUidMark(t);
      if s.NodeDecl? {
        assert AfterUid(NodeDecl(0, s.caption)) == AfterUid(s) && AfterUid(NodeDecl(0, t.caption)) == AfterUid(t);
        BoxTailInjective(s.caption, t.caption);
      } else {
        assert AfterUid(Arrow(0, s.dst, s.style)) == AfterUid(s) && AfterUid(Arrow(0, t.dst, t.style)) == AfterUid(t);
        ArrowTailInjective(s.dst, s.style, t.dst, t.style);
      }
    } else if s.Open? || t.Open? {
      assert a[0] == b[0];
    } else {
      assert |a| == |b|;
      assert a[0] == b[0];
    }
  }

  /** Two families whose files are the same text drew the same boxes and
      arrows in the same order. */
  lemma DotFileDeterminesStatements(g: Graph, f: bool, fathers: seq<int>, mothers: seq<int>, spouses: seq<int>,
                                    h: Graph, f': bool, fathers': seq<int>, mothers': seq<int>, spouses': seq<int>)
    requires DotFile(g, f, fathers, mothers, spouses) == DotFile(h, f', fathers', mothers', spouses')
    ensures Statements(g, f, fathers, mothers, spouses) == Statements(h, f', fathers', mothers', spouses')
  {
    var a := Statements(g, f, fathers, mothers, spouses);
    var b := Statements(h, f', fathers', mothers', spouses');
    var file := DotFile(g, f, fathers, mothers, spouses);
    assert |a| == |file| == |b|;
    forall i | 0 <= i < |a|
      ensures a[i] == b[i]
    {
      assert file[i] == Render(a[i]) == Render(b[i]);
      RenderInjective(a[i], b[i]);
    }
  }
}
