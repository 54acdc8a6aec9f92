/** The family graph: a directed multigraph whose nodes are Persons and
    whose edges carry one of three labels. Nodes are kept in insertion order
    and, like the keys of a dictionary, are unique by uid; an edge names its
    endpoints by uid. The query functions here are the read-only half of
    the Family class; the `...Spec` functions say what each checked mutation
    does to a graph, and the Family methods are proved against them. */
module FamilyGraph {
  import opened Outcomes
  import opened Text
  import opened Persons

  datatype Label = Father | Mother | Spouse

  datatype Edge = Edge(src: int, dst: int, kind: Label)

  datatype Graph = Graph(nodes: seq<Person>, edges: seq<Edge>)

  const ParentLabels: set<Label> := {Father, Mother}
  const SpouseLabels: set<Label> := {Spouse}

  /** The uids of the registered persons. */
  function UidSet(g: Graph): set<int>
  {
    set p | p in g.nodes :: p.uid
  }

  /** The graph's invariant: no two nodes share a uid, and every edge joins
      two registered persons (adding an edge registers its endpoints). */
  ghost predicate WellFormed(g: Graph)
  {
    && (forall i, j :: 0 <= i < j < |g.nodes| ==> g.nodes[i].uid != g.nodes[j].uid)
    && (forall e :: e in g.edges ==> e.src in UidSet(g) && e.dst in UidSet(g))
  }

  /** `uids()`: the uid of every person, in node order. */
  function Uids(g: Graph): (r: seq<int>)
    ensures |r| == |g.nodes|
    ensures forall i :: 0 <= i < |r| ==> r[i] == g.nodes[i].uid
  {
    seq(|g.nodes|, i requires 0 <= i < |g.nodes| => g.nodes[i].uid)
  }

  /** `graph.add_node(person)` (and so `add_person`): a person whose uid is
      already registered leaves the graph exactly as it was, keeping the
      Person stored first; otherwise the person is appended. */
  function AddNode(g: Graph, p: Person): (r: Graph)
    ensures r.edges == g.edges
    ensures UidSet(r) == UidSet(g) + {p.uid}
    ensures p.uid in UidSet(g) ==> r == g
    ensures p.uid !in UidSet(g) ==> r.nodes == g.nodes + [p]
    ensures WellFormed(g) ==> WellFormed(r)
  {
    if p.uid in UidSet(g) then g else Graph(g.nodes + [p], g.edges)
  }

  /** `graph.add_nodes_from(persons)`: `add_node` for each in turn. */
  function AddNodesFrom(g: Graph, people: seq<Person>): Graph
    decreases |people|
  {
    if people == [] then g else AddNodesFrom(AddNode(g, people[0]), people[1..])
  }

  /** Adding persons registers exactly their uids, keeps every Person
      already stored and touches no edge. */
  lemma {:induction false} AddNodesFromRegisters(g: Graph, people: seq<Person>)
    ensures var r := AddNodesFrom(g, people);
      && UidSet(r) == UidSet(g) + (set p | p in people :: p.uid)
      && r.edges == g.edges
      && (forall p :: p in g.nodes ==> p in r.nodes)
      && (WellFormed(g) ==> WellFormed(r))
    decreases |people|
  {
    if people != [] {
      AddNodesFromRegisters(AddNode(g, people[0]), people[1..]);
      assert (set p | p in people :: p.uid) == {people[0].uid} + (set p | p in people[1..] :: p.uid);
    }
  }

  /** Appends one edge between two uids. */
  function Link(g: Graph, src: int, dst: int, kind: Label): (r: Graph)
    ensures UidSet(r) == UidSet(g)
    ensures WellFormed(g) && src in UidSet(g) && dst in UidSet(g) ==> WellFormed(r)
  {
    Graph(g.nodes, g.edges + [Edge(src, dst, kind)])
  }

  /** `graph.add_edge(u, v, relation_type=kind)`: registers both endpoints
      when absent, then adds one more edge (parallel edges are kept). */
  function AddEdge(g: Graph, u: Person, v: Person, kind: Label): (r: Graph)
    ensures r.edges == g.edges + [Edge(u.uid, v.uid, kind)]
    ensures UidSet(r) == UidSet(g) + {u.uid, v.uid}
    ensures WellFormed(g) ==> WellFormed(r)
  {
    Link(AddNode(AddNode(g, u), v), u.uid, v.uid, kind)
  }

  /** In a well-formed graph a uid names one stored Person. */
  lemma StoredPersonIsRegistered(g: Graph, p: Person)
    requires WellFormed(g) && p in g.nodes
    ensures Registered(g, p.uid) == p
  {
    var q := Registered(g, p.uid);
    var i :| 0 <= i < |g.nodes| && g.nodes[i] == p;
    var j :| 0 <= j < |g.nodes| && g.nodes[j] == q;
    assert i == j;
  }

  /** Every Person stored in h is stored in g or is one of `added` with a
      uid g did not have. */
  ghost predicate Extends(g: Graph, h: Graph, added: set<Person>)
  {
    forall p :: p in h.nodes ==> p in g.nodes || (p in added && p.uid !in UidSet(g))
  }

  /** The first Person stored with the given uid. */
  function FirstWithUid(nodes: seq<Person>, uid: int): (r: Option<Person>)
    ensures r.Some? <==> exists p :: p in nodes && p.uid == uid
    ensures r.Some? ==> r.value in nodes && r.value.uid == uid
  {
    if nodes == [] then None
    else if nodes[0].uid == uid then Some(nodes[0])
    else FirstWithUid(nodes[1..], uid)
  }

  /** `uid_to_person`: the registered Person with that uid, or TypeError. */
  function NodeWithUid(g: Graph, uid: int): (r: Result<Person>)
    ensures r.Ok? <==> uid in UidSet(g)
    ensures r.Ok? ==> r.value in g.nodes && r.value.uid == uid
    ensures r.Err? ==> r.error == TypeError
  {
    match FirstWithUid(g.nodes, uid)
    case Some(p) => Ok(p)
    case None => Err(TypeError)
  }

  /** The Person stored under a registered uid. */
  function Registered(g: Graph, uid: int): (p: Person)
    requires uid in UidSet(g)
    ensures p in g.nodes && p.uid == uid
  {
    NodeWithUid(g, uid).value
  }

  /** Targets of the edges leaving `src` whose kind is in `labels`: with
      ParentLabels this is `children`, with SpouseLabels it is
      `all_spouses`. Parallel edges give repeated targets. The list follows
      the model's edge order; the graph library orders it differently, so
      only its elements, counted with repeats, mean anything. */
  function Targets(edges: seq<Edge>, src: int, labels: set<Label>): (r: seq<int>)
    ensures forall c :: c in r <==> exists l :: l in labels && Edge(src, c, l) in edges
  {
    if edges == [] then []
    else
      var e := edges[|edges| - 1];
      Targets(edges[..|edges| - 1], src, labels)
        + (if e.src == src && e.kind in labels then [e.dst] else [])
  }

  /** How many edges from src to dst carry a kind in `labels`. */
  function EdgeCount(edges: seq<Edge>, src: int, dst: int, labels: set<Label>): nat
  {
    (if Father in labels then multiset(edges)[Edge(src, dst, Father)] else 0)
    + (if Mother in labels then multiset(edges)[Edge(src, dst, Mother)] else 0)
    + (if Spouse in labels then multiset(edges)[Edge(src, dst, Spouse)] else 0)
  }

  /** Each target appears in `Targets` once per matching edge: the list is
      the multiset of matching edges, whatever order they are stored in. */
  lemma {:induction false} TargetsCount(edges: seq<Edge>, src: int, labels: set<Label>, c: int)
    ensures multiset(Targets(edges, src, labels))[c] == EdgeCount(edges, src, c, labels)
    decreases |edges|
  {
    if edges != [] {
      var init, e := edges[..|edges| - 1], edges[|edges| - 1];
      assert edges == init + [e];
      TargetsCount(init, src, labels, c);
      EdgeCountAppend(init, e, src, c, labels);
      var extra := if e.src == src && e.kind in labels then [e.dst] else [];
      assert multiset(Targets(edges, src, labels)) == multiset(Targets(init, src, labels)) + multiset(extra);
    }
  }

  lemma EdgeCountAppend(init: seq<Edge>, e: Edge, src: int, c: int, labels: set<Label>)
    ensures EdgeCount(init + [e], src, c, labels)
      == EdgeCount(init, src, c, labels) + (if e.src == src && e.dst == c && e.kind in labels then 1 else 0)
  {
    var m, m' := multiset(init), multiset(init + [e]);
    assert m' == m + multiset{e};
    assert forall x :: m'[x] == m[x] + (if x == e then 1 else 0);
    var f, mo, sp := Edge(src, c, Father), Edge(src, c, Mother), Edge(src, c, Spouse);
    assert m'[f] == m[f] + (if e == f then 1 else 0);
    assert m'[mo] == m[mo] + (if e == mo then 1 else 0);
    assert m'[sp] == m[sp] + (if e == sp then 1 else 0);
    match e.kind
    case Father => assert e != mo && e != sp && (e == f <==> e.src == src && e.dst == c);
    case Mother => assert e != f && e != sp && (e == mo <==> e.src == src && e.dst == c);
    case Spouse => assert e != f && e != mo && (e == sp <==> e.src == src && e.dst == c);
  }

  /** Adding an edge adds its target at the end of its source's list. */
  lemma TargetsAppend(edges: seq<Edge>, e: Edge, src: int, labels: set<Label>)
    ensures Targets(edges + [e], src, labels)
      == Targets(edges, src, labels) + (if e.src == src && e.kind in labels then [e.dst] else [])
  {
    assert (edges + [e])[..|edges|] == edges;
  }

  /** `children(parent)`: PersonExistsError for an unregistered parent;
      otherwise the target of every father or mother edge leaving it. */
  function Children(g: Graph, parent: Person): (r: Result<seq<int>>)
    ensures r.Err? <==> parent.uid !in UidSet(g)
    ensures r.Err? ==> r.error == PersonExistsError
    ensures r.Ok? ==> forall c :: c in r.value <==>
      Edge(parent.uid, c, Father) in g.edges || Edge(parent.uid, c, Mother) in g.edges
  {
    if parent.uid !in UidSet(g) then Err(PersonExistsError)
    else Ok(Targets(g.edges, parent.uid, ParentLabels))
  }

  /** `all_spouses(person)`: the target of every spouse edge leaving the
      person, repeats included (in the model's edge order). */
  function AllSpouses(g: Graph, person: Person): (r: seq<int>)
    ensures forall s :: s in r <==> Edge(person.uid, s, Spouse) in g.edges
  {
    Targets(g.edges, person.uid, SpouseLabels)
  }

  /** `fathers()`, `mothers()`, `spouses()`: the distinct sources of the
      edges carrying one kind. */
  function Sources(g: Graph, kind: Label): (r: set<int>)
    ensures forall u :: u in r <==> exists e :: e in g.edges && e.kind == kind && e.src == u
    ensures WellFormed(g) ==> r <= UidSet(g)
  {
    set e | e in g.edges && e.kind == kind :: e.src
  }

  /** `father(person)` and `mother(person)`: the source of the first edge
      with that kind that ends at the person, or None. */
  function FirstSource(edges: seq<Edge>, dst: int, kind: Label): (r: Option<int>)
    ensures r.Some? ==> Edge(r.value, dst, kind) in edges
    ensures r.None? <==> forall e :: e in edges ==> !(e.dst == dst && e.kind == kind)
  {
    if edges == [] then None
    else if edges[0].dst == dst && edges[0].kind == kind then Some(edges[0].src)
    else FirstSource(edges[1..], dst, kind)
  }

  /** An edge that does not end at the person with that kind leaves the
      answer alone; one that does makes the person have a parent of that
      kind, and is that parent when there was none; one more edge from the
      parent already returned changes nothing. Which of several different
      parents of one kind is returned depends on the graph library's edge
      order and is not stated. */
  lemma {:induction false} FirstSourceAppend(edges: seq<Edge>, e: Edge, dst: int, kind: Label)
    ensures !(e.dst == dst && e.kind == kind) ==> FirstSource(edges + [e], dst, kind) == FirstSource(edges, dst, kind)
    ensures e.dst == dst && e.kind == kind ==> FirstSource(edges + [e], dst, kind).Some?
    ensures e.dst == dst && e.kind == kind && FirstSource(edges, dst, kind).None? ==>
      FirstSource(edges + [e], dst, kind) == Some(e.src)
    ensures FirstSource(edges, dst, kind) == Some(e.src) ==> FirstSource(edges + [e], dst, kind) == Some(e.src)
  {
    if edges != [] {
      assert (edges + [e])[1..] == edges[1..] + [e];
      FirstSourceAppend(edges[1..], e, dst, kind);
    }
  }

  /** `father(person)`: the source of a father edge into the person, None
      exactly when there is none. */
  function FatherOf(g: Graph, person: Person): (r: Option<int>)
    ensures r.Some? ==> Edge(r.value, person.uid, Father) in g.edges
    ensures r.None? <==> forall e :: e in g.edges ==> !(e.dst == person.uid && e.kind == Father)
  {
    FirstSource(g.edges, person.uid, Father)
  }

  /** `mother(person)`: the source of a mother edge into the person, None
      exactly when there is none. */
  function MotherOf(g: Graph, person: Person): (r: Option<int>)
    ensures r.Some? ==> Edge(r.value, person.uid, Mother) in g.edges
    ensures r.None? <==> forall e :: e in g.edges ==> !(e.dst == person.uid && e.kind == Mother)
  {
    FirstSource(g.edges, person.uid, Mother)
  }

  /** `names()`, as written: `str(person)` for every person. */
  function StrNames(g: Graph): (r: seq<string>)
    ensures |r| == |g.nodes| && forall i :: 0 <= i < |r| ==> r[i] == Str(g.nodes[i])
  {
    seq(|g.nodes|, i requires 0 <= i < |g.nodes| => Str(g.nodes[i]))
  }

  /** The names people go by (see Persons.Name), in node order. */
  function Names(g: Graph): (r: seq<string>)
    ensures |r| == |g.nodes| && forall i :: 0 <= i < |r| ==> r[i] == Name(g.nodes[i])
  {
    seq(|g.nodes|, i requires 0 <= i < |g.nodes| => Name(g.nodes[i]))
  }

  function Max(a: nat, b: nat): nat { if a < b then b else a }

  /** The length of the longest all-'?' name in the list (0 if there is none). */
  function LongestAnonymous(names: seq<string>): (n: nat)
    ensures forall i :: 0 <= i < |names| && AllQuestionMarks(names[i]) ==> |names[i]| <= n
    ensures n == 0 || exists i :: 0 <= i < |names| && AllQuestionMarks(names[i]) && |names[i]| == n
  {
    if names == [] then 0
    else
      var last := names[|names| - 1];
      var init := LongestAnonymous(names[..|names| - 1]);
      Max(init, if AllQuestionMarks(last) then |last| else 0)
  }

  /** The body of `new_anonymous_name` over a list of names: question marks,
      one more than the longest all-'?' name, so it is none of the names. */
  function AnonymousNameFor(names: seq<string>): (r: string)
    ensures AllQuestionMarks(r)
    ensures |r| == LongestAnonymous(names) + 1
    ensures forall i :: 0 <= i < |names| ==> names[i] != r
  {
    Repeat('?', LongestAnonymous(names) + 1)
  }

  /** `new_anonymous_name` as written: it scans `names()`, that is `str(person)`. */
  function NewAnonymousNameAsWritten(g: Graph): (r: string)
    ensures AllQuestionMarks(r)
    ensures forall i :: 0 <= i < |g.nodes| ==> Str(g.nodes[i]) != r
  {
    AnonymousNameFor(StrNames(g))
  }

  /** Since `str(person)` always contains a space, no name matches `^\?+$`
      and the as-written generator answers "?" for every family. */
  lemma AnonymousNameAsWrittenIsAlwaysOneMark(g: Graph)
    ensures NewAnonymousNameAsWritten(g) == "?"
  {
    var names := StrNames(g);
    forall i | 0 <= i < |names|
      ensures !AllQuestionMarks(names[i])
    {
      StrHasSpace(g.nodes[i]);
    }
    assert LongestAnonymous(names) == 0;
  }

  /** The input that shows it: a family holding a placeholder called "?"
      still gets "?" as its next anonymous name. */
  lemma AnonymousNameAsWrittenCollides()
    ensures var g := Graph([Person(1, "", ["?"], Female, "f", None, [])], []);
      Name(g.nodes[0]) == "?" && NewAnonymousNameAsWritten(g) == "?"
  {
    AnonymousNameAsWrittenIsAlwaysOneMark(Graph([Person(1, "", ["?"], Female, "f", None, [])], []));
  }

  /** `new_anonymous_name`, corrected to scan the names people go by. */
  function NewAnonymousName(g: Graph): (r: string)
    ensures AllQuestionMarks(r)
    ensures forall p :: p in g.nodes ==> Name(p) != r
  {
    var names := Names(g);
    var r := AnonymousNameFor(names);
    assert forall i :: 0 <= i < |g.nodes| ==> Name(g.nodes[i]) == names[i];
    r
  }

  /** Registering a person named by the generator lengthens the next name by
      one '?'. */
  lemma NewAnonymousNameAfterInsert(g: Graph, p: Person)
    requires p.uid !in UidSet(g)
    requires Name(p) == NewAnonymousName(g)
    ensures NewAnonymousName(AddNode(g, p)) == NewAnonymousName(g) + "?"
  {
    NamesAfterAddNode(g, p);
    LongestAnonymousGrows(Names(g), Name(p));
  }

  /** A newly registered person's name goes last. */
  lemma NamesAfterAddNode(g: Graph, p: Person)
    requires p.uid !in UidSet(g)
    ensures Names(AddNode(g, p)) == Names(g) + [Name(p)]
  {
  }

  /** Appending the generator's own answer raises the longest length by one. */
  lemma LongestAnonymousGrows(names: seq<string>, x: string)
    requires x == AnonymousNameFor(names)
    ensures LongestAnonymous(names + [x]) == LongestAnonymous(names) + 1
  {
    assert (names + [x])[..|names|] == names;
  }

  /** The corrected generator on the family above: the placeholder "?" makes it answer "??". */
  lemma AnonymousNameSkipsPlaceholder()
    ensures NewAnonymousName(Graph([Person(1, "", ["?"], Female, "f", None, [])], [])) == "??"
  {
    var g0 := Graph([], []);
    var p := Person(1, "", ["?"], Female, "f", None, []);
    assert NewAnonymousName(g0) == "?";
    NewAnonymousNameAfterInsert(g0, p);
    assert AddNode(g0, p) == Graph([p], []);
  }
}
