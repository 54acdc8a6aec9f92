/** What each checked mutation of a Family does to its graph, as functions
    from the graph before to the outcome and the graph after, and the
    properties the family code promises about them. The Family methods are
    proved to behave exactly as these functions say. */
module Rules {
  import opened Outcomes
  import opened Text
  import opened Persons
  import opened FamilyGraph

  /** The outcome of a mutation and the graph it leaves behind (a raised
      exception leaves behind whatever the operation had already changed). */
  datatype Step = Step(outcome: Outcome, graph: Graph)

  /** `add_child`'s choice of edge label from the parent's gender. */
  function LabelFor(gender: Gender): (l: Option<Label>)
    ensures l == Some(Father) <==> gender == Male
    ensures l == Some(Mother) <==> gender == Female
    ensures l.None? <==> gender == Unknown
  {
    match gender
    case Male => Some(Father)
    case Female => Some(Mother)
    case Unknown => None
  }

  /** The gender `add_father` and `add_mother` demand of the parent. */
  function RoleGender(kind: Label): Gender
    requires kind != Spouse
  {
    if kind == Father then Male else Female
  }

  /** `add_child(parent, child)`: registers the parent FIRST, then raises
      GenderError when the parent's gender is unknown, else adds one edge
      labelled by that gender (registering the child). No check that the
      child already has a parent of that kind. */
  function AddChildSpec(g: Graph, parent: Person, child: Person): (s: Step)
    ensures s.outcome.Pass? <==> parent.gender != Unknown
    ensures s.outcome.Fail? ==> s.outcome.error == GenderError && s.graph == AddNode(g, parent)
    ensures s.outcome.Pass? ==>
      s.graph.edges == g.edges + [Edge(parent.uid, child.uid, if parent.gender == Male then Father else Mother)]
    ensures s.outcome.Pass? ==> UidSet(s.graph) == UidSet(g) + {parent.uid, child.uid}
    ensures s.outcome.Pass? ==> child.uid in Targets(s.graph.edges, parent.uid, ParentLabels)
    ensures WellFormed(g) ==> WellFormed(s.graph)
  {
    var g1 := AddNode(g, parent);
    match LabelFor(parent.gender)
    case None => Step(Fail(GenderError), g1)
    case Some(l) =>
      var r := AddEdge(g1, parent, child, l);
      TargetsAppend(g1.edges, Edge(parent.uid, child.uid, l), parent.uid, ParentLabels);
      Step(Pass, r)
  }

  /** One edge from `src` to each person of `targets`, in order. */
  function EdgesTo(src: int, targets: seq<Person>, kind: Label): (r: seq<Edge>)
    ensures |r| == |targets|
    ensures forall i :: 0 <= i < |r| ==> r[i] == Edge(src, targets[i].uid, kind)
  {
    seq(|targets|, i requires 0 <= i < |targets| => Edge(src, targets[i].uid, kind))
  }

  /** `add_children(parent, children)`: `add_child` for each child in turn,
      stopping at the first exception. */
  function AddChildrenSpec(g: Graph, parent: Person, children: seq<Person>): (s: Step)
    ensures s.outcome.Pass? <==> children == [] || parent.gender != Unknown
    ensures s.outcome.Fail? ==> s.outcome.error == GenderError
    ensures WellFormed(g) ==> WellFormed(s.graph)
    decreases |children|
  {
    if children == [] then Step(Pass, g)
    else
      var s := AddChildSpec(g, parent, children[0]);
      if s.outcome.Fail? then s else AddChildrenSpec(s.graph, parent, children[1..])
  }

  /** `add_children` with a parent of known gender succeeds and gives every
      child one edge from the parent, in order, all with the label the
      parent's gender picks. */
  lemma {:induction false} AddChildrenAppendsEdges(g: Graph, parent: Person, children: seq<Person>)
    requires parent.gender != Unknown
    ensures AddChildrenSpec(g, parent, children).outcome.Pass?
    ensures AddChildrenSpec(g, parent, children).graph.edges
      == g.edges + EdgesTo(parent.uid, children, LabelFor(parent.gender).value)
    ensures WellFormed(g) ==> WellFormed(AddChildrenSpec(g, parent, children).graph)
    decreases |children|
  {
    if children != [] {
      var l := LabelFor(parent.gender).value;
      var e := Edge(parent.uid, children[0].uid, l);
      var rest := EdgesTo(parent.uid, children[1..], l);
      assert g.edges + [e] + rest == g.edges + ([e] + rest);
      var s0 := AddChildSpec(g, parent, children[0]);
      assert s0.graph.edges == g.edges + [e];
      AddChildrenAddsEveryChildStep(g, parent, children);
      AddChildrenAppendsEdges(s0.graph, parent, children[1..]);
      assert AddChildrenSpec(g, parent, children).graph.edges == g.edges + [e] + rest;
      EdgesToCons(parent.uid, children, l);
    }
  }

  lemma EdgesToCons(src: int, targets: seq<Person>, kind: Label)
    requires targets != []
    ensures EdgesTo(src, targets, kind) == [Edge(src, targets[0].uid, kind)] + EdgesTo(src, targets[1..], kind)
  {
  }

  lemma AddChildrenAddsEveryChildStep(g: Graph, parent: Person, children: seq<Person>)
    requires parent.gender != Unknown && children != []
    ensures AddChildrenSpec(g, parent, children)
      == AddChildrenSpec(AddChildSpec(g, parent, children[0]).graph, parent, children[1..])
  {
  }

  /** After a successful `add_children`, every child is among the parent's
      children. */
  lemma AddChildrenLinksEveryChild(g: Graph, parent: Person, children: seq<Person>, c: Person)
    requires parent.gender != Unknown && c in children
    ensures c.uid in Targets(AddChildrenSpec(g, parent, children).graph.edges, parent.uid, ParentLabels)
  {
    AddChildrenAppendsEdges(g, parent, children);
    var l := LabelFor(parent.gender).value;
    TargetsOfAppendedEdges(g.edges, parent.uid, children, l, ParentLabels);
    var i :| 0 <= i < |children| && children[i] == c;
    assert UidsOf(children)[i] == c.uid;
  }

  lemma AddChildrenUnknownGender(g: Graph, parent: Person, children: seq<Person>)
    requires parent.gender == Unknown && children != []
    ensures AddChildrenSpec(g, parent, children) == Step(Fail(GenderError), AddNode(g, parent))
  {
  }

  /** `add_spouses(person, spouses)`: `add_spouse` for each in turn; each adds
      one spouse edge from person (registering both), never raising. */
  function AddSpousesSpec(g: Graph, person: Person, spouses: seq<Person>): (r: Graph)
    ensures |r.edges| == |g.edges| + |spouses| && r.edges[..|g.edges|] == g.edges
    ensures WellFormed(g) ==> WellFormed(r)
    decreases |spouses|
  {
    if spouses == [] then g
    else
      var g1 := AddEdge(g, person, spouses[0], Spouse);
      var r := AddSpousesSpec(g1, person, spouses[1..]);
      assert g1.edges[..|g.edges|] == g.edges;
      assert r.edges[..|g.edges|] == r.edges[..|g1.edges|][..|g.edges|];
      r
  }

  /** The uids of a list of persons. */
  function UidsOf(people: seq<Person>): (r: seq<int>)
    ensures |r| == |people| && forall i :: 0 <= i < |r| ==> r[i] == people[i].uid
  {
    seq(|people|, i requires 0 <= i < |people| => people[i].uid)
  }

  /** `add_spouses(p, ss)` appends one spouse edge from p to each of ss, in
      order, and changes no other edge. */
  lemma {:induction false} AddSpousesAppendsEdges(g: Graph, person: Person, spouses: seq<Person>)
    ensures AddSpousesSpec(g, person, spouses).edges == g.edges + EdgesTo(person.uid, spouses, Spouse)
    ensures WellFormed(g) ==> WellFormed(AddSpousesSpec(g, person, spouses))
    decreases |spouses|
  {
    if spouses != [] {
      var e := Edge(person.uid, spouses[0].uid, Spouse);
      var rest := EdgesTo(person.uid, spouses[1..], Spouse);
      assert g.edges + [e] + rest == g.edges + ([e] + rest);
      var g1 := AddEdge(g, person, spouses[0], Spouse);
      AddSpousesAppendsEdges(g1, person, spouses[1..]);
      EdgesToCons(person.uid, spouses, Spouse);
    }
  }

  /** Spouse edges are one-way records: after `add_spouses(p, ss)`,
      `all_spouses(p)` holds the old spouses and one more entry per element
      of ss, repeats included. The order of that list follows the graph
      library's edge order and is not stated. */
  lemma AddSpousesExtendsAllSpouses(g: Graph, person: Person, spouses: seq<Person>)
    ensures multiset(AllSpouses(AddSpousesSpec(g, person, spouses), person))
      == multiset(AllSpouses(g, person)) + multiset(UidsOf(spouses))
  {
    AddSpousesAppendsEdges(g, person, spouses);
    TargetsOfAppendedEdges(g.edges, person.uid, spouses, Spouse, SpouseLabels);
  }

  /** Edges from `src` to each of `targets`, appended, extend `src`'s target
      list by exactly those targets. */
  lemma {:induction false} TargetsOfAppendedEdges(edges: seq<Edge>, src: int, targets: seq<Person>, kind: Label, labels: set<Label>)
    requires kind in labels
    ensures Targets(edges + EdgesTo(src, targets, kind), src, labels) == Targets(edges, src, labels) + UidsOf(targets)
    decreases |targets|
  {
    if targets != [] {
      var init, last := targets[..|targets| - 1], targets[|targets| - 1];
      var e := Edge(src, last.uid, kind);
      var front := EdgesTo(src, init, kind);
      var before := Targets(edges, src, labels);
      assert edges + (front + [e]) == (edges + front) + [e];
      assert before + (UidsOf(init) + [last.uid]) == (before + UidsOf(init)) + [last.uid];
      EdgesToSnoc(src, targets, kind);
      UidsOfSnoc(targets);
      TargetsOfAppendedEdges(edges, src, init, kind, labels);
      TargetsAppend(edges + front, e, src, labels);
    } else {
      assert edges + EdgesTo(src, targets, kind) == edges;
    }
  }

  /** The edges to a non-empty list end with the edge to its last target. */
  lemma EdgesToSnoc(src: int, targets: seq<Person>, kind: Label)
    requires targets != []
    ensures EdgesTo(src, targets, kind)
      == EdgesTo(src, targets[..|targets| - 1], kind) + [Edge(src, targets[|targets| - 1].uid, kind)]
  {
  }

  /** The uids of a non-empty list end with its last Person's uid. */
  lemma UidsOfSnoc(people: seq<Person>)
    requires people != []
    ensures UidsOf(people) == UidsOf(people[..|people| - 1]) + [people[|people| - 1].uid]
  {
  }

  /** `add_spouses(p, ss)` registers p (when ss is not empty) and every one
      of ss, and nobody else. */
  lemma {:induction false} AddSpousesRegisters(g: Graph, person: Person, spouses: seq<Person>)
    ensures UidSet(AddSpousesSpec(g, person, spouses))
      == UidSet(g) + (if spouses == [] then {} else {person.uid}) + (set s | s in spouses :: s.uid)
    decreases |spouses|
  {
    if spouses != [] {
      assert (set s | s in spouses :: s.uid) == {spouses[0].uid} + (set s | s in spouses[1..] :: s.uid) by {
        assert spouses == [spouses[0]] + spouses[1..];
      }
      var g1 := AddEdge(g, person, spouses[0], Spouse);
      AddSpousesRegisters(g1, person, spouses[1..]);
    }
  }

  /** Every registered parent is stored with the gender its role needs.
      `add_child` labels by the gender of the Person it is GIVEN while the
      graph keeps the Person it stored first, so a family can break this. */
  ghost predicate RolesAgree(g: Graph)
  {
    forall p, e :: p in g.nodes && e in g.edges && e.src == p.uid && e.kind != Spouse ==>
      p.gender == RoleGender(e.kind)
  }

  /** `add_father(child, parent)` (kind Father) and `add_mother` (kind
      Mother), corrected. Three checks, in order, each raising before
      anything changes: the child already has a parent of this kind
      (GenealogicalError, as the message and the tests intend), the child is
      the parent (GenealogicalError), the parent has the wrong gender
      (GenderError). Then a parent already registered in this role is reused:
      its stored Person gets the child through `add_child` unless the child
      is already among its children. Otherwise the parent is registered and
      `add_child` links it. */
  function AddParentSpec(g: Graph, child: Person, parent: Person, kind: Label): (s: Step)
    requires WellFormed(g) && kind != Spouse
    ensures s.outcome.Fail? ==> s.graph == g
    ensures s.outcome.Fail? ==> s.outcome.error == GenealogicalError || s.outcome.error == GenderError
    ensures WellFormed(s.graph)
  {
    if FirstSource(g.edges, child.uid, kind).Some? then Step(Fail(GenealogicalError), g)
    else if child.uid == parent.uid then Step(Fail(GenealogicalError), g)
    else if parent.gender != RoleGender(kind) then Step(Fail(GenderError), g)
    else AttachParent(g, child, parent, kind)
  }

  /** What `add_father`/`add_mother` do once the checks pass: reuse the
      stored Person of a parent already registered in this role, else
      register the parent; then link the child through `add_child`. */
  function AttachParent(g: Graph, child: Person, parent: Person, kind: Label): (s: Step)
    requires WellFormed(g) && kind != Spouse
    ensures s.outcome.Fail? ==> s == Step(Fail(GenderError), AddNode(g, parent))
    ensures s.outcome.Pass? ==> child.uid in Targets(s.graph.edges, parent.uid, ParentLabels)
    ensures WellFormed(s.graph)
  {
    if parent.uid in Sources(g, kind) then
      if child.uid in Targets(g.edges, parent.uid, ParentLabels) then Step(Pass, g)
      else AddChildSpec(g, Registered(g, parent.uid), child)
    else AddChildSpec(AddNode(g, parent), parent, child)
  }

  /** A parent already registered in this role: their stored Person gets
      the child, unless the child is already theirs. */
  lemma AttachParentToRegistered(g: Graph, child: Person, parent: Person, kind: Label)
    requires WellFormed(g) && kind != Spouse && parent.uid in Sources(g, kind)
    ensures parent.uid in UidSet(g)
    ensures AttachParent(g, child, parent, kind) ==
      if child.uid in Targets(g.edges, parent.uid, ParentLabels) then Step(Pass, g)
      else AddChildSpec(g, Registered(g, parent.uid), child)
  {
  }

  /** The three checks come in this order and change nothing: a fatherless
      person named as their own father is a GenealogicalError whatever their
      gender, not a GenderError. */
  lemma AddParentChecksInOrder(g: Graph, child: Person, parent: Person, kind: Label)
    requires WellFormed(g) && kind != Spouse
    ensures var s := AddParentSpec(g, child, parent, kind);
      && (FirstSource(g.edges, child.uid, kind).Some? ==> s == Step(Fail(GenealogicalError), g))
      && (child.uid == parent.uid ==> s == Step(Fail(GenealogicalError), g))
      && ((FirstSource(g.edges, child.uid, kind).None? && child.uid != parent.uid &&
           parent.gender != RoleGender(kind)) ==> s == Step(Fail(GenderError), g))
  {
  }

  /** The gender spelling each check of the source tests for: `add_father`
      and `add_mother` want "male" and "female", `add_child` wants "m" and
      "f". */
  function RoleSpelling(kind: Label): (r: string)
    requires kind != Spouse
    ensures ParseGender(r) == RoleGender(kind)
    ensures r != "m" && r != "f"
  {
    if kind == Father then "male" else "female"
  }

  /** `add_child` as written: the edge label comes from the stored spelling,
      and only "m" and "f" are accepted. */
  function AddChildAsWritten(g: Graph, parent: Person, child: Person): (s: Step)
    ensures s.outcome.Pass? <==> parent.genderText == "m" || parent.genderText == "f"
    ensures s.outcome.Fail? ==> s == Step(Fail(GenderError), AddNode(g, parent))
    ensures s.outcome.Pass? ==> child.uid in Targets(s.graph.edges, parent.uid, ParentLabels)
  {
    var g1 := AddNode(g, parent);
    if parent.genderText == "m" || parent.genderText == "f" then
      var e := Edge(parent.uid, child.uid, if parent.genderText == "m" then Father else Mother);
      TargetsAppend(g1.edges, e, parent.uid, ParentLabels);
      Step(Pass, AddEdge(g1, parent, child, e.kind))
    else Step(Fail(GenderError), g1)
  }

  /** `add_father`/`add_mother` as written. The first check compares the
      Person that `father`/`mother` returns with None through
      `Person.__ne__`, which reads `None.uid`: a child who already has a
      parent of this kind raises AttributeError. The gender check tests the
      long spelling, and the `add_child` calls then test the short one. */
  function AddParentAsWritten(g: Graph, child: Person, parent: Person, kind: Label): (s: Step)
    requires WellFormed(g) && kind != Spouse
    ensures s.outcome.Fail? ==> s.outcome.error in {AttributeError, GenealogicalError, GenderError}
    ensures s.outcome == Fail(AttributeError) <==> FirstSource(g.edges, child.uid, kind).Some?
  {
    if FirstSource(g.edges, child.uid, kind).Some? then Step(Fail(AttributeError), g)
    else if child.uid == parent.uid then Step(Fail(GenealogicalError), g)
    else if parent.genderText != RoleSpelling(kind) then Step(Fail(GenderError), g)
    else if parent.uid in Sources(g, kind) then
      if child.uid in Targets(g.edges, parent.uid, ParentLabels) then Step(Pass, g)
      else AddChildAsWritten(g, Registered(g, parent.uid), child)
    else AddChildAsWritten(AddNode(g, parent), parent, child)
  }

  /** As written, a child who already has a parent of this kind gets
      AttributeError where the corrected operation gives GenealogicalError;
      the two never raise the same exception there, and the corrected one
      never raises AttributeError. */
  lemma AddParentAsWrittenRaisesAttributeError(g: Graph, child: Person, parent: Person, kind: Label)
    requires WellFormed(g) && kind != Spouse
    ensures FirstSource(g.edges, child.uid, kind).Some? ==>
      AddParentAsWritten(g, child, parent, kind) == Step(Fail(AttributeError), g) &&
      AddParentSpec(g, child, parent, kind) == Step(Fail(GenealogicalError), g)
    ensures AddParentSpec(g, child, parent, kind).outcome != Fail(AttributeError)
  {
  }

  /** As written, `add_father`/`add_mother` never succeed for a parent not
      yet registered in the role: a parent spelt "male"/"female" passes the
      gender check and is registered, and then `add_child` raises
      GenderError because it wants "m"/"f". */
  lemma AddParentAsWrittenNeverAddsNewParent(g: Graph, child: Person, parent: Person, kind: Label)
    requires WellFormed(g) && kind != Spouse && parent.uid !in Sources(g, kind)
    ensures AddParentAsWritten(g, child, parent, kind).outcome.Fail?
    ensures (FirstSource(g.edges, child.uid, kind).None? && child.uid != parent.uid &&
             parent.genderText == RoleSpelling(kind)) ==>
      AddParentAsWritten(g, child, parent, kind) == Step(Fail(GenderError), AddNode(g, parent))
  {
    var spelling := RoleSpelling(kind);
    assert spelling != "m" && spelling != "f";
  }

  /** The input that shows the difference: a parent spelt as the source's
      own menu spells it, not yet registered, for a child without such a
      parent. The corrected operation links them; the code as written
      raises GenderError after registering the parent. */
  lemma AddParentAsWrittenRefusesNewParent(g: Graph, child: Person, parent: Person, kind: Label)
    requires WellFormed(g) && kind != Spouse && parent.uid !in Sources(g, kind)
    requires FirstSource(g.edges, child.uid, kind).None? && child.uid != parent.uid
    requires parent.genderText == RoleSpelling(kind) && parent.gender == ParseGender(parent.genderText)
    ensures AddParentAsWritten(g, child, parent, kind).outcome == Fail(GenderError)
    ensures AddParentSpec(g, child, parent, kind).outcome == Pass
  {
    AddParentAsWrittenNeverAddsNewParent(g, child, parent, kind);
  }

  /** On success the child is among the parent's children; the only persons
      that can be new are the parent and the child; at most one edge is
      added, and it runs from the parent to the child. */
  lemma AddParentSucceeds(g: Graph, child: Person, parent: Person, kind: Label)
    requires WellFormed(g) && kind != Spouse
    requires AddParentSpec(g, child, parent, kind).outcome.Pass?
    ensures ParentLinked(g, AddParentSpec(g, child, parent, kind).graph, parent.uid, child.uid)
  {
    var s := AddParentSpec(g, child, parent, kind);
    assert s == AttachParent(g, child, parent, kind);
    if parent.uid !in Sources(g, kind) {
      NewParentLinked(g, parent, child);
    } else if child.uid in Targets(g.edges, parent.uid, ParentLabels) {
      ReusedParentLinked(g, parent.uid, child.uid);
    } else {
      KnownParentLinked(g, parent.uid, child);
    }
  }

  /** The branch that registers a new parent. */
  lemma NewParentLinked(g: Graph, parent: Person, child: Person)
    requires WellFormed(g) && AddChildSpec(AddNode(g, parent), parent, child).outcome.Pass?
    ensures ParentLinked(g, AddChildSpec(AddNode(g, parent), parent, child).graph, parent.uid, child.uid)
  {
    AddChildSucceeds(AddNode(g, parent), parent, child);
  }

  /** The branch that links a new child to the stored parent. */
  lemma KnownParentLinked(g: Graph, u: int, child: Person)
    requires WellFormed(g) && u in UidSet(g) && AddChildSpec(g, Registered(g, u), child).outcome.Pass?
    ensures ParentLinked(g, AddChildSpec(g, Registered(g, u), child).graph, u, child.uid)
  {
    AddChildSucceeds(g, Registered(g, u), child);
  }

  /** The branch where the child is already among the stored parent's children. */
  lemma ReusedParentLinked(g: Graph, u: int, c: int)
    requires WellFormed(g) && u in UidSet(g) && c in Targets(g.edges, u, ParentLabels)
    ensures ParentLinked(g, g, u, c)
  {
    var l :| l in ParentLabels && Edge(u, c, l) in g.edges;
    assert c in UidSet(g);
  }

  /** h is g with the parent pu linked to the child cu: still well formed,
      both registered, cu among pu's children, and at most one parent edge
      added, running from pu to cu. */
  ghost predicate ParentLinked(g: Graph, h: Graph, pu: int, cu: int)
  {
    && WellFormed(h)
    && UidSet(h) == UidSet(g) + {pu, cu}
    && cu in Targets(h.edges, pu, ParentLabels)
    && (h.edges == g.edges
        || h.edges == g.edges + [Edge(pu, cu, Father)]
        || h.edges == g.edges + [Edge(pu, cu, Mother)])
  }

  /** A successful `add_child` keeps the graph well formed, registers both
      ends and appends the one edge from parent to child. */
  lemma AddChildSucceeds(g: Graph, parent: Person, child: Person)
    requires WellFormed(g) && AddChildSpec(g, parent, child).outcome.Pass?
    ensures var h := AddChildSpec(g, parent, child).graph;
      && WellFormed(h)
      && UidSet(h) == UidSet(g) + {parent.uid, child.uid}
      && child.uid in Targets(h.edges, parent.uid, ParentLabels)
      && (h.edges == g.edges + [Edge(parent.uid, child.uid, Father)]
          || h.edges == g.edges + [Edge(parent.uid, child.uid, Mother)])
  {
  }

  /** When every registered parent's stored gender fits its role, a
      successful `add_father` makes the parent THE father of the child: one
      edge of that kind is added, and nothing else changes. */
  lemma AddParentUnderAgreeingRoles(g: Graph, child: Person, parent: Person, kind: Label)
    requires WellFormed(g) && RolesAgree(g) && kind != Spouse
    requires AddParentSpec(g, child, parent, kind).outcome.Pass?
    ensures var s := AddParentSpec(g, child, parent, kind);
      && s.graph.edges == g.edges + [Edge(parent.uid, child.uid, kind)]
      && FirstSource(s.graph.edges, child.uid, kind) == Some(parent.uid)
  {
    var s := AddParentSpec(g, child, parent, kind);
    var e := Edge(parent.uid, child.uid, kind);
    if parent.uid in Sources(g, kind) {
      var known := Registered(g, parent.uid);
      StoredParentHasRoleGender(g, parent.uid, kind);
      if child.uid in Targets(g.edges, parent.uid, ParentLabels) {
        AgreeingParentEdgeHasRole(g, parent.uid, child.uid, kind);
        assert false;
      }
      assert s == AddChildSpec(g, known, child);
    } else {
      assert s == AddChildSpec(AddNode(g, parent), parent, child);
    }
    assert s.graph.edges == g.edges + [e];
    FirstSourceAppend(g.edges, e, child.uid, kind);
  }

  /** Under RolesAgree, the stored Person of a registered father is male
      (of a mother, female). */
  lemma StoredParentHasRoleGender(g: Graph, u: int, kind: Label)
    requires WellFormed(g) && RolesAgree(g) && kind != Spouse && u in Sources(g, kind)
    ensures Registered(g, u).gender == RoleGender(kind)
  {
    var d :| d in g.edges && d.kind == kind && d.src == u;
    assert Registered(g, u) in g.nodes;
  }

  /** Under RolesAgree, a parent registered in one role has all its child
      edges in that role. */
  lemma AgreeingParentEdgeHasRole(g: Graph, u: int, c: int, kind: Label)
    requires WellFormed(g) && RolesAgree(g) && kind != Spouse && u in Sources(g, kind)
    requires c in Targets(g.edges, u, ParentLabels)
    ensures Edge(u, c, kind) in g.edges
  {
    StoredParentHasRoleGender(g, u, kind);
    var l :| l in ParentLabels && Edge(u, c, l) in g.edges;
    assert Registered(g, u).gender == RoleGender(l);
  }

  /** Appending a parent edge leaves the other roles and the other parents'
      children alone: after `add_father`, `mothers()`, `spouses()` and every
      other father's children are as before. */
  lemma ParentEdgeChangesNothingElse(g: Graph, e: Edge, other: Label, x: int, labels: set<Label>)
    requires e.kind != Spouse && other != e.kind && x != e.src
    ensures Sources(Graph(g.nodes, g.edges + [e]), other) == Sources(g, other)
    ensures Targets(g.edges + [e], x, labels) == Targets(g.edges, x, labels)
    ensures Sources(Graph(g.nodes, g.edges + [e]), e.kind) == Sources(g, e.kind) + {e.src}
  {
    TargetsAppend(g.edges, e, x, labels);
    var g' := Graph(g.nodes, g.edges + [e]);
    assert forall u :: u in Sources(g', other) ==> u in Sources(g, other) by {
      forall u | u in Sources(g', other) ensures u in Sources(g, other) {
        var d :| d in g'.edges && d.kind == other && d.src == u;
        assert d in g.edges;
      }
    }
  }

  /** `add_father` and `add_mother` store no Person but the parent and the
      child, and only when their uids are new. */
  lemma AddParentStoresOnlyParentAndChild(g: Graph, child: Person, parent: Person, kind: Label)
    requires WellFormed(g) && kind != Spouse
    ensures Extends(g, AddParentSpec(g, child, parent, kind).graph, {parent, child})
  {
    if FirstSource(g.edges, child.uid, kind).None? && child.uid != parent.uid && parent.gender == RoleGender(kind) {
      if parent.uid !in Sources(g, kind) {
        NewParentStoresOnlyParentAndChild(g, child, parent);
      } else if child.uid !in Targets(g.edges, parent.uid, ParentLabels) {
        AddChildStoresOnlyParentAndChild(g, Registered(g, parent.uid), child);
      }
    }
  }

  /** Linking a child to a parent stores at most those two Persons. */
  lemma AddChildStoresOnlyParentAndChild(g: Graph, parent: Person, child: Person)
    ensures Extends(g, AddChildSpec(g, parent, child).graph, {parent, child})
  {
    var g1 := AddNode(g, parent);
    if LabelFor(parent.gender).Some? {
      var g2 := AddNode(g1, child);
      assert AddChildSpec(g, parent, child).graph.nodes == g2.nodes;
    }
  }

  /** A parent not yet registered is stored first, then linked to the child. */
  lemma NewParentStoresOnlyParentAndChild(g: Graph, child: Person, parent: Person)
    ensures Extends(g, AddChildSpec(AddNode(g, parent), parent, child).graph, {parent, child})
  {
    var g1 := AddNode(g, parent);
    AddChildStoresOnlyParentAndChild(g1, parent, child);
  }


  /** The stored gender of a registered parent that agrees with the given
      Person keeps the roles in agreement. */
  lemma AddParentKeepsRolesAgree(g: Graph, child: Person, parent: Person, kind: Label)
    requires WellFormed(g) && RolesAgree(g) && kind != Spouse
    requires parent.uid in UidSet(g) ==> Registered(g, parent.uid).gender == parent.gender
    ensures RolesAgree(AddParentSpec(g, child, parent, kind).graph)
  {
    var s := AddParentSpec(g, child, parent, kind);
    if s.outcome.Pass? {
      assert parent.uid != child.uid && parent.gender == RoleGender(kind);
      AddParentUnderAgreeingRoles(g, child, parent, kind);
      AddParentStoresOnlyParentAndChild(g, child, parent, kind);
      ParentEdgeKeepsRolesAgree(g, s.graph, child, parent, kind);
    }
  }

  lemma ParentEdgeKeepsRolesAgree(g: Graph, h: Graph, child: Person, parent: Person, kind: Label)
    requires WellFormed(g) && RolesAgree(g) && kind != Spouse
    requires h.edges == g.edges + [Edge(parent.uid, child.uid, kind)] && Extends(g, h, {parent, child})
    requires parent.uid != child.uid && parent.gender == RoleGender(kind)
    requires parent.uid in UidSet(g) ==> Registered(g, parent.uid).gender == parent.gender
    ensures RolesAgree(h)
  {
    forall p, d | p in h.nodes && d in h.edges && d.src == p.uid && d.kind != Spouse
      ensures p.gender == RoleGender(d.kind)
    {
      if d in g.edges {
        assert p.uid in UidSet(g);
        assert p in g.nodes;
      } else if parent.uid in UidSet(g) {
        assert p in g.nodes;
        StoredPersonIsRegistered(g, p);
      } else {
        assert p == parent;
      }
    }
  }

  /** One more than the largest registered uid, or 0 when that would be
      smaller (an empty family, or one whose uids are all negative). */
  function FreshUid(nodes: seq<Person>): (r: int)
    ensures forall p :: p in nodes ==> p.uid < r
    ensures r == 0 || exists p :: p in nodes && r == p.uid + 1
    ensures r >= 0
  {
    if nodes == [] then 0
    else
      var rest := FreshUid(nodes[1..]);
      if nodes[0].uid + 1 > rest then nodes[0].uid + 1 else rest
  }

  /** The stand-in for an unknown parent: a new uid, no surname, and the next
      anonymous name as its only given name. */
  function Placeholder(g: Graph, gender: Gender): (p: Person)
    ensures p.uid !in UidSet(g)
    ensures Name(p) == NewAnonymousName(g) && p.gender == gender
  {
    Person(FreshUid(g.nodes), "", [NewAnonymousName(g)], gender, if gender == Male then "male" else "female", None, [])
  }

  /** A person without a parent of this kind accepts a placeholder: the
      checks pass and the placeholder is linked as that parent. */
  lemma PlaceholderParentIsLinked(g: Graph, person: Person, kind: Label)
    requires WellFormed(g) && kind != Spouse
    requires person.uid in UidSet(g) && FirstSource(g.edges, person.uid, kind).None?
    ensures var p := Placeholder(g, RoleGender(kind));
      AddParentSpec(g, person, p, kind) == Step(Pass, AddEdge(g, p, person, kind))
  {
  }

  /** The parent step of `add_full_sibling`: a person without a parent of
      this kind gets a placeholder one through `add_father`/`add_mother`;
      any other person is left alone. The other kind of parent is kept. */
  function EnsureParent(g: Graph, person: Person, kind: Label): (r: Graph)
    requires kind != Spouse
    ensures FirstSource(r.edges, person.uid, kind).Some?
    ensures FirstSource(g.edges, person.uid, kind).Some? ==> r == g
    ensures forall other :: other != kind ==>
      FirstSource(r.edges, person.uid, other) == FirstSource(g.edges, person.uid, other)
    ensures UidSet(g) <= UidSet(r) && (WellFormed(g) ==> WellFormed(r))
  {
    if FirstSource(g.edges, person.uid, kind).Some? then g
    else
      var p := Placeholder(g, RoleGender(kind));
      var e := Edge(p.uid, person.uid, kind);
      NewParentEdge(g.edges, e, person.uid);
      AddEdge(g, p, person, kind)
  }

  /** A new edge into a person with no parent of its kind makes its source
      that parent, and leaves the person's other kinds of parent alone. */
  lemma NewParentEdge(edges: seq<Edge>, e: Edge, dst: int)
    requires e.dst == dst && FirstSource(edges, dst, e.kind).None?
    ensures FirstSource(edges + [e], dst, e.kind) == Some(e.src)
    ensures forall other :: other != e.kind ==> FirstSource(edges + [e], dst, other) == FirstSource(edges, dst, other)
  {
    FirstSourceAppend(edges, e, dst, Father);
    FirstSourceAppend(edges, e, dst, Mother);
    FirstSourceAppend(edges, e, dst, Spouse);
  }

  /** `add_full_sibling(person, sibling)`: PersonExistsError for an
      unregistered person. Otherwise register the sibling; give the person a
      placeholder father if they have none, then a placeholder mother if they
      have none; finally add a father edge and a mother edge from the
      person's parents to the sibling. */
  function AddFullSiblingSpec(g: Graph, person: Person, sibling: Person): (s: Step)
    requires WellFormed(g)
    ensures s.outcome.Fail? <==> person.uid !in UidSet(g)
    ensures s.outcome.Fail? ==> s == Step(Fail(PersonExistsError), g)
  {
    if person.uid !in UidSet(g) then Step(Fail(PersonExistsError), g)
    else
      var g3 := EnsureParent(EnsureParent(AddNode(g, sibling), person, Father), person, Mother);
      var f := FirstSource(g3.edges, person.uid, Father).value;
      var m := FirstSource(g3.edges, person.uid, Mother).value;
      Step(Pass, Link(Link(g3, f, sibling.uid, Father), m, sibling.uid, Mother))
  }


  /** Linking a sibling to the parents a person already has keeps those
      parents and makes the sibling a child of both. */
  lemma LinkSiblingToParents(g: Graph, person: Person, sibling: int)
    requires WellFormed(g) && sibling in UidSet(g)
    requires FatherOf(g, person).Some? && MotherOf(g, person).Some?
    ensures var f, m := FatherOf(g, person).value, MotherOf(g, person).value;
      var h := Link(Link(g, f, sibling, Father), m, sibling, Mother);
      && WellFormed(h)
      && h.edges == g.edges + [Edge(f, sibling, Father), Edge(m, sibling, Mother)]
      && FatherOf(h, person) == FatherOf(g, person) && MotherOf(h, person) == MotherOf(g, person)
      && sibling in Targets(h.edges, f, ParentLabels) && sibling in Targets(h.edges, m, ParentLabels)
  {
    var f, m := FatherOf(g, person).value, MotherOf(g, person).value;
    var g4 := Link(g, f, sibling, Father);
    var h := Link(g4, m, sibling, Mother);
    assert Edge(f, person.uid, Father) in g.edges && Edge(m, person.uid, Mother) in g.edges;
    assert f in UidSet(g) && m in UidSet(g);
    assert h.edges == g.edges + [Edge(f, sibling, Father), Edge(m, sibling, Mother)];
    FirstSourceAppend(g.edges, Edge(f, sibling, Father), person.uid, Father);
    FirstSourceAppend(g.edges, Edge(f, sibling, Father), person.uid, Mother);
    FirstSourceAppend(g4.edges, Edge(m, sibling, Mother), person.uid, Father);
    FirstSourceAppend(g4.edges, Edge(m, sibling, Mother), person.uid, Mother);
    assert h.edges[|g.edges|] == Edge(f, sibling, Father);
    assert h.edges[|g.edges| + 1] == Edge(m, sibling, Mother);
  }

  /** After `add_full_sibling` the person has a father and a mother, and the
      sibling is a child of both. */
  lemma FullSiblingLinksBothParents(g: Graph, person: Person, sibling: Person)
    requires WellFormed(g) && person.uid in UidSet(g)
    ensures var s := AddFullSiblingSpec(g, person, sibling);
      && s.outcome.Pass? && WellFormed(s.graph)
      && FatherOf(s.graph, person).Some? && MotherOf(s.graph, person).Some?
      && sibling.uid in Targets(s.graph.edges, FatherOf(s.graph, person).value, ParentLabels)
      && sibling.uid in Targets(s.graph.edges, MotherOf(s.graph, person).value, ParentLabels)
  {
    var g3 := EnsureParent(EnsureParent(AddNode(g, sibling), person, Father), person, Mother);
    LinkSiblingToParents(g3, person, sibling.uid);
  }

  /** When the person already has both parents, they are reused: the only
      new person is the sibling, and exactly two edges are added, from those
      parents. */
  lemma FullSiblingReusesParents(g: Graph, person: Person, sibling: Person)
    requires WellFormed(g) && person.uid in UidSet(g)
    requires FatherOf(g, person).Some? && MotherOf(g, person).Some?
    ensures var s := AddFullSiblingSpec(g, person, sibling);
      && s.outcome.Pass?
      && UidSet(s.graph) == UidSet(g) + {sibling.uid}
      && s.graph.edges == g.edges + [Edge(FatherOf(g, person).value, sibling.uid, Father),
                                     Edge(MotherOf(g, person).value, sibling.uid, Mother)]
      && FatherOf(s.graph, person) == FatherOf(g, person)
      && MotherOf(s.graph, person) == MotherOf(g, person)
  {
    var g1 := AddNode(g, sibling);
    assert EnsureParent(EnsureParent(g1, person, Father), person, Mother) == g1;
    LinkSiblingToParents(g1, person, sibling.uid);
  }

  /** A missing parent is synthesised as a fresh person; the father's name is
      the next anonymous name and the mother's, generated after him, is one
      mark longer, so the two placeholders never share a name. */
  lemma FullSiblingSynthesisesFreshParents(g: Graph, person: Person, sibling: Person)
    requires WellFormed(g) && person.uid in UidSet(g)
    requires FatherOf(g, person).None? && MotherOf(g, person).None?
    ensures var g1 := AddNode(g, sibling);
      var dad := Placeholder(g1, Male);
      var g2 := AddEdge(g1, dad, person, Father);
      var mom := Placeholder(g2, Female);
      && dad.uid !in UidSet(g1) && mom.uid !in UidSet(g2) && dad.uid != mom.uid
      && Name(mom) == Name(dad) + "?"
      && FatherOf(AddFullSiblingSpec(g, person, sibling).graph, person) == Some(dad.uid)
      && MotherOf(AddFullSiblingSpec(g, person, sibling).graph, person) == Some(mom.uid)
  {
    var g1 := AddNode(g, sibling);
    var dad := Placeholder(g1, Male);
    var g2 := AddEdge(g1, dad, person, Father);
    assert g2 == EnsureParent(g1, person, Father);
    NewAnonymousNameAfterInsert(g1, dad);
    assert Names(g2) == Names(AddNode(g1, dad));
    var mom := Placeholder(g2, Female);
    FirstSourceAppend(g1.edges, Edge(dad.uid, person.uid, Father), person.uid, Father);
    FirstSourceAppend(g1.edges, Edge(dad.uid, person.uid, Father), person.uid, Mother);
    var g3 := AddEdge(g2, mom, person, Mother);
    assert g3 == EnsureParent(g2, person, Mother);
    FirstSourceAppend(g2.edges, Edge(mom.uid, person.uid, Mother), person.uid, Mother);
    FirstSourceAppend(g2.edges, Edge(mom.uid, person.uid, Mother), person.uid, Father);
    LinkSiblingToParents(g3, person, sibling.uid);
  }

  /** `add_full_sibling` as written: the stand-in parent is built with a
      `name` keyword the Person constructor does not take and without the
      uid it requires, so that call raises TypeError. A person missing either
      parent therefore gets no sibling, only the sibling's registration. */
  function AddFullSiblingAsWritten(g: Graph, person: Person, sibling: Person): (s: Step)
    requires WellFormed(g)
    ensures person.uid !in UidSet(g) ==> s == Step(Fail(PersonExistsError), g)
    ensures person.uid in UidSet(g) && (FatherOf(g, person).None? || MotherOf(g, person).None?)
      ==> s == Step(Fail(TypeError), AddNode(g, sibling))
  {
    if person.uid !in UidSet(g) then Step(Fail(PersonExistsError), g)
    else
      var g1 := AddNode(g, sibling);
      var f := FirstSource(g1.edges, person.uid, Father);
      var m := FirstSource(g1.edges, person.uid, Mother);
      if f.None? || m.None? then Step(Fail(TypeError), g1)
      else Step(Pass, Link(Link(g1, f.value, sibling.uid, Father), m.value, sibling.uid, Mother))
  }

  /** The two agree whenever the person already has both parents, and the
      code as written fails exactly where the placeholders were meant to be
      made: a registered person missing a parent, for whom the intended
      operation succeeds. */
  lemma FullSiblingAsWrittenFailsWithoutParents(g: Graph, person: Person, sibling: Person)
    requires WellFormed(g) && person.uid in UidSet(g)
    ensures FatherOf(g, person).Some? && MotherOf(g, person).Some? ==>
      AddFullSiblingAsWritten(g, person, sibling) == AddFullSiblingSpec(g, person, sibling)
    ensures FatherOf(g, person).None? || MotherOf(g, person).None? ==>
      AddFullSiblingAsWritten(g, person, sibling).outcome == Fail(TypeError)
      && AddFullSiblingSpec(g, person, sibling).outcome == Pass
  {
    FullSiblingLinksBothParents(g, person, sibling);
    if FatherOf(g, person).Some? && MotherOf(g, person).Some? {
      var g1 := AddNode(g, sibling);
      assert EnsureParent(EnsureParent(g1, person, Father), person, Mother) == g1;
    }
  }
}
