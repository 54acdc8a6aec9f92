/** The `Family` class: a labelled directed multigraph of Persons plus a
    notes dictionary keyed by person. Each checked mutation is proved to
    leave exactly the outcome and graph its specification function in
    `Rules` describes; the notes dictionary is touched only by the note
    operations. */
module Families {
  import opened Outcomes
  import opened Persons
  import opened FamilyGraph
  import opened Rules
  import opened CoupleRules

  /** The position of the first occurrence of x. */
  function FirstIndex(s: seq<string>, x: string): (i: nat)
    requires x in s
    ensures i < |s| && s[i] == x && x !in s[..i]
  {
    if s[0] == x then 0
    else
      var j := FirstIndex(s[1..], x);
      assert s[..j + 1] == [s[0]] + s[1..][..j];
      j + 1
  }

  /** `list.remove(x)`: the list without the first occurrence of x. */
  function RemoveFirst(s: seq<string>, x: string): (r: seq<string>)
    requires x in s
    ensures |r| == |s| - 1
    ensures multiset(r) == multiset(s) - multiset{x}
    ensures exists i :: 0 <= i < |s| && s[i] == x && x !in s[..i] && r == s[..i] + s[i + 1..]
  {
    var i := FirstIndex(s, x);
    assert s == s[..i] + [x] + s[i + 1..];
    s[..i] + s[i + 1..]
  }

  /** Deleting a note just added gives back the old notes, counted as a
      multiset; it gives back the very list when the note was new (the note
      removed is the first equal one, not necessarily the one appended). */
  lemma DeleteUndoesAddAsMultiset(s: seq<string>, x: string)
    ensures multiset(RemoveFirst(s + [x], x)) == multiset(s)
    ensures x !in s ==> RemoveFirst(s + [x], x) == s
  {
    if x !in s {
      var i := FirstIndex(s + [x], x);
      assert (s + [x])[..|s|] == s;
      assert i == |s|;
    }
  }

  /** `people_with_notes()`: the stored persons that have an entry in the
      notes dictionary, in node order. */
  function PeopleWithNotes(nodes: seq<Person>, notes: map<int, seq<string>>): (r: seq<Person>)
    ensures forall p :: p in r <==> p in nodes && p.uid in notes
    ensures |r| <= |nodes|
  {
    if nodes == [] then []
    else (if nodes[0].uid in notes then [nodes[0]] else []) + PeopleWithNotes(nodes[1..], notes)
  }

  /** The notes after `add_note`: the note appended to the person's list,
      the list created when the person had none. */
  function NotesAfterAdd(notes: map<int, seq<string>>, uid: int, note: string): (r: map<int, seq<string>>)
    ensures uid in r && |r[uid]| >= 1 && r[uid][|r[uid]| - 1] == note
    ensures uid in notes ==> r[uid][..|r[uid]| - 1] == notes[uid]
    ensures uid !in notes ==> r[uid] == [note]
    ensures forall u :: u != uid ==> (u in r <==> u in notes) && (u in notes ==> r[u] == notes[u])
  {
    notes[uid := if uid in notes then notes[uid] + [note] else [note]]
  }

  /** The notes after `delete_note`: the first equal note removed, and
      nothing changed when the person has no notes or not that one. */
  function NotesAfterDelete(notes: map<int, seq<string>>, uid: int, note: string): (r: map<int, seq<string>>)
    ensures uid in notes && note in notes[uid] ==>
      uid in r && multiset(r[uid]) == multiset(notes[uid]) - multiset{note}
    ensures uid in notes && note in notes[uid] ==>
      exists i :: 0 <= i < |notes[uid]| && notes[uid][i] == note && note !in notes[uid][..i]
        && r[uid] == notes[uid][..i] + notes[uid][i + 1..]
    ensures !(uid in notes && note in notes[uid]) ==> r == notes
    ensures r.Keys == notes.Keys
    ensures forall u :: u != uid && u in notes ==> r[u] == notes[u]
  {
    if uid in notes && note in notes[uid] then notes[uid := RemoveFirst(notes[uid], note)] else notes
  }

  class Family {
    var graph: Graph
    var notes: map<int, seq<string>>

    ghost predicate Valid()
      reads this
    {
      WellFormed(graph)
    }

    /** `Family(persons)`: the persons as nodes, no edges, no notes. */
    constructor (persons: seq<Person>)
      ensures Valid()
      ensures graph == AddNodesFrom(Graph([], []), persons) && notes == map[]
    {
      var g := Graph([], []);
      var i := 0;
      while i < |persons|
        invariant 0 <= i <= |persons|
        invariant AddNodesFrom(g, persons[i..]) == AddNodesFrom(Graph([], []), persons)
        invariant WellFormed(g)
      {
        assert persons[i..][1..] == persons[i + 1..];
        g := AddNode(g, persons[i]);
        i := i + 1;
      }
      assert persons[i..] == [];
      graph := g;
      notes := map[];
    }

    /** `add_person(person)`. */
    method AddPerson(person: Person)
      requires Valid()
      modifies this
      ensures Valid()
      ensures graph == AddNode(old(graph), person) && notes == old(notes)
    {
      graph := AddNode(graph, person);
    }

    /** `uid_to_person(uid)`: the first stored Person with that uid, or
      TypeError. */
    method UidToPerson(uid: int) returns (r: Result<Person>)
      ensures r == NodeWithUid(graph, uid)
    {
      var i := 0;
      while i < |graph.nodes|
        invariant 0 <= i <= |graph.nodes|
        invariant FirstWithUid(graph.nodes, uid) == FirstWithUid(graph.nodes[i..], uid)
      {
        if graph.nodes[i].uid == uid {
          return Ok(graph.nodes[i]);
        }
        assert graph.nodes[i..][1..] == graph.nodes[i + 1..];
        i := i + 1;
      }
      return Err(TypeError);
    }

    /** `add_note(person, note)`. */
    method AddNote(person: Person, note: string)
      modifies this
      ensures notes == NotesAfterAdd(old(notes), person.uid, note) && graph == old(graph)
    {
      if person.uid !in notes {
        notes := notes[person.uid := [note]];
      } else {
        notes := notes[person.uid := notes[person.uid] + [note]];
      }
    }

    /** `delete_note(person, note)`. */
    method DeleteNote(person: Person, note: string)
      modifies this
      ensures notes == NotesAfterDelete(old(notes), person.uid, note) && graph == old(graph)
    {
      if person.uid in notes {
        if note in notes[person.uid] {
          notes := notes[person.uid := RemoveFirst(notes[person.uid], note)];
        }
      }
    }

    /** `add_child(parent, child)`. */
    method AddChild(parent: Person, child: Person) returns (r: Outcome)
      requires Valid()
      modifies this
      ensures Valid()
      ensures Step(r, graph) == AddChildSpec(old(graph), parent, child) && notes == old(notes)
    {
      graph := AddNode(graph, parent);
      var kind: Label;
      if parent.gender == Male {
        kind := Father;
      } else if parent.gender == Female {
        kind := Mother;
      } else {
        return Fail(GenderError);
      }
      graph := AddEdge(graph, parent, child, kind);
      r := Pass;
    }

    /** `add_children(parent, children)`: stops at the first exception. */
    method AddChildren(parent: Person, children: seq<Person>) returns (r: Outcome)
      requires Valid()
      modifies this
      ensures Valid()
      ensures Step(r, graph) == AddChildrenSpec(old(graph), parent, children) && notes == old(notes)
    {
      var i := 0;
      while i < |children|
        invariant 0 <= i <= |children| && Valid() && notes == old(notes)
        invariant AddChildrenSpec(graph, parent, children[i..]) == AddChildrenSpec(old(graph), parent, children)
      {
        assert children[i..][1..] == children[i + 1..];
        r := AddChild(parent, children[i]);
        if r.Fail? {
          return;
        }
        i := i + 1;
      }
      r := Pass;
    }

    /** `add_spouse(person, spouse)`. */
    method AddSpouse(person: Person, spouse: Person)
      requires Valid()
      modifies this
      ensures Valid()
      ensures graph == AddEdge(old(graph), person, spouse, Spouse) && notes == old(notes)
    {
      graph := AddNode(graph, person);
      graph := AddEdge(graph, person, spouse, Spouse);
    }

    /** `add_spouses(person, spouses)`. */
    method AddSpouses(person: Person, spouses: seq<Person>)
      requires Valid()
      modifies this
      ensures Valid()
      ensures graph == AddSpousesSpec(old(graph), person, spouses) && notes == old(notes)
    {
      var i := 0;
      while i < |spouses|
        invariant 0 <= i <= |spouses| && Valid() && notes == old(notes)
        invariant AddSpousesSpec(graph, person, spouses[i..]) == AddSpousesSpec(old(graph), person, spouses)
      {
        assert spouses[i..][1..] == spouses[i + 1..];
        AddSpouse(person, spouses[i]);
        i := i + 1;
      }
    }

    /** The shared body of `add_father` (kind Father) and `add_mother` (kind
        Mother): the three checks, then the walk over the registered parents
        of that kind looking for this one. */
    method AddParent(child: Person, parent: Person, kind: Label) returns (r: Outcome)
      requires Valid() && kind != Spouse
      modifies this
      ensures Valid()
      ensures Step(r, graph) == AddParentSpec(old(graph), child, parent, kind) && notes == old(notes)
    {
      if FirstSource(graph.edges, child.uid, kind).Some? {
        return Fail(GenealogicalError);
      }
      if child.uid == parent.uid {
        return Fail(GenealogicalError);
      }
      if parent.gender != RoleGender(kind) {
        return Fail(GenderError);
      }
      r := Attach(child, parent, kind);
    }

    /** After the checks: walk the registered parents of this kind looking
        for this one, reusing its stored Person, else register the parent. */
    method Attach(child: Person, parent: Person, kind: Label) returns (r: Outcome)
      requires Valid() && kind != Spouse
      modifies this
      ensures Valid()
      ensures Step(r, graph) == AttachParent(old(graph), child, parent, kind) && notes == old(notes)
    {
      ghost var g0 := graph;
      var found := false;
      var registered := Sources(graph, kind);
      var todo := registered;
      r := Pass;
      while todo != {}
        invariant todo <= registered == Sources(g0, kind)
        invariant found <==> parent.uid in registered - todo
        invariant notes == old(notes)
        invariant !found ==> graph == g0 && r == Pass
        invariant found ==> Step(r, graph) == AttachParent(g0, child, parent, kind)
        decreases todo
      {
        var current :| current in todo;
        todo := todo - {current};
        if current == parent.uid {
          found := true;
          r := AttachToRegistered(child, parent, kind);
          if r.Fail? {
            return;
          }
        }
      }
      if !found {
        r := AttachNew(child, parent, kind);
      }
    }

    /** The loop body that finds the parent among the registered ones: add
        the child to the stored Person unless it is already among that
        parent's children. */
    method AttachToRegistered(child: Person, parent: Person, kind: Label) returns (r: Outcome)
      requires Valid() && kind != Spouse && parent.uid in Sources(graph, kind)
      modifies this
      ensures Valid() && notes == old(notes)
      ensures Step(r, graph) == AttachParent(old(graph), child, parent, kind)
    {
      AttachParentToRegistered(graph, child, parent, kind);
      if child.uid !in Targets(graph.edges, parent.uid, ParentLabels) {
        r := AddChild(Registered(graph, parent.uid), child);
      } else {
        r := Pass;
      }
    }

    /** After the loop, when the parent was not found: register the
        parent, then add the child. */
    method AttachNew(child: Person, parent: Person, kind: Label) returns (r: Outcome)
      requires Valid() && kind != Spouse && parent.uid !in Sources(graph, kind)
      modifies this
      ensures Valid() && notes == old(notes)
      ensures Step(r, graph) == AttachParent(old(graph), child, parent, kind)
    {
      AddPerson(parent);
      r := AddChild(parent, child);
    }

    /** `add_father(child, father)`. */
    method AddFather(child: Person, father: Person) returns (r: Outcome)
      requires Valid()
      modifies this
      ensures Valid()
      ensures Step(r, graph) == AddParentSpec(old(graph), child, father, Father) && notes == old(notes)
    {
      r := AddParent(child, father, Father);
    }

    /** `add_mother(child, mother)`. */
    method AddMother(child: Person, mother: Person) returns (r: Outcome)
      requires Valid()
      modifies this
      ensures Valid()
      ensures Step(r, graph) == AddParentSpec(old(graph), child, mother, Mother) && notes == old(notes)
    {
      r := AddParent(child, mother, Mother);
    }

    /** `add_full_sibling(person, sibling)`. */
    method AddFullSibling(person: Person, sibling: Person) returns (r: Outcome)
      requires Valid()
      modifies this
      ensures Valid()
      ensures Step(r, graph) == AddFullSiblingSpec(old(graph), person, sibling) && notes == old(notes)
    {
      if person.uid !in UidSet(graph) {
        return Fail(PersonExistsError);
      }
      graph := AddNode(graph, sibling);
      EnsureParentOf(person, Father);
      EnsureParentOf(person, Mother);
      var father := FirstSource(graph.edges, person.uid, Father).value;
      var mother := FirstSource(graph.edges, person.uid, Mother).value;
      graph := Link(graph, father, sibling.uid, Father);
      graph := Link(graph, mother, sibling.uid, Mother);
      r := Pass;
    }

    /** One parent step of `add_full_sibling`: a person without a parent of
        this kind is given a placeholder one through `add_father` or
        `add_mother`. */
    method EnsureParentOf(person: Person, kind: Label)
      requires Valid() && kind != Spouse && person.uid in UidSet(graph)
      modifies this
      ensures Valid() && notes == old(notes)
      ensures graph == EnsureParent(old(graph), person, kind)
    {
      if FirstSource(graph.edges, person.uid, kind).None? {
        var p := Placeholder(graph, RoleGender(kind));
        PlaceholderParentIsLinked(graph, person, kind);
        var r := AddParent(person, p, kind);
      }
    }

    /** `couples()`, with each pair ordered by uid: first the pairs found
        through every father's children, then those found through every
        spouse list; a pair already collected is not added again. */
    method Couples() returns (r: seq<(int, int)>)
      ensures forall q :: q in r <==> q in CoupleSet(graph)
      ensures Distinct(r) && AllOrdered(r)
    {
      r := CollectChildCouples();
      r := CollectSpouseCouples(r);
    }

    /** The first loop of `couples()`: over every father, over his children. */
    method CollectChildCouples() returns (r: seq<(int, int)>)
      ensures forall q :: q in r <==> q in ChildCouplesFrom(graph, Sources(graph, Father))
      ensures Distinct(r) && AllOrdered(r)
    {
      r := [];
      var fathers := Sources(graph, Father);
      var done: set<int> := {};
      while done != fathers
        invariant done <= fathers
        invariant forall q :: q in r <==> q in ChildCouplesFrom(graph, done)
        invariant Distinct(r) && AllOrdered(r)
        decreases |fathers - done|
      {
        var f :| f in fathers - done;
        r := CollectMotherPairs(f, Targets(graph.edges, f, ParentLabels), r);
        ChildCouplesStep(graph, done, f);
        done := done + {f};
      }
    }

    /** The second loop of `couples()`: over every person with a spouse
        edge, over their spouse list, appending to the pairs found so far. */
    method CollectSpouseCouples(r0: seq<(int, int)>) returns (r: seq<(int, int)>)
      requires Distinct(r0) && AllOrdered(r0)
      ensures forall q :: q in r <==> q in r0 || q in SpouseCouplesFrom(graph, Sources(graph, Spouse))
      ensures Distinct(r) && AllOrdered(r)
    {
      r := r0;
      var spouses := Sources(graph, Spouse);
      var seen: set<int> := {};
      while seen != spouses
        invariant seen <= spouses
        invariant forall q :: q in r <==> q in r0 || q in SpouseCouplesFrom(graph, seen)
        invariant Distinct(r) && AllOrdered(r)
        decreases |spouses - seen|
      {
        var s :| s in spouses - seen;
        r := CollectSpousePairs(s, Targets(graph.edges, s, SpouseLabels), r);
        SpouseCouplesStep(graph, seen, s);
        seen := seen + {s};
      }
    }

    /** The inner loop over one father's children: appends the pair of the
        father and each child's mother, when there is one and it is new. */
    method CollectMotherPairs(f: int, children: seq<int>, r0: seq<(int, int)>) returns (r: seq<(int, int)>)
      requires Distinct(r0) && AllOrdered(r0)
      ensures Distinct(r) && AllOrdered(r)
      ensures forall q :: q in r <==> q in r0 || q in MotherPairs(graph, f, children)
    {
      r := r0;
      var i := 0;
      while i < |children|
        invariant 0 <= i <= |children|
        invariant forall q :: q in r <==> q in r0 || q in MotherPairs(graph, f, children[..i])
        invariant Distinct(r) && AllOrdered(r)
      {
        MotherPairsStep(graph, f, children, i);
        var mother := FirstSource(graph.edges, children[i], Mother);
        if mother.Some? {
          var pair := Ordered(f, mother.value);
          if pair !in r {
            r := r + [pair];
          }
        }
        i := i + 1;
      }
      assert children[..i] == children;
    }
  }

  /** Pairs listed once each. */
  predicate Distinct(r: seq<(int, int)>)
  {
    forall i, j :: 0 <= i < j < |r| ==> r[i] != r[j]
  }

  /** Every pair lower uid first. */
  predicate AllOrdered(r: seq<(int, int)>)
  {
    forall i :: 0 <= i < |r| ==> r[i].0 <= r[i].1
  }

  /** The inner loop over one person's spouse list: appends the pair of the
      person and each spouse, when it is new. */
  method CollectSpousePairs(s: int, others: seq<int>, r0: seq<(int, int)>) returns (r: seq<(int, int)>)
    requires Distinct(r0) && AllOrdered(r0)
    ensures Distinct(r) && AllOrdered(r)
    ensures forall q :: q in r <==> q in r0 || q in SpousePairs(s, others)
  {
    r := r0;
    var i := 0;
    while i < |others|
      invariant 0 <= i <= |others|
      invariant forall q :: q in r <==> q in r0 || q in SpousePairs(s, others[..i])
      invariant Distinct(r) && AllOrdered(r)
    {
      SpousePairsStep(s, others, i);
      var pair := Ordered(s, others[i]);
      if pair !in r {
        r := r + [pair];
      }
      i := i + 1;
    }
    assert others[..i] == others;
  }
}
