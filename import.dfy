/** The record-replay half of `toml_to_family`: from an already parsed
    document, register the people, then replay the father, mother and
    spouse pairs through `add_children` and `add_spouses`. */
module TomlImport {
  import opened Outcomes
  import opened Persons
  import opened FamilyGraph
  import opened Rules
  import opened Families

  /** A parsed document: the `people` records and the [parent uid, child
      uid] and [person uid, spouse uid] pairs (a missing table is empty). */
  datatype Document = Document(
    people: seq<PersonRecord>,
    fatherPairs: seq<(int, int)>,
    motherPairs: seq<(int, int)>,
    spousePairs: seq<(int, int)>)

  /** The first uid of every pair, repeats kept: the order of the replay. */
  function FirstUids(pairs: seq<(int, int)>): (r: seq<int>)
    ensures |r| == |pairs| && forall i :: 0 <= i < |r| ==> r[i] == pairs[i].0
  {
    seq(|pairs|, i requires 0 <= i < |pairs| => pairs[i].0)
  }

  /** The people loop: a record without a uid is skipped, so is a record
      whose uid is already registered; any other record becomes a Person
      (its constructor may raise TypeError, which ends the import). */
  function ImportPeople(g: Graph, records: seq<PersonRecord>): (r: Result<Graph>)
    ensures r.Err? ==> r.error == TypeError
    ensures r.Ok? ==> r.value.edges == g.edges && UidSet(g) <= UidSet(r.value)
    ensures r.Ok? && WellFormed(g) ==> WellFormed(r.value)
    decreases |records|
  {
    if records == [] then Ok(g)
    else if records[0].uid.None? || records[0].uid.value in UidSet(g) then ImportPeople(g, records[1..])
    else
      match FromDict(records[0])
      case Err(e) => Err(e)
      case Ok(p) => ImportPeople(AddNode(g, p), records[1..])
  }

  /** `[uid_to_person(pair[1]) for pair in pairs if pair[0] == u]`: the
      registered partners of u, in pair order; TypeError for an unknown one. */
  function PartnersOf(g: Graph, pairs: seq<(int, int)>, u: int): (r: Result<seq<Person>>)
    ensures r.Err? <==> exists i :: 0 <= i < |pairs| && pairs[i].0 == u && pairs[i].1 !in UidSet(g)
    ensures r.Err? ==> r.error == TypeError
    ensures r.Ok? ==> forall i :: 0 <= i < |pairs| && pairs[i].0 == u ==>
      exists p :: p in r.value && p.uid == pairs[i].1
    decreases |pairs|
  {
    if pairs == [] then Ok([])
    else
      var rest := PartnersOf(g, pairs[1..], u);
      if pairs[0].0 != u then
        assert forall i :: 1 <= i < |pairs| ==> pairs[i] == pairs[1..][i - 1];
        rest
      else
        match NodeWithUid(g, pairs[0].1)
        case Err(_) => Err(TypeError)
        case Ok(p) =>
          assert forall i :: 1 <= i < |pairs| ==> pairs[i] == pairs[1..][i - 1];
          if rest.Err? then rest else Ok([p] + rest.value)
  }

  /** The father or mother loop: for each first uid in turn, look the
      parent up (an unknown one reaches an `except` handler that names an
      undefined variable: NameError), collect the children its pairs name,
      and `add_children`; the label comes from the parent's gender. */
  function ReplayParents(g: Graph, todo: seq<int>, pairs: seq<(int, int)>): (r: Result<Graph>)
    ensures r.Err? ==> r.error == NameError || r.error == TypeError || r.error == GenderError
    ensures r.Ok? && WellFormed(g) ==> WellFormed(r.value)
    decreases |todo|
  {
    if todo == [] then Ok(g)
    else
      match NodeWithUid(g, todo[0])
      case Err(_) => Err(NameError)
      case Ok(parent) =>
        match PartnersOf(g, pairs, todo[0])
        case Err(e) => Err(e)
        case Ok(children) =>
          var s := AddChildrenSpec(g, parent, children);
          if s.outcome.Fail? then Err(s.outcome.error) else ReplayParents(s.graph, todo[1..], pairs)
  }

  /** The spouse loop: the same, through `add_spouses`, which never raises. */
  function ReplaySpouses(g: Graph, todo: seq<int>, pairs: seq<(int, int)>): (r: Result<Graph>)
    ensures r.Err? ==> r.error == NameError || r.error == TypeError
    ensures r.Ok? && WellFormed(g) ==> WellFormed(r.value)
    decreases |todo|
  {
    if todo == [] then Ok(g)
    else
      match NodeWithUid(g, todo[0])
      case Err(_) => Err(NameError)
      case Ok(person) =>
        match PartnersOf(g, pairs, todo[0])
        case Err(e) => Err(e)
        case Ok(spouses) => ReplaySpouses(AddSpousesSpec(g, person, spouses), todo[1..], pairs)
  }

  /** The whole replay, phase after phase; the first exception ends it. */
  function ImportSpec(doc: Document): (r: Result<Graph>)
    ensures r.Err? ==> r.error == NameError || r.error == TypeError || r.error == GenderError
    ensures r.Ok? ==> WellFormed(r.value)
  {
    assert WellFormed(Graph([], []));
    var r1 := ImportPeople(Graph([], []), doc.people);
    if r1.Err? then Err(r1.error)
    else
      var r2 := ReplayParents(r1.value, FirstUids(doc.fatherPairs), doc.fatherPairs);
      if r2.Err? then Err(r2.error)
      else
        var r3 := ReplayParents(r2.value, FirstUids(doc.motherPairs), doc.motherPairs);
        if r3.Err? then Err(r3.error)
        else ReplaySpouses(r3.value, FirstUids(doc.spousePairs), doc.spousePairs)
  }

  /** `toml_to_family` after the file is parsed. */
  method Import(doc: Document) returns (r: Result<Family>)
    ensures r.Ok? <==> ImportSpec(doc).Ok?
    ensures r.Err? ==> r.error == ImportSpec(doc).error
    ensures r.Ok? ==> fresh(r.value) && r.value.Valid() && r.value.graph == ImportSpec(doc).value
    ensures r.Ok? ==> r.value.notes == map[]
  {
    var family := new Family([]);
    assert family.graph == Graph([], []);
    var o := AddPeople(family, doc.people);
    if o.Fail? {
      return Err(o.error);
    }
    o := ReplayParentPairs(family, doc.fatherPairs);
    if o.Fail? {
      return Err(o.error);
    }
    o := ReplayParentPairs(family, doc.motherPairs);
    if o.Fail? {
      return Err(o.error);
    }
    o := ReplaySpousePairs(family, doc.spousePairs);
    if o.Fail? {
      return Err(o.error);
    }
    return Ok(family);
  }

  /** The people loop, on a family. */
  method AddPeople(family: Family, records: seq<PersonRecord>) returns (o: Outcome)
    requires family.Valid()
    modifies family
    ensures family.Valid() && family.notes == old(family.notes)
    ensures o.Pass? <==> ImportPeople(old(family.graph), records).Ok?
    ensures o.Fail? ==> o.error == ImportPeople(old(family.graph), records).error
    ensures o.Pass? ==> family.graph == ImportPeople(old(family.graph), records).value
  {
    var i := 0;
    while i < |records|
      invariant 0 <= i <= |records| && family.Valid() && family.notes == old(family.notes)
      invariant ImportPeople(family.graph, records[i..]) == ImportPeople(old(family.graph), records)
    {
      assert records[i..][1..] == records[i + 1..];
      var rec := records[i];
      if rec.uid.Some? && rec.uid.value !in Uids(family.graph) {
        assert rec.uid.value !in UidSet(family.graph);
        var p := FromDict(rec);
        if p.Err? {
          return Fail(p.error);
        }
        family.AddPerson(p.value);
      } else if rec.uid.Some? {
        var k :| 0 <= k < |family.graph.nodes| && Uids(family.graph)[k] == rec.uid.value;
        assert family.graph.nodes[k] in family.graph.nodes;
      }
      i := i + 1;
    }
    return Pass;
  }

  /** The partner list comprehension, as a loop over the pairs. */
  method Partners(family: Family, pairs: seq<(int, int)>, u: int) returns (r: Result<seq<Person>>)
    ensures r == PartnersOf(family.graph, pairs, u)
  {
    ghost var g := family.graph;
    var found: seq<Person> := [];
    var i := 0;
    PrependNothing(PartnersOf(g, pairs, u));
    assert pairs[0..] == pairs;
    while i < |pairs|
      invariant 0 <= i <= |pairs|
      invariant PartnersOf(g, pairs, u) == Prepend(found, PartnersOf(g, pairs[i..], u))
    {
      PartnersStep(g, pairs, u, i);
      if pairs[i].0 == u {
        var p := family.UidToPerson(pairs[i].1);
        if p.Err? {
          return Err(TypeError);
        }
        PrependTwice(found, [p.value], PartnersOf(g, pairs[i + 1..], u));
        found := found + [p.value];
      }
      i := i + 1;
    }
    assert pairs[i..] == [] && found + [] == found;
    assert PartnersOf(g, pairs[i..], u) == Ok([]);
    return Ok(found);
  }

  /** How the comprehension treats one more pair. */
  lemma PartnersStep(g: Graph, pairs: seq<(int, int)>, u: int, i: int)
    requires 0 <= i < |pairs|
    ensures PartnersOf(g, pairs[i..], u) ==
      if pairs[i].0 != u then PartnersOf(g, pairs[i + 1..], u)
      else if pairs[i].1 !in UidSet(g) then Err(TypeError)
      else Prepend([Registered(g, pairs[i].1)], PartnersOf(g, pairs[i + 1..], u))
  {
    assert pairs[i..][1..] == pairs[i + 1..];
  }

  lemma PrependNothing(r: Result<seq<Person>>)
    ensures Prepend([], r) == r
  {
    if r.Ok? {
      assert [] + r.value == r.value;
    }
  }

  lemma PrependTwice(a: seq<Person>, b: seq<Person>, r: Result<seq<Person>>)
    ensures Prepend(a, Prepend(b, r)) == Prepend(a + b, r)
  {
    if r.Ok? {
      assert a + (b + r.value) == (a + b) + r.value;
    }
  }

  /** The partners collected so far in front of those still to come. */
  function Prepend(found: seq<Person>, rest: Result<seq<Person>>): Result<seq<Person>>
  {
    if rest.Ok? then Ok(found + rest.value) else rest
  }

  /** The father or mother loop, on a family. */
  method ReplayParentPairs(family: Family, pairs: seq<(int, int)>) returns (o: Outcome)
    requires family.Valid()
    modifies family
    ensures family.Valid() && family.notes == old(family.notes)
    ensures o.Pass? <==> ReplayParents(old(family.graph), FirstUids(pairs), pairs).Ok?
    ensures o.Fail? ==> o.error == ReplayParents(old(family.graph), FirstUids(pairs), pairs).error
    ensures o.Pass? ==> family.graph == ReplayParents(old(family.graph), FirstUids(pairs), pairs).value
  {
    var todo := FirstUids(pairs);
    var i := 0;
    while i < |todo|
      invariant 0 <= i <= |todo| && family.Valid() && family.notes == old(family.notes)
      invariant ReplayParents(family.graph, todo[i..], pairs) == ReplayParents(old(family.graph), todo, pairs)
    {
      assert todo[i..][1..] == todo[i + 1..];
      var parent := family.UidToPerson(todo[i]);
      if parent.Err? {
        return Fail(NameError);
      }
      var children := Partners(family, pairs, todo[i]);
      if children.Err? {
        return Fail(children.error);
      }
      o := family.AddChildren(parent.value, children.value);
      if o.Fail? {
        return;
      }
      i := i + 1;
    }
    return Pass;
  }

  /** The spouse loop, on a family. */
  method ReplaySpousePairs(family: Family, pairs: seq<(int, int)>) returns (o: Outcome)
    requires family.Valid()
    modifies family
    ensures family.Valid() && family.notes == old(family.notes)
    ensures o.Pass? <==> ReplaySpouses(old(family.graph), FirstUids(pairs), pairs).Ok?
    ensures o.Fail? ==> o.error == ReplaySpouses(old(family.graph), FirstUids(pairs), pairs).error
    ensures o.Pass? ==> family.graph == ReplaySpouses(old(family.graph), FirstUids(pairs), pairs).value
  {
    var todo := FirstUids(pairs);
    var i := 0;
    while i < |todo|
      invariant 0 <= i <= |todo| && family.Valid() && family.notes == old(family.notes)
      invariant ReplaySpouses(family.graph, todo[i..], pairs) == ReplaySpouses(old(family.graph), todo, pairs)
    {
      assert todo[i..][1..] == todo[i + 1..];
      var person := family.UidToPerson(todo[i]);
      if person.Err? {
        return Fail(NameError);
      }
      var spouses := Partners(family, pairs, todo[i]);
      if spouses.Err? {
        return Fail(spouses.error);
      }
      family.AddSpouses(person.value, spouses.value);
      i := i + 1;
    }
    return Pass;
  }
}

module ImportProperties {
  import opened Outcomes
  import opened Persons
  import opened FamilyGraph
  import opened Rules
  import opened TomlImport

  /** Record i is the first with its uid, and that uid is new. */
  ghost predicate FirstOfUid(records: seq<PersonRecord>, i: int, g: Graph)
    requires 0 <= i < |records|
  {
    && records[i].uid.Some?
    && records[i].uid.value !in UidSet(g)
    && forall j :: 0 <= j < i ==> records[j].uid != records[i].uid
  }

  /** Which records are first of their uid, seen from the second record on. */
  lemma FirstOfUidShift(records: seq<PersonRecord>, g: Graph, h: Graph, i: int)
    requires 1 <= i < |records|
    requires UidSet(h) == UidSet(g) + (if records[0].uid.Some? then {records[0].uid.value} else {})
    ensures FirstOfUid(records, i, g) <==> FirstOfUid(records[1..], i - 1, h)
  {
    var rest := records[1..];
    assert forall j :: 0 <= j < i - 1 ==> rest[j] == records[j + 1];
    if FirstOfUid(rest, i - 1, h) {
      forall j | 0 <= j < i ensures records[j].uid != records[i].uid {
        if j > 0 {
          assert rest[j - 1] == records[j];
        }
      }
    }
  }

  /** The people loop raises exactly when a record that is first of a new
      uid cannot be constructed; otherwise every such record is stored, and
      every Person stored before is kept. */
  lemma {:induction false} ImportPeopleKeepsFirst(g: Graph, records: seq<PersonRecord>)
    ensures ImportPeople(g, records).Ok? <==>
      forall i :: 0 <= i < |records| && FirstOfUid(records, i, g) ==> FromDict(records[i]).Ok?
    ensures ImportPeople(g, records).Ok? ==>
      forall i :: 0 <= i < |records| && FirstOfUid(records, i, g) ==> FromDict(records[i]).value in ImportPeople(g, records).value.nodes
    ensures ImportPeople(g, records).Ok? ==>
      forall p :: p in g.nodes ==> p in ImportPeople(g, records).value.nodes
    decreases |records|
  {
    if records != [] {
      var r0 := records[0];
      if r0.uid.Some? && r0.uid.value !in UidSet(g) && FromDict(r0).Err? {
        assert FirstOfUid(records, 0, g);
      } else {
        var h := if r0.uid.None? || r0.uid.value in UidSet(g) then g else AddNode(g, FromDict(r0).value);
        assert ImportPeople(g, records) == ImportPeople(h, records[1..]);
        ImportPeopleKeepsFirst(h, records[1..]);
        forall i | 1 <= i < |records| ensures FirstOfUid(records, i, g) <==> FirstOfUid(records[1..], i - 1, h) {
          FirstOfUidShift(records, g, h, i);
        }
        assert forall i :: 1 <= i < |records| ==> records[1..][i - 1] == records[i];
        if FirstOfUid(records, 0, g) {
          assert FromDict(r0).value in h.nodes;
        }
      }
    }
  }

  /** A record without a uid is never stored: the stored uids are those of
      the records that have one, with those stored before. */
  lemma {:induction false} ImportPeopleUids(g: Graph, records: seq<PersonRecord>)
    requires ImportPeople(g, records).Ok?
    ensures UidSet(ImportPeople(g, records).value)
      == UidSet(g) + (set i | 0 <= i < |records| && records[i].uid.Some? :: records[i].uid.value)
    decreases |records|
  {
    if records != [] {
      var r0 := records[0];
      var h := g;
      if r0.uid.Some? && r0.uid.value !in UidSet(g) {
        assert FromDict(r0).Ok?;
        h := AddNode(g, FromDict(r0).value);
      }
      ImportPeopleUids(h, records[1..]);
      var all := set i | 0 <= i < |records| && records[i].uid.Some? :: records[i].uid.value;
      var rest := set i | 0 <= i < |records[1..]| && records[1..][i].uid.Some? :: records[1..][i].uid.value;
      assert all == rest + (if r0.uid.Some? then {r0.uid.value} else {}) by {
        forall u | u in all ensures u in rest + (if r0.uid.Some? then {r0.uid.value} else {}) {
          var i :| 0 <= i < |records| && records[i].uid.Some? && records[i].uid.value == u;
          if i > 0 {
            assert records[1..][i - 1] == records[i];
          }
        }
        forall u | u in rest ensures u in all {
          var i :| 0 <= i < |records[1..]| && records[1..][i].uid.Some? && records[1..][i].uid.value == u;
          assert records[i + 1] == records[1..][i];
        }
      }
    }
  }

  /** The replay only adds edges after those already there. */
  lemma {:induction false} ReplayParentsExtends(g: Graph, todo: seq<int>, pairs: seq<(int, int)>)
    requires ReplayParents(g, todo, pairs).Ok?
    ensures g.edges <= ReplayParents(g, todo, pairs).value.edges
    decreases |todo|
  {
    if todo != [] {
      var parent := NodeWithUid(g, todo[0]).value;
      var children := PartnersOf(g, pairs, todo[0]).value;
      var s := AddChildrenSpec(g, parent, children);
      ChildrenStepExtends(g, parent, children);
      ReplayParentsExtends(s.graph, todo[1..], pairs);
    }
  }

  lemma ChildrenStepExtends(g: Graph, parent: Person, children: seq<Person>)
    requires AddChildrenSpec(g, parent, children).outcome.Pass?
    ensures g.edges <= AddChildrenSpec(g, parent, children).graph.edges
  {
    if parent.gender != Unknown {
      AddChildrenAppendsEdges(g, parent, children);
    } else if children != [] {
      AddChildrenUnknownGender(g, parent, children);
    }
  }

  /** One replay step links the parent to every child its pairs name. */
  lemma ReplayStepLinks(g: Graph, pairs: seq<(int, int)>, u: int, k: int)
    requires NodeWithUid(g, u).Ok? && PartnersOf(g, pairs, u).Ok?
    requires AddChildrenSpec(g, NodeWithUid(g, u).value, PartnersOf(g, pairs, u).value).outcome.Pass?
    requires 0 <= k < |pairs| && pairs[k].0 == u
    ensures pairs[k].1 in Targets(AddChildrenSpec(g, NodeWithUid(g, u).value, PartnersOf(g, pairs, u).value).graph.edges, u, ParentLabels)
  {
    var parent := NodeWithUid(g, u).value;
    var children := PartnersOf(g, pairs, u).value;
    var c :| c in children && c.uid == pairs[k].1;
    if parent.gender == Unknown {
      AddChildrenUnknownGender(g, parent, children);
    }
    AddChildrenLinksEveryChild(g, parent, children, c);
  }

  /** After a successful replay every pair whose first uid was replayed is
      an edge: the child is among the parent's children. */
  lemma {:induction false} ReplayParentsLinksPairs(g: Graph, todo: seq<int>, pairs: seq<(int, int)>, k: int)
    requires ReplayParents(g, todo, pairs).Ok?
    requires 0 <= k < |pairs| && pairs[k].0 in todo
    ensures pairs[k].1 in Targets(ReplayParents(g, todo, pairs).value.edges, pairs[k].0, ParentLabels)
    decreases |todo|
  {
    var u := todo[0];
    var parent := NodeWithUid(g, u).value;
    var children := PartnersOf(g, pairs, u).value;
    var s := AddChildrenSpec(g, parent, children);
    var result := ReplayParents(g, todo, pairs).value;
    assert result == ReplayParents(s.graph, todo[1..], pairs).value;
    if pairs[k].0 == u {
      ReplayStepLinks(g, pairs, u, k);
      ReplayParentsExtends(s.graph, todo[1..], pairs);
      var l :| l in ParentLabels && Edge(u, pairs[k].1, l) in s.graph.edges;
      assert Edge(u, pairs[k].1, l) in result.edges;
    } else {
      ReplayParentsLinksPairs(s.graph, todo[1..], pairs, k);
    }
  }

  /** An unknown first father uid ends the import with NameError. */
  lemma ImportUnknownParentIsNameError(doc: Document)
    requires ImportPeople(Graph([], []), doc.people).Ok?
    requires |doc.fatherPairs| > 0 && doc.fatherPairs[0].0 !in UidSet(ImportPeople(Graph([], []), doc.people).value)
    ensures ImportSpec(doc) == Err(NameError)
  {
  }

  /** A known first father with an unknown child ends the import with
      TypeError. */
  lemma ImportUnknownChildIsTypeError(doc: Document, k: int)
    requires ImportPeople(Graph([], []), doc.people).Ok?
    requires |doc.fatherPairs| > 0 && doc.fatherPairs[0].0 in UidSet(ImportPeople(Graph([], []), doc.people).value)
    requires 0 <= k < |doc.fatherPairs| && doc.fatherPairs[k].0 == doc.fatherPairs[0].0
    requires doc.fatherPairs[k].1 !in UidSet(ImportPeople(Graph([], []), doc.people).value)
    ensures ImportSpec(doc) == Err(TypeError)
  {
  }

  /** A first father stored without a known gender ends the import with
      GenderError, whatever table the pair was read from. */
  lemma ImportGenderlessParentIsGenderError(doc: Document)
    requires ImportPeople(Graph([], []), doc.people).Ok?
    requires |doc.fatherPairs| > 0
    requires NodeWithUid(ImportPeople(Graph([], []), doc.people).value, doc.fatherPairs[0].0).Ok?
    requires NodeWithUid(ImportPeople(Graph([], []), doc.people).value, doc.fatherPairs[0].0).value.gender == Unknown
    requires PartnersOf(ImportPeople(Graph([], []), doc.people).value, doc.fatherPairs, doc.fatherPairs[0].0).Ok?
    ensures ImportSpec(doc) == Err(GenderError)
  {
    var g := ImportPeople(Graph([], []), doc.people).value;
    var u := doc.fatherPairs[0].0;
    var children := PartnersOf(g, doc.fatherPairs, u).value;
    assert exists p :: p in children && p.uid == doc.fatherPairs[0].1;
    AddChildrenUnknownGender(g, NodeWithUid(g, u).value, children);
  }

  lemma {:induction false} ReplaySpousesExtends(g: Graph, todo: seq<int>, pairs: seq<(int, int)>)
    requires ReplaySpouses(g, todo, pairs).Ok?
    ensures g.edges <= ReplaySpouses(g, todo, pairs).value.edges
    decreases |todo|
  {
    if todo != [] {
      var person := NodeWithUid(g, todo[0]).value;
      var spouses := PartnersOf(g, pairs, todo[0]).value;
      AddSpousesAppendsEdges(g, person, spouses);
      ReplaySpousesExtends(AddSpousesSpec(g, person, spouses), todo[1..], pairs);
    }
  }

  /** After a successful spouse replay every pair whose first uid was
      replayed is a spouse edge. */
  lemma {:induction false} ReplaySpousesLinksPairs(g: Graph, todo: seq<int>, pairs: seq<(int, int)>, k: int)
    requires ReplaySpouses(g, todo, pairs).Ok?
    requires 0 <= k < |pairs| && pairs[k].0 in todo
    ensures Edge(pairs[k].0, pairs[k].1, Spouse) in ReplaySpouses(g, todo, pairs).value.edges
    decreases |todo|
  {
    var u := todo[0];
    var person := NodeWithUid(g, u).value;
    var spouses := PartnersOf(g, pairs, u).value;
    var h := AddSpousesSpec(g, person, spouses);
    if pairs[k].0 == u {
      var p :| p in spouses && p.uid == pairs[k].1;
      var j :| 0 <= j < |spouses| && spouses[j] == p;
      AddSpousesAppendsEdges(g, person, spouses);
      assert h.edges[|g.edges| + j] == Edge(u, pairs[k].1, Spouse);
      ReplaySpousesExtends(h, todo[1..], pairs);
    } else {
      ReplaySpousesLinksPairs(h, todo[1..], pairs, k);
    }
  }

  /** A successful import went through every phase successfully. */
  lemma ImportPhases(doc: Document)
    requires ImportSpec(doc).Ok?
    ensures var g1 := ImportPeople(Graph([], []), doc.people);
      && g1.Ok?
      && ReplayParents(g1.value, FirstUids(doc.fatherPairs), doc.fatherPairs).Ok?
      && var g2 := ReplayParents(g1.value, FirstUids(doc.fatherPairs), doc.fatherPairs).value;
      && ReplayParents(g2, FirstUids(doc.motherPairs), doc.motherPairs).Ok?
      && var g3 := ReplayParents(g2, FirstUids(doc.motherPairs), doc.motherPairs).value;
      && ImportSpec(doc) == ReplaySpouses(g3, FirstUids(doc.spousePairs), doc.spousePairs)
  {
  }

  /** A successful import realises every father pair as an edge from the
      father to the child (labelled by the father's stored gender). */
  lemma ImportLinksFatherPairs(doc: Document, k: int)
    requires ImportSpec(doc).Ok? && 0 <= k < |doc.fatherPairs|
    ensures doc.fatherPairs[k].1 in Targets(ImportSpec(doc).value.edges, doc.fatherPairs[k].0, ParentLabels)
  {
    ImportPhases(doc);
    var g1 := ImportPeople(Graph([], []), doc.people).value;
    var fs, ms, ss := FirstUids(doc.fatherPairs), FirstUids(doc.motherPairs), FirstUids(doc.spousePairs);
    var g2 := ReplayParents(g1, fs, doc.fatherPairs).value;
    var g3 := ReplayParents(g2, ms, doc.motherPairs).value;
    var g4 := ImportSpec(doc).value;
    ReplayParentsExtends(g2, ms, doc.motherPairs);
    ReplaySpousesExtends(g3, ss, doc.spousePairs);
    assert fs[k] == doc.fatherPairs[k].0;
    ReplayParentsLinksPairs(g1, fs, doc.fatherPairs, k);
    var l :| l in ParentLabels && Edge(doc.fatherPairs[k].0, doc.fatherPairs[k].1, l) in g2.edges;
    assert Edge(doc.fatherPairs[k].0, doc.fatherPairs[k].1, l) in g4.edges;
  }

  /** The same for every mother pair. */
  lemma ImportLinksMotherPairs(doc: Document, k: int)
    requires ImportSpec(doc).Ok? && 0 <= k < |doc.motherPairs|
    ensures doc.motherPairs[k].1 in Targets(ImportSpec(doc).value.edges, doc.motherPairs[k].0, ParentLabels)
  {
    var g1 := ImportPeople(Graph([], []), doc.people).value;
    var fs, ms, ss := FirstUids(doc.fatherPairs), FirstUids(doc.motherPairs), FirstUids(doc.spousePairs);
    var g2 := ReplayParents(g1, fs, doc.fatherPairs).value;
    var g3 := ReplayParents(g2, ms, doc.motherPairs).value;
    ReplaySpousesExtends(g3, ss, doc.spousePairs);
    assert ms[k] == doc.motherPairs[k].0;
    ReplayParentsLinksPairs(g2, ms, doc.motherPairs, k);
    var l :| l in ParentLabels && Edge(doc.motherPairs[k].0, doc.motherPairs[k].1, l) in g3.edges;
    assert Edge(doc.motherPairs[k].0, doc.motherPairs[k].1, l) in ImportSpec(doc).value.edges;
  }

  /** A successful import realises every spouse pair as a spouse edge. */
  lemma ImportLinksSpousePairs(doc: Document, k: int)
    requires ImportSpec(doc).Ok? && 0 <= k < |doc.spousePairs|
    ensures Edge(doc.spousePairs[k].0, doc.spousePairs[k].1, Spouse) in ImportSpec(doc).value.edges
  {
    var g1 := ImportPeople(Graph([], []), doc.people).value;
    var fs, ms, ss := FirstUids(doc.fatherPairs), FirstUids(doc.motherPairs), FirstUids(doc.spousePairs);
    var g2 := ReplayParents(g1, fs, doc.fatherPairs).value;
    var g3 := ReplayParents(g2, ms, doc.motherPairs).value;
    assert ss[k] == doc.spousePairs[k].0;
    ReplaySpousesLinksPairs(g3, ss, doc.spousePairs, k);
  }

  /** The people of the duplicate-edge example: a father and two children. */
  const DupRecords := [PersonRecord(Some(1), None, None, Some("m"), None, None),
                       PersonRecord(Some(2), None, None, None, None, None),
                       PersonRecord(Some(3), None, None, None, None, None)]
  const DupFather := Person(1, "", ["???"], Male, "m", None, [])
  const DupFirst := Person(2, "", ["???"], Unknown, "?", None, [])
  const DupSecond := Person(3, "", ["???"], Unknown, "?", None, [])

  /** One more record, with a fresh uid and a good constructor call. */
  lemma ImportOneMore(g: Graph, rec: PersonRecord, p: Person, rest: seq<PersonRecord>)
    requires rec.uid == Some(p.uid) && p.uid !in UidSet(g) && FromDict(rec) == Ok(p)
    ensures ImportPeople(g, [rec] + rest) == ImportPeople(AddNode(g, p), rest)
  {
    assert ([rec] + rest)[1..] == rest;
  }

  lemma DupRecordsConstruct()
    ensures FromDict(DupRecords[0]) == Ok(DupFather)
    ensures FromDict(DupRecords[1]) == Ok(DupFirst)
    ensures FromDict(DupRecords[2]) == Ok(DupSecond)
  {
  }

  lemma DupPeopleImported()
    ensures ImportPeople(Graph([], []), DupRecords) == Ok(Graph([DupFather, DupFirst, DupSecond], []))
  {
    var r0, r1, r2 := DupRecords[0], DupRecords[1], DupRecords[2];
    assert DupRecords == [r0] + ([r1] + ([r2] + []));
    DupRecordsConstruct();
    var g1 := AddNode(Graph([], []), DupFather);
    var g2 := AddNode(g1, DupFirst);
    var g3 := AddNode(g2, DupSecond);
    ImportOneMore(Graph([], []), r0, DupFather, [r1] + ([r2] + []));
    ImportOneMore(g1, r1, DupFirst, [r2] + []);
    ImportOneMore(g2, r2, DupSecond, []);
    assert g3.nodes == [DupFather, DupFirst, DupSecond];
  }

  lemma DupPartners(g: Graph)
    requires g.nodes == [DupFather, DupFirst, DupSecond]
    ensures PartnersOf(g, [(1, 2), (1, 3)], 1) == Ok([DupFirst, DupSecond])
  {
    var pairs := [(1, 2), (1, 3)];
    assert pairs[0..] == pairs && pairs[1..] == [(1, 3)];
    assert [DupFirst] + [DupSecond] == [DupFirst, DupSecond];
    DupRegistered(g);
    DupLastPartner(g);
    PartnersStep(g, pairs, 1, 0);
    assert PartnersOf(g, pairs, 1) == Prepend([DupFirst], Ok([DupSecond]));
  }

  /** The three Persons of the example are registered under their own uids. */
  lemma DupRegistered(g: Graph)
    requires g.nodes == [DupFather, DupFirst, DupSecond]
    ensures UidSet(g) == {1, 2, 3}
    ensures Registered(g, 2) == DupFirst && Registered(g, 3) == DupSecond
  {
    assert DupFather in g.nodes && DupFirst in g.nodes && DupSecond in g.nodes;
  }

  lemma DupLastPartner(g: Graph)
    requires g.nodes == [DupFather, DupFirst, DupSecond]
    ensures PartnersOf(g, [(1, 3)], 1) == Ok([DupSecond])
  {
    var pairs := [(1, 3)];
    assert pairs[0..] == pairs && pairs[1..] == [];
    assert [DupSecond] + [] == [DupSecond];
    DupRegistered(g);
    PartnersStep(g, pairs, 1, 0);
    assert PartnersOf(g, pairs, 1) == Prepend([DupSecond], Ok([]));
  }


  /** `add_children` between persons already registered adds edges only. */
  lemma {:induction false} ChildrenOfRegisteredKeepNodes(g: Graph, parent: Person, children: seq<Person>)
    requires parent.gender != Unknown && parent.uid in UidSet(g)
    requires forall c :: c in children ==> c.uid in UidSet(g)
    ensures AddChildrenSpec(g, parent, children).graph.nodes == g.nodes
    decreases |children|
  {
    if children != [] {
      var s0 := AddChildSpec(g, parent, children[0]);
      assert s0.graph.nodes == g.nodes;
      AddChildrenAddsEveryChildStep(g, parent, children);
      ChildrenOfRegisteredKeepNodes(s0.graph, parent, children[1..]);
    }
  }

  const DupEdges := [Edge(1, 2, Father), Edge(1, 3, Father), Edge(1, 2, Father), Edge(1, 3, Father)]

  /** One step of the father or mother loop that succeeds. */
  lemma ReplayParentsStep(g: Graph, u: int, rest: seq<int>, pairs: seq<(int, int)>,
                          parent: Person, children: seq<Person>)
    requires NodeWithUid(g, u) == Ok(parent) && PartnersOf(g, pairs, u) == Ok(children)
    requires AddChildrenSpec(g, parent, children).outcome.Pass?
    ensures ReplayParents(g, [u] + rest, pairs)
      == ReplayParents(AddChildrenSpec(g, parent, children).graph, rest, pairs)
  {
    assert ([u] + rest)[1..] == rest;
  }

  /** The example's father, given both his children, gets one edge to each. */
  lemma DupFatherChildren(g: Graph)
    requires g.nodes == [DupFather, DupFirst, DupSecond]
    ensures AddChildrenSpec(g, DupFather, [DupFirst, DupSecond])
      == Step(Pass, Graph(g.nodes, g.edges + [Edge(1, 2, Father), Edge(1, 3, Father)]))
  {
    var kids := [DupFirst, DupSecond];
    assert EdgesTo(1, kids, Father) == [Edge(1, 2, Father), Edge(1, 3, Father)];
    assert UidSet(g) == {1, 2, 3} by {
      assert DupFather in g.nodes && DupFirst in g.nodes && DupSecond in g.nodes;
    }
    assert LabelFor(DupFather.gender).value == Father;
    AddChildrenAppendsEdges(g, DupFather, kids);
    ChildrenOfRegisteredKeepNodes(g, DupFather, kids);
  }

  /** One replay of the example's father: both children get an edge. */
  lemma DupRound(g: Graph, rest: seq<int>)
    requires g.nodes == [DupFather, DupFirst, DupSecond]
    ensures ReplayParents(g, [1] + rest, [(1, 2), (1, 3)])
      == ReplayParents(Graph(g.nodes, g.edges + [Edge(1, 2, Father), Edge(1, 3, Father)]), rest, [(1, 2), (1, 3)])
  {
    assert DupFather in g.nodes;
    assert NodeWithUid(g, 1) == Ok(DupFather);
    DupPartners(g);
    DupFatherChildren(g);
    ReplayParentsStep(g, 1, rest, [(1, 2), (1, 3)], DupFather, [DupFirst, DupSecond]);
  }

  lemma DupReplayed()
    ensures ImportSpec(Document(DupRecords, [(1, 2), (1, 3)], [], []))
      == Ok(Graph([DupFather, DupFirst, DupSecond], DupEdges))
  {
    var pairs := [(1, 2), (1, 3)];
    var nodes := [DupFather, DupFirst, DupSecond];
    var added := [Edge(1, 2, Father), Edge(1, 3, Father)];
    assert [] + added + added == DupEdges;
    DupPeopleImported();
    assert FirstUids(pairs) == [1] + ([1] + []);
    assert FirstUids([]) == [];
    DupRound(Graph(nodes, []), [1] + []);
    DupRound(Graph(nodes, [] + added), []);
  }

  lemma DupTargets()
    ensures multiset(Targets(DupEdges, 1, ParentLabels)) == multiset{2, 2, 3, 3}
  {
    DupTargetList();
    assert multiset([2, 3, 2, 3]) == multiset{2, 2, 3, 3};
  }

  /** The model's own edge list, read in insertion order. */
  lemma DupTargetList()
    ensures Targets(DupEdges, 1, ParentLabels) == [2, 3, 2, 3]
  {
    var e0, e1 := Edge(1, 2, Father), Edge(1, 3, Father);
    var p1 := [] + [e0];
    var p2 := p1 + [e1];
    var p3 := p2 + [e0];
    var p4 := p3 + [e1];
    assert p4 == DupEdges;
    TargetsAppend([], e0, 1, ParentLabels);
    TargetsAppend(p1, e1, 1, ParentLabels);
    TargetsAppend(p2, e0, 1, ParentLabels);
    TargetsAppend(p3, e1, 1, ParentLabels);
  }

  /** A father named in two pairs is replayed twice, and each time gets his
      whole child list again: each of his children comes out twice (in an
      order the graph library decides). */
  lemma ImportDuplicatesEdges()
    ensures var doc := Document(DupRecords, [(1, 2), (1, 3)], [], []);
      && ImportSpec(doc).Ok?
      && multiset(Targets(ImportSpec(doc).value.edges, 1, ParentLabels)) == multiset{2, 2, 3, 3}
  {
    DupReplayed();
    DupTargets();
  }
}
