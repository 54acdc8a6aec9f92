/** `couples()`: the pairs of persons who share a child or are joined by a
    spouse edge, each pair ordered by uid, without repeats. */
module CoupleRules {
  import opened Outcomes
  import opened Persons
  import opened FamilyGraph

  /** `sorted([one, two])`, ordering persons by uid. */
  function Ordered(a: int, b: int): (r: (int, int))
    ensures r.0 <= r.1
    ensures (r.0 == a && r.1 == b) || (r.0 == b && r.1 == a)
  {
    if a <= b then (a, b) else (b, a)
  }

  /** The mother of a person, by uid. */
  function MotherOfUid(g: Graph, c: int): Option<int>
  {
    FirstSource(g.edges, c, Mother)
  }

  /** The pairs {f, mother(c)} for every child c in the list that has a
      mother. */
  function MotherPairs(g: Graph, f: int, cs: seq<int>): set<(int, int)>
  {
    set j | 0 <= j < |cs| && MotherOfUid(g, cs[j]).Some? :: Ordered(f, MotherOfUid(g, cs[j]).value)
  }

  /** The pairs {s, t} for every t in the list. */
  function SpousePairs(s: int, ts: seq<int>): set<(int, int)>
  {
    set j | 0 <= j < |ts| :: Ordered(s, ts[j])
  }

  /** The couples found through the children of the fathers in `fs`: every
      father or mother edge leaving one of them into a child with a mother. */
  function ChildCouplesFrom(g: Graph, fs: set<int>): set<(int, int)>
  {
    set e | e in g.edges && e.src in fs && e.kind in ParentLabels && MotherOfUid(g, e.dst).Some?
      :: Ordered(e.src, MotherOfUid(g, e.dst).value)
  }

  /** The couples found through the spouse edges leaving the persons in `ss`. */
  function SpouseCouplesFrom(g: Graph, ss: set<int>): set<(int, int)>
  {
    set e | e in g.edges && e.src in ss && e.kind == Spouse :: Ordered(e.src, e.dst)
  }

  /** What `couples()` collects: pairs through the children of every father,
      then through the spouse list of every person with a spouse edge. */
  function CoupleSet(g: Graph): (r: set<(int, int)>)
    ensures forall q :: q in r ==> q.0 <= q.1
  {
    ChildCouplesFrom(g, Sources(g, Father)) + SpouseCouplesFrom(g, Sources(g, Spouse))
  }

  /** Walking one more father's children list adds exactly the pairs of his
      children that have a mother. */
  lemma ChildCouplesStep(g: Graph, done: set<int>, f: int)
    ensures ChildCouplesFrom(g, done + {f})
      == ChildCouplesFrom(g, done) + MotherPairs(g, f, Targets(g.edges, f, ParentLabels))
  {
    var cs := Targets(g.edges, f, ParentLabels);
    forall q | q in ChildCouplesFrom(g, done + {f})
      ensures q in ChildCouplesFrom(g, done) + MotherPairs(g, f, cs)
    {
      var e :| e in g.edges && e.src in done + {f} && e.kind in ParentLabels && MotherOfUid(g, e.dst).Some?
        && q == Ordered(e.src, MotherOfUid(g, e.dst).value);
      if e.src !in done {
        assert Edge(f, e.dst, e.kind) == e;
        assert e.dst in cs;
        var j :| 0 <= j < |cs| && cs[j] == e.dst;
        assert q in MotherPairs(g, f, cs);
      }
    }
    forall q | q in MotherPairs(g, f, cs)
      ensures q in ChildCouplesFrom(g, done + {f})
    {
      var j :| 0 <= j < |cs| && MotherOfUid(g, cs[j]).Some? && q == Ordered(f, MotherOfUid(g, cs[j]).value);
      assert cs[j] in cs;
      var l :| l in ParentLabels && Edge(f, cs[j], l) in g.edges;
      var e := Edge(f, cs[j], l);
      assert q == Ordered(e.src, MotherOfUid(g, e.dst).value);
    }
  }

  /** Walking one more person's spouse list adds exactly the pairs with each
      of those spouses. */
  lemma SpouseCouplesStep(g: Graph, done: set<int>, s: int)
    ensures SpouseCouplesFrom(g, done + {s})
      == SpouseCouplesFrom(g, done) + SpousePairs(s, Targets(g.edges, s, SpouseLabels))
  {
    var ts := Targets(g.edges, s, SpouseLabels);
    forall q | q in SpouseCouplesFrom(g, done + {s})
      ensures q in SpouseCouplesFrom(g, done) + SpousePairs(s, ts)
    {
      var e :| e in g.edges && e.src in done + {s} && e.kind == Spouse && q == Ordered(e.src, e.dst);
      if e.src !in done {
        assert Edge(s, e.dst, Spouse) == e;
        assert e.dst in ts;
        var j :| 0 <= j < |ts| && ts[j] == e.dst;
        assert q in SpousePairs(s, ts);
      }
    }
    forall q | q in SpousePairs(s, ts)
      ensures q in SpouseCouplesFrom(g, done + {s})
    {
      var j :| 0 <= j < |ts| && q == Ordered(s, ts[j]);
      assert ts[j] in ts;
      var e := Edge(s, ts[j], Spouse);
      assert e in g.edges;
    }
  }

  /** One more child in the list adds its pair, if it has a mother. */
  lemma MotherPairsStep(g: Graph, f: int, cs: seq<int>, i: int)
    requires 0 <= i < |cs|
    ensures MotherPairs(g, f, cs[..i + 1]) == MotherPairs(g, f, cs[..i])
      + (if MotherOfUid(g, cs[i]).Some? then {Ordered(f, MotherOfUid(g, cs[i]).value)} else {})
  {
    var a, b := cs[..i], cs[..i + 1];
    forall q | q in MotherPairs(g, f, b)
      ensures q in MotherPairs(g, f, a) || (MotherOfUid(g, cs[i]).Some? && q == Ordered(f, MotherOfUid(g, cs[i]).value))
    {
      var j :| 0 <= j < |b| && MotherOfUid(g, b[j]).Some? && q == Ordered(f, MotherOfUid(g, b[j]).value);
      if j < i {
        assert a[j] == b[j];
      }
    }
    forall q | q in MotherPairs(g, f, a) ensures q in MotherPairs(g, f, b)
    {
      var j :| 0 <= j < |a| && MotherOfUid(g, a[j]).Some? && q == Ordered(f, MotherOfUid(g, a[j]).value);
      assert b[j] == a[j];
    }
    if MotherOfUid(g, cs[i]).Some? {
      assert b[i] == cs[i];
    }
  }

  /** One more spouse in the list adds its pair. */
  lemma SpousePairsStep(s: int, ts: seq<int>, i: int)
    requires 0 <= i < |ts|
    ensures SpousePairs(s, ts[..i + 1]) == SpousePairs(s, ts[..i]) + {Ordered(s, ts[i])}
  {
    var a, b := ts[..i], ts[..i + 1];
    forall q | q in SpousePairs(s, b) ensures q in SpousePairs(s, a) || q == Ordered(s, ts[i])
    {
      var j :| 0 <= j < |b| && q == Ordered(s, b[j]);
      if j < i {
        assert a[j] == b[j];
      }
    }
    forall q | q in SpousePairs(s, a) ensures q in SpousePairs(s, b)
    {
      var j :| 0 <= j < |a| && q == Ordered(s, a[j]);
      assert b[j] == a[j];
    }
    assert b[i] == ts[i];
  }

  /** Every child with both parents contributes the pair of them. */
  lemma CouplesHoldParents(g: Graph, child: Person)
    requires FatherOf(g, child).Some? && MotherOf(g, child).Some?
    ensures Ordered(FatherOf(g, child).value, MotherOf(g, child).value) in CoupleSet(g)
  {
    var e := Edge(FatherOf(g, child).value, child.uid, Father);
    assert e.src in Sources(g, Father);
    assert Ordered(e.src, MotherOfUid(g, e.dst).value) in ChildCouplesFrom(g, Sources(g, Father));
  }

  /** Every spouse edge contributes its pair, whichever way it points: a
      one-way spouse edge still makes a couple. */
  lemma CouplesHoldSpouses(g: Graph, p: int, q: int)
    requires Edge(p, q, Spouse) in g.edges
    ensures Ordered(p, q) in CoupleSet(g) && Ordered(q, p) == Ordered(p, q)
  {
    var e := Edge(p, q, Spouse);
    assert e.src in Sources(g, Spouse);
    assert Ordered(e.src, e.dst) in SpouseCouplesFrom(g, Sources(g, Spouse));
  }

  /** Every couple is a pair of registered persons, lower uid first. */
  lemma CouplesAreRegisteredPairs(g: Graph, q: (int, int))
    requires WellFormed(g) && q in CoupleSet(g)
    ensures q.0 <= q.1 && q.0 in UidSet(g) && q.1 in UidSet(g)
  {
    if q in ChildCouplesFrom(g, Sources(g, Father)) {
      var e :| e in g.edges && e.src in Sources(g, Father) && e.kind in ParentLabels && MotherOfUid(g, e.dst).Some?
        && q == Ordered(e.src, MotherOfUid(g, e.dst).value);
      assert Edge(MotherOfUid(g, e.dst).value, e.dst, Mother) in g.edges;
    }
  }

  /** `couples()` as written: `sorted` on two Persons needs an ordering the
      Person class does not define, so the first pair met raises TypeError;
      only a family without any couple gets an answer (the empty list). */
  function CouplesAsWritten(g: Graph): (r: Result<seq<(int, int)>>)
    ensures r.Ok? <==> CoupleSet(g) == {}
    ensures r.Err? ==> r.error == TypeError
  {
    if CoupleSet(g) == {} then Ok([]) else Err(TypeError)
  }

  /** A father, a mother and their child: the couple the source's own tests
      expect is never returned as written. */
  lemma CouplesAsWrittenRaises()
    ensures var g := Graph([Person(1, "", ["a"], Male, "m", None, []), Person(2, "", ["i"], Female, "f", None, []),
                            Person(3, "", ["c"], Male, "m", None, [])],
                           [Edge(1, 3, Father), Edge(2, 3, Mother)]);
      CouplesAsWritten(g) == Err(TypeError) && (1, 2) in CoupleSet(g)
  {
    var g := Graph([Person(1, "", ["a"], Male, "m", None, []), Person(2, "", ["i"], Female, "f", None, []),
                    Person(3, "", ["c"], Male, "m", None, [])],
                   [Edge(1, 3, Father), Edge(2, 3, Mother)]);
    assert FirstSource(g.edges, 3, Mother) == Some(2);
    CouplesHoldParents(g, Person(3, "", ["c"], Male, "m", None, []));
  }
}
