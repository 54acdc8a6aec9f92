/** `Family.__eq__`: two families are equal when they hold the same persons,
    the same fathers, mothers and spouses, and every one of those has the
    same children (or spouses) counted with repeats. Edge order and notes
    play no part. */
module Equality {
  import opened FamilyGraph

  predicate SameFamily(a: Graph, b: Graph)
    ensures SameFamily(a, b) ==> UidSet(a) == UidSet(b) && |a.nodes| == |b.nodes|
  {
    UidCountsAgree(a, b);
    && multiset(Uids(a)) == multiset(Uids(b))
    && Sources(a, Father) == Sources(b, Father)
    && Sources(a, Mother) == Sources(b, Mother)
    && Sources(a, Spouse) == Sources(b, Spouse)
    && (forall f :: f in Sources(a, Father) ==>
          multiset(Targets(a.edges, f, ParentLabels)) == multiset(Targets(b.edges, f, ParentLabels)))
    && (forall m :: m in Sources(a, Mother) ==>
          multiset(Targets(a.edges, m, ParentLabels)) == multiset(Targets(b.edges, m, ParentLabels)))
    && (forall s :: s in Sources(a, Spouse) ==>
          multiset(Targets(a.edges, s, SpouseLabels)) == multiset(Targets(b.edges, s, SpouseLabels)))
  }

  /** The same uids, counted with repeats, make the same set of uids and
      the same number of stored persons. */
  lemma UidCountsAgree(a: Graph, b: Graph)
    ensures multiset(Uids(a)) == multiset(Uids(b)) ==> UidSet(a) == UidSet(b) && |a.nodes| == |b.nodes|
  {
    if multiset(Uids(a)) == multiset(Uids(b)) {
      assert |Uids(a)| == |multiset(Uids(a))| == |multiset(Uids(b))| == |Uids(b)|;
      forall u | u in UidSet(a)
        ensures u in UidSet(b)
      {
        var p :| p in a.nodes && p.uid == u;
        var i :| 0 <= i < |a.nodes| && a.nodes[i] == p;
        assert Uids(a)[i] == u;
        assert u in multiset(Uids(b));
        var j :| 0 <= j < |Uids(b)| && Uids(b)[j] == u;
        assert b.nodes[j] in b.nodes;
      }
      forall u | u in UidSet(b)
        ensures u in UidSet(a)
      {
        var p :| p in b.nodes && p.uid == u;
        var i :| 0 <= i < |b.nodes| && b.nodes[i] == p;
        assert Uids(b)[i] == u;
        assert u in multiset(Uids(a));
        var j :| 0 <= j < |Uids(a)| && Uids(a)[j] == u;
        assert a.nodes[j] in a.nodes;
      }
    }
  }

  /** Family equality is an equivalence. */
  lemma SameFamilyIsEquivalence(a: Graph, b: Graph, c: Graph)
    ensures SameFamily(a, a)
    ensures SameFamily(a, b) ==> SameFamily(b, a)
    ensures SameFamily(a, b) && SameFamily(b, c) ==> SameFamily(a, c)
  {
  }

  /** Each source's target list counts the same as long as the edges are
      the same multiset. */
  lemma {:induction false} SameEdgesSameTargets(a: seq<Edge>, b: seq<Edge>, src: int, labels: set<Label>)
    requires multiset(a) == multiset(b)
    ensures multiset(Targets(a, src, labels)) == multiset(Targets(b, src, labels))
  {
    forall c ensures multiset(Targets(a, src, labels))[c] == multiset(Targets(b, src, labels))[c] {
      TargetsCount(a, src, labels, c);
      TargetsCount(b, src, labels, c);
    }
  }

  /** Two families holding the same persons and the same edges, stored in
      any order, are equal. */
  lemma EdgeOrderIrrelevant(a: Graph, b: Graph)
    requires multiset(Uids(a)) == multiset(Uids(b)) && multiset(a.edges) == multiset(b.edges)
    ensures SameFamily(a, b)
  {
    forall e ensures e in a.edges <==> e in b.edges {
      assert e in a.edges <==> e in multiset(a.edges);
      assert e in b.edges <==> e in multiset(b.edges);
    }
    forall src, labels: set<Label> ensures multiset(Targets(a.edges, src, labels)) == multiset(Targets(b.edges, src, labels)) {
      SameEdgesSameTargets(a.edges, b.edges, src, labels);
    }
  }

  /** Equal families agree on every father's children, with repeats. */
  lemma SameFamilyKeepsChildren(a: Graph, b: Graph, f: int, c: int)
    requires SameFamily(a, b) && f in Sources(a, Father)
    ensures (exists l :: l in ParentLabels && Edge(f, c, l) in a.edges)
        <==> (exists l :: l in ParentLabels && Edge(f, c, l) in b.edges)
  {
    var ta, tb := Targets(a.edges, f, ParentLabels), Targets(b.edges, f, ParentLabels);
    assert c in ta <==> c in multiset(ta);
    assert c in tb <==> c in multiset(tb);
  }
}
