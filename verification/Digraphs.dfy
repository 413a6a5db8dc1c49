/** Finite directed graphs as adjacency maps: walks, cycles and topological orders. */
module Digraphs {
  import opened Prelude

  type Digraph = map<string, seq<string>>

  predicate Edge(e: Digraph, a: string, b: string) {
    a in e && b in e[a]
  }

  ghost predicate Walk(e: Digraph, p: seq<string>) {
    |p| > 0 && forall i :: 0 <= i < |p| - 1 ==> Edge(e, p[i], p[i + 1])
  }

  ghost predicate WalkFromTo(e: Digraph, p: seq<string>, a: string, b: string) {
    Walk(e, p) && |p| >= 2 && p[0] == a && p[|p| - 1] == b
  }

  /** `b` can be reached from `a` over at least one edge. */
  ghost predicate Reaches(e: Digraph, a: string, b: string) {
    exists p :: WalkFromTo(e, p, a, b)
  }

  ghost predicate Acyclic(e: Digraph) {
    forall a :: !Reaches(e, a, a)
  }

  /** Every edge ends in a node of the graph. */
  ghost predicate Closed(e: Digraph) {
    forall a, b :: Edge(e, a, b) ==> b in e
  }

  lemma WalkSnoc(e: Digraph, p: seq<string>, b: string)
    requires Walk(e, p) && Edge(e, p[|p| - 1], b)
    ensures Walk(e, p + [b])
  {
  }

  lemma WalkSlice(e: Digraph, p: seq<string>, lo: nat, hi: nat)
    requires Walk(e, p) && lo < hi <= |p|
    ensures Walk(e, p[lo..hi])
  {
  }

  lemma WalkConcat(e: Digraph, p: seq<string>, q: seq<string>)
    requires Walk(e, p) && Walk(e, q) && Edge(e, p[|p| - 1], q[0])
    ensures Walk(e, p + q)
  {
  }

  lemma ReachesDirect(e: Digraph, a: string, b: string)
    requires Edge(e, a, b)
    ensures Reaches(e, a, b)
  {
    assert WalkFromTo(e, [a, b], a, b);
  }

  lemma ReachesStep(e: Digraph, a: string, b: string, c: string)
    requires Edge(e, a, b) && Reaches(e, b, c)
    ensures Reaches(e, a, c)
  {
    var p :| WalkFromTo(e, p, b, c);
    WalkConcat(e, [a], p);
    assert WalkFromTo(e, [a] + p, a, c);
  }

  /** A set that contains every successor of its members contains all they reach. */
  lemma ReachesAcross(e: Digraph, a: string, b: string, c: string)
    requires Reaches(e, a, b) && Edge(e, b, c)
    ensures Reaches(e, a, c)
  {
    var p :| WalkFromTo(e, p, a, b);
    WalkSnoc(e, p, c);
    assert WalkFromTo(e, p + [c], a, c);
  }

  lemma {:induction false} ClosedSetKeepsWalk(e: Digraph, done: set<string>, p: seq<string>)
    requires Walk(e, p) && p[0] in done
    requires forall a, b :: a in done && Edge(e, a, b) ==> b in done
    ensures p[|p| - 1] in done
    decreases |p|
  {
    if |p| > 1 {
      assert Edge(e, p[0], p[1]);
      WalkSlice(e, p, 1, |p|);
      ClosedSetKeepsWalk(e, done, p[1..]);
    }
  }

  // ----- topological orders -----

  /** Whatever a listed node points to is listed before it. */
  ghost predicate SuccessorsEarlier(e: Digraph, order: seq<string>) {
    forall i, b :: 0 <= i < |order| && Edge(e, order[i], b) ==> b in order[..i]
  }

  ghost predicate IsTopo(e: Digraph, order: seq<string>) {
    NoDup(order) && Elements(order) == e.Keys && SuccessorsEarlier(e, order)
  }

  lemma {:induction false} WalkDescends(e: Digraph, order: seq<string>, p: seq<string>, i: nat)
    requires SuccessorsEarlier(e, order) && Walk(e, p)
    requires i < |order| && p[0] == order[i] && |p| >= 2
    ensures p[|p| - 1] in order[..i]
    decreases |p|
  {
    assert Edge(e, p[0], p[1]);
    if |p| > 2 {
      var j :| 0 <= j < i && order[j] == p[1];
      WalkSlice(e, p, 1, |p|);
      WalkDescends(e, order, p[1..], j);
    }
  }

  lemma TopoIsAcyclic(e: Digraph, order: seq<string>)
    requires IsTopo(e, order)
    ensures Acyclic(e)
  {
    forall a ensures !Reaches(e, a, a) {
      if Reaches(e, a, a) {
        var p :| WalkFromTo(e, p, a, a);
        assert Edge(e, p[0], p[1]);
        assert a in Elements(order);
        var i :| 0 <= i < |order| && order[i] == a;
        WalkDescends(e, order, p, i);
        assert false;
      }
    }
  }

  ghost predicate StaysIn(e: Digraph, rest: set<string>, a: string) {
    exists b :: b in rest && Edge(e, a, b)
  }

  lemma BackEdgeCloses(e: Digraph, p: seq<string>, b: string)
    requires Walk(e, p + [b]) && b in p
    ensures !Acyclic(e)
  {
    var q := p + [b];
    var i :| 0 <= i < |p| && p[i] == b;
    WalkSlice(e, q, i, |q|);
    assert WalkFromTo(e, q[i..|q|], b, b);
    assert Reaches(e, b, b);
  }

  /** Walking inside a set whose members all have a successor in it must close a cycle. */
  lemma {:induction false} WalkCloses(e: Digraph, rest: set<string>, p: seq<string>)
    requires Walk(e, p) && NoDup(p) && Elements(p) <= rest
    requires forall a :: a in rest ==> StaysIn(e, rest, a)
    ensures !Acyclic(e)
    decreases |rest| - |p|
  {
    NoDupFits(p, rest);
    var a := p[|p| - 1];
    assert a in Elements(p);
    var b :| b in rest && Edge(e, a, b);
    WalkSnoc(e, p, b);
    if b in p {
      BackEdgeCloses(e, p, b);
    } else {
      NoDupSnoc(p, b);
      NoDupFits(p + [b], rest);
      WalkCloses(e, rest, p + [b]);
    }
  }

  lemma TopoSnoc(e: Digraph, order: seq<string>, a: string)
    requires NoDup(order) && SuccessorsEarlier(e, order) && a !in order
    requires forall b :: Edge(e, a, b) ==> b in order
    ensures NoDup(order + [a]) && Elements(order + [a]) == Elements(order) + {a}
    ensures SuccessorsEarlier(e, order + [a])
  {
    NoDupSnoc(order, a);
    var more := order + [a];
    forall i, b | 0 <= i < |more| && Edge(e, more[i], b) ensures b in more[..i] {
      assert more[..i] == order[..i];
      if i < |order| {
        assert more[i] == order[i];
      }
    }
  }

  lemma {:induction false} SourceExists(e: Digraph, rest: set<string>) returns (a: string)
    requires Acyclic(e) && rest != {}
    ensures a in rest && !StaysIn(e, rest, a)
  {
    if forall b :: b in rest ==> StaysIn(e, rest, b) {
      a :| a in rest;
      WalkCloses(e, rest, [a]);
    } else {
      a :| a in rest && !StaysIn(e, rest, a);
    }
  }

  lemma {:induction false} GrowTopo(e: Digraph, order: seq<string>) returns (full: seq<string>)
    requires Closed(e) && Acyclic(e)
    requires NoDup(order) && Elements(order) <= e.Keys && SuccessorsEarlier(e, order)
    ensures IsTopo(e, full)
    decreases |e.Keys - Elements(order)|
  {
    var rest := e.Keys - Elements(order);
    if rest == {} {
      full := order;
    } else {
      var a := SourceExists(e, rest);
      forall b | Edge(e, a, b) ensures b in order {
        assert b in e.Keys;
      }
      TopoSnoc(e, order, a);
      assert e.Keys - Elements(order + [a]) == rest - {a};
      full := GrowTopo(e, order + [a]);
    }
  }

  /** Having no cycle and having a topological order are the same thing. */
  lemma AcyclicIffTopo(e: Digraph)
    requires Closed(e)
    ensures Acyclic(e) <==> exists order :: IsTopo(e, order)
  {
    if Acyclic(e) {
      var order := GrowTopo(e, []);
    }
    if order :| IsTopo(e, order) {
      TopoIsAcyclic(e, order);
    }
  }
}
