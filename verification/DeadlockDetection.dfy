/** Pairwise reference counting next to the reference graph, and the risk report drawn from it. */
module DeadlockDetection {
  import opened Prelude
  import opened Digraphs
  import opened ReferenceCycles

  datatype DeadlockStatus = Clear | Warning | Deadlock

  type Counts = map<(string, string), int>

  function Count(counts: Counts, a: string, b: string): int {
    if (a, b) in counts then counts[(a, b)] else 0
  }

  /** References in either direction, against one and two windows. */
  function Status(total: int, window: int): DeadlockStatus {
    if total >= window * 2 then Deadlock else if total >= window then Warning else Clear
  }

  /** The counts say how many parallel edges the graph holds. */
  ghost predicate CountsMatch(e: Digraph, counts: Counts) {
    forall a, b :: Count(counts, a, b) == Multiplicity(e, a, b)
  }

  lemma NothingTracked()
    ensures CountsMatch(map[], map[])
  {
  }

  lemma TrackedOnce(e: Digraph, counts: Counts, a: string, b: string)
    requires CountsMatch(e, counts)
    ensures CountsMatch(e[a := Successors(e, a) + [b]], counts[(a, b) := Count(counts, a, b) + 1])
  {
    var e' := e[a := Successors(e, a) + [b]];
    assert multiset(Successors(e', a)) == multiset(Successors(e, a)) + multiset{b};
    forall x, y ensures Count(counts[(a, b) := Count(counts, a, b) + 1], x, y) == Multiplicity(e', x, y) {
      assert Count(counts, x, y) == Multiplicity(e, x, y);
      assert x != a ==> Successors(e', x) == Successors(e, x);
    }
  }

  // ----- verdicts -----

  /** The references tracked between two agents, in either direction. */
  function References(e: Digraph, a: string, b: string): nat {
    Multiplicity(e, a, b) + Multiplicity(e, b, a)
  }

  function VerdictOn(counts: Counts, a: string, b: string, window: int): DeadlockStatus {
    Status(Count(counts, a, b) + Count(counts, b, a), window)
  }

  function Severity(s: DeadlockStatus): nat {
    match s
    case Clear => 0
    case Warning => 1
    case Deadlock => 2
  }

  /** One more reference never lowers a verdict, and changes it for no other pair of agents. */
  lemma TrackingOnlyRaises(counts: Counts, x: string, y: string, a: string, b: string, window: int)
    ensures var after := counts[(x, y) := Count(counts, x, y) + 1];
            && Severity(VerdictOn(counts, a, b, window)) <= Severity(VerdictOn(after, a, b, window))
            && ({a, b} != {x, y} ==> VerdictOn(after, a, b, window) == VerdictOn(counts, a, b, window))
  {
    if (a, b) == (x, y) || (b, a) == (x, y) {
      assert {a, b} == {x, y};
    }
  }

  ghost function Agents(counts: Counts): set<string> {
    (set p | p in counts :: p.0) + (set p | p in counts :: p.1)
  }

  /** The entries a report must consist of: ordered pairs of known agents that are not clear. */
  ghost predicate AtRisk(counts: Counts, window: int, r: (string, string, DeadlockStatus)) {
    && r.0 in Agents(counts) && r.1 in Agents(counts) && !LexLeq(r.1, r.0)
    && r.2 == VerdictOn(counts, r.0, r.1, window) && r.2 != Clear
  }

  /** A pair is listed, smaller id first, exactly from one window of references on, as a deadlock from two. */
  lemma {:induction false} AtRiskMeaning(
      e: Digraph, counts: Counts, window: int, a: string, b: string, s: DeadlockStatus)
    requires CountsMatch(e, counts) && window > 0
    ensures AtRisk(counts, window, (a, b, s)) <==>
            && LexLeq(a, b) && a != b && References(e, a, b) >= window
            && s == if References(e, a, b) >= 2 * window then Deadlock else Warning
  {
    assert Count(counts, a, b) == Multiplicity(e, a, b) && Count(counts, b, a) == Multiplicity(e, b, a);
    LexTotal(a, b);
    if LexLeq(a, b) && LexLeq(b, a) {
      LexAntisymmetric(a, b);
    }
    if a != b && References(e, a, b) >= window {
      RiskComplete(counts, window, a, b);
    }
  }

  /** With a positive window, every pair of agents above it is known and shows up one way round. */
  lemma RiskComplete(counts: Counts, window: int, a: string, b: string)
    requires window > 0 && a != b
    requires Count(counts, a, b) + Count(counts, b, a) >= window
    ensures exists s :: AtRisk(counts, window, (a, b, s)) || AtRisk(counts, window, (b, a, s))
  {
    var s := VerdictOn(counts, a, b, window);
    assert (a, b) in counts || (b, a) in counts;
    assert a in Agents(counts) && b in Agents(counts) by {
      if (a, b) in counts {
        assert (a, b).0 == a && (a, b).1 == b;
      } else {
        assert (b, a).0 == b && (b, a).1 == a;
      }
    }
    if LexLeq(b, a) {
      if LexLeq(a, b) {
        LexAntisymmetric(a, b);
      }
      assert AtRisk(counts, window, (b, a, s));
    } else {
      assert AtRisk(counts, window, (a, b, s));
    }
  }

  /** A mutual reference is a two-node cycle, reported once per pair of opposite references. */
  lemma {:induction false} MutualReferencesReported(
      e: Digraph, counts: Counts, starts: seq<string>, d: int, a: string, b: string)
    requires NoDup(starts) && Elements(starts) == e.Keys && CountsMatch(e, counts) && a != b && d >= 2
    ensures multiset(ExploreAll(e, starts, d))[[a, b]] == Count(counts, a, b) * Count(counts, b, a)
  {
    var p := [a, b];
    EnumerationExact(e, starts, d, p);
    assert LoopFree(p);
    assert Ways(e, p, 1) == Multiplicity(e, b, a);
    assert Ways(e, p, 0) == Multiplicity(e, a, b) * Multiplicity(e, b, a);
    WaysPositive(e, p, 0);
    if !ReportedWalk(e, p, d) {
      assert !(Edge(e, a, b) && Edge(e, b, a));
      assert Multiplicity(e, a, b) == 0 || Multiplicity(e, b, a) == 0;
    }
  }

  class DeadlockDetector {
    const graph: ReferenceGraph
    const window: int
    var refCount: Counts

    ghost predicate Valid()
      reads this, graph
    {
      graph.Valid() && CountsMatch(graph.edges, refCount)
    }

    constructor (window: int)
      ensures Valid() && fresh(graph) && this.window == window && refCount == map[]
    {
      this.window := window;
      graph := new ReferenceGraph();
      refCount := map[];
      new;
      NothingTracked();
    }

    method TrackReference(a: string, b: string)
      requires Valid()
      modifies this, graph
      ensures Valid()
      ensures refCount == old(refCount)[(a, b) := Count(old(refCount), a, b) + 1]
      ensures graph.edges == old(graph.edges)[a := Successors(old(graph.edges), a) + [b]]
      ensures graph.starts == old(graph.starts) + if a in old(graph.edges) then [] else [a]
    {
      TrackedOnce(graph.edges, refCount, a, b);
      graph.AddEdge(a, b);
      refCount := refCount[(a, b) := Count(refCount, a, b) + 1];
    }

    /** The verdict on the references tracked between two agents, in whichever direction. */
    method CheckCircular(a: string, b: string, window: int) returns (s: DeadlockStatus)
      requires Valid()
      ensures s == Deadlock <==> References(graph.edges, a, b) >= 2 * window
      ensures s == Clear <==> References(graph.edges, a, b) < window && References(graph.edges, a, b) < 2 * window
      ensures s == VerdictOn(refCount, b, a, window)
    {
      assert Count(refCount, a, b) == Multiplicity(graph.edges, a, b);
      assert Count(refCount, b, a) == Multiplicity(graph.edges, b, a);
      var total := Count(refCount, a, b) + Count(refCount, b, a);
      if total >= window * 2 {
        return Deadlock;
      }
      if total >= window {
        return Warning;
      }
      return Clear;
    }

    /** Reports every pair at risk once, in one direction. */
    method GetDeadlockRisk() returns (risks: seq<(string, string, DeadlockStatus)>)
      requires Valid()
      ensures NoDup(risks)
      ensures forall r :: r in risks <==> AtRisk(refCount, window, r)
    {
      risks := [];
      var agents := (set p | p in refCount :: p.0) + (set p | p in refCount :: p.1);
      var todo := agents;
      while todo != {}
        invariant todo <= agents && NoDup(risks)
        invariant forall r :: r in risks <==> AtRisk(refCount, window, r) && r.0 !in todo
        decreases todo
      {
        var a :| a in todo;
        var rest := agents;
        while rest != {}
          invariant rest <= agents && NoDup(risks)
          invariant forall r :: r in risks <==>
                      AtRisk(refCount, window, r) && (r.0 !in todo || (r.0 == a && r.1 !in rest))
          decreases rest
        {
          var b :| b in rest;
          if !LexLeq(b, a) {
            var s := CheckCircular(a, b, window);
            if s != Clear {
              NoDupSnoc(risks, (a, b, s));
              risks := risks + [(a, b, s)];
            }
          }
          rest := rest - {b};
        }
        todo := todo - {a};
      }
    }
  }
}
