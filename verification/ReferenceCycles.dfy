/** Bounded enumeration of reference cycles between agents, by backtracking search. */
module ReferenceCycles {
  import opened Prelude
  import opened Digraphs

  function Successors(e: Digraph, a: string): seq<string> {
    if a in e then e[a] else []
  }

  // ----- the search as a function -----

  function Budget(path: seq<string>, d: int): nat {
    if |path| > d then 0 else d + 1 - |path|
  }

  /** What one call reports: every way of extending `path` from `node` back to `start`. */
  function Explore(e: Digraph, node: string, start: string, path: seq<string>, visited: set<string>, d: int)
    : seq<seq<string>>
    decreases Budget(path, d), 1, 0
  {
    if |path| > d then [] else ExploreEdges(e, Successors(e, node), start, path, visited, d)
  }

  /** What following one edge adds: the closed path, a deeper search, or nothing. */
  function ExploreEdge(e: Digraph, next: string, start: string, path: seq<string>, visited: set<string>, d: int)
    : seq<seq<string>>
    requires |path| <= d
    decreases Budget(path, d), 0, 0
  {
    if next == start && |path| >= 2 then [path]
    else if next !in visited then Explore(e, next, start, path + [next], visited + {next}, d)
    else []
  }

  function ExploreEdges(e: Digraph, nexts: seq<string>, start: string, path: seq<string>, visited: set<string>, d: int)
    : seq<seq<string>>
    requires |path| <= d
    decreases Budget(path, d), 0, |nexts| + 1
  {
    if nexts == [] then []
    else ExploreEdge(e, nexts[0], start, path, visited, d) + ExploreEdges(e, nexts[1..], start, path, visited, d)
  }

  function ExploreAll(e: Digraph, starts: seq<string>, d: int): seq<seq<string>> {
    if starts == [] then []
    else Explore(e, starts[0], starts[0], [starts[0]], {}, d) + ExploreAll(e, starts[1..], d)
  }

  // ----- what a report means -----

  /** Parallel references count separately. */
  function Multiplicity(e: Digraph, a: string, b: string): nat {
    multiset(Successors(e, a))[b]
  }

  lemma PositiveProduct(m: nat, w: nat)
    ensures m * w >= 0 && (m * w > 0 <==> m > 0 && w > 0)
  {
  }

  /** In how many ways the rest of the closed walk `p`, from position `i`, can be followed. */
  function Ways(e: Digraph, p: seq<string>, i: nat): nat
    requires i < |p|
    decreases |p| - i
  {
    if i + 1 < |p| then
      var m, w := Multiplicity(e, p[i], p[i + 1]), Ways(e, p, i + 1);
      PositiveProduct(m, w);
      m * w
    else Multiplicity(e, p[i], p[0])
  }

  /** No node twice, except that the start may come a second time right at the beginning. */
  ghost predicate LoopFree(p: seq<string>) {
    (p != [] ==> NoDup(p[1..])) && forall i :: 2 <= i < |p| ==> p[i] != p[0]
  }

  ghost predicate Reportable(p: seq<string>, d: int) {
    2 <= |p| <= d && LoopFree(p)
  }

  /** A partial path as the search builds it. */
  ghost predicate Partial(path: seq<string>, start: string, node: string, visited: set<string>) {
    && |path| >= 1 && path[0] == start && path[|path| - 1] == node
    && LoopFree(path) && visited == Elements(path[1..])
  }

  lemma PartialSnoc(path: seq<string>, start: string, node: string, visited: set<string>, n: string)
    requires Partial(path, start, node, visited) && n !in visited && !(n == start && |path| >= 2)
    ensures Partial(path + [n], start, n, visited + {n})
  {
    LoopFreeSnoc(path, n);
    TailSnoc(path, n);
    NoDupSnoc(path[1..], n);
    hide LoopFree, NoDup, Elements;
  }

  lemma LoopFreeSnoc(path: seq<string>, n: string)
    requires path != [] && LoopFree(path) && n !in path[1..] && !(n == path[0] && |path| >= 2)
    ensures LoopFree(path + [n]) && NoDup(path[1..]) && n !in path[1..]
  {
    TailSnoc(path, n);
    NoDupSnoc(path[1..], n);
    StartStaysAhead(path, n);
    hide NoDup;
  }

  lemma TailSnoc(path: seq<string>, n: string)
    requires path != []
    ensures (path + [n])[1..] == path[1..] + [n]
  {
  }

  lemma StartStaysAhead(path: seq<string>, n: string)
    requires path != [] && (|path| >= 2 ==> n != path[0])
    requires forall i :: 2 <= i < |path| ==> path[i] != path[0]
    ensures forall i :: 2 <= i < |path + [n]| ==> (path + [n])[i] != (path + [n])[0]
  {
  }

  lemma NextIsNew(path: seq<string>, start: string, node: string, visited: set<string>, p: seq<string>)
    requires Partial(path, start, node, visited) && path <= p && |path| < |p| && LoopFree(p)
    ensures p[|path|] !in visited && (p[|path|] == start ==> |path| == 1)
  {
  }

  /** How often the reports behind one edge contain `p`. */
  function Behind(e: Digraph, n: string, start: string, path: seq<string>, visited: set<string>, d: int, p: seq<string>)
    : nat
    requires |path| <= d
  {
    multiset(ExploreEdge(e, n, start, path, visited, d))[p]
  }

  /** The edge that leads from `path` on towards `p`. */
  function Step(path: seq<string>, p: seq<string>): string
    requires path <= p && |path| >= 1
  {
    if |path| < |p| then p[|path|] else p[0]
  }

  lemma PrefixSnoc(path: seq<string>, n: string, p: seq<string>)
    ensures path + [n] <= p <==> path <= p && |path| < |p| && p[|path|] == n
  {
  }

  /** Each call reports `p` once for every way of following it, and nothing else. */
  lemma {:induction false} ExploreCounts(
      e: Digraph, node: string, start: string, path: seq<string>, visited: set<string>, d: int, p: seq<string>)
    requires Partial(path, start, node, visited)
    ensures multiset(Explore(e, node, start, path, visited, d))[p]
            == if path <= p && Reportable(p, d) then Ways(e, p, |path| - 1) else 0
    decreases Budget(path, d), 1, 0
  {
    hide LoopFree, ExploreEdges;
    if |path| <= d {
      EdgesCount(e, Successors(e, node), node, start, path, visited, d, p);
      if path <= p && Reportable(p, d) {
        StepBehind(e, node, start, path, visited, d, p);
        assert p[|path| - 1] == node;
      }
    }
  }

  /** Behind the edge leading towards `p` lie the remaining ways of following it. */
  lemma {:induction false} StepBehind(
      e: Digraph, node: string, start: string, path: seq<string>, visited: set<string>, d: int, p: seq<string>)
    requires Partial(path, start, node, visited) && |path| <= d && path <= p && Reportable(p, d)
    ensures Behind(e, Step(path, p), start, path, visited, d, p) == if |path| < |p| then Ways(e, p, |path|) else 1
    decreases Budget(path, d), 0, 0
  {
    hide LoopFree, Explore, Ways;
    if |path| < |p| {
      NextIsNew(path, start, node, visited, p);
      PartialSnoc(path, start, node, visited, p[|path|]);
      PrefixSnoc(path, p[|path|], p);
      ExploreCounts(e, p[|path|], start, path + [p[|path|]], visited + {p[|path|]}, d, p);
    } else {
      assert p == path;
    }
  }

  lemma {:induction false} FirstEdge(
      e: Digraph, nexts: seq<string>, start: string, path: seq<string>, visited: set<string>, d: int,
      p: seq<string>)
    requires nexts != [] && |path| <= d
    ensures multiset(ExploreEdges(e, nexts, start, path, visited, d))[p]
            == Behind(e, nexts[0], start, path, visited, d, p)
               + multiset(ExploreEdges(e, nexts[1..], start, path, visited, d))[p]
  {
  }

  lemma CountHead(nexts: seq<string>, s: string, c: nat)
    requires nexts != []
    ensures multiset(nexts)[s] * c == (if nexts[0] == s then c else 0) + multiset(nexts[1..])[s] * c
  {
    assert nexts == [nexts[0]] + nexts[1..];
  }

  /** Summed over the edges: only the edge leading towards `p` contributes, once per copy. */
  lemma {:induction false} EdgesCount(
      e: Digraph, nexts: seq<string>, node: string, start: string, path: seq<string>, visited: set<string>,
      d: int, p: seq<string>)
    requires Partial(path, start, node, visited) && |path| <= d
    ensures multiset(ExploreEdges(e, nexts, start, path, visited, d))[p]
            == if path <= p && Reportable(p, d)
               then multiset(nexts)[Step(path, p)] * Behind(e, Step(path, p), start, path, visited, d, p) else 0
    decreases Budget(path, d), 0, |nexts| + 1
  {
    if nexts != [] {
      hide Partial, Reportable, Behind, ExploreEdge, ExploreEdges;
      FirstEdge(e, nexts, start, path, visited, d, p);
      EdgesCount(e, nexts[1..], node, start, path, visited, d, p);
      OtherEdge(e, nexts[0], node, start, path, visited, d, p);
      if path <= p && Reportable(p, d) {
        CountHead(nexts, Step(path, p), Behind(e, Step(path, p), start, path, visited, d, p));
      }
    }
  }

  /** An edge that does not lead towards `p` reports it never. */
  lemma {:induction false} OtherEdge(
      e: Digraph, n: string, node: string, start: string, path: seq<string>, visited: set<string>, d: int,
      p: seq<string>)
    requires Partial(path, start, node, visited) && |path| <= d
    ensures !(path <= p && Reportable(p, d) && n == Step(path, p)) ==> Behind(e, n, start, path, visited, d, p) == 0
    decreases Budget(path, d), 0, 0
  {
    hide Explore;
    if n == start && |path| >= 2 {
      if p == path { assert Reportable(p, d); }
    } else if n !in visited {
      PartialSnoc(path, start, node, visited, n);
      ExploreCounts(e, n, start, path + [n], visited + {n}, d, p);
      PrefixSnoc(path, n, p);
    }
  }

  // ----- the whole enumeration -----

  /** A closed walk over tracked references that may be reported. */
  ghost predicate ReportedWalk(e: Digraph, p: seq<string>, d: int) {
    Reportable(p, d) && Walk(e, p) && Edge(e, p[|p| - 1], p[0])
  }

  lemma {:induction false} WaysPositive(e: Digraph, p: seq<string>, i: nat)
    requires i < |p|
    ensures Ways(e, p, i) > 0 <==>
            Edge(e, p[|p| - 1], p[0]) && forall k :: i <= k < |p| - 1 ==> Edge(e, p[k], p[k + 1])
    decreases |p| - i
  {
    if i + 1 < |p| {
      WaysPositive(e, p, i + 1);
      PositiveProduct(Multiplicity(e, p[i], p[i + 1]), Ways(e, p, i + 1));
    }
  }

  lemma {:induction false} ExploreAllCounts(e: Digraph, starts: seq<string>, d: int, p: seq<string>)
    requires NoDup(starts)
    ensures multiset(ExploreAll(e, starts, d))[p] == if Reportable(p, d) && p[0] in starts then Ways(e, p, 0) else 0
  {
    if starts != [] {
      var s := starts[0];
      ExploreCounts(e, s, s, [s], {}, d, p);
      assert Reportable(p, d) ==> ([s] <= p <==> p[0] == s);
      assert forall x :: x in starts <==> x == s || x in starts[1..];
      assert s !in starts[1..];
      ExploreAllCounts(e, starts[1..], d, p);
    }
  }

  /**
   * A node list is reported exactly as often as there are choices of parallel references along
   * it; so it is reported at all iff it is a closed, loop-free walk of length 2 to `d`.
   */
  lemma {:induction false} EnumerationExact(e: Digraph, starts: seq<string>, d: int, p: seq<string>)
    requires NoDup(starts) && Elements(starts) == e.Keys
    ensures multiset(ExploreAll(e, starts, d))[p] == if ReportedWalk(e, p, d) then Ways(e, p, 0) else 0
    ensures p in ExploreAll(e, starts, d) <==> ReportedWalk(e, p, d)
  {
    ExploreAllCounts(e, starts, d, p);
    if Reportable(p, d) {
      WaysPositive(e, p, 0);
      if ReportedWalk(e, p, d) {
        assert Edge(e, p[0], p[1]);
        assert p[0] in Elements(starts);
      }
    }
    assert p in ExploreAll(e, starts, d) <==> multiset(ExploreAll(e, starts, d))[p] > 0;
  }

  lemma {:induction false} ExploreStarts(e: Digraph, starts: seq<string>, d: int)
    ensures forall p :: p in ExploreAll(e, starts, d) ==> p != [] && p[0] in starts
  {
    if starts != [] {
      var s := starts[0];
      ExploreStarts(e, starts[1..], d);
      forall p | p in Explore(e, s, s, [s], {}, d) ensures p != [] && p[0] == s {
        ExploreCounts(e, s, s, [s], {}, d, p);
        assert multiset(Explore(e, s, s, [s], {}, d))[p] > 0;
      }
    }
  }

  /** The reports come start by start, in the order of the starts. */
  lemma {:induction false} ReportsByStart(e: Digraph, starts: seq<string>, d: int, i: nat, j: nat)
    returns (a: nat, b: nat)
    requires i <= j < |ExploreAll(e, starts, d)|
    ensures a <= b < |starts|
    ensures var reports := ExploreAll(e, starts, d);
            reports[i] != [] && reports[i][0] == starts[a] && reports[j] != [] && reports[j][0] == starts[b]
  {
    var s := starts[0];
    var first := Explore(e, s, s, [s], {}, d);
    var reports := ExploreAll(e, starts, d);
    a, b := 0, 0;
    if i >= |first| {
      a, b := ReportsByStart(e, starts[1..], d, i - |first|, j - |first|);
      a, b := a + 1, b + 1;
    } else {
      ExploreStarts(e, [s], d);
      assert ExploreAll(e, [s], d) == first + [];
      assert reports[i] in first;
      if j < |first| {
        assert reports[j] in first;
      } else {
        ExploreStarts(e, starts[1..], d);
        assert reports[j] in ExploreAll(e, starts[1..], d);
        var k :| 0 <= k < |starts| - 1 && starts[1..][k] == reports[j][0];
        b := k + 1;
      }
    }
  }

  // ----- simple cycles -----

  ghost predicate SimpleCycle(e: Digraph, p: seq<string>, d: int) {
    2 <= |p| <= d && Walk(e, p) && NoDup(p) && Edge(e, p[|p| - 1], p[0])
  }

  ghost predicate ReportsSimpleCycles(e: Digraph, starts: seq<string>, d: int) {
    forall p :: p in ExploreAll(e, starts, d) <==> SimpleCycle(e, p, d)
  }

  ghost predicate NoSelfReference(e: Digraph) {
    forall a :: !Edge(e, a, a)
  }

  lemma SimpleIsReported(e: Digraph, p: seq<string>, d: int)
    requires SimpleCycle(e, p, d)
    ensures ReportedWalk(e, p, d)
  {
  }

  lemma ReportedIsSimple(e: Digraph, p: seq<string>, d: int)
    requires ReportedWalk(e, p, d) && NoSelfReference(e)
    ensures SimpleCycle(e, p, d)
  {
  }

  /**
   * The enumeration is the set of simple cycles of length 2 to `d`, exactly when nobody refers
   * to itself (or the bound is too small to report anything).
   */
  lemma SimpleCyclesIff(e: Digraph, starts: seq<string>, d: int)
    requires NoDup(starts) && Elements(starts) == e.Keys
    ensures ReportsSimpleCycles(e, starts, d) <==> NoSelfReference(e) || d < 2
  {
    if NoSelfReference(e) || d < 2 {
      forall p ensures p in ExploreAll(e, starts, d) <==> SimpleCycle(e, p, d) {
        EnumerationExact(e, starts, d, p);
        if SimpleCycle(e, p, d) { SimpleIsReported(e, p, d); }
        if ReportedWalk(e, p, d) { ReportedIsSimple(e, p, d); }
      }
    } else {
      var a :| Edge(e, a, a);
      EnumerationExact(e, starts, d, [a, a]);
      assert ReportedWalk(e, [a, a], d);
      assert [a, a][0] == [a, a][1];
    }
  }

  /** A simple cycle is reported from each of its nodes. */
  lemma {:induction false} RotationsReported(e: Digraph, starts: seq<string>, d: int, p: seq<string>, k: nat)
    requires NoDup(starts) && Elements(starts) == e.Keys
    requires SimpleCycle(e, p, d) && k < |p|
    ensures p[k..] + p[..k] in ExploreAll(e, starts, d)
  {
    var q := p[k..] + p[..k];
    if k == 0 {
      assert q == p;
    } else {
      WalkSlice(e, p, k, |p|);
      WalkSlice(e, p, 0, k);
      WalkConcat(e, p[k..|p|], p[0..k]);
      assert Edge(e, p[k - 1], p[k]);
      assert q == p[k..|p|] + p[0..k];
      RotationDistinct(p, k);
    }
    SimpleIsReported(e, q, d);
    EnumerationExact(e, starts, d, q);
  }

  lemma RotationDistinct(p: seq<string>, k: nat)
    requires NoDup(p) && k <= |p|
    ensures NoDup(p[k..] + p[..k])
  {
  }

  // ----- the mutable objects -----

  class ReferenceGraph {
    var edges: Digraph
    var starts: seq<string>  // the keys of `edges`, in insertion order

    ghost predicate Valid()
      reads this
    {
      NoDup(starts) && Elements(starts) == edges.Keys
    }

    constructor ()
      ensures Valid() && edges == map[]
    {
      edges, starts := map[], [];
    }

    method AddEdge(a: string, b: string)
      requires Valid()
      modifies this
      ensures Valid()
      ensures edges == old(edges)[a := Successors(old(edges), a) + [b]]
      ensures starts == old(starts) + if a in old(edges) then [] else [a]
    {
      if a !in edges {
        NoDupSnoc(starts, a);
        starts := starts + [a];
      }
      edges := edges[a := Successors(edges, a) + [b]];
    }

    /** Soundness and completeness of these reports are `EnumerationExact` and `SimpleCyclesIff`. */
    method FindCycles(d: int) returns (cycles: seq<seq<string>>)
      requires Valid()
      ensures cycles == ExploreAll(edges, starts, d)
    {
      hide Explore;
      cycles := [];
      for i := 0 to |starts|
        invariant cycles + ExploreAll(edges, starts[i..], d) == ExploreAll(edges, starts, d)
      {
        assert starts[i..][0] == starts[i] && starts[i..][1..] == starts[i + 1..];
        var search := new PathSearch();
        search.Dfs(edges, starts[i], starts[i], [starts[i]], d);
        ghost var rest := ExploreAll(edges, starts[i + 1..], d);
        assert cycles + (search.cycles + rest) == (cycles + search.cycles) + rest;
        cycles := cycles + search.cycles;
      }
    }
  }

  /** The set and the list one search shares between all its recursive calls. */
  class PathSearch {
    var visited: set<string>
    var cycles: seq<seq<string>>

    constructor ()
      ensures visited == {} && cycles == []
    {
      visited, cycles := {}, [];
    }

    method Follow(e: Digraph, next: string, start: string, path: seq<string>, d: int)
      requires |path| <= d
      modifies this
      ensures visited == old(visited)
      ensures cycles == old(cycles) + ExploreEdge(e, next, start, path, old(visited), d)
      decreases Budget(path, d), 0
    {
      hide Explore;
      if next == start && |path| >= 2 {
        cycles := cycles + [path];
      } else if next !in visited {
        visited := visited + {next};
        Dfs(e, next, start, path + [next], d);
        visited := visited - {next};
      }
    }

    /** Every call leaves the visited set as it found it. */
    method Dfs(e: Digraph, node: string, start: string, path: seq<string>, d: int)
      modifies this
      ensures visited == old(visited)
      ensures cycles == old(cycles) + Explore(e, node, start, path, old(visited), d)
      decreases Budget(path, d), 1
    {
      hide ExploreEdge;
      if |path| > d {
        return;
      }
      var nexts := Successors(e, node);
      for i := 0 to |nexts|
        invariant visited == old(visited)
        invariant cycles + ExploreEdges(e, nexts[i..], start, path, visited, d)
                  == old(cycles) + ExploreEdges(e, nexts, start, path, visited, d)
      {
        assert nexts[i..][1..] == nexts[i + 1..];
        Follow(e, nexts[i], start, path, d);
      }
    }
  }
}
