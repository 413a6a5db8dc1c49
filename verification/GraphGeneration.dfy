/** The two ways a task graph is built, and why validation never rejects what they should build. */
module GraphGeneration {
  import opened Prelude
  import opened Digraphs
  import opened TaskGraphs
  import opened GraphValidation
  import opened Executor
  import opened ExecutorRivals

  /** A graph, or the index error that an out-of-range negative index raises. */
  datatype Generated = Graph(tasks: seq<TaskNode>) | IndexError

  /** A new node: no artifact paths, and the default priority of a node that names none. */
  function NewTask(id: Id, dependsOn: seq<Id>): TaskNode {
    TaskNode(id, dependsOn, [], 2)
  }

  /** Ids the uuid source hands out: distinct and non-empty. */
  predicate FreshIds(ids: seq<Id>) {
    NoDup(ids) && "" !in ids
  }

  // ----- the model's own output: dependencies given as indices -----

  /** Where index `j` of item `i` points into the `i + 1` ids known by then, as Python reads it. */
  function Position(i: nat, j: int): int {
    if j >= 0 then j else i + 1 + j
  }

  /** Indices from `i` on are dropped; an index below the list's start is an error. */
  function ResolveDeps(ids: seq<Id>, i: nat, indices: seq<int>): Option<seq<Id>>
    requires i < |ids|
  {
    if indices == [] then Some([])
    else if indices[0] >= i then ResolveDeps(ids, i, indices[1..])
    else if Position(i, indices[0]) < 0 then None
    else
      var rest := ResolveDeps(ids, i, indices[1..]);
      if rest.None? then None else Some([ids[Position(i, indices[0])]] + rest.value)
  }

  predicate InRange(i: nat, indices: seq<int>) {
    forall j :: j in indices ==> j >= -(i + 1)
  }

  lemma {:induction false} ResolvesIffInRange(ids: seq<Id>, i: nat, indices: seq<int>)
    requires i < |ids|
    ensures ResolveDeps(ids, i, indices).Some? <==> InRange(i, indices)
  {
    if indices != [] {
      ResolvesIffInRange(ids, i, indices[1..]);
      assert forall j :: j in indices <==> j == indices[0] || j in indices[1..];
      assert indices[0] in indices;
      if InRange(i, indices) {
        assert forall j :: j in indices[1..] ==> j in indices;
        assert InRange(i, indices[1..]);
      }
    }
  }

  ghost predicate PointedTo(ids: seq<Id>, i: nat, indices: seq<int>, d: Id)
    requires i < |ids| && InRange(i, indices)
  {
    exists j :: j in indices && j < i && d == ids[Position(i, j)]
  }

  /** The resolved dependencies are exactly the ids the kept indices point to. */
  lemma {:induction false} ResolveMeaning(ids: seq<Id>, i: nat, indices: seq<int>, d: Id)
    requires i < |ids| && InRange(i, indices)
    ensures ResolveDeps(ids, i, indices).Some?
    ensures d in ResolveDeps(ids, i, indices).value <==> PointedTo(ids, i, indices, d)
  {
    ResolvesIffInRange(ids, i, indices);
    if indices != [] {
      var j0, rest := indices[0], indices[1..];
      assert forall j :: j in indices <==> j == j0 || j in rest;
      ResolveMeaning(ids, i, rest, d);
      if PointedTo(ids, i, rest, d) {
        var j :| j in rest && j < i && d == ids[Position(i, j)];
        assert j in indices;
      }
    }
  }

  ghost predicate BuiltFrom(tasks: seq<TaskNode>, raw: seq<seq<int>>, ids: seq<Id>) {
    && |tasks| <= |raw| && |raw| <= |ids|
    && forall i :: 0 <= i < |tasks| ==>
         ResolveDeps(ids, i, raw[i]).Some? && tasks[i] == NewTask(ids[i], ResolveDeps(ids, i, raw[i]).value)
  }

  method ResolveIndices(known: seq<Id>, ghost ids: seq<Id>, i: nat, indices: seq<int>) returns (deps: Option<seq<Id>>)
    requires i < |ids| && known == ids[..i + 1]
    ensures deps == ResolveDeps(ids, i, indices)
  {
    var found: seq<Id> := [];
    assert forall tail: seq<Id> :: found + tail == tail;
    for k := 0 to |indices|
      invariant var rest := ResolveDeps(ids, i, indices[k..]);
                ResolveDeps(ids, i, indices) == if rest.None? then None else Some(found + rest.value)
    {
      assert indices[k..][1..] == indices[k + 1..];
      var j := indices[k];
      if j < i {
        if Position(i, j) < 0 {
          return None;
        }
        var dep := [known[Position(i, j)]];
        assert forall tail: seq<Id> :: found + (dep + tail) == (found + dep) + tail;
        found := found + dep;
      }
    }
    assert found + [] == found;
    return Some(found);
  }

  /** The indices of item `i` that point before it. */
  function PointingBack(indices: seq<int>, i: nat): seq<int> {
    if indices == [] then []
    else (if indices[0] < i then [indices[0]] else []) + PointingBack(indices[1..], i)
  }

  lemma {:induction false} PointingBackMeaning(indices: seq<int>, i: nat)
    ensures forall j :: j in PointingBack(indices, i) <==> j in indices && j < i
    ensures (forall j :: j in indices ==> j < i) ==> PointingBack(indices, i) == indices
  {
    if indices != [] {
      var rest := indices[1..];
      PointingBackMeaning(rest, i);
      assert indices == [indices[0]] + rest;
      assert forall j :: j in indices <==> j == indices[0] || j in rest;
      if forall j :: j in indices ==> j < i {
        assert indices[0] in indices && forall j :: j in rest ==> j in indices;
      }
    }
  }

  lemma {:induction false} ResolveInOrder(ids: seq<Id>, i: nat, indices: seq<int>)
    requires i < |ids| && InRange(i, indices)
    ensures ResolveDeps(ids, i, indices).Some?
    ensures var deps, kept := ResolveDeps(ids, i, indices).value, PointingBack(indices, i);
            && |deps| == |kept|
            && forall k :: 0 <= k < |kept| ==>
                 -(i + 1) <= kept[k] < i && deps[k] == ids[if kept[k] >= 0 then kept[k] else i + 1 + kept[k]]
  {
    ResolvesIffInRange(ids, i, indices);
    if indices != [] {
      assert indices == [indices[0]] + indices[1..];
      assert forall j :: j in indices[1..] ==> j in indices;
      ResolveInOrder(ids, i, indices[1..]);
    }
  }

  /**
   * The edges as the model listed them. Indices at or above the item's own position add nothing;
   * the others give one dependency each, in order: a non-negative index the task at that position,
   * a negative one the task that far back from the item itself, counted from -1.
   */
  ghost predicate EdgesAsListed(tasks: seq<TaskNode>, raw: seq<seq<int>>)
    requires |tasks| == |raw|
  {
    forall i :: 0 <= i < |raw| ==> EdgesOf(tasks, raw[i], i)
  }

  /** What index `j` of item `i` names. */
  function IdAt(tasks: seq<TaskNode>, i: nat, j: int): Id
    requires i < |tasks| && -(i + 1) <= j < i
  {
    tasks[if j >= 0 then j else i + 1 + j].id
  }

  ghost predicate EdgesOf(tasks: seq<TaskNode>, indices: seq<int>, i: nat)
    requires i < |tasks|
  {
    var deps := tasks[i].dependsOn;
    && (forall d :: d in deps <==> exists j :: j in indices && -(i + 1) <= j < i && d == IdAt(tasks, i, j))
    && ((forall k :: 0 <= k < |indices| ==> -(i + 1) <= indices[k] < i) ==>
          |deps| == |indices| && forall k :: 0 <= k < |deps| ==> deps[k] == IdAt(tasks, i, indices[k]))
  }

  lemma {:induction false} BuiltHasEdges(tasks: seq<TaskNode>, raw: seq<seq<int>>, ids: seq<Id>, i: nat)
    requires |tasks| == |raw| && BuiltFrom(tasks, raw, ids) && i < |raw|
    ensures EdgesOf(tasks, raw[i], i)
  {
    var indices := raw[i];
    ResolvesIffInRange(ids, i, indices);
    ResolveInOrder(ids, i, indices);
    PointingBackMeaning(indices, i);
    assert forall k :: 0 <= k < |tasks| ==> tasks[k].id == ids[k];
    assert tasks[i].dependsOn == ResolveDeps(ids, i, indices).value;
    hide BuiltFrom, ResolveDeps, PointingBack, InRange;
    EdgesFromKept(tasks, indices, PointingBack(indices, i), i);
  }

  /** Dependencies listed in the order of the indices that point back are the edges as listed. */
  lemma {:induction false} EdgesFromKept(tasks: seq<TaskNode>, indices: seq<int>, kept: seq<int>, i: nat)
    requires i < |tasks| && |tasks[i].dependsOn| == |kept|
    requires forall j :: j in kept <==> j in indices && j < i
    requires (forall j :: j in indices ==> j < i) ==> kept == indices
    requires forall k :: 0 <= k < |kept| ==> -(i + 1) <= kept[k] < i && tasks[i].dependsOn[k] == IdAt(tasks, i, kept[k])
    ensures EdgesOf(tasks, indices, i)
  {
    var deps := tasks[i].dependsOn;
    forall d | d in deps ensures exists j :: j in indices && -(i + 1) <= j < i && d == IdAt(tasks, i, j) {
      var k :| 0 <= k < |deps| && deps[k] == d;
      assert kept[k] in kept;
    }
    forall j | j in indices && -(i + 1) <= j < i ensures IdAt(tasks, i, j) in deps {
      assert j in kept;
      var k :| 0 <= k < |kept| && kept[k] == j;
      assert deps[k] in deps;
    }
  }

  /** Builds one node per item, in order, pointing back into the ids made so far. */
  method LlmGenerate(raw: seq<seq<int>>, uuids: seq<Id>) returns (r: Generated)
    requires |raw| <= |uuids|
    ensures r.Graph? <==> forall i :: 0 <= i < |raw| ==> InRange(i, raw[i])
    ensures r.Graph? ==> |r.tasks| == |raw| && BuiltFrom(r.tasks, raw, uuids)
    ensures r.Graph? ==> EdgesAsListed(r.tasks, raw) && forall i :: 0 <= i < |raw| ==> r.tasks[i].id == uuids[i]
    ensures r.Graph? ==> forall t :: t in r.tasks ==> t.artifactPaths == [] && t.priority == 2
  {
    var tasks: seq<TaskNode> := [];
    var known: seq<Id> := [];
    for i := 0 to |raw|
      invariant |tasks| == i && known == uuids[..i] && BuiltFrom(tasks, raw, uuids)
      invariant forall k :: 0 <= k < i ==> InRange(k, raw[k])
    {
      known := known + [uuids[i]];
      ResolvesIffInRange(uuids, i, raw[i]);
      var deps := ResolveIndices(known, uuids, i, raw[i]);
      if deps.None? {
        return IndexError;
      }
      tasks := tasks + [NewTask(uuids[i], deps.value)];
    }
    forall i | 0 <= i < |raw| ensures EdgesOf(tasks, raw[i], i) {
      BuiltHasEdges(tasks, raw, uuids, i);
    }
    return Graph(tasks);
  }

  // ----- lists in which every task points backwards -----

  /** Task `i` carries id `i` and depends only on ids listed before it. */
  ghost predicate PointsBack(g: seq<TaskNode>, ids: seq<Id>) {
    && |g| <= |ids|
    && forall i :: 0 <= i < |g| ==> g[i].id == ids[i] && forall d :: d in g[i].dependsOn ==> d in ids[..i]
  }

  lemma PointsBackUnique(g: seq<TaskNode>, ids: seq<Id>)
    requires NoDup(ids) && PointsBack(g, ids)
    ensures UniqueIds(g) && Ids(g) == Elements(ids[..|g|])
  {
  }

  lemma PointsBackTopo(g: seq<TaskNode>, ids: seq<Id>)
    requires NoDup(ids) && PointsBack(g, ids)
    ensures IsTopo(Deps(g), ids[..|g|])
  {
    PointsBackUnique(g, ids);
    var order := ids[..|g|];
    forall i, d | 0 <= i < |order| && Edge(Deps(g), order[i], d) ensures d in order[..i] {
      DepsOf(g, g[i]);
      assert order[..i] == ids[..i];
    }
  }

  /** Pointing backwards is all validation asks for. */
  lemma PointsBackValid(g: seq<TaskNode>, ids: seq<Id>)
    requires NoDup(ids) && PointsBack(g, ids)
    ensures ValidGraph(g)
  {
    PointsBackUnique(g, ids);
    PointsBackTopo(g, ids);
    TopoIsAcyclic(Deps(g), ids[..|g|]);
    forall t | t in g
      ensures t.id !in t.dependsOn && forall d :: d in t.dependsOn ==> d in Ids(g)
    {
      var i :| 0 <= i < |g| && g[i] == t;
      assert ids[i] !in ids[..i];
      forall d | d in t.dependsOn ensures d in Ids(g) {
        assert d in ids[..i];
        assert d in Elements(ids[..|g|]);
      }
    }
  }

  /** Index -1 names the item itself; every other index that is in range names an earlier one. */
  lemma ValidIffNoMinusOne(g: seq<TaskNode>, raw: seq<seq<int>>, ids: seq<Id>)
    requires FreshIds(ids) && |g| == |raw| && BuiltFrom(g, raw, ids)
    ensures ValidGraph(g) <==> forall i :: 0 <= i < |raw| ==> -1 !in raw[i]
  {
    if forall i :: 0 <= i < |raw| ==> -1 !in raw[i] {
      forall i | 0 <= i < |g| ensures g[i].id == ids[i] && forall d :: d in g[i].dependsOn ==> d in ids[..i] {
        ResolvesIffInRange(ids, i, raw[i]);
        forall d | d in g[i].dependsOn ensures d in ids[..i] {
          ResolveMeaning(ids, i, raw[i], d);
          var j :| j in raw[i] && j < i && d == ids[Position(i, j)];
          assert 0 <= Position(i, j) < i;
        }
      }
      PointsBackValid(g, ids);
    } else {
      var i :| 0 <= i < |raw| && -1 in raw[i];
      ResolvesIffInRange(ids, i, raw[i]);
      ResolveMeaning(ids, i, raw[i], ids[i]);
      assert ids[Position(i, -1)] == ids[i];
      assert g[i] in g && !NoSelfDependency(g);
    }
  }

  // ----- the fallback: a chain -----

  function Previous(ids: seq<Id>, i: nat): seq<Id>
    requires i < |ids|
  {
    if i == 0 then [] else [ids[i - 1]]
  }

  ghost predicate IsChain(g: seq<TaskNode>, ids: seq<Id>) {
    && |g| <= |ids|
    && forall i :: 0 <= i < |g| ==> g[i] == NewTask(ids[i], Previous(ids, i))
  }

  /** One task per action item, each depending on the one before. */
  method HeuristicGenerate(items: nat, uuids: seq<Id>) returns (g: seq<TaskNode>)
    requires items <= |uuids| && FreshIds(uuids)
    ensures |g| == items && IsChain(g, uuids)
  {
    g := [];
    var prev := "";
    for i := 0 to items
      invariant |g| == i && IsChain(g, uuids)
      invariant prev == if i == 0 then "" else uuids[i - 1]
    {
      var deps := if prev != "" then [prev] else [];
      g := g + [NewTask(uuids[i], deps)];
      prev := uuids[i];
    }
  }

  /** In a chain every task depends on the one before it and on nothing else. */
  lemma {:induction false} ChainEdges(g: seq<TaskNode>, ids: seq<Id>)
    requires IsChain(g, ids)
    ensures forall i :: 0 <= i < |g| ==> g[i].id == ids[i] && g[i].dependsOn == if i == 0 then [] else [g[i - 1].id]
    ensures forall t :: t in g ==> t.artifactPaths == [] && t.priority == 2
  {
  }

  lemma ChainValid(g: seq<TaskNode>, ids: seq<Id>)
    requires NoDup(ids) && IsChain(g, ids)
    ensures ValidGraph(g)
  {
    forall i | 0 <= i < |g| ensures g[i].id == ids[i] && forall d :: d in g[i].dependsOn ==> d in ids[..i] {
      assert i > 0 ==> ids[..i][i - 1] == ids[i - 1];
    }
    PointsBackValid(g, ids);
  }

  /** Generated nodes list no artifact path, so no two of them are rivals. */
  ghost predicate LocksNothing(g: seq<TaskNode>) {
    forall t :: t in g ==> t.artifactPaths == []
  }

  lemma NewTasksArePlain(g: seq<TaskNode>, ids: seq<Id>)
    requires FreshIds(ids) && |g| <= |ids|
    requires forall i :: 0 <= i < |g| ==> g[i] == NewTask(ids[i], g[i].dependsOn)
    ensures WellFormed(g) && LocksNothing(g)
  {
  }

  // ----- generation as a whole -----

  /**
   * Generation with validation and fallback: `proposal` is the parsed model output, if it
   * could be had. The proposal is used exactly when no index is -1; validation rejects nothing else.
   */
  method GenerateTaskGraph(
      heuristic: bool, proposal: Option<seq<seq<int>>>, items: nat, llmIds: seq<Id>, chainIds: seq<Id>)
    returns (r: Generated)
    requires FreshIds(llmIds) && FreshIds(chainIds) && items <= |chainIds|
    requires proposal.Some? ==> |proposal.value| <= |llmIds|
    ensures r.IndexError? <==> !heuristic && proposal.Some?
                               && exists i :: 0 <= i < |proposal.value| && !InRange(i, proposal.value[i])
    ensures r.Graph? ==> ValidGraph(r.tasks) && WellFormed(r.tasks) && LocksNothing(r.tasks)
    ensures r.Graph? ==>
              if !heuristic && proposal.Some? && forall i :: 0 <= i < |proposal.value| ==> -1 !in proposal.value[i]
              then |r.tasks| == |proposal.value| && EdgesAsListed(r.tasks, proposal.value)
                   && BuiltFrom(r.tasks, proposal.value, llmIds)
              else |r.tasks| == items && IsChain(r.tasks, chainIds)
                   && forall i :: 0 < i < items ==> r.tasks[i].dependsOn == [r.tasks[i - 1].id]
  {
    if !heuristic && proposal.Some? {
      r := LlmGenerate(proposal.value, llmIds);
      if r.IndexError? {
        return;
      }
      ValidIffNoMinusOne(r.tasks, proposal.value, llmIds);
      NewTasksArePlain(r.tasks, llmIds);
      var error := Validate(r.tasks);
      if error.None? {
        return;
      }
    }
    var g := HeuristicGenerate(items, chainIds);
    ChainValid(g, chainIds);
    ChainEdges(g, chainIds);
    NewTasksArePlain(g, chainIds);
    r := Graph(g);
  }

  // ----- generated graphs in the executor -----

  /** On a generated graph failures always stay contained, whatever raises and in whatever order. */
  lemma GeneratedGraphsContainFailures(g: seq<TaskNode>, s0: State)
    requires WellFormed(g) && ValidGraph(g) && LocksNothing(g) && Initial(g, s0)
    ensures FailuresStayContained(g, s0)
  {
    ContainmentIffNoRivals(g, s0);
  }
}
