/** Validation of task graphs: self-dependencies, unknown dependencies, and a search for cycles. */
module GraphValidation {
  import opened Prelude
  import opened Digraphs
  import opened TaskGraphs

  datatype GraphError = SelfDependency(id: Id) | UnknownDependency(id: Id, dep: Id) | CycleFound

  /** What makes a graph executable. */
  ghost predicate ValidGraph(g: seq<TaskNode>) {
    NoSelfDependency(g) && KnownDeps(g) && Acyclic(Deps(g))
  }

  // ----- the checks made node by node -----

  function UnknownDep(id: Id, deps: seq<Id>, ids: set<Id>): Option<GraphError> {
    if deps == [] then None
    else if deps[0] !in ids then Some(UnknownDependency(id, deps[0]))
    else UnknownDep(id, deps[1..], ids)
  }

  function NodeFault(t: TaskNode, ids: set<Id>): Option<GraphError> {
    if t.id in t.dependsOn then Some(SelfDependency(t.id)) else UnknownDep(t.id, t.dependsOn, ids)
  }

  /** The fault reported first: nodes in order, and on each node its self-dependency before the rest. */
  function FirstFault(g: seq<TaskNode>, ids: set<Id>): Option<GraphError> {
    if g == [] then None
    else if NodeFault(g[0], ids).Some? then NodeFault(g[0], ids)
    else FirstFault(g[1..], ids)
  }

  lemma {:induction false} UnknownDepIff(id: Id, deps: seq<Id>, ids: set<Id>)
    ensures UnknownDep(id, deps, ids).None? <==> forall d :: d in deps ==> d in ids
  {
    if deps != [] {
      UnknownDepIff(id, deps[1..], ids);
      assert forall d :: d in deps <==> d == deps[0] || d in deps[1..];
    }
  }

  lemma {:induction false} FirstFaultIff(g: seq<TaskNode>, ids: set<Id>)
    ensures FirstFault(g, ids).None?
            <==> forall t :: t in g ==> t.id !in t.dependsOn && forall d :: d in t.dependsOn ==> d in ids
  {
    if g != [] {
      UnknownDepIff(g[0].id, g[0].dependsOn, ids);
      FirstFaultIff(g[1..], ids);
      assert forall t :: t in g <==> t == g[0] || t in g[1..];
    }
  }

  // ----- which fault is named -----

  ghost predicate Faultless(t: TaskNode, ids: set<Id>) {
    t.id !in t.dependsOn && forall d :: d in t.dependsOn ==> d in ids
  }

  ghost predicate FirstUnknown(deps: seq<Id>, ids: set<Id>, dep: Id) {
    exists k :: 0 <= k < |deps| && deps[k] == dep && dep !in ids && forall l :: 0 <= l < k ==> deps[l] in ids
  }

  /** Node `i` is the first with a fault; its self-dependency is named, or else its first unknown dependency. */
  ghost predicate FaultAt(g: seq<TaskNode>, i: nat, ids: set<Id>, error: GraphError) {
    && i < |g| && (forall j :: 0 <= j < i ==> Faultless(g[j], ids))
    && if g[i].id in g[i].dependsOn then error == SelfDependency(g[i].id)
       else error.UnknownDependency? && error.id == g[i].id && FirstUnknown(g[i].dependsOn, ids, error.dep)
  }

  ghost predicate NamesFirstFault(g: seq<TaskNode>, ids: set<Id>, error: GraphError) {
    exists i :: FaultAt(g, i, ids, error)
  }

  lemma {:induction false} UnknownDepNamed(id: Id, deps: seq<Id>, ids: set<Id>)
    ensures var e := UnknownDep(id, deps, ids);
            e.Some? ==> e.value.UnknownDependency? && e.value.id == id && FirstUnknown(deps, ids, e.value.dep)
  {
    if deps != [] && deps[0] in ids {
      UnknownDepNamed(id, deps[1..], ids);
      var e := UnknownDep(id, deps, ids);
      if e.Some? {
        var k :| 0 <= k < |deps| - 1 && deps[1..][k] == e.value.dep && e.value.dep !in ids
                 && forall l :: 0 <= l < k ==> deps[1..][l] in ids;
        assert deps[k + 1] == e.value.dep;
        assert forall l :: 0 < l < k + 1 ==> deps[1..][l - 1] == deps[l];
      }
    }
  }

  lemma {:induction false} FirstFaultNamed(g: seq<TaskNode>, ids: set<Id>)
    ensures FirstFault(g, ids).Some? ==> NamesFirstFault(g, ids, FirstFault(g, ids).value)
  {
    if g != [] {
      UnknownDepNamed(g[0].id, g[0].dependsOn, ids);
      UnknownDepIff(g[0].id, g[0].dependsOn, ids);
      if NodeFault(g[0], ids).Some? {
        assert FaultAt(g, 0, ids, NodeFault(g[0], ids).value);
      } else {
        FirstFaultNamed(g[1..], ids);
        if FirstFault(g, ids).Some? {
          var i: nat :| FaultAt(g[1..], i, ids, FirstFault(g, ids).value);
          forall j | 0 <= j < i + 1 ensures Faultless(g[j], ids) {
            assert j > 0 ==> g[1..][j - 1] == g[j];
          }
          assert FaultAt(g, i + 1, ids, FirstFault(g, ids).value);
        }
      }
    }
  }

  // ----- the depth-first search -----

  class CycleSearch {
    var visited: set<Id>
    var recStack: set<Id>
    ghost var finished: seq<Id>  // left nodes, in the order they were left

    constructor ()
      ensures visited == recStack == {} && finished == []
    {
      visited, recStack, finished := {}, {}, [];
    }

    /** `stack` is the path of open calls; everything visited and left is topologically sorted. */
    ghost predicate Valid(e: Digraph, stack: seq<Id>)
      reads this
    {
      && recStack <= visited <= e.Keys
      && NoDup(stack) && Elements(stack) == recStack && (stack != [] ==> Walk(e, stack))
      && NoDup(finished) && Elements(finished) == visited - recStack && SuccessorsEarlier(e, finished)
    }

    /** Marks `id` visited and open. */
    method Enter(ghost e: Digraph, id: Id, ghost stack: seq<Id>)
      requires Valid(e, stack) && id in e && id !in visited
      requires stack != [] ==> Edge(e, stack[|stack| - 1], id)
      modifies this
      ensures Valid(e, stack + [id])
      ensures visited == old(visited) + {id} && recStack == old(recStack) + {id} && finished == old(finished)
    {
      NoDupSnoc(stack, id);
      if stack != [] {
        WalkSnoc(e, stack, id);
      } else {
        assert stack + [id] == [id];
      }
      visited := visited + {id};
      recStack := recStack + {id};
    }

    /** Closes `id`, all of whose dependencies have been left before. */
    method Leave(ghost e: Digraph, id: Id, ghost stack: seq<Id>)
      requires Valid(e, stack + [id]) && id in e
      requires forall d :: d in e[id] ==> d in finished
      modifies this
      ensures Valid(e, stack)
      ensures visited == old(visited) && recStack == old(recStack) - {id} && finished == old(finished) + [id]
    {
      assert (stack + [id])[|stack|] == id;
      assert id in Elements(stack + [id]);
      TopoSnoc(e, finished, id);
      LastOut(stack, id);
      if stack != [] {
        WalkSlice(e, stack + [id], 0, |stack|);
        assert (stack + [id])[0..|stack|] == stack;
      }
      recStack := recStack - {id};
      finished := finished + [id];
    }

    method HasCycle(g: seq<TaskNode>, id: Id, ghost stack: seq<Id>) returns (found: bool)
      requires KnownDeps(g) && id in Ids(g) && id !in visited
      requires Valid(Deps(g), stack)
      requires stack != [] ==> Edge(Deps(g), stack[|stack| - 1], id)
      modifies this
      ensures found ==> !Acyclic(Deps(g))
      ensures !found ==> Valid(Deps(g), stack) && recStack == old(recStack)
      ensures old(visited) + {id} <= visited
      decreases |Ids(g) - visited|
    {
      hide Walk, NoDup, SuccessorsEarlier, Acyclic, Elements, Deps, Ids, KnownDeps, Node, Edge;
      ghost var e := Deps(g);
      NodeOf(g, id);
      Enter(e, id, stack);
      var task := Node(g, id);
      var i := 0;
      while i < |task.dependsOn|
        invariant 0 <= i <= |task.dependsOn|
        invariant Valid(e, stack + [id]) && recStack == old(recStack) + {id}
        invariant old(visited) + {id} <= visited
        invariant forall j :: 0 <= j < i ==> task.dependsOn[j] in visited - recStack
      {
        var dep := task.dependsOn[i];
        if dep !in visited {
          FewerUnvisited(Ids(g), old(visited), visited, id);
          var deeper := HasCycle(g, dep, stack + [id]);
          if deeper {
            return true;
          }
        } else if dep in recStack {
          OpenDepCloses(e, stack, id, dep, recStack);
          return true;
        }
        i := i + 1;
      }
      AllLeft(task.dependsOn, visited - recStack, finished);
      Leave(e, id, stack);
      return false;
    }
  }

  /** Looking a known id up: the node is there, and its dependencies are the edges that leave it. */
  lemma {:induction false} NodeOf(g: seq<TaskNode>, id: Id)
    requires KnownDeps(g) && id in Ids(g)
    ensures exists u :: u in g && u.id == id
    ensures id in Deps(g) && Deps(g)[id] == Node(g, id).dependsOn
    ensures forall d :: d in Node(g, id).dependsOn ==> d in Ids(g) && Edge(Deps(g), id, d)
  {
  }

  lemma FewerUnvisited(ids: set<Id>, before: set<Id>, after: set<Id>, id: Id)
    requires id in ids && id !in before && before + {id} <= after
    ensures |ids - after| < |ids - before|
  {
    Smaller(ids - after, ids - before, id);
  }

  /** A dependency on an open node closes a cycle. */
  lemma OpenDepCloses(e: Digraph, stack: seq<Id>, id: Id, dep: Id, open: set<Id>)
    requires Walk(e, stack + [id]) && Edge(e, id, dep) && Elements(stack + [id]) == open && dep in open
    ensures !Acyclic(e)
  {
    assert (stack + [id])[|stack|] == id;
    WalkSnoc(e, stack + [id], dep);
    BackEdgeCloses(e, stack + [id], dep);
  }

  lemma AllLeft(deps: seq<Id>, left: set<Id>, finished: seq<Id>)
    requires Elements(finished) == left && forall j :: 0 <= j < |deps| ==> deps[j] in left
    ensures forall d :: d in deps ==> d in finished
  {
    forall d | d in deps ensures d in finished {
      assert d in Elements(finished);
    }
  }

  lemma LastOut(stack: seq<Id>, id: Id)
    requires NoDup(stack + [id])
    ensures NoDup(stack) && Elements(stack) == Elements(stack + [id]) - {id}
  {
    var s := stack + [id];
    forall i, j | 0 <= i < j < |stack| ensures stack[i] != stack[j] {
      assert s[i] == stack[i] && s[j] == stack[j];
    }
    forall i | 0 <= i < |stack| ensures stack[i] != id {
      assert s[i] == stack[i] && s[|stack|] == id;
    }
  }

  lemma Smaller(a: set<Id>, b: set<Id>, x: Id)
    requires a <= b - {x} && x in b
    ensures |a| < |b|
  {
    SubsetSize(a, b - {x});
  }

  /** The checks made node by node: returns the first fault. */
  method CheckNodes(g: seq<TaskNode>) returns (error: Option<GraphError>)
    ensures error == FirstFault(g, Ids(g))
    ensures error.None? <==> NoSelfDependency(g) && KnownDeps(g)
    ensures error.Some? ==> NamesFirstFault(g, Ids(g), error.value)
  {
    var ids := set t | t in g :: t.id;
    assert ids == Ids(g);
    FirstFaultIff(g, ids);
    FirstFaultNamed(g, ids);
    for i := 0 to |g|
      invariant FirstFault(g[i..], ids) == FirstFault(g, ids)
    {
      assert g[i..][1..] == g[i + 1..];
      var t := g[i];
      if t.id in t.dependsOn {
        return Some(SelfDependency(t.id));
      }
      for j := 0 to |t.dependsOn|
        invariant UnknownDep(t.id, t.dependsOn[j..], ids) == UnknownDep(t.id, t.dependsOn, ids)
      {
        assert t.dependsOn[j..][1..] == t.dependsOn[j + 1..];
        if t.dependsOn[j] !in ids {
          return Some(UnknownDependency(t.id, t.dependsOn[j]));
        }
      }
    }
    return None;
  }

  /** Starts the search at every node not reached yet. */
  method FindCycle(g: seq<TaskNode>) returns (found: bool)
    requires KnownDeps(g)
    ensures found <==> !Acyclic(Deps(g))
    ensures !found ==> exists order :: IsTopo(Deps(g), order)
  {
    var search := new CycleSearch();
    for i := 0 to |g|
      invariant fresh(search) && search.Valid(Deps(g), []) && search.recStack == {}
      invariant forall j :: 0 <= j < i ==> g[j].id in search.visited
    {
      if g[i].id !in search.visited {
        assert g[i].id in Ids(g);
        found := search.HasCycle(g, g[i].id, []);
        if found {
          return;
        }
      }
    }
    assert Elements(search.finished) == Ids(g);
    assert IsTopo(Deps(g), search.finished);
    TopoIsAcyclic(Deps(g), search.finished);
    return false;
  }

  /**
   * Accepts exactly the graphs without self-dependency, unknown dependency or cycle, and names
   * the first offending node otherwise. A graph it accepts has a topological order.
   */
  method Validate(g: seq<TaskNode>) returns (error: Option<GraphError>)
    ensures error.None? <==> ValidGraph(g)
    ensures FirstFault(g, Ids(g)).Some? ==> error == FirstFault(g, Ids(g))
    ensures error == Some(CycleFound) <==> NoSelfDependency(g) && KnownDeps(g) && !Acyclic(Deps(g))
    ensures error.Some? && error != Some(CycleFound) ==> NamesFirstFault(g, Ids(g), error.value)
    ensures error.None? ==> exists order :: IsTopo(Deps(g), order)
  {
    error := CheckNodes(g);
    if error.None? {
      var found := FindCycle(g);
      if found {
        error := Some(CycleFound);
      }
    }
  }
}
