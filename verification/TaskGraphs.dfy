/** Task graphs: nodes, lookup by id, and the dependency digraph they span. */
module TaskGraphs {
  import opened Digraphs

  type Id = string
  type Path = string
  type AgentId = string

  /** The part of a task node that stays fixed while a graph is executed. */
  datatype TaskNode = TaskNode(id: Id, dependsOn: seq<Id>, artifactPaths: seq<Path>, priority: int)

  ghost function Ids(g: seq<TaskNode>): set<Id> {
    set t | t in g :: t.id
  }

  function IdsOf(g: seq<TaskNode>): (ids: seq<Id>)
    ensures |ids| == |g| && forall i :: 0 <= i < |g| ==> ids[i] == g[i].id
  {
    seq(|g|, i requires 0 <= i < |g| => g[i].id)
  }

  predicate UniqueIds(g: seq<TaskNode>) {
    forall i, j :: 0 <= i < j < |g| ==> g[i].id != g[j].id
  }

  /** The first node carrying `id`: what a linear search by id finds. */
  function Node(g: seq<TaskNode>, id: Id): (t: TaskNode)
    requires exists u :: u in g && u.id == id
    ensures t in g && t.id == id
  {
    if g[0].id == id then g[0] else
      assert forall u :: u in g && u.id == id ==> u in g[1..];
      Node(g[1..], id)
  }

  lemma {:induction false} NodeUnique(g: seq<TaskNode>, t: TaskNode)
    requires UniqueIds(g) && t in g
    ensures Node(g, t.id) == t
  {
  }

  predicate NoSelfDependency(g: seq<TaskNode>) {
    forall t :: t in g ==> t.id !in t.dependsOn
  }

  ghost predicate KnownDeps(g: seq<TaskNode>) {
    forall t, d :: t in g && d in t.dependsOn ==> d in Ids(g)
  }

  /** Edges run from a task to the tasks it depends on. */
  ghost function Deps(g: seq<TaskNode>): (e: Digraph)
    ensures e.Keys == Ids(g)
  {
    map id | id in Ids(g) :: Node(g, id).dependsOn
  }

  lemma DepsOf(g: seq<TaskNode>, t: TaskNode)
    requires UniqueIds(g) && t in g
    ensures t.id in Deps(g) && Deps(g)[t.id] == t.dependsOn
  {
  }

  lemma DepsClosed(g: seq<TaskNode>)
    requires KnownDeps(g)
    ensures Closed(Deps(g))
  {
  }

  /** Two tasks neither of which depends on the other, however indirectly. */
  ghost predicate Unordered(g: seq<TaskNode>, t: TaskNode, u: TaskNode) {
    t.id != u.id && !Reaches(Deps(g), t.id, u.id) && !Reaches(Deps(g), u.id, t.id)
  }

  /** The tasks compete for a lock, which is taken on a path as listed. */
  predicate SharesPath(t: TaskNode, u: TaskNode) {
    exists p :: p in t.artifactPaths && p in u.artifactPaths
  }
}
