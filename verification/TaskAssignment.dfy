/** Sequential assignment: waves of ready tasks, each handed round-robin to a capable agent. */
module TaskAssignment {
  import opened Prelude
  import opened Digraphs
  import opened TaskGraphs
  import opened RoundRobin

  datatype Status = Pending | Assigned | Running | Done | Accepted | Rejected | Failed

  type StatusMap = map<Id, Status>

  /** Query answers: the candidates offered for a task, and the stored active count of an agent. */
  datatype Environment = Environment(candidates: Id -> seq<AgentId>, stored: AgentId -> nat)

  // ----- readiness waves -----

  predicate Ready(t: TaskNode, done: set<Id>) {
    forall d :: d in t.dependsOn ==> d in done
  }

  function ReadyIn(remaining: seq<TaskNode>, done: set<Id>): seq<TaskNode> {
    if remaining == [] then []
    else (if Ready(remaining[0], done) then [remaining[0]] else []) + ReadyIn(remaining[1..], done)
  }

  function BlockedIn(remaining: seq<TaskNode>, done: set<Id>): seq<TaskNode> {
    if remaining == [] then []
    else (if Ready(remaining[0], done) then [] else [remaining[0]]) + BlockedIn(remaining[1..], done)
  }

  lemma {:induction false} SplitMeaning(remaining: seq<TaskNode>, done: set<Id>)
    ensures forall t :: t in ReadyIn(remaining, done) <==> t in remaining && Ready(t, done)
    ensures forall t :: t in BlockedIn(remaining, done) <==> t in remaining && !Ready(t, done)
    ensures |ReadyIn(remaining, done)| + |BlockedIn(remaining, done)| == |remaining|
  {
    if remaining != [] {
      SplitMeaning(remaining[1..], done);
      assert remaining == [remaining[0]] + remaining[1..];
    }
  }

  /** The tasks in the order the waves process them. */
  ghost function Waves(remaining: seq<TaskNode>, done: set<Id>): seq<TaskNode>
    decreases |remaining|
  {
    var ready := ReadyIn(remaining, done);
    SplitMeaning(remaining, done);
    if ready == [] then [] else ready + Waves(BlockedIn(remaining, done), done + Ids(ready))
  }

  lemma IdsConcat(a: seq<TaskNode>, b: seq<TaskNode>)
    ensures Ids(a + b) == Ids(a) + Ids(b)
  {
  }

  /** Everything whose dependencies are done or in `p` is itself in `p`. */
  ghost predicate ClosedUnder(pending: seq<TaskNode>, done: set<Id>, p: set<Id>) {
    forall t :: t in pending && Ready(t, done + p) ==> t.id in p
  }

  lemma {:induction false} WavesClosed(pending: seq<TaskNode>, done: set<Id>)
    ensures ClosedUnder(pending, done, Ids(Waves(pending, done)))
    decreases |pending|
  {
    var ready, blocked := ReadyIn(pending, done), BlockedIn(pending, done);
    SplitMeaning(pending, done);
    if ready != [] {
      var rest := Waves(blocked, done + Ids(ready));
      WavesClosed(blocked, done + Ids(ready));
      IdsConcat(ready, rest);
      assert done + Ids(Waves(pending, done)) == (done + Ids(ready)) + Ids(rest);
    } else {
      assert done + Ids([]) == done;
    }
  }

  lemma {:induction false} WavesLeast(pending: seq<TaskNode>, done: set<Id>, p: set<Id>)
    requires ClosedUnder(pending, done, p)
    ensures Ids(Waves(pending, done)) <= p
    decreases |pending|
  {
    var ready, blocked := ReadyIn(pending, done), BlockedIn(pending, done);
    SplitMeaning(pending, done);
    if ready != [] {
      var rest := Waves(blocked, done + Ids(ready));
      assert Ids(ready) <= p;
      assert done + Ids(ready) + p == done + p;
      WavesLeast(blocked, done + Ids(ready), p);
      IdsConcat(ready, rest);
    }
  }

  /** The waves process the least set of pending tasks closed under "all dependencies done or processed". */
  lemma {:induction false} LeastFixpoint(pending: seq<TaskNode>, done: set<Id>, p: set<Id>)
    ensures ClosedUnder(pending, done, Ids(Waves(pending, done)))
    ensures ClosedUnder(pending, done, p) ==> Ids(Waves(pending, done)) <= p
  {
    WavesClosed(pending, done);
    if ClosedUnder(pending, done, p) {
      WavesLeast(pending, done, p);
    }
  }

  // ----- order and coverage -----

  lemma {:induction false} SplitInOrder(remaining: seq<TaskNode>, done: set<Id>)
    ensures Subsequence(ReadyIn(remaining, done), remaining) && Subsequence(BlockedIn(remaining, done), remaining)
  {
    if remaining != [] {
      SplitInOrder(remaining[1..], done);
      assert forall tail: seq<TaskNode> :: [] + tail == tail;
      SubsequenceCons(ReadyIn(remaining[1..], done), remaining);
      SubsequenceCons(BlockedIn(remaining[1..], done), remaining);
    }
  }

  ghost function Enabled(pending: seq<TaskNode>, before: set<Id>): set<Id> {
    set t | t in pending && (forall d :: d in t.dependsOn ==> d in before) :: t.id
  }

  /** What is done or processed after `k` rounds that each take all tasks ready at once. */
  ghost function AfterRounds(pending: seq<TaskNode>, done: set<Id>, k: nat): set<Id> {
    if k == 0 then done
    else AfterRounds(pending, done, k - 1) + Enabled(pending, AfterRounds(pending, done, k - 1))
  }

  lemma {:induction false} FirstRound(pending: seq<TaskNode>, done: set<Id>)
    ensures AfterRounds(pending, done, 0) == done
    ensures AfterRounds(pending, done, 1) == done + Ids(ReadyIn(pending, done))
  {
    SplitMeaning(pending, done);
    hide ReadyIn;
    assert AfterRounds(pending, done, 0) == done;
    assert Enabled(pending, done) == Ids(ReadyIn(pending, done));
  }

  lemma {:induction false} RoundsGrow(pending: seq<TaskNode>, done: set<Id>, k: nat)
    ensures done <= AfterRounds(pending, done, k)
    ensures k > 0 ==> done + Ids(ReadyIn(pending, done)) <= AfterRounds(pending, done, k)
  {
    hide ReadyIn, Enabled;
    if k == 1 {
      FirstRound(pending, done);
    } else if k > 1 {
      RoundsGrow(pending, done, k - 1);
    }
  }

  /** The rounds over what is blocked lag one behind. */
  lemma {:induction false} RoundsShift(pending: seq<TaskNode>, done: set<Id>, k: nat)
    ensures AfterRounds(pending, done, k + 1)
            == AfterRounds(BlockedIn(pending, done), done + Ids(ReadyIn(pending, done)), k)
  {
    hide ReadyIn, BlockedIn, Enabled;
    if k == 0 {
      FirstRound(pending, done);
    } else {
      RoundsShift(pending, done, k - 1);
      RoundsGrow(pending, done, k);
      EnabledSplit(pending, done, AfterRounds(pending, done, k));
    }
  }

  lemma {:induction false} EnabledSplit(pending: seq<TaskNode>, done: set<Id>, before: set<Id>)
    requires Ids(ReadyIn(pending, done)) <= before
    ensures before + Enabled(pending, before) == before + Enabled(BlockedIn(pending, done), before)
  {
    SplitMeaning(pending, done);
    var ready, blocked := ReadyIn(pending, done), BlockedIn(pending, done);
    hide ReadyIn, BlockedIn, Ready;
    forall t | t in pending && t !in blocked ensures t.id in before {
      assert t in ready;
      assert t.id in Ids(ready);
    }
  }

  /** Tasks come round by round, and those of one round in the order of the graph. */
  ghost predicate RoundByRound(order: seq<TaskNode>, pending: seq<TaskNode>, done: set<Id>) {
    forall a, b :: 0 <= a < b < |order| ==> InTurn(order[a], order[b], pending, done)
  }

  ghost predicate InTurn(t: TaskNode, u: TaskNode, pending: seq<TaskNode>, done: set<Id>) {
    && (forall k :: u.id in AfterRounds(pending, done, k) ==> t.id in AfterRounds(pending, done, k))
    && ((forall k :: u.id in AfterRounds(pending, done, k) <==> t.id in AfterRounds(pending, done, k))
        ==> exists i, j :: 0 <= i < j < |pending| && pending[i] == t && pending[j] == u)
  }

  lemma {:induction false} WavesRoundByRound(pending: seq<TaskNode>, done: set<Id>)
    requires UniqueIds(pending) && Ids(pending) !! done
    ensures RoundByRound(Waves(pending, done), pending, done)
    decreases |pending|
  {
    var ready, blocked := ReadyIn(pending, done), BlockedIn(pending, done);
    var order := Waves(pending, done);
    SplitMeaning(pending, done);
    SplitUnique(pending, done);
    SplitInOrder(pending, done);
    if ready != [] {
      var rest := Waves(blocked, done + Ids(ready));
      WavesRoundByRound(blocked, done + Ids(ready));
      WavesOrdered(blocked, done + Ids(ready));
      hide Waves, ReadyIn, BlockedIn, AfterRounds, UniqueIds, InTurn;
      forall a, b | 0 <= a < b < |order| ensures InTurn(order[a], order[b], pending, done) {
        if a < |ready| {
          ReadyFirst(pending, done, order[a]);
          if b < |ready| {
            ReadyFirst(pending, done, order[b]);
            ReadyInTurn(pending, done, a, b);
          } else {
            assert rest[b - |ready|] in rest;
            BeforeBlocked(pending, done, order[a], order[b]);
          }
        } else {
          assert InTurn(rest[a - |ready|], rest[b - |ready|], blocked, done + Ids(ready));
          assert rest[b - |ready|] in rest;
          LaterInTurn(pending, done, order[a], order[b]);
        }
      }
    }
  }

  lemma {:induction false} ReadyFirst(pending: seq<TaskNode>, done: set<Id>, t: TaskNode)
    requires t in ReadyIn(pending, done) && Ids(pending) !! done
    ensures forall k :: t.id in AfterRounds(pending, done, k) <==> k > 0
  {
    SplitMeaning(pending, done);
    assert t.id in Ids(pending);
    FirstRound(pending, done);
    forall k: nat ensures t.id in AfterRounds(pending, done, k) <==> k > 0 {
      RoundsGrow(pending, done, k);
    }
  }

  lemma {:induction false} ReadyInTurn(pending: seq<TaskNode>, done: set<Id>, a: nat, b: nat)
    requires a < b < |ReadyIn(pending, done)| && Ids(pending) !! done
    ensures InTurn(ReadyIn(pending, done)[a], ReadyIn(pending, done)[b], pending, done)
  {
    var ready := ReadyIn(pending, done);
    SplitInOrder(pending, done);
    ReadyFirst(pending, done, ready[a]);
    ReadyFirst(pending, done, ready[b]);
    var i, j := SubsequenceOrder(ready, pending, a, b);
    hide ReadyIn, AfterRounds;
  }

  lemma {:induction false} BeforeBlocked(pending: seq<TaskNode>, done: set<Id>, t: TaskNode, u: TaskNode)
    requires UniqueIds(pending) && Ids(pending) !! done
    requires t in ReadyIn(pending, done) && u in BlockedIn(pending, done)
    ensures InTurn(t, u, pending, done)
  {
    ReadyFirst(pending, done, t);
    BlockedNotFirst(pending, done, u);
    assert AfterRounds(pending, done, 0) == done;
    hide ReadyIn, BlockedIn, AfterRounds;
  }

  lemma {:induction false} BlockedNotFirst(pending: seq<TaskNode>, done: set<Id>, u: TaskNode)
    requires UniqueIds(pending) && Ids(pending) !! done && u in BlockedIn(pending, done)
    ensures u.id !in done && u.id !in AfterRounds(pending, done, 1)
  {
    SplitMeaning(pending, done);
    FirstRound(pending, done);
    var ready := ReadyIn(pending, done);
    hide ReadyIn, BlockedIn;
    assert u.id in Ids(pending);
    forall v | v in ready ensures v.id != u.id {
      assert v in pending && v != u;
    }
  }

  lemma {:induction false} LaterInTurn(pending: seq<TaskNode>, done: set<Id>, t: TaskNode, u: TaskNode)
    requires UniqueIds(pending) && Ids(pending) !! done && u in BlockedIn(pending, done)
    requires InTurn(t, u, BlockedIn(pending, done), done + Ids(ReadyIn(pending, done)))
    ensures InTurn(t, u, pending, done)
  {
    var ready, blocked := ReadyIn(pending, done), BlockedIn(pending, done);
    var first := done + Ids(ready);
    SplitInOrder(pending, done);
    BlockedNotFirst(pending, done, u);
    assert AfterRounds(pending, done, 0) == done;
    hide ReadyIn, BlockedIn, AfterRounds, Subsequence, UniqueIds;
    forall k: nat ensures AfterRounds(blocked, first, k) == AfterRounds(pending, done, k + 1) {
      RoundsShift(pending, done, k);
    }
    forall k: nat | u.id in AfterRounds(pending, done, k) ensures t.id in AfterRounds(pending, done, k) {
      assert k > 0;
      assert AfterRounds(blocked, first, k - 1) == AfterRounds(pending, done, k);
    }
    if forall k :: u.id in AfterRounds(pending, done, k) <==> t.id in AfterRounds(pending, done, k) {
      assert forall k :: u.id in AfterRounds(blocked, first, k) <==> t.id in AfterRounds(blocked, first, k);
      var i, j :| 0 <= i < j < |blocked| && blocked[i] == t && blocked[j] == u;
      var m, n := SubsequenceOrder(blocked, pending, i, j);
    }
  }

  /** No task comes twice, and each comes after the dependencies that were not done before. */
  ghost predicate InDependencyOrder(order: seq<TaskNode>, done: set<Id>) {
    && UniqueIds(order)
    && forall i :: 0 <= i < |order| ==> Ready(order[i], done + Ids(order[..i]))
  }

  lemma {:induction false} WavesOrdered(pending: seq<TaskNode>, done: set<Id>)
    requires UniqueIds(pending)
    ensures InDependencyOrder(Waves(pending, done), done)
    ensures forall t :: t in Waves(pending, done) ==> t in pending
    decreases |pending|
  {
    var ready, blocked := ReadyIn(pending, done), BlockedIn(pending, done);
    SplitMeaning(pending, done);
    SplitUnique(pending, done);
    if ready != [] {
      var rest := Waves(blocked, done + Ids(ready));
      WavesOrdered(blocked, done + Ids(ready));
      JoinOrdered(pending, done, ready, rest);
    }
  }

  lemma {:induction false} SplitUnique(pending: seq<TaskNode>, done: set<Id>)
    requires UniqueIds(pending)
    ensures UniqueIds(ReadyIn(pending, done)) && UniqueIds(BlockedIn(pending, done))
  {
    if pending != [] {
      SplitUnique(pending[1..], done);
      SplitMeaning(pending[1..], done);
      assert forall t :: t in pending[1..] ==> t.id != pending[0].id;
    }
  }

  lemma {:induction false} JoinOrdered(pending: seq<TaskNode>, done: set<Id>, ready: seq<TaskNode>, rest: seq<TaskNode>)
    requires UniqueIds(pending) && UniqueIds(ready)
    requires forall t :: t in ready ==> t in pending && Ready(t, done)
    requires forall t :: t in rest ==> t in pending && !Ready(t, done)
    requires InDependencyOrder(rest, done + Ids(ready))
    ensures InDependencyOrder(ready + rest, done)
  {
    var order := ready + rest;
    forall i | 0 <= i < |order| ensures Ready(order[i], done + Ids(order[..i])) {
      if i >= |ready| {
        var k := i - |ready|;
        assert order[..i] == ready + rest[..k];
        IdsConcat(ready, rest[..k]);
        assert Ready(rest[k], (done + Ids(ready)) + Ids(rest[..k]));
      } else {
        assert order[i] in ready;
      }
    }
    forall i, j | 0 <= i < j < |order| ensures order[i].id != order[j].id {
      if i < |ready| && j >= |ready| {
        assert order[i] in ready && order[j] in rest;
      }
    }
  }

  /** What a pending task still waits for. */
  function Waiting(deps: seq<Id>, done: set<Id>): (w: seq<Id>)
    ensures forall d :: d in w <==> d in deps && d !in done
  {
    if deps == [] then []
    else (if deps[0] in done then [] else [deps[0]]) + Waiting(deps[1..], done)
  }

  ghost function OpenDeps(pending: seq<TaskNode>, done: set<Id>): (e: Digraph)
    ensures e.Keys == Ids(pending)
  {
    map id | id in Ids(pending) :: Waiting(Node(pending, id).dependsOn, done)
  }

  lemma {:induction false} OpenDepsOf(pending: seq<TaskNode>, done: set<Id>, t: TaskNode)
    requires UniqueIds(pending) && t in pending
    ensures t.id in OpenDeps(pending, done) && OpenDeps(pending, done)[t.id] == Waiting(t.dependsOn, done)
  {
  }

  ghost predicate DepsPendingOrDone(pending: seq<TaskNode>, done: set<Id>) {
    forall t, d :: t in pending && d in t.dependsOn ==> d in done || d in Ids(pending)
  }

  lemma OrderIsTopo(pending: seq<TaskNode>, done: set<Id>, order: seq<TaskNode>)
    requires UniqueIds(pending) && InDependencyOrder(order, done)
    requires forall t :: t in order <==> t in pending
    ensures IsTopo(OpenDeps(pending, done), IdsOf(order)) && DepsPendingOrDone(pending, done)
  {
  }

  /** A pending task whose open dependencies are all in a closed set is in it. */
  lemma ClosedTakesNext(pending: seq<TaskNode>, done: set<Id>, id: Id, p: set<Id>)
    requires UniqueIds(pending) && id in Ids(pending) && ClosedUnder(pending, done, p)
    requires forall d :: Edge(OpenDeps(pending, done), id, d) ==> d in p
    ensures id in p
  {
    var t :| t in pending && t.id == id;
    OpenDepsOf(pending, done, t);
    forall d | d in t.dependsOn ensures d in done + p {
      if d !in done {
        assert Edge(OpenDeps(pending, done), id, d);
      }
    }
    assert Ready(t, done + p);
  }

  lemma {:induction false} TopoIsProcessed(pending: seq<TaskNode>, done: set<Id>, ids: seq<Id>, p: set<Id>, k: nat)
    requires UniqueIds(pending) && IsTopo(OpenDeps(pending, done), ids) && k <= |ids|
    requires ClosedUnder(pending, done, p)
    ensures Elements(ids[..k]) <= p
    decreases k
  {
    hide UniqueIds, ClosedUnder, OpenDeps, Edge;
    if k > 0 {
      TopoIsProcessed(pending, done, ids, p, k - 1);
      assert ids[k - 1] in Elements(ids);
      forall d | Edge(OpenDeps(pending, done), ids[k - 1], d) ensures d in p {
        assert d in Elements(ids[..k - 1]);
      }
      ClosedTakesNext(pending, done, ids[k - 1], p);
      assert ids[..k] == ids[..k - 1] + [ids[k - 1]];
    }
  }

  /**
   * Nothing is left over exactly when every dependency of a pending task is pending or done and
   * the dependencies still open have no cycle.
   */
  lemma {:induction false} NothingLeftOverIff(pending: seq<TaskNode>, done: set<Id>)
    requires UniqueIds(pending)
    ensures (forall t :: t in pending ==> t in Waves(pending, done))
       <==> DepsPendingOrDone(pending, done) && Acyclic(OpenDeps(pending, done))
  {
    WavesOrdered(pending, done);
    WavesClosed(pending, done);
    var order, e := Waves(pending, done), OpenDeps(pending, done);
    if forall t :: t in pending ==> t in order {
      OrderIsTopo(pending, done, order);
      TopoIsAcyclic(e, IdsOf(order));
    }
    if DepsPendingOrDone(pending, done) && Acyclic(e) {
      OpenDepsClosed(pending, done);
      var ids := GrowTopo(e, []);
      TopoIsProcessed(pending, done, ids, Ids(order), |ids|);
      assert ids[..|ids|] == ids;
      forall t | t in pending ensures t in order {
        assert t.id in Elements(ids);
        var u :| u in order && u.id == t.id;
      }
    }
  }

  lemma OpenDepsClosed(pending: seq<TaskNode>, done: set<Id>)
    requires DepsPendingOrDone(pending, done)
    ensures Closed(OpenDeps(pending, done))
  {
  }

  /** On an acyclic graph it is enough that pending tasks depend only on pending or done ones. */
  lemma {:induction false} AcyclicGraphIsExhausted(tasks: seq<TaskNode>, pending: seq<TaskNode>, done: set<Id>)
    requires UniqueIds(tasks) && Acyclic(Deps(tasks))
    requires UniqueIds(pending) && (forall t :: t in pending ==> t in tasks) && DepsPendingOrDone(pending, done)
    ensures forall t :: t in pending ==> t in Waves(pending, done)
  {
    var e, all := OpenDeps(pending, done), Deps(tasks);
    forall a, b | Edge(e, a, b) ensures Edge(all, a, b) {
      var t :| t in pending && t.id == a;
      OpenDepsOf(pending, done, t);
      DepsOf(tasks, t);
    }
    forall a ensures !Reaches(e, a, a) {
      if p :| WalkFromTo(e, p, a, a) {
        assert WalkFromTo(all, p, a, a);
        assert Reaches(all, a, a);
        assert false;
      }
    }
    NothingLeftOverIff(pending, done);
  }

  // ----- handing tasks out -----

  datatype Ledger = Ledger(loads: Loads, rr: nat, assignments: map<Id, AgentId>)

  const EMPTY := Ledger(map[], 0, map[])

  /** Loads of agents not met before are read from storage. */
  function Refreshed(loads: Loads, candidates: seq<AgentId>, stored: AgentId -> nat): Loads
    decreases |candidates|
  {
    if candidates == [] then loads
    else
      var a := candidates[0];
      Refreshed(if a in loads then loads else loads[a := stored(a)], candidates[1..], stored)
  }

  function Served(t: Id, l: Ledger, env: Environment): Ledger {
    var loads := Refreshed(l.loads, env.candidates(t), env.stored);
    var choice := Choose(env.candidates(t), loads, map[], l.rr);
    match choice.agent
    case None => Ledger(loads, choice.next, l.assignments)
    case Some(a) => Ledger(loads[a := LoadOf(loads, a) + 1], choice.next, l.assignments[t := a])
  }

  function ServedAll(order: seq<TaskNode>, l: Ledger, env: Environment): Ledger {
    if order == [] then l
    else Served(order[|order| - 1].id, ServedAll(order[..|order| - 1], l, env), env)
  }

  ghost function GivenTo(assignments: map<Id, AgentId>, a: AgentId): set<Id> {
    set t | t in assignments && assignments[t] == a
  }

  /** The load of every agent met is its stored count plus what it was given, within the limit. */
  ghost predicate LoadsExact(l: Ledger, env: Environment) {
    && (forall a :: a in l.loads ==>
          && l.loads[a] == env.stored(a) + |GivenTo(l.assignments, a)|
          && (l.loads[a] <= 5 || l.loads[a] == env.stored(a)))
    && (forall t :: t in l.assignments ==> l.assignments[t] in l.loads)
  }

  ghost predicate TurnedAway(t: Id, l: Ledger, env: Environment) {
    forall a :: a in env.candidates(t) ==> a in l.loads && l.loads[a] >= 5
  }

  /** Tasks go to candidates only, and a task goes without only if all of its candidates are full. */
  ghost predicate HandedOut(ids: set<Id>, l: Ledger, env: Environment) {
    && l.assignments.Keys <= ids
    && (forall t :: t in l.assignments ==> l.assignments[t] in env.candidates(t))
    && (forall t :: t in ids && t !in l.assignments ==> TurnedAway(t, l, env))
  }

  lemma {:induction false} RefreshMeaning(loads: Loads, candidates: seq<AgentId>, stored: AgentId -> nat)
    ensures var after := Refreshed(loads, candidates, stored);
            && after.Keys == loads.Keys + Elements(candidates)
            && forall a :: a in after ==> after[a] == if a in loads then loads[a] else stored(a)
    decreases |candidates|
  {
    if candidates != [] {
      var a := candidates[0];
      assert candidates == [a] + candidates[1..];
      RefreshMeaning(if a in loads then loads else loads[a := stored(a)], candidates[1..], stored);
    }
  }

  function BaseLoad(l: Ledger, env: Environment, a: AgentId): int {
    if a in l.loads then l.loads[a] else env.stored(a)
  }

  /** One task: either all its candidates are full, or one with room gains one task; nobody else changes. */
  lemma ServedMeaning(t: Id, l: Ledger, env: Environment) returns (picked: Option<AgentId>)
    ensures var r := Served(t, l, env);
            && r.loads.Keys == l.loads.Keys + Elements(env.candidates(t))
            && (forall a :: a in r.loads ==> r.loads[a] == BaseLoad(l, env, a) + if picked == Some(a) then 1 else 0)
            && r.assignments == (if picked.Some? then l.assignments[t := picked.value] else l.assignments)
            && (picked.None? ==> TurnedAway(t, r, env))
            && (picked.Some? ==> picked.value in env.candidates(t)
                                 && BaseLoad(l, env, picked.value) < 5)
  {
    var cs := env.candidates(t);
    var loads := Refreshed(l.loads, cs, env.stored);
    RefreshMeaning(l.loads, cs, env.stored);
    NoChoiceIffAllFull(cs, loads, map[], l.rr);
    picked := Choose(cs, loads, map[], l.rr).agent;
  }

  lemma GivenOneMore(assignments: map<Id, AgentId>, t: Id, a: AgentId, b: AgentId)
    requires t !in assignments
    ensures |GivenTo(assignments[t := a], b)| == |GivenTo(assignments, b)| + if a == b then 1 else 0
  {
    assert GivenTo(assignments[t := a], b) == GivenTo(assignments, b) + if a == b then {t} else {};
  }

  lemma ServingKeepsLoads(t: Id, l: Ledger, env: Environment)
    requires LoadsExact(l, env) && t !in l.assignments
    ensures LoadsExact(Served(t, l, env), env)
  {
    var picked := ServedMeaning(t, l, env);
    var r := Served(t, l, env);
    hide Served;
    forall a | a in r.loads
      ensures r.loads[a] == env.stored(a) + |GivenTo(r.assignments, a)|
      ensures r.loads[a] <= 5 || r.loads[a] == env.stored(a) {
      if a !in l.loads {
        assert GivenTo(l.assignments, a) == {};
      }
      if picked.Some? {
        GivenOneMore(l.assignments, t, picked.value, a);
      }
    }
  }

  lemma ServingKeepsHandedOut(ids: set<Id>, t: Id, l: Ledger, env: Environment)
    requires HandedOut(ids, l, env) && t !in ids
    ensures HandedOut(ids + {t}, Served(t, l, env), env)
  {
    var picked := ServedMeaning(t, l, env);
    var r := Served(t, l, env);
    hide Served;
    forall u | u in ids + {t} && u !in r.assignments ensures TurnedAway(u, r, env) {
      if u != t {
        assert TurnedAway(u, l, env);
      }
    }
  }

  /**
   * After all tasks are served: every load is the stored count plus the tasks given, no agent ends
   * above the larger of its stored count and the limit, each task has at most one agent, a
   * candidate of its own, and the tasks without an agent are those whose candidates are all full.
   */
  lemma {:induction false} ServedAllOutcome(order: seq<TaskNode>, env: Environment)
    requires UniqueIds(order)
    ensures LoadsExact(ServedAll(order, EMPTY, env), env) && HandedOut(Ids(order), ServedAll(order, EMPTY, env), env)
  {
    if order != [] {
      var front, last := order[..|order| - 1], order[|order| - 1];
      assert order == front + [last];
      ServedAllOutcome(front, env);
      IdsConcat(front, [last]);
      assert Ids([last]) == {last.id};
      assert last.id !in Ids(front);
      ServingKeepsLoads(last.id, ServedAll(front, EMPTY, env), env);
      ServingKeepsHandedOut(Ids(front), last.id, ServedAll(front, EMPTY, env), env);
    }
  }

  /** What one task gets once served stays as it is: later tasks change nothing about it. */
  lemma {:induction false} LaterTasksKeep(order: seq<TaskNode>, env: Environment, i: nat, n: nat)
    requires UniqueIds(order) && i < n <= |order|
    ensures var first := ServedAll(order[..i + 1], EMPTY, env).assignments;
            var now := ServedAll(order[..n], EMPTY, env).assignments;
            var t := order[i].id;
            (t in now <==> t in first) && (t in now ==> now[t] == first[t])
  {
    if i + 1 < n {
      LaterTasksKeep(order, env, i, n - 1);
      assert order[..n][..n - 1] == order[..n - 1];
      var picked := ServedMeaning(order[n - 1].id, ServedAll(order[..n - 1], EMPTY, env), env);
    }
  }

  ghost predicate AtLimit(l: Ledger, env: Environment, a: AgentId) {
    env.stored(a) + |GivenTo(l.assignments, a)| >= 5
  }

  lemma BaseLoadCounts(l: Ledger, env: Environment, a: AgentId)
    requires LoadsExact(l, env)
    ensures BaseLoad(l, env, a) == env.stored(a) + |GivenTo(l.assignments, a)|
  {
    if a !in l.loads {
      assert GivenTo(l.assignments, a) == {};
    }
  }

  /**
   * One task: going round its candidates from the remembered position, the first whose stored count
   * and tasks given so far stay below five gets it, and the position moves on past that agent.
   */
  lemma {:induction false} ServedInTurn(t: Id, l: Ledger, env: Environment) returns (k: nat)
    requires LoadsExact(l, env)
    ensures var turns := Turns(env.candidates(t), l.rr);
            && k <= |turns| && (forall j :: 0 <= j < k ==> AtLimit(l, env, turns[j]))
            && (k < |turns| ==> !AtLimit(l, env, turns[k]))
            && Served(t, l, env).assignments == (if k < |turns| then l.assignments[t := turns[k]] else l.assignments)
            && Served(t, l, env).rr == l.rr + if k < |turns| then k + 1 else k
  {
    var cs := env.candidates(t);
    var loads := Refreshed(l.loads, cs, env.stored);
    RefreshMeaning(l.loads, cs, env.stored);
    k := FirstWithRoomInTurn(cs, loads, map[], l.rr);
    var turns := Turns(cs, l.rr);
    hide Turns, GivenTo, LoadsExact, Choose;
    forall a | a in turns ensures Full(loads, map[], a) <==> AtLimit(l, env, a) {
      BaseLoadCounts(l, env, a);
    }
    assert forall j :: 0 <= j < |turns| ==> turns[j] in turns;
  }

  /** In a whole assignment each task is served in its place in the order, after those before it and before the rest. */
  lemma {:induction false} EachServedInTurn(order: seq<TaskNode>, env: Environment, i: nat) returns (k: nat)
    requires UniqueIds(order) && i < |order|
    ensures var before, after := ServedAll(order[..i], EMPTY, env), ServedAll(order, EMPTY, env).assignments;
            var turns, t := Turns(env.candidates(order[i].id), before.rr), order[i].id;
            && before.assignments.Keys <= Ids(order[..i])
            && k <= |turns| && (forall j :: 0 <= j < k ==> AtLimit(before, env, turns[j]))
            && (k < |turns| ==> !AtLimit(before, env, turns[k]))
            && (t in after <==> k < |turns|) && (k < |turns| ==> after[t] == turns[k])
  {
    hide Served, Turns, AtLimit, LoadsExact, TurnedAway;
    ServedAllOutcome(order[..i], env);
    var before := ServedAll(order[..i], EMPTY, env);
    k := ServedInTurn(order[i].id, before, env);
    assert order[..i + 1][..i] == order[..i];
    assert order[..|order|] == order;
    assert forall u :: u in order[..i] ==> u.id != order[i].id;
    LaterTasksKeep(order, env, i, |order|);
  }

  // ----- the whole assignment -----

  function DoneIds(tasks: seq<TaskNode>, status: StatusMap): set<Id> {
    set t | t in tasks && t.id in status && status[t.id] in {Done, Accepted} :: t.id
  }

  function PendingTasks(tasks: seq<TaskNode>, status: StatusMap): seq<TaskNode> {
    if tasks == [] then []
    else
      var t := tasks[0];
      (if t.id in status && status[t.id] == Pending then [t] else []) + PendingTasks(tasks[1..], status)
  }

  function MarkAssigned(status: StatusMap, assignments: map<Id, AgentId>): StatusMap {
    map t | t in status :: if t in assignments then Assigned else status[t]
  }

  lemma {:induction false} MarkMeaning(status: StatusMap, assignments: map<Id, AgentId>)
    ensures var after := MarkAssigned(status, assignments);
            && after.Keys == status.Keys
            && forall t :: t in after ==> after[t] == if t in assignments then Assigned else status[t]
  {
  }

  ghost function Processed(tasks: seq<TaskNode>, status: StatusMap): seq<TaskNode> {
    Waves(PendingTasks(tasks, status), DoneIds(tasks, status))
  }

  lemma {:induction false} PendingMeaning(tasks: seq<TaskNode>, status: StatusMap)
    requires UniqueIds(tasks)
    ensures UniqueIds(PendingTasks(tasks, status))
    ensures forall t :: t in PendingTasks(tasks, status) <==> t in tasks && t.id in status && status[t.id] == Pending
  {
    if tasks != [] {
      PendingMeaning(tasks[1..], status);
      assert tasks == [tasks[0]] + tasks[1..];
      assert forall t :: t in tasks[1..] ==> t.id != tasks[0].id;
    }
  }

  /** The pending tasks keep the order of the graph, and the waves take them round by round. */
  lemma {:induction false} ProcessedRoundByRound(tasks: seq<TaskNode>, status: StatusMap)
    requires UniqueIds(tasks) && Ids(tasks) == status.Keys
    ensures Subsequence(PendingTasks(tasks, status), tasks)
    ensures RoundByRound(Processed(tasks, status), PendingTasks(tasks, status), DoneIds(tasks, status))
  {
    PendingMeaning(tasks, status);
    PendingInOrder(tasks, status);
    DoneMeaning(tasks, status);
    WavesRoundByRound(PendingTasks(tasks, status), DoneIds(tasks, status));
  }

  lemma {:induction false} PendingInOrder(tasks: seq<TaskNode>, status: StatusMap)
    ensures Subsequence(PendingTasks(tasks, status), tasks)
    ensures forall t :: t in PendingTasks(tasks, status) ==> t in tasks
  {
    if tasks != [] {
      PendingInOrder(tasks[1..], status);
      assert forall tail: seq<TaskNode> :: [] + tail == tail;
      SubsequenceCons(PendingTasks(tasks[1..], status), tasks);
    }
  }

  predicate DoneOrAccepted(status: StatusMap, d: Id) {
    d in status && (status[d] == Done || status[d] == Accepted)
  }

  /**
   * In terms of the statuses: a task is processed exactly when it is pending and each dependency is
   * done, accepted, or processed itself. An unknown dependency is none of these.
   */
  lemma {:induction false} ProcessedIff(tasks: seq<TaskNode>, status: StatusMap, t: TaskNode)
    requires UniqueIds(tasks) && Ids(tasks) == status.Keys && t in tasks
    ensures t in Processed(tasks, status) <==>
            && status[t.id] == Pending
            && forall d :: d in t.dependsOn ==> DoneOrAccepted(status, d) || d in Ids(Processed(tasks, status))
  {
    var pending, done, order := PendingTasks(tasks, status), DoneIds(tasks, status), Processed(tasks, status);
    PendingMeaning(tasks, status);
    WavesOrdered(pending, done);
    WavesClosed(pending, done);
    DoneMeaning(tasks, status);
    hide PendingTasks, DoneIds, Waves;
    if t in order {
      var i :| 0 <= i < |order| && order[i] == t;
      assert Ready(order[i], done + Ids(order[..i]));
      assert forall u :: u in order[..i] ==> u in order;
    }
    if status[t.id] == Pending && Ready(t, done + Ids(order)) {
      assert t.id in Ids(order);
      var u :| u in order && u.id == t.id;
      assert u in tasks;
    }
  }

  lemma DoneMeaning(tasks: seq<TaskNode>, status: StatusMap)
    requires Ids(tasks) == status.Keys
    ensures forall d :: d in DoneIds(tasks, status) <==> DoneOrAccepted(status, d)
  {
    forall d | DoneOrAccepted(status, d) ensures d in DoneIds(tasks, status) {
      var u :| u in tasks && u.id == d;
      assert u.id in DoneIds(tasks, status);
    }
  }

  /**
   * Nothing waits behind a done or an accepted task; nothing is ever assigned behind one that is
   * assigned, running, rejected, failed or unknown.
   */
  lemma {:induction false} ProcessedByStatus(tasks: seq<TaskNode>, status: StatusMap, t: TaskNode)
    requires UniqueIds(tasks) && Ids(tasks) == status.Keys && t in tasks && status[t.id] == Pending
    ensures (forall d :: d in t.dependsOn ==> d in status && (status[d] == Done || status[d] == Accepted))
            ==> t in Processed(tasks, status)
    ensures (exists d :: d in t.dependsOn &&
                         (d !in status || status[d] == Assigned || status[d] == Running
                          || status[d] == Rejected || status[d] == Failed))
            ==> t !in Processed(tasks, status)
  {
    ProcessedIff(tasks, status, t);
    forall d | d in Ids(Processed(tasks, status)) ensures d in status && status[d] == Pending {
      var u :| u in Processed(tasks, status) && u.id == d;
      PendingMeaning(tasks, status);
      WavesOrdered(PendingTasks(tasks, status), DoneIds(tasks, status));
    }
  }

  /** Between waves: `order` has been served, and the waves over `remaining` are still to come. */
  ghost predicate MidWaves(
      tasks: seq<TaskNode>, start: StatusMap, order: seq<TaskNode>, remaining: seq<TaskNode>, done: set<Id>)
  {
    && UniqueIds(remaining) && (forall t :: t in remaining ==> t in tasks)
    && order + Waves(remaining, done) == Processed(tasks, start)
  }

  lemma {:induction false} WavesBegin(tasks: seq<TaskNode>, start: StatusMap)
    requires UniqueIds(tasks)
    ensures MidWaves(tasks, start, [], PendingTasks(tasks, start), DoneIds(tasks, start))
  {
    PendingMeaning(tasks, start);
  }

  lemma {:induction false} WaveServed(
      tasks: seq<TaskNode>, start: StatusMap, order: seq<TaskNode>, remaining: seq<TaskNode>, done: set<Id>)
    requires MidWaves(tasks, start, order, remaining, done) && ReadyIn(remaining, done) != []
    ensures var ready, blocked := ReadyIn(remaining, done), BlockedIn(remaining, done);
            && MidWaves(tasks, start, order + ready, blocked, done + Ids(ready))
            && |blocked| < |remaining| && Ids(ready) <= Ids(tasks)
  {
    var ready, blocked := ReadyIn(remaining, done), BlockedIn(remaining, done);
    SplitMeaning(remaining, done);
    SplitUnique(remaining, done);
    var rest := Waves(blocked, done + Ids(ready));
    assert order + (ready + rest) == (order + ready) + rest;
  }

  lemma {:induction false} WavesEnd(
      tasks: seq<TaskNode>, start: StatusMap, order: seq<TaskNode>, remaining: seq<TaskNode>, done: set<Id>)
    requires MidWaves(tasks, start, order, remaining, done) && (remaining == [] || ReadyIn(remaining, done) == [])
    ensures order == Processed(tasks, start)
  {
  }

  class TaskAssigner {
    var status: StatusMap
    var agentLoads: Loads
    var rrIndex: nat
    var assignments: map<Id, AgentId>

    ghost function View(): Ledger
      reads this
    {
      Ledger(agentLoads, rrIndex, assignments)
    }

    constructor (status: StatusMap)
      ensures this.status == status && View() == EMPTY
    {
      this.status, agentLoads, rrIndex, assignments := status, map[], 0, map[];
    }

    method RoundRobinPick(candidates: seq<AgentId>, maxConcurrent: Loads) returns (agent: Option<AgentId>)
      modifies this`rrIndex
      ensures Choice(agent, rrIndex) == Choose(candidates, agentLoads, maxConcurrent, old(rrIndex))
    {
      if candidates == [] {
        return None;
      }
      var n := |candidates|;
      for i := 0 to n
        invariant Search(candidates, agentLoads, maxConcurrent, rrIndex, n - i)
               == Choose(candidates, agentLoads, maxConcurrent, old(rrIndex))
      {
        var a := candidates[rrIndex % n];
        rrIndex := rrIndex + 1;
        if LoadOf(agentLoads, a) < CapOf(maxConcurrent, a) {
          return Some(a);
        }
      }
      return None;
    }

    method RefreshLoads(candidates: seq<AgentId>, env: Environment)
      modifies this`agentLoads
      ensures agentLoads == Refreshed(old(agentLoads), candidates, env.stored)
    {
      for i := 0 to |candidates|
        invariant Refreshed(agentLoads, candidates[i..], env.stored)
               == Refreshed(old(agentLoads), candidates, env.stored)
      {
        var a := candidates[i];
        assert candidates[i..][1..] == candidates[i + 1..];
        if a !in agentLoads {
          agentLoads := agentLoads[a := env.stored(a)];
        }
      }
    }

    method AssignOne(task: TaskNode, env: Environment, ghost start: StatusMap)
      requires task.id in start && status == MarkAssigned(start, assignments)
      modifies this
      ensures View() == Served(task.id, old(View()), env)
      ensures status == MarkAssigned(start, assignments)
    {
      var candidates := env.candidates(task.id);
      RefreshLoads(candidates, env);
      var picked := RoundRobinPick(candidates, map[]);
      if picked.Some? {
        var a := picked.value;
        status := status[task.id := Assigned];
        agentLoads := agentLoads[a := LoadOf(agentLoads, a) + 1];
        assignments := assignments[task.id := a];
      }
    }

    method AssignWave(ready: seq<TaskNode>, env: Environment, ghost start: StatusMap)
      requires Ids(ready) <= start.Keys && status == MarkAssigned(start, assignments)
      modifies this
      ensures View() == ServedAll(ready, old(View()), env)
      ensures status == MarkAssigned(start, assignments)
    {
      for i := 0 to |ready|
        invariant View() == ServedAll(ready[..i], old(View()), env)
        invariant status == MarkAssigned(start, assignments)
      {
        assert ready[..i + 1][..i] == ready[..i] && ready[i].id in Ids(ready);
        AssignOne(ready[i], env, start);
      }
      assert ready[..|ready|] == ready;
    }

    /** Assigns the pending tasks wave by wave, in the order `Processed` gives. */
    method AssignTasks(tasks: seq<TaskNode>, env: Environment) returns (result: map<Id, AgentId>)
      requires UniqueIds(tasks) && Ids(tasks) == status.Keys && View() == EMPTY
      modifies this
      ensures View() == ServedAll(Processed(tasks, old(status)), EMPTY, env) && result == assignments
      ensures status == MarkAssigned(old(status), assignments) && status.Keys == old(status).Keys
      ensures forall t :: t in status ==> status[t] == if t in result then Assigned else old(status)[t]
      ensures forall t :: t in result ==> t in old(status) && old(status)[t] == Pending
                                          && result[t] in env.candidates(t)
    {
      hide ServedAll, Waves, MarkAssigned, MidWaves, UniqueIds, Processed, PendingTasks, ReadyIn, BlockedIn;
      ghost var start := status;
      var doneIds := DoneIds(tasks, status);
      var remaining := PendingTasks(tasks, status);
      ghost var order: seq<TaskNode> := [];
      WavesBegin(tasks, start);
      NothingServed(start, env);
      while remaining != []
        invariant MidWaves(tasks, start, order, remaining, doneIds)
        invariant View() == ServedAll(order, EMPTY, env) && status == MarkAssigned(start, assignments)
        decreases |remaining|
      {
        var ready := FilterReady(remaining, doneIds);
        if ready == [] {
          break;
        }
        WaveServed(tasks, start, order, remaining, doneIds);
        AssignWave(ready, env, start);
        ServedAllConcat(order, ready, EMPTY, env);
        order := order + ready;
        remaining := Without(remaining, ready, doneIds);
        doneIds := doneIds + set t | t in ready :: t.id;
      }
      WavesEnd(tasks, start, order, remaining, doneIds);
      result := assignments;
      AssignmentOutcome(tasks, start, env);
      MarkMeaning(start, result);
    }
  }

  lemma {:induction false} NothingServed(start: StatusMap, env: Environment)
    ensures ServedAll([], EMPTY, env) == EMPTY && start == MarkAssigned(start, EMPTY.assignments)
  {
  }

  lemma {:induction false} ServedAllConcat(a: seq<TaskNode>, b: seq<TaskNode>, l: Ledger, env: Environment)
    ensures ServedAll(a + b, l, env) == ServedAll(b, ServedAll(a, l, env), env)
  {
    if b == [] {
      assert a + b == a;
    } else {
      assert (a + b)[..|a + b| - 1] == a + b[..|b| - 1];
      ServedAllConcat(a, b[..|b| - 1], l, env);
    }
  }

  lemma {:induction false} ReadySnoc(s: seq<TaskNode>, t: TaskNode, done: set<Id>)
    ensures ReadyIn(s + [t], done) == ReadyIn(s, done) + if Ready(t, done) then [t] else []
  {
    hide Ready;
    if s == [] {
      assert s + [t] == [t];
    } else {
      assert (s + [t])[0] == s[0] && (s + [t])[1..] == s[1..] + [t];
      ReadySnoc(s[1..], t, done);
      var head, last := if Ready(s[0], done) then [s[0]] else [], if Ready(t, done) then [t] else [];
      assert head + (ReadyIn(s[1..], done) + last) == (head + ReadyIn(s[1..], done)) + last;
    }
  }

  lemma {:induction false} BlockedSnoc(s: seq<TaskNode>, t: TaskNode, done: set<Id>)
    ensures BlockedIn(s + [t], done) == BlockedIn(s, done) + if Ready(t, done) then [] else [t]
  {
    hide Ready;
    if s == [] {
      assert s + [t] == [t];
    } else {
      assert (s + [t])[0] == s[0] && (s + [t])[1..] == s[1..] + [t];
      BlockedSnoc(s[1..], t, done);
      var head, last := if Ready(s[0], done) then [] else [s[0]], if Ready(t, done) then [] else [t];
      assert head + (BlockedIn(s[1..], done) + last) == (head + BlockedIn(s[1..], done)) + last;
    }
  }

  method FilterReady(remaining: seq<TaskNode>, done: set<Id>) returns (ready: seq<TaskNode>)
    ensures ready == ReadyIn(remaining, done)
  {
    ready := [];
    for i := 0 to |remaining|
      invariant ready == ReadyIn(remaining[..i], done)
    {
      assert remaining[..i + 1] == remaining[..i] + [remaining[i]];
      ReadySnoc(remaining[..i], remaining[i], done);
      if Ready(remaining[i], done) {
        ready := ready + [remaining[i]];
      }
    }
    assert remaining[..|remaining|] == remaining;
  }

  method Without(remaining: seq<TaskNode>, ready: seq<TaskNode>, ghost done: set<Id>) returns (rest: seq<TaskNode>)
    requires ready == ReadyIn(remaining, done)
    ensures rest == BlockedIn(remaining, done)
  {
    hide ReadyIn, Ready;
    SplitMeaning(remaining, done);
    rest := [];
    for i := 0 to |remaining|
      invariant rest == BlockedIn(remaining[..i], done)
    {
      assert remaining[..i + 1] == remaining[..i] + [remaining[i]];
      BlockedSnoc(remaining[..i], remaining[i], done);
      if remaining[i] !in ready {
        rest := rest + [remaining[i]];
      }
    }
    assert remaining[..|remaining|] == remaining;
  }

  /** What a whole assignment leaves behind. */
  lemma {:induction false} AssignmentOutcome(tasks: seq<TaskNode>, status: StatusMap, env: Environment)
    requires UniqueIds(tasks) && Ids(tasks) == status.Keys
    ensures var order := Processed(tasks, status);
            var l := ServedAll(order, EMPTY, env);
            && InDependencyOrder(order, DoneIds(tasks, status))
            && LoadsExact(l, env) && HandedOut(Ids(order), l, env)
            && (forall t :: t in l.assignments ==> t in status && status[t] == Pending)
  {
    PendingMeaning(tasks, status);
    WavesOrdered(PendingTasks(tasks, status), DoneIds(tasks, status));
    ServedAllOutcome(Processed(tasks, status), env);
  }

  // ----- tasks turned away -----

  /**
   * A task that found no agent still counts as done for those that depend on it: each dependency of
   * an assigned task was done before, has an agent, or was turned away because all its candidates
   * were full.
   */
  lemma {:induction false} AssignedDependencies(
      tasks: seq<TaskNode>, status: StatusMap, env: Environment, t: TaskNode, d: Id)
    requires UniqueIds(tasks) && Ids(tasks) == status.Keys
    requires t in Processed(tasks, status) && d in t.dependsOn
    ensures var l := ServedAll(Processed(tasks, status), EMPTY, env);
            || d in DoneIds(tasks, status)
            || d in l.assignments
            || (d in Ids(Processed(tasks, status)) && TurnedAway(d, l, env))
  {
    hide ServedAll, Waves, LoadsExact, TurnedAway, PendingTasks;
    var order, done := Processed(tasks, status), DoneIds(tasks, status);
    AssignmentOutcome(tasks, status, env);
    var i :| 0 <= i < |order| && order[i] == t;
    assert Ready(order[i], done + Ids(order[..i]));
    assert forall u :: u in order[..i] ==> u in order;
  }

  /** The tasks that list an agent among their candidates. */
  ghost function Askers(order: seq<TaskNode>, env: Environment, a: AgentId): set<Id> {
    set u | u in order && a in env.candidates(u.id) :: u.id
  }

  /** Every task has a candidate with room for all the tasks that might ask for it. */
  ghost predicate RoomForAll(order: seq<TaskNode>, env: Environment) {
    forall t :: t in order ==>
      exists a :: a in env.candidates(t.id) && env.stored(a) + |Askers(order, env, a)| <= 5
  }

  lemma GivenAreAskers(order: seq<TaskNode>, l: Ledger, env: Environment, t: TaskNode, a: AgentId)
    requires HandedOut(Ids(order), l, env) && t in order && t.id !in l.assignments && a in env.candidates(t.id)
    ensures |GivenTo(l.assignments, a)| < |Askers(order, env, a)|
  {
    var given, askers := GivenTo(l.assignments, a), Askers(order, env, a);
    forall id | id in given ensures id in askers - {t.id} {
      assert id in Ids(order);
    }
    SubsetSize(given, askers - {t.id});
    assert t.id in askers;
  }

  /** With room for all, nobody is turned away: every processed task gets an agent. */
  lemma {:induction false} RoomForAllAssignsAll(tasks: seq<TaskNode>, status: StatusMap, env: Environment)
    requires UniqueIds(tasks) && Ids(tasks) == status.Keys && RoomForAll(Processed(tasks, status), env)
    ensures ServedAll(Processed(tasks, status), EMPTY, env).assignments.Keys == Ids(Processed(tasks, status))
  {
    hide ServedAll, Waves, Processed, GivenTo, Askers;
    var order := Processed(tasks, status);
    var l := ServedAll(order, EMPTY, env);
    AssignmentOutcome(tasks, status, env);
    forall id | id in Ids(order) ensures id in l.assignments {
      var t :| t in order && t.id == id;
      var a :| a in env.candidates(t.id) && env.stored(a) + |Askers(order, env, a)| <= 5;
      if id !in l.assignments {
        GivenAreAskers(order, l, env, t, a);
      }
    }
  }

  /** Every task that gets an agent has its dependencies done or with an agent too. */
  ghost predicate DependenciesHonoured(tasks: seq<TaskNode>, status: StatusMap, env: Environment) {
    var l := ServedAll(Processed(tasks, status), EMPTY, env);
    forall t, d :: t in Processed(tasks, status) && t.id in l.assignments && d in t.dependsOn
                   ==> d in DoneIds(tasks, status) || d in l.assignments
  }

  ghost predicate NoneWaitsForPending(tasks: seq<TaskNode>, status: StatusMap) {
    forall t, d :: t in Processed(tasks, status) && d in t.dependsOn ==> d in DoneIds(tasks, status)
  }

  /** One idle agent that can do one task only; nobody for the rest. */
  function OnlyFor(id: Id): Environment {
    Environment((t: Id) => if t == id then ["agent"] else [], (a: AgentId) => 0)
  }

  lemma OnlyOneAssigned(tasks: seq<TaskNode>, status: StatusMap, t: TaskNode)
    requires UniqueIds(tasks) && Ids(tasks) == status.Keys && t in Processed(tasks, status)
    ensures ServedAll(Processed(tasks, status), EMPTY, OnlyFor(t.id)).assignments.Keys == {t.id}
  {
    hide ServedAll, Waves, GivenTo, Processed;
    var order, env := Processed(tasks, status), OnlyFor(t.id);
    var l := ServedAll(order, EMPTY, env);
    AssignmentOutcome(tasks, status, env);
    if t.id !in l.assignments {
      assert "agent" in env.candidates(t.id);
      GivenAreAskers(order, l, env, t, "agent");
      SubsetSize(Askers(order, env, "agent"), {t.id});
    }
  }

  /**
   * Exactly when dependencies are honoured whatever agents there are: iff no processed task waits
   * for one that was not done before the call.
   */
  lemma DependenciesHonouredIff(tasks: seq<TaskNode>, status: StatusMap)
    requires UniqueIds(tasks) && Ids(tasks) == status.Keys
    ensures (forall env :: DependenciesHonoured(tasks, status, env)) <==> NoneWaitsForPending(tasks, status)
  {
    hide Processed, DoneIds, ServedAll, UniqueIds;
    if !NoneWaitsForPending(tasks, status) {
      var t, d :| t in Processed(tasks, status) && d in t.dependsOn && d !in DoneIds(tasks, status);
      WaitsForAnother(tasks, status, t, d);
      OnlyOneAssigned(tasks, status, t);
      assert !DependenciesHonoured(tasks, status, OnlyFor(t.id));
    }
  }

  lemma WaitsForAnother(tasks: seq<TaskNode>, status: StatusMap, t: TaskNode, d: Id)
    requires UniqueIds(tasks) && Ids(tasks) == status.Keys
    requires t in Processed(tasks, status) && d in t.dependsOn && d !in DoneIds(tasks, status)
    ensures d != t.id
  {
    var order, done := Processed(tasks, status), DoneIds(tasks, status);
    PendingMeaning(tasks, status);
    WavesOrdered(PendingTasks(tasks, status), done);
    hide Waves, PendingTasks, DoneIds;
    var i :| 0 <= i < |order| && order[i] == t;
    assert Ready(order[i], done + Ids(order[..i]));
    assert d in Ids(order[..i]);
  }
}
