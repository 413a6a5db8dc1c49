/**
 * Two tasks tangled through what one of them depends on: if the other always gets the contested
 * lock first, they never run together, whatever the schedule.
 */
module TangledTasks {
  import opened Prelude
  import opened Digraphs
  import opened TaskGraphs
  import opened LockTable
  import opened Executor
  import opened ExecutorInvariants
  import opened ExecutorSettling
  import opened ExecutorProgress
  import opened ConflictDetection
  import opened ReadersAndWriters

  /** `y` is ready from the start, is queued ahead of `a`, and shares a path with `a` and nobody else. */
  ghost predicate GoesFirst(g: seq<TaskNode>, y: TaskNode, a: TaskNode) {
    && UniqueIds(g) && y in g && a in g && y.id != a.id && y.dependsOn == []
    && SharesPath(y, a) && (forall t :: t in g && SharesPath(t, y) ==> t == y || t == a)
    && !Before(EntryOf(a), EntryOf(y))
  }

  /** Until `y` is launched it stays queued; once `a` is launched `y` has been and is over. */
  ghost predicate InTurn(s: State, y: TaskNode, a: TaskNode) {
    && (y.id !in Launched(s) ==> EntryOf(y) in s.queue)
    && (a.id in Launched(s) ==> y.id in Launched(s) && y.id !in s.running)
  }

  lemma InitialInTurn(g: seq<TaskNode>, s: State, y: TaskNode, a: TaskNode)
    requires Initial(g, s) && GoesFirst(g, y, a)
    ensures InTurn(s, y, a)
  {
    RootsQueued(g, y);
  }

  lemma PendingIsUnlaunched(g: seq<TaskNode>, s: State, t: TaskNode)
    requires Inv(g, s) && t in g
    ensures IsPending(g, s, t.id) <==> t.id !in Launched(s)
  {
    assert t.id in Ids(g);
  }

  /** While `a` has not been launched, nobody can refuse `y` its locks. */
  lemma FirstIsNotRefused(g: seq<TaskNode>, s: State, y: TaskNode, a: TaskNode)
    requires GoesFirst(g, y, a) && Inv(g, s) && InTurn(s, y, a) && y.id !in Launched(s)
    ensures AcquireAll(s.locks, y.id, y.artifactPaths).0
  {
    PendingIsUnlaunched(g, s, y);
    if !AcquireAll(s.locks, y.id, y.artifactPaths).0 {
      NotFailedWhenReady(g, s, y);
      assert Wakes(s, y);
      var u := RefusedByRival(g, s, y);
    }
  }

  /** `a` gets its locks only when `y` does not run. */
  lemma SecondWaits(g: seq<TaskNode>, s: State, y: TaskNode, a: TaskNode)
    requires GoesFirst(g, y, a) && Inv(g, s) && a.id !in Launched(s)
    requires AcquireAll(s.locks, a.id, a.artifactPaths).0
    ensures y.id !in s.running
  {
    PendingIsUnlaunched(g, s, a);
    PendingHoldsNone(g, s, a);
    AcquireAllMeaning(s.locks, a.id, a.artifactPaths);
    var p :| p in y.artifactPaths && p in a.artifactPaths;
    if y.id in s.running {
      RunningHolds(g, s, y, p);
    }
  }

  lemma RunningHolds(g: seq<TaskNode>, s: State, t: TaskNode, p: Path)
    requires Inv(g, s) && t in g && t.id in s.running && p in t.artifactPaths
    ensures p in s.locks
  {
  }

  lemma StartInTurn(s: State, next: State, t: TaskNode, y: TaskNode, a: TaskNode)
    requires InTurn(s, y, a) && y.id != a.id && t.id !in Launched(s)
    requires next.queue == s.queue - multiset{EntryOf(t)} && next.running == s.running + {t.id}
    requires next.completed == s.completed && next.failedLog == s.failedLog
    requires t.id == a.id ==> y.id in Launched(s) && y.id !in s.running
    ensures InTurn(next, y, a)
  {
    assert Launched(next) == Launched(s) + {t.id};
    assert EntryOf(t) == EntryOf(y) ==> t.id == y.id;
  }

  lemma StayInTurn(s: State, next: State, t: TaskNode, y: TaskNode, a: TaskNode)
    requires InTurn(s, y, a) && next.running == s.running
    requires next.completed == s.completed && next.failedLog == s.failedLog
    requires s.queue - multiset{EntryOf(t)} <= next.queue && (t.id == y.id ==> s.queue <= next.queue)
    ensures InTurn(next, y, a)
  {
    assert EntryOf(t) == EntryOf(y) ==> t.id == y.id;
  }

  lemma OfferInTurn(g: seq<TaskNode>, s: State, t: TaskNode, candidates: seq<Candidate>, y: TaskNode, a: TaskNode)
    requires GoesFirst(g, y, a) && Inv(g, s) && InTurn(s, y, a)
    requires t in g && t.id !in Launched(s) && EntryOf(t) in s.queue
    requires t.id == a.id ==> y.id in Launched(s)
    ensures InTurn(Offer(s.(queue := s.queue - multiset{EntryOf(t)}), t, candidates).1, y, a)
  {
    NodeUnique(g, t);
    NodeUnique(g, y);
    NodeUnique(g, a);
    hide Inv, AcquireAll, PickAgent, InTurn, Launched;
    var next := Offer(s.(queue := s.queue - multiset{EntryOf(t)}), t, candidates).1;
    var pick := PickAgent(candidates, s.slots).0;
    if pick.None? || pick.value == "" {
      StayInTurn(s, next, t, y, a);
    } else if AcquireAll(s.locks, t.id, t.artifactPaths).0 {
      if t == a {
        SecondWaits(g, s, y, a);
      }
      StartInTurn(s, next, t, y, a);
    } else {
      if t == y {
        FirstIsNotRefused(g, s, y, a);
      }
      StayInTurn(s, next, t, y, a);
    }
  }

  lemma PopOneInTurn(g: seq<TaskNode>, s: State, answers: seq<seq<Candidate>>, y: TaskNode, a: TaskNode)
    requires GoesFirst(g, y, a) && Inv(g, s) && InTurn(s, y, a) && s.queue != multiset{}
    ensures InTurn(PopOne(g, s, answers).0, y, a)
  {
    var e := Least(s.queue);
    PendingIsUnlaunched(g, s, y);
    if IsPending(g, s, e.id) {
      assert EntryReady(g, s.completed, e);
      var t := EntryNode(g, s.completed, e);
      PendingIsUnlaunched(g, s, t);
      NodeUnique(g, a);
      OfferInTurn(g, s, t, Answer(answers), y, a);
    }
    hide Inv, Offer, GoesFirst;
  }

  lemma {:induction false} DispatchInTurn(
      g: seq<TaskNode>, s: State, answers: seq<seq<Candidate>>, y: TaskNode, a: TaskNode)
    requires GoesFirst(g, y, a) && Inv(g, s) && InTurn(s, y, a)
    ensures InTurn(Dispatch(g, s, answers), y, a)
    decreases |s.queue|
  {
    hide Inv, InTurn;
    if s.queue != multiset{} {
      PopOneInv(g, s, answers);
      PopOneInTurn(g, s, answers, y, a);
      var (next, rest, stop) := PopOne(g, s, answers);
      if !stop {
        DispatchInTurn(g, next, rest, y, a);
      }
    }
  }

  lemma SettleInTurn(g: seq<TaskNode>, s: State, o: Outcome, y: TaskNode, a: TaskNode)
    requires Inv(g, s) && InTurn(s, y, a) && o.id in s.running
    ensures InTurn(Settle(g, s, o), y, a)
  {
    hide Inv;
    RunningIsUnsettled(g, s, o.id);
    SettleLaunched(g, s, o);
    if o.error.None? {
      RequeueMeaning(g, Finish(s, o.id));
    } else {
      FailShape(g, s, o.id, o.error.value);
    }
    hide Settle, Launched;
  }

  lemma {:induction false} SettleAllInTurn(g: seq<TaskNode>, s: State, batch: seq<Outcome>, y: TaskNode, a: TaskNode)
    requires GoesFirst(g, y, a) && Inv(g, s) && InTurn(s, y, a) && BatchFits(s.running, batch)
    ensures InTurn(SettleAll(g, s, batch), y, a)
    decreases |batch|
  {
    hide Inv, InTurn;
    if batch != [] {
      SettleInTurn(g, s, batch[0], y, a);
      SettleInv(g, s, batch[0]);
      SettleAllInTurn(g, Settle(g, s, batch[0]), batch[1..], y, a);
    }
  }

  lemma {:induction false} RunsStayInTurn(g: seq<TaskNode>, s0: State, rounds: seq<Round>, y: TaskNode, a: TaskNode)
    requires WellFormed(g) && Initial(g, s0) && Legals(g, s0, rounds) && GoesFirst(g, y, a)
    ensures InTurn(After(g, s0, rounds), y, a)
  {
    hide Inv, InTurn;
    if rounds == [] {
      InitialInTurn(g, s0, y, a);
    } else {
      var front, r := rounds[..|rounds| - 1], rounds[|rounds| - 1];
      var s := After(g, s0, front);
      RunsStayInTurn(g, s0, front, y, a);
      RunsKeepInv(g, s0, front);
      DispatchInv(g, s, r.answers);
      DispatchInTurn(g, s, r.answers, y, a);
      SettleAllInTurn(g, Dispatch(g, s, r.answers), r.batch, y, a);
    }
  }

  /** A task below `a` never runs next to `y`, in any run. */
  lemma {:induction false} NeverTogether(
      g: seq<TaskNode>, s0: State, rounds: seq<Round>, answers: seq<seq<Candidate>>,
      x: TaskNode, y: TaskNode, a: TaskNode)
    requires WellFormed(g) && Initial(g, s0) && Legals(g, s0, rounds) && GoesFirst(g, y, a)
    requires x in g && Reaches(Deps(g), x.id, a.id)
    ensures var d := Dispatch(g, After(g, s0, rounds), answers);
            !(x.id in d.running && y.id in d.running)
  {
    var s := After(g, s0, rounds);
    RunsKeepInv(g, s0, rounds);
    RunsStayInTurn(g, s0, rounds, y, a);
    DispatchInv(g, s, answers);
    DispatchInTurn(g, s, answers, y, a);
    var d := Dispatch(g, s, answers);
    if x.id in d.running {
      RunningDepsMet(g, d, x);
      AncestorsCompleted(g, d, x, a.id);
    }
    hide Inv, Dispatch, After;
  }

  lemma RunningDepsMet(g: seq<TaskNode>, d: State, x: TaskNode)
    requires Inv(g, d) && x in g && x.id in d.running
    ensures DepsMet(x, d.completed)
  {
  }

  // ----- an instance -----

  /** The writer of "x", the task that waits behind it for "p", and the reader of "x" that depends on that task. */
  function Writer(): TaskNode {
    TaskNode("1", [], ["p", "x"], 2)
  }

  function Middle(): TaskNode {
    TaskNode("2", [], ["p"], 2)
  }

  function Reader(): TaskNode {
    TaskNode("3", ["2"], ["r:x"], 2)
  }

  function TangledGraph(): seq<TaskNode> {
    [Writer(), Middle(), Reader()]
  }

  lemma TangledEdges()
    ensures var e := Deps(TangledGraph());
            e.Keys == {"1", "2", "3"} && e["1"] == [] && e["2"] == [] && e["3"] == ["2"]
  {
    var g := TangledGraph();
    assert g[0] == Writer() && g[1] == Middle() && g[2] == Reader();
    assert g[0] in g && g[1] in g && g[2] in g;
    assert UniqueIds(g);
    DepsOf(g, g[0]);
    DepsOf(g, g[1]);
    DepsOf(g, g[2]);
  }

  lemma TangledIsAcyclic()
    ensures Acyclic(Deps(TangledGraph()))
  {
    TangledEdges();
    var e, order := Deps(TangledGraph()), ["1", "2", "3"];
    assert Elements(order) == {"1", "2", "3"} by {
      assert order[0] in order && order[1] in order && order[2] in order;
    }
    assert order[..2] == ["1", "2"];
    hide Deps;
    TopoIsAcyclic(e, order);
  }

  lemma WriterGoesFirst()
    ensures GoesFirst(TangledGraph(), Writer(), Middle())
  {
    var g := TangledGraph();
    assert g[0] == Writer() && g[1] == Middle() && g[2] == Reader();
    assert g[0] in g && g[1] in g;
    assert "p" in Writer().artifactPaths && "p" in Middle().artifactPaths;
    assert !LexLeq("2", "1");
  }

  lemma TangledGraphIsFine()
    ensures var g := TangledGraph();
            WellFormed(g) && KnownDeps(g) && Acyclic(Deps(g)) && GoesFirst(g, Writer(), Middle())
  {
    var g := TangledGraph();
    TangledIsAcyclic();
    WriterGoesFirst();
    assert g[0] == Writer() && g[1] == Middle() && g[2] == Reader();
    assert g[1] in g;
    hide Acyclic, Deps, GoesFirst;
  }

  /** The writer and the reader are unordered, but what the reader depends on is a rival of the writer. */
  lemma TangledPair()
    ensures var g := TangledGraph();
            && Unordered(g, Writer(), Reader()) && Mixed(Writer(), Reader()) && !SharesPath(Writer(), Reader())
            && Reaches(Deps(g), "3", "2")
  {
    var e := Deps(TangledGraph());
    TangledEdges();
    forall p | Walk(e, p) ensures !WalkFromTo(e, p, "3", "1") && !WalkFromTo(e, p, "1", "3") {
      if |p| >= 2 {
        assert Edge(e, p[0], p[1]);
      }
      if p[0] == "3" {
        ClosedSetKeepsWalk(e, {"2", "3"}, p);
      }
    }
    ReachesDirect(e, "3", "2");
    assert "r:" + "x" == "r:x" && "x" in Writer().artifactPaths && !IsRead("x");
    assert "r:x" in Reader().artifactPaths;
  }

  /** Apart from that pair, tasks of this graph clash only where they share a path. */
  lemma TangledClashes(t: TaskNode, u: TaskNode)
    requires t in TangledGraph() && u in TangledGraph() && PathsClash(t, u)
    ensures SharesPath(t, u) || (t == Writer() && u == Reader()) || (t == Reader() && u == Writer())
  {
    PathsClashIff(t, u);
    SharesPathIff(t, u);
    if p :| p in t.artifactPaths && !IsRead(p) && "r:" + p in u.artifactPaths {
      OnlyReaderReads(t, u, p);
    } else if p :| p in u.artifactPaths && !IsRead(p) && "r:" + p in t.artifactPaths {
      OnlyReaderReads(u, t, p);
    }
  }

  lemma OnlyReaderReads(t: TaskNode, u: TaskNode, p: Path)
    requires t in TangledGraph() && u in TangledGraph() && p in t.artifactPaths && "r:" + p in u.artifactPaths
    requires !IsRead(p)
    ensures t == Writer() && u == Reader()
  {
    assert |"r:" + p| == 2 + |p| && ("r:" + p)[2..] == p;
    assert u == Reader() && "r:" + p == "r:x";
    assert p == "r:x"[2..] == "x";
  }

  /**
   * For a tangled pair the shared lock is not necessary: here an unordered reader and writer share
   * no listed path, and still no clashing tasks ever run together.
   */
  lemma TangledTasksStayApart(s0: State)
    requires Initial(TangledGraph(), s0)
    ensures ClashesStayApart(TangledGraph(), s0) && !MixedShareALock(TangledGraph()) && !Untangled(TangledGraph())
  {
    var g := TangledGraph();
    TangledGraphIsFine();
    TangledPair();
    assert g[0] in g && g[2] in g;
    forall rounds: seq<Round>, answers: seq<seq<Candidate>> | Legals(g, s0, rounds)
      ensures ClashesApart(g, Dispatch(g, After(g, s0, rounds), answers))
    {
      NoClashInTangle(g, s0, rounds, answers);
    }
    if Untangled(g) {
      ClashesStayApartIff(g, s0);
    }
  }

  lemma {:induction false} NoClashInTangle(
      g: seq<TaskNode>, s0: State, rounds: seq<Round>, answers: seq<seq<Candidate>>)
    requires g == TangledGraph() && Initial(g, s0) && Legals(g, s0, rounds)
    ensures ClashesApart(g, Dispatch(g, After(g, s0, rounds), answers))
  {
    TangledGraphIsFine();
    TangledPair();
    hide Initial, Inv, Dispatch, After, Legals, PathsClash, GoesFirst, Acyclic, Reaches, Deps, WellFormed, SharesPath;
    RunsKeepInv(g, s0, rounds);
    DispatchInv(g, After(g, s0, rounds), answers);
    var d := Dispatch(g, After(g, s0, rounds), answers);
    assert g[2] in g && g[2] == Reader();
    NeverTogether(g, s0, rounds, answers, Reader(), Writer(), Middle());
    forall t, u | t in g && u in g && t.id in d.running && u.id in d.running && t != u ensures !PathsClash(t, u) {
      if PathsClash(t, u) {
        TangledClashes(t, u);
        SharersNotTogether(g, d, t, u);
      }
    }
  }

  lemma SharersNotTogether(g: seq<TaskNode>, d: State, t: TaskNode, u: TaskNode)
    requires UniqueIds(g) && Inv(g, d) && t in g && u in g && t.id in d.running && u.id in d.running && t != u
    ensures !SharesPath(t, u)
  {
    if p :| p in t.artifactPaths && p in u.artifactPaths {
      InFlightShareNoPath(g, d, t, u, p);
    }
  }
}
