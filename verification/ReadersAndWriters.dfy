/** What the conflict reports mean for running tasks, given that locks ignore the read prefix. */
module ReadersAndWriters {
  import opened Prelude
  import opened Digraphs
  import opened TaskGraphs
  import opened Executor
  import opened ExecutorInvariants
  import opened ExecutorSettling
  import opened ExecutorProgress
  import opened ExecutorContainment
  import opened ExecutorRivals
  import opened ConflictDetection

  /** No two tasks in flight are ones the detector would report. */
  ghost predicate ClashesApart(g: seq<TaskNode>, s: State) {
    forall t, u :: t in g && u in g && t.id in s.running && u.id in s.running && t != u ==> !PathsClash(t, u)
  }

  ghost predicate ClashesStayApart(g: seq<TaskNode>, s0: State) {
    forall rounds: seq<Round>, answers: seq<seq<Candidate>> ::
      Legals(g, s0, rounds) ==> ClashesApart(g, Dispatch(g, After(g, s0, rounds), answers))
  }

  /** Wherever a reader and a writer of one path are unordered, some lock they share keeps them apart. */
  ghost predicate MixedShareALock(g: seq<TaskNode>) {
    forall t, u :: t in g && u in g && Unordered(g, t, u) && Mixed(t, u) ==> SharesPath(t, u)
  }

  // ----- the condition suffices -----

  lemma InFlightUnordered(g: seq<TaskNode>, s: State, t: TaskNode, u: TaskNode)
    requires UniqueIds(g) && Inv(g, s) && t in g && u in g && t.id in s.running && u.id in s.running && t != u
    ensures Unordered(g, t, u)
  {
    NodeUnique(g, t);
    NodeUnique(g, u);
    assert DepsMet(t, s.completed) && DepsMet(u, s.completed);
    if Reaches(Deps(g), t.id, u.id) { AncestorsCompleted(g, s, t, u.id); }
    if Reaches(Deps(g), u.id, t.id) { AncestorsCompleted(g, s, u, t.id); }
  }

  lemma InFlightDoNotClash(g: seq<TaskNode>, s: State, t: TaskNode, u: TaskNode)
    requires UniqueIds(g) && Inv(g, s) && MixedShareALock(g)
    requires t in g && u in g && t.id in s.running && u.id in s.running && t != u
    ensures !PathsClash(t, u)
  {
    hide Inv, Mixed, BothWrite, BothRead;
    InFlightUnordered(g, s, t, u);
    PathsClashIff(t, u);
    SharesPathIff(t, u);
    if p :| p in t.artifactPaths && p in u.artifactPaths {
      InFlightShareNoPath(g, s, t, u, p);
    }
  }

  /** If every unordered reader and writer also share a listed path, clashing tasks never run together. */
  lemma SharedLocksKeepClashesApart(g: seq<TaskNode>, s0: State)
    requires WellFormed(g) && Initial(g, s0) && MixedShareALock(g)
    ensures ClashesStayApart(g, s0)
  {
    hide Inv, Initial;
    forall rounds: seq<Round>, answers: seq<seq<Candidate>> | Legals(g, s0, rounds)
      ensures ClashesApart(g, Dispatch(g, After(g, s0, rounds), answers))
    {
      RunsKeepInv(g, s0, rounds);
      DispatchInv(g, After(g, s0, rounds), answers);
      var d := Dispatch(g, After(g, s0, rounds), answers);
      forall t, u | t in g && u in g && t.id in d.running && u.id in d.running && t != u ensures !PathsClash(t, u) {
        InFlightDoNotClash(g, d, t, u);
      }
    }
  }

  // ----- which tasks can meet -----

  /** Nothing that `x` depends on competes with `y` for a lock. */
  ghost predicate NoRivalAbove(g: seq<TaskNode>, x: TaskNode, y: TaskNode) {
    forall a :: a in g && Reaches(Deps(g), x.id, a.id) ==> !Rivals(g, y, a)
  }

  /** Neither order nor locks stand between the two, nor between one and what the other depends on. */
  ghost predicate CanMeet(g: seq<TaskNode>, x: TaskNode, y: TaskNode) {
    Unordered(g, x, y) && !SharesPath(x, y) && NoRivalAbove(g, x, y) && NoRivalAbove(g, y, x)
  }

  /** A state drained down to at most the two tasks, in which nothing has failed and neither is settled. */
  ghost predicate DownToTwo(g: seq<TaskNode>, d: State, x: TaskNode, y: TaskNode) {
    && x in g && y in g && d.running <= {x.id, y.id} && d.queue == multiset{} && d.failed == {}
    && x.id !in d.completed && y.id !in d.completed
    && Inv(g, d) && WakeupsKept(g, d, {})
  }

  /** In such a state a ready task that rivals neither of the two has completed or is one of them. */
  lemma ReadyWithoutRival(g: seq<TaskNode>, d: State, x: TaskNode, y: TaskNode, t: TaskNode)
    requires UniqueIds(g) && DownToTwo(g, d, x, y) && t in g && DepsMet(t, d.completed)
    requires !Rivals(g, x, t) && !Rivals(g, y, t)
    ensures t.id in d.completed || t.id in d.running
  {
    NodeUnique(g, x);
    NodeUnique(g, y);
    forall u | u in g && u.id in d.running ensures !Rivals(g, u, t) {
      NodeUnique(g, u);
    }
    assert !Watched(g, d, {}, t);
    assert !Wakes(d, t);
    assert t.id in Ids(g) && RaisedIds(d.failedLog) <= d.failed;
    hide Rivals, WakeupsKept;
  }

  lemma AboveTaskCompletes(g: seq<TaskNode>, d: State, x: TaskNode, y: TaskNode, t: TaskNode)
    requires UniqueIds(g) && Acyclic(Deps(g)) && DownToTwo(g, d, x, y)
    requires Unordered(g, x, y) && NoRivalAbove(g, x, y)
    requires t in g && Reaches(Deps(g), x.id, t.id) && DepsMet(t, d.completed)
    ensures t.id in d.completed
  {
    hide DownToTwo;
    ReadyWithoutRival(g, d, x, y, t);
    RunningAreTheTwo(g, d, x, y);
  }

  lemma RunningAreTheTwo(g: seq<TaskNode>, d: State, x: TaskNode, y: TaskNode)
    requires DownToTwo(g, d, x, y)
    ensures d.running <= {x.id, y.id}
  {
  }

  lemma DepIsAbove(g: seq<TaskNode>, x: TaskNode, t: TaskNode, a: Id)
    requires UniqueIds(g) && t in g && a in t.dependsOn && (t == x || Reaches(Deps(g), x.id, t.id))
    ensures Edge(Deps(g), t.id, a) && Reaches(Deps(g), x.id, a)
  {
    DepsOf(g, t);
    ReachesDirect(Deps(g), t.id, a);
    if t != x {
      ReachesAcross(Deps(g), x.id, t.id, a);
    }
  }

  /** Along a topological order: everything above `x` has completed. */
  lemma {:induction false} AboveCompletes(g: seq<TaskNode>, d: State, x: TaskNode, y: TaskNode, order: seq<Id>, n: nat)
    requires UniqueIds(g) && Acyclic(Deps(g)) && IsTopo(Deps(g), order) && n <= |order| && DownToTwo(g, d, x, y)
    requires Unordered(g, x, y) && NoRivalAbove(g, x, y)
    ensures forall i :: 0 <= i < n && Reaches(Deps(g), x.id, order[i]) ==> order[i] in d.completed
  {
    hide DownToTwo, Reaches, Acyclic, Unordered, NoRivalAbove;
    if n > 0 {
      AboveCompletes(g, d, x, y, order, n - 1);
      var id := order[n - 1];
      if Reaches(Deps(g), x.id, id) {
        assert id in Elements(order);
        var t :| t in g && t.id == id;
        forall a | a in t.dependsOn ensures a in d.completed {
          DepIsAbove(g, x, t, a);
          assert a in order[..n - 1];
        }
        AboveTaskCompletes(g, d, x, y, t);
      }
    }
  }

  /** So nothing holds `x` back any more: it runs. */
  lemma HeldBackTaskRuns(g: seq<TaskNode>, d: State, x: TaskNode, y: TaskNode)
    requires UniqueIds(g) && KnownDeps(g) && Acyclic(Deps(g)) && DownToTwo(g, d, x, y)
    requires Unordered(g, x, y) && !SharesPath(x, y) && NoRivalAbove(g, x, y)
    ensures x.id in d.running
  {
    DepsClosed(g);
    AcyclicIffTopo(Deps(g));
    var order :| IsTopo(Deps(g), order);
    AboveCompletes(g, d, x, y, order, |order|);
    forall a | a in x.dependsOn ensures a in d.completed {
      DepIsAbove(g, x, x, a);
      assert a in Ids(g);
      assert a in Elements(order);
    }
    NoSharing(x, y);
    ReadyWithoutRival(g, d, x, y, x);
  }

  lemma NoSharing(x: TaskNode, y: TaskNode)
    requires !SharesPath(x, y)
    ensures !SharesPath(y, x)
  {
  }

  lemma {:induction false} DrainedIsDownToTwo(
      g: seq<TaskNode>, s0: State, rounds: seq<Round>, answers: seq<seq<Candidate>>, x: TaskNode, y: TaskNode)
    requires WellFormed(g) && Initial(g, s0) && x in g && y in g && Calm(g, s0, rounds, x.id, y.id)
    requires ServesHonestly(g, s0, rounds, answers)
    requires Dispatch(g, After(g, s0, rounds), answers).running <= {x.id, y.id}
    ensures var d := Dispatch(g, After(g, s0, rounds), answers);
            DownToTwo(g, d, x, y) && DownToTwo(g, d, y, x)
  {
    hide Inv, WakeupsKept;
    DrainedFacts(g, s0, rounds, answers, x.id, y.id);
  }

  /**
   * Any two tasks that neither order nor locks keep apart, and neither of which competes with what
   * the other depends on, can be in flight at the same time, in a run in which storage tells the
   * truth and nothing has raised. Other rivalries do not matter.
   */
  lemma {:induction false} UnorderedTasksMeet(g: seq<TaskNode>, s0: State, x: TaskNode, y: TaskNode)
    returns (rounds: seq<Round>, answers: seq<seq<Candidate>>)
    requires WellFormed(g) && KnownDeps(g) && Acyclic(Deps(g)) && Initial(g, s0)
    requires x in g && y in g && CanMeet(g, x, y)
    ensures Calm(g, s0, rounds, x.id, y.id) && ServesHonestly(g, s0, rounds, answers)
    ensures Dispatch(g, After(g, s0, rounds), answers).running == {x.id, y.id}
  {
    hide DownToTwo, Calm, Initial, Acyclic, Reaches, NoRivalAbove;
    NothingPlayedIsCalm(g, s0, x.id, y.id);
    rounds, answers := DrainOthers(g, s0, [], x, y);
    var d := Dispatch(g, After(g, s0, rounds), answers);
    DrainedIsDownToTwo(g, s0, rounds, answers, x, y);
    HeldBackTaskRuns(g, d, x, y);
    NoSharing(x, y);
    HeldBackTaskRuns(g, d, y, x);
  }

  lemma NothingPlayedIsCalm(g: seq<TaskNode>, s0: State, x: Id, y: Id)
    ensures Calm(g, s0, [], x, y)
  {
  }

  // ----- the exact condition -----

  /** Where a reader and a writer are unordered and share no lock, neither competes with what the other depends on. */
  ghost predicate Untangled(g: seq<TaskNode>) {
    forall x, y :: x in g && y in g && Unordered(g, x, y) && Mixed(x, y) && !SharesPath(x, y)
                   ==> NoRivalAbove(g, x, y) && NoRivalAbove(g, y, x)
  }

  /** A reader and a writer of one path that can meet do run together in some run. */
  lemma MixedPairMeets(g: seq<TaskNode>, s0: State, x: TaskNode, y: TaskNode)
    requires WellFormed(g) && KnownDeps(g) && Acyclic(Deps(g)) && Initial(g, s0)
    requires x in g && y in g && CanMeet(g, x, y) && Mixed(x, y)
    ensures !ClashesStayApart(g, s0)
  {
    var rounds, answers := UnorderedTasksMeet(g, s0, x, y);
    PathsClashIff(x, y);
    assert !ClashesApart(g, Dispatch(g, After(g, s0, rounds), answers));
    CalmIsLegal(g, s0, rounds, x.id, y.id);
  }

  /**
   * Exactly when the locks enforce what the detector reports: on an acyclic graph in which no
   * unordered reader and writer are tangled through what they depend on, clashing tasks never run
   * together in any run iff every unordered reader and writer of a path also share a listed path.
   */
  lemma ClashesStayApartIff(g: seq<TaskNode>, s0: State)
    requires WellFormed(g) && KnownDeps(g) && Acyclic(Deps(g)) && Initial(g, s0) && Untangled(g)
    ensures ClashesStayApart(g, s0) <==> MixedShareALock(g)
  {
    if MixedShareALock(g) {
      SharedLocksKeepClashesApart(g, s0);
    } else {
      var x, y :| x in g && y in g && Unordered(g, x, y) && Mixed(x, y) && !SharesPath(x, y);
      MixedPairMeets(g, s0, x, y);
    }
  }

  lemma {:induction false} CalmIsLegal(g: seq<TaskNode>, s0: State, rounds: seq<Round>, x: Id, y: Id)
    requires Calm(g, s0, rounds, x, y)
    ensures Legals(g, s0, rounds)
  {
  }

  /** A writer of "x" and a reader of it, as the locks see them: two tasks in flight together. */
  lemma ReaderAndWriterMeet(s0: State)
    requires Initial([TaskNode("a", [], ["x"], 2), TaskNode("b", [], ["r:x"], 2)], s0)
    ensures !ClashesStayApart([TaskNode("a", [], ["x"], 2), TaskNode("b", [], ["r:x"], 2)], s0)
  {
    var a, b := TaskNode("a", [], ["x"], 2), TaskNode("b", [], ["r:x"], 2);
    var g := [a, b];
    TwoFreeTasks(a, b);
    assert "r:" + "x" == "r:x" && "x" in a.artifactPaths && "r:x" in b.artifactPaths;
    assert Unordered(g, a, b) && Mixed(a, b) && !SharesPath(a, b);
    assert a in g && b in g;
    ClashesStayApartIff(g, s0);
  }

  /** Two tasks without dependencies are ordered neither way. */
  lemma TwoFreeTasks(a: TaskNode, b: TaskNode)
    requires a.dependsOn == b.dependsOn == [] && a.id != b.id && a.id != "" && b.id != "" && !SharesPath(a, b)
    ensures var g := [a, b];
            WellFormed(g) && KnownDeps(g) && Acyclic(Deps(g)) && NoRivals(g) && Unordered(g, a, b)
  {
    var e := Deps([a, b]);
    forall t, u ensures !Reaches(e, t, u) {
      if p :| WalkFromTo(e, p, t, u) {
        assert Edge(e, p[0], p[1]);
      }
    }
  }
}
