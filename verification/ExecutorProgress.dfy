/** Termination, wake-ups, and how far failures spread. */
module ExecutorProgress {
  import opened Prelude
  import opened Digraphs
  import opened TaskGraphs
  import opened LockTable
  import opened Executor
  import opened ExecutorInvariants
  import opened ExecutorSettling

  // ----- termination -----

  ghost function Unlaunched(g: seq<TaskNode>, s: State): set<Id> {
    Ids(g) - Launched(s)
  }

  ghost function Measure(g: seq<TaskNode>, s: State): nat {
    2 * |Unlaunched(g, s)| + |s.running|
  }

  /** Settles nothing, forgets nothing, and pays for every launch. */
  ghost predicate Advances(g: seq<TaskNode>, s: State, d: State) {
    && d.completed == s.completed && d.failed == s.failed && d.failedLog == s.failedLog
    && s.running <= d.running
    && Measure(g, d) <= Measure(g, s)
  }

  lemma OfferShape(s: State, t: TaskNode, candidates: seq<Candidate>)
    ensures var d := Offer(s, t, candidates).1;
            && d.completed == s.completed && d.failed == s.failed && d.failedLog == s.failedLog
            && (d.running == s.running || d.running == s.running + {t.id})
  {
  }

  lemma OfferProgress(g: seq<TaskNode>, s: State, t: TaskNode, candidates: seq<Candidate>)
    requires Inv(g, s) && t in g && s.status[t.id] == Pending
    ensures Advances(g, s, Offer(s, t, candidates).1)
  {
    hide Inv, Offer;
    var d := Offer(s, t, candidates).1;
    OfferShape(s, t, candidates);
    PendingHoldsNone(g, s, t);
    if d.running == s.running {
      assert Unlaunched(g, d) == Unlaunched(g, s);
    } else {
      assert t.id in Ids(g);
      assert d.running == s.running + {t.id};
      assert Unlaunched(g, d) == Unlaunched(g, s) - {t.id};
    }
  }

  lemma PopOneProgress(g: seq<TaskNode>, s: State, answers: seq<seq<Candidate>>)
    requires UniqueIds(g) && Inv(g, s) && s.queue != multiset{}
    ensures Advances(g, s, PopOne(g, s, answers).0)
  {
    var e := Least(s.queue);
    var popped := s.(queue := s.queue - multiset{e});
    PoppedInv(g, s, e);
    assert Unlaunched(g, popped) == Unlaunched(g, s);
    if IsPending(g, s, e.id) {
      assert EntryReady(g, s.completed, e);
      var t := EntryNode(g, s.completed, e);
      OfferProgress(g, popped, t, Answer(answers));
    }
  }

  lemma {:induction false} DispatchProgress(g: seq<TaskNode>, s: State, answers: seq<seq<Candidate>>)
    requires UniqueIds(g) && Inv(g, s)
    ensures Advances(g, s, Dispatch(g, s, answers))
    decreases |s.queue|
  {
    if s.queue != multiset{} {
      PopOneInv(g, s, answers);
      PopOneProgress(g, s, answers);
      var (next, rest, stop) := PopOne(g, s, answers);
      if !stop {
        DispatchProgress(g, next, rest);
      }
    }
  }

  lemma {:induction false} SettleAllProgress(g: seq<TaskNode>, s: State, batch: seq<Outcome>)
    requires UniqueIds(g) && Inv(g, s) && BatchFits(s.running, batch)
    ensures Measure(g, SettleAll(g, s, batch)) + |batch| == Measure(g, s)
    decreases |batch|
  {
    hide Inv;
    if batch != [] {
      var s1 := Settle(g, s, batch[0]);
      SettleInv(g, s, batch[0]);
      RunningIsUnsettled(g, s, batch[0].id);
      SettleLaunched(g, s, batch[0]);
      SettleAllProgress(g, s1, batch[1..]);
    }
  }

  lemma SettleLaunched(g: seq<TaskNode>, s: State, o: Outcome)
    requires o.id in s.running && FailuresDistinct(s.failedLog, s.failed) && o.id !in s.failed
    ensures Launched(Settle(g, s, o)) == Launched(s)
  {
    if o.error.None? {
      RequeueMeaning(g, Finish(s, o.id));
    } else {
      FailShape(g, s, o.id, o.error.value);
    }
  }

  lemma PlayProgress(g: seq<TaskNode>, s: State, r: Round)
    requires UniqueIds(g) && Inv(g, s) && Legal(g, s, r)
    ensures Measure(g, Play(g, s, r)) < Measure(g, s)
  {
    hide Inv;
    DispatchInv(g, s, r.answers);
    DispatchProgress(g, s, r.answers);
    SettleAllProgress(g, Dispatch(g, s, r.answers), r.batch);
  }

  /** The main loop turns at most twice per task. */
  lemma {:induction false} RunsAreShort(g: seq<TaskNode>, s0: State, rounds: seq<Round>)
    requires WellFormed(g) && Initial(g, s0) && Legals(g, s0, rounds)
    ensures |rounds| + Measure(g, After(g, s0, rounds)) <= 2 * |Ids(g)|
  {
    if rounds == [] {
      assert Unlaunched(g, s0) == Ids(g);
    } else {
      hide Inv;
      var front := rounds[..|rounds| - 1];
      RunsAreShort(g, s0, front);
      RunsKeepInv(g, s0, front);
      PlayProgress(g, After(g, s0, front), rounds[|rounds| - 1]);
    }
  }

  // ----- the end of a run -----

  lemma {:induction false} MarkBlockedMeaning(g: seq<TaskNode>, s: State)
    ensures var m := MarkBlocked(g, s);
            && m == s.(blockedLog := m.blockedLog)
            && (forall x :: x in s.blockedLog ==> x in m.blockedLog)
            && (forall t :: t in g && t.id !in s.completed && t.id !in s.failed ==> t.id in m.blockedLog)
            && (forall x :: x in m.blockedLog ==>
                  x in s.blockedLog || (x in Ids(g) && x !in s.completed && x !in s.failed))
  {
    if g != [] {
      var t := g[0];
      var s1 := if t.id !in s.completed && t.id !in s.failed then s.(blockedLog := s.blockedLog + [t.id]) else s;
      MarkBlockedMeaning(g[1..], s1);
      assert forall u :: u in g <==> u == t || u in g[1..];
    }
  }

  lemma NothingRunsWhenDone(g: seq<TaskNode>, s: State)
    requires Partition(g, s.running, s.completed, s.failed) && AllDone(g, s)
    ensures s.running == {}
  {
  }

  /** At the end the invariant still holds, nothing runs, no lock is left, and no task is forgotten. */
  lemma FinalFacts(g: seq<TaskNode>, s0: State, run: Run)
    requires WellFormed(g) && Initial(g, s0) && IsRun(g, s0, run)
    ensures Inv(g, Final(g, s0, run))
    ensures Final(g, s0, run).running == {} && Final(g, s0, run).locks == map[]
    ensures var f := Final(g, s0, run);
            forall t :: t in g ==> t.id in f.completed || t.id in f.failed || t.id in f.blockedLog
  {
    var s := After(g, s0, run.rounds);
    RunsKeepInv(g, s0, run.rounds);
    var f := Final(g, s0, run);
    if AllDone(g, s) {
      NothingRunsWhenDone(g, s);
    } else {
      var d := Dispatch(g, s, run.closing);
      DispatchInv(g, s, run.closing);
      MarkBlockedMeaning(g, d);
      Reframe(g, d, f);
    }
    assert forall p :: p in f.locks ==> f.locks[p].holder in f.running;
  }

  // ----- wake-ups -----

  /** The two tasks could run at the same time, except that they write the same file. */
  ghost predicate Rivals(g: seq<TaskNode>, u: TaskNode, t: TaskNode) {
    Unordered(g, u, t) && SharesPath(u, t)
  }

  /** No task that will raise has a rival. */
  ghost predicate Isolated(g: seq<TaskNode>, raising: set<Id>) {
    forall u, t :: u in g && t in g && u.id in raising ==> !Rivals(g, u, t)
  }

  /** The task is queued, or a rival is running that will complete and requeue it. */
  ghost predicate Watched(g: seq<TaskNode>, s: State, raising: set<Id>, t: TaskNode) {
    EntryOf(t) in s.queue || exists u :: u in g && u.id in s.running && u.id !in raising && Rivals(g, u, t)
  }

  ghost predicate WakeupsKept(g: seq<TaskNode>, s: State, raising: set<Id>) {
    forall t :: t in g && Wakes(s, t) ==> Watched(g, s, raising, t)
  }

  lemma {:induction false} RootsQueued(g: seq<TaskNode>, t: TaskNode)
    requires t in g && t.dependsOn == []
    ensures EntryOf(t) in Roots(g)
  {
    if t != g[0] {
      RootsQueued(g[1..], t);
    }
  }

  lemma HasMember(s: seq<Id>)
    requires s != []
    ensures exists d :: d in s
  {
    assert s[0] in s;
  }

  lemma InitialWakeups(g: seq<TaskNode>, s: State, raising: set<Id>)
    requires Initial(g, s)
    ensures WakeupsKept(g, s, raising)
  {
    forall t | t in g && Wakes(s, t) ensures Watched(g, s, raising, t) {
      if t.dependsOn != [] {
        HasMember(t.dependsOn);
        assert false;
      }
      RootsQueued(g, t);
    }
  }

  /** Everything a launched or ready task depends on, however indirectly, has completed. */
  lemma AncestorsCompleted(g: seq<TaskNode>, s: State, t: TaskNode, a: Id)
    requires UniqueIds(g) && Inv(g, s) && t in g && DepsMet(t, s.completed) && Reaches(Deps(g), t.id, a)
    ensures a in s.completed
  {
    var e := Deps(g);
    var p :| WalkFromTo(e, p, t.id, a);
    DepsOf(g, t);
    assert Edge(e, p[0], p[1]);
    forall x, y | x in s.completed && Edge(e, x, y) ensures y in s.completed {
      var u :| u in g && u.id == x;
      DepsOf(g, u);
      assert DepsMet(u, s.completed);
    }
    WalkSlice(e, p, 1, |p|);
    ClosedSetKeepsWalk(e, s.completed, p[1..]);
  }

  lemma DescendantsOfFailedNeverStart(g: seq<TaskNode>, s: State, t: TaskNode, f: Id)
    requires UniqueIds(g) && Inv(g, s) && t in g && f in s.failed && Reaches(Deps(g), t.id, f)
    ensures Started(t.id) !in s.events
  {
    if t.id in Launched(s) {
      AncestorsCompleted(g, s, t, f);
    }
  }

  lemma InFlightShareNoPath(g: seq<TaskNode>, s: State, t: TaskNode, u: TaskNode, p: Path)
    requires UniqueIds(g) && Inv(g, s) && t in g && u in g && t.id in s.running && u.id in s.running
    requires p in t.artifactPaths && p in u.artifactPaths
    ensures t == u
  {
    assert s.locks[p].holder == t.id == u.id;
    NodeUnique(g, t);
    NodeUnique(g, u);
  }

  /**
   * No task has started twice or before its dependencies finished, no two running tasks share an
   * artifact path, and nothing below a failed task has ever started.
   */
  ghost predicate Safe(g: seq<TaskNode>, s: State) {
    && NoDup(s.events) && s.completed !! s.failed
    && (forall i, t, d :: 0 <= i < |s.events| && t in g && s.events[i] == Started(t.id) && d in t.dependsOn
                          ==> Finished(d) in s.events[..i])
    && (forall t, u :: t in g && u in g && t.id in s.running && u.id in s.running && SharesPath(t, u) ==> t == u)
    && (forall t, f :: t in g && f in s.failed && Reaches(Deps(g), t.id, f) ==> Started(t.id) !in s.events)
  }

  lemma InvIsSafe(g: seq<TaskNode>, s: State)
    requires UniqueIds(g) && Inv(g, s)
    ensures Safe(g, s)
  {
    forall t, u | t in g && u in g && t.id in s.running && u.id in s.running && SharesPath(t, u) ensures t == u {
      var p :| p in t.artifactPaths && p in u.artifactPaths;
      InFlightShareNoPath(g, s, t, u, p);
    }
    forall t, f | t in g && f in s.failed && Reaches(Deps(g), t.id, f) ensures Started(t.id) !in s.events {
      DescendantsOfFailedNeverStart(g, s, t, f);
    }
  }

  /** Safety of every run: at every loop head, and after every drain from there. */
  lemma {:induction false} RunsAreSafe(g: seq<TaskNode>, s0: State, rounds: seq<Round>)
    requires WellFormed(g) && Initial(g, s0) && Legals(g, s0, rounds)
    ensures Safe(g, After(g, s0, rounds))
    ensures forall answers :: Safe(g, Dispatch(g, After(g, s0, rounds), answers))
  {
    hide Inv, Safe, Dispatch, Initial;
    var s := After(g, s0, rounds);
    RunsKeepInv(g, s0, rounds);
    InvIsSafe(g, s);
    forall answers ensures Safe(g, Dispatch(g, s, answers)) {
      DispatchInv(g, s, answers);
      InvIsSafe(g, Dispatch(g, s, answers));
    }
  }

  /** A ready task is only ever refused because a rival is running. */
  lemma RefusedByRival(g: seq<TaskNode>, s: State, t: TaskNode) returns (u: TaskNode)
    requires UniqueIds(g) && Inv(g, s) && t in g && Wakes(s, t)
    requires !AcquireAll(s.locks, t.id, t.artifactPaths).0
    ensures u in g && u.id in s.running && Rivals(g, u, t)
  {
    PendingHoldsNone(g, s, t);
    AcquireAllMeaning(s.locks, t.id, t.artifactPaths);
    var p :| p in t.artifactPaths && p in s.locks;
    var h := s.locks[p].holder;
    assert h in s.running && h in Ids(g);
    u :| u in g && u.id == h;
    assert p in u.artifactPaths;
    assert DepsMet(u, s.completed);
    if Reaches(Deps(g), u.id, t.id) { AncestorsCompleted(g, s, u, t.id); }
    if Reaches(Deps(g), t.id, u.id) { AncestorsCompleted(g, s, t, u.id); }
  }

  /** Another ready task keeps its witness when nothing leaves the queue but `e` and nothing stops running. */
  lemma OthersKeepWatch(g: seq<TaskNode>, s: State, next: State, e: Entry, v: TaskNode, raising: set<Id>)
    requires WakeupsKept(g, s, raising) && v in g && v.id != e.id && Wakes(s, v)
    requires s.queue - multiset{e} <= next.queue && s.running <= next.running
    ensures Watched(g, next, raising, v)
  {
    assert Watched(g, s, raising, v) && EntryOf(v) != e;
  }

  /** Picking nobody: the entry goes back. */
  lemma PutBackWakeups(g: seq<TaskNode>, s: State, next: State, t: TaskNode, raising: set<Id>)
    requires UniqueIds(g) && WakeupsKept(g, s, raising) && t in g
    requires next == s.(slots := next.slots, queue := next.queue)
    requires next.queue == s.queue - multiset{EntryOf(t)} + multiset{EntryOf(t)}
    ensures WakeupsKept(g, next, raising)
  {
    forall v | v in g && Wakes(next, v) ensures Watched(g, next, raising, v) {
      if v.id == t.id {
        NodeUnique(g, t);
        NodeUnique(g, v);
      } else {
        OthersKeepWatch(g, s, next, EntryOf(t), v, raising);
      }
    }
  }

  /** The task starts: it is pending no longer, and everybody else keeps what they had. */
  lemma StartWakeups(g: seq<TaskNode>, s: State, next: State, t: TaskNode, raising: set<Id>)
    requires WakeupsKept(g, s, raising) && next.queue == s.queue - multiset{EntryOf(t)}
    requires next.completed == s.completed && next.failed == s.failed && next.running == s.running + {t.id}
    requires exists agent :: next.status == s.status[t.id := Assigned(agent)]
    ensures WakeupsKept(g, next, raising)
  {
    forall v | v in g && Wakes(next, v) ensures Watched(g, next, raising, v) {
      OthersKeepWatch(g, s, next, EntryOf(t), v, raising);
    }
  }

  /** The task is refused: the rival that holds the path will complete and requeue it. */
  lemma RefusedWakeups(g: seq<TaskNode>, s: State, next: State, t: TaskNode, raising: set<Id>)
    requires UniqueIds(g) && Isolated(g, raising) && Inv(g, s) && WakeupsKept(g, s, raising) && t in g
    requires !AcquireAll(s.locks, t.id, t.artifactPaths).0
    requires next == s.(queue := next.queue, slots := next.slots, locks := next.locks, blockedLog := next.blockedLog)
    requires next.queue == s.queue - multiset{EntryOf(t)}
    ensures WakeupsKept(g, next, raising)
  {
    hide Inv, AcquireAll;
    forall v | v in g && Wakes(next, v) ensures Watched(g, next, raising, v) {
      if v.id == t.id {
        NodeUnique(g, t);
        NodeUnique(g, v);
        var u := RefusedByRival(g, s, t);
        assert u.id in next.running && u.id !in raising;
      } else {
        OthersKeepWatch(g, s, next, EntryOf(t), v, raising);
      }
    }
  }

  lemma OfferWakeups(g: seq<TaskNode>, s: State, e: Entry, t: TaskNode, candidates: seq<Candidate>, raising: set<Id>)
    requires UniqueIds(g) && Isolated(g, raising) && Inv(g, s) && WakeupsKept(g, s, raising)
    requires e in s.queue && t in g && EntryOf(t) == e && s.status[t.id] == Pending && DepsMet(t, s.completed)
    ensures WakeupsKept(g, Offer(s.(queue := s.queue - multiset{e}), t, candidates).1, raising)
  {
    hide Inv, WakeupsKept, Isolated, UniqueIds, PickAgent, AcquireAll;
    var popped := s.(queue := s.queue - multiset{e});
    var next := Offer(popped, t, candidates).1;
    var pick := PickAgent(candidates, s.slots).0;
    if pick.None? || pick.value == "" {
      PutBackWakeups(g, s, next, t, raising);
    } else if AcquireAll(s.locks, t.id, t.artifactPaths).0 {
      StartWakeups(g, s, next, t, raising);
    } else {
      RefusedWakeups(g, s, next, t, raising);
    }
  }

  lemma PopOneWakeups(g: seq<TaskNode>, s: State, answers: seq<seq<Candidate>>, raising: set<Id>)
    requires UniqueIds(g) && Isolated(g, raising) && Inv(g, s) && WakeupsKept(g, s, raising) && s.queue != multiset{}
    ensures WakeupsKept(g, PopOne(g, s, answers).0, raising)
  {
    var e := Least(s.queue);
    if !IsPending(g, s, e.id) {
      var popped := s.(queue := s.queue - multiset{e});
      forall v | v in g && Wakes(popped, v) ensures Watched(g, popped, raising, v) {
        assert Wakes(s, v) && Watched(g, s, raising, v);
        assert EntryOf(v) != e;
      }
    } else {
      assert EntryReady(g, s.completed, e);
      var t := EntryNode(g, s.completed, e);
      OfferWakeups(g, s, e, t, Answer(answers), raising);
    }
  }

  lemma {:induction false} DispatchWakeups(g: seq<TaskNode>, s: State, answers: seq<seq<Candidate>>, raising: set<Id>)
    requires UniqueIds(g) && Isolated(g, raising) && Inv(g, s) && WakeupsKept(g, s, raising)
    ensures WakeupsKept(g, Dispatch(g, s, answers), raising)
    decreases |s.queue|
  {
    if s.queue != multiset{} {
      PopOneInv(g, s, answers);
      PopOneWakeups(g, s, answers, raising);
      var (next, rest, stop) := PopOne(g, s, answers);
      if !stop {
        DispatchWakeups(g, next, rest, raising);
      }
    }
  }

  /** A completion requeues whatever is ready; a failure takes no witness away. */
  lemma SettleWakeups(g: seq<TaskNode>, s: State, o: Outcome, raising: set<Id>)
    requires Inv(g, s) && WakeupsKept(g, s, raising) && o.id in s.running
    requires o.error.Some? ==> o.id in raising
    ensures WakeupsKept(g, Settle(g, s, o), raising)
  {
    var s' := Settle(g, s, o);
    if o.error.None? {
      RequeueMeaning(g, Finish(s, o.id));
      forall t | t in g && Wakes(s', t) ensures Watched(g, s', raising, t) {
        assert Wakes(Finish(s, o.id), t);
      }
    } else {
      FailShape(g, s, o.id, o.error.value);
      forall t | t in g && Wakes(s', t) ensures Watched(g, s', raising, t) {
        assert Wakes(s, t) && Watched(g, s, raising, t);
      }
    }
  }

  // ----- runs in which exactly the given futures raise -----

  ghost predicate OutcomesObey(batch: seq<Outcome>, raising: set<Id>) {
    forall o :: o in batch ==> (o.error.Some? <==> o.id in raising)
  }

  ghost predicate Obeys(rounds: seq<Round>, raising: set<Id>) {
    forall r :: r in rounds ==> OutcomesObey(r.batch, raising)
  }

  ghost predicate Truthful(s: State, raising: set<Id>) {
    RaisedIds(s.failedLog) <= raising && s.completed !! raising
  }

  lemma SettleObeys(g: seq<TaskNode>, s: State, o: Outcome, raising: set<Id>)
    requires FailuresDistinct(s.failedLog, s.failed) && o.id !in s.failed
    requires (o.error.Some? <==> o.id in raising) && Truthful(s, raising)
    ensures Truthful(Settle(g, s, o), raising)
  {
    if o.error.None? {
      RequeueMeaning(g, Finish(s, o.id));
    } else {
      FailShape(g, s, o.id, o.error.value);
    }
  }

  lemma {:induction false} SettleAllObeys(g: seq<TaskNode>, s: State, batch: seq<Outcome>, raising: set<Id>)
    requires UniqueIds(g) && Inv(g, s) && BatchFits(s.running, batch)
    requires OutcomesObey(batch, raising) && WakeupsKept(g, s, raising) && Truthful(s, raising)
    ensures WakeupsKept(g, SettleAll(g, s, batch), raising) && Truthful(SettleAll(g, s, batch), raising)
    decreases |batch|
  {
    hide Inv;
    if batch != [] {
      var o := batch[0];
      assert o in batch;
      SettleInv(g, s, o);
      SettleWakeups(g, s, o, raising);
      RunningIsUnsettled(g, s, o.id);
      SettleObeys(g, s, o, raising);
      SettleAllObeys(g, Settle(g, s, o), batch[1..], raising);
    }
  }

  lemma {:induction false} RunsKeepWakeups(g: seq<TaskNode>, s0: State, rounds: seq<Round>, raising: set<Id>)
    requires WellFormed(g) && Initial(g, s0) && Legals(g, s0, rounds)
    requires Isolated(g, raising) && Obeys(rounds, raising)
    ensures WakeupsKept(g, After(g, s0, rounds), raising) && Truthful(After(g, s0, rounds), raising)
  {
    hide Inv;
    if rounds == [] {
      InitialWakeups(g, s0, raising);
    } else {
      var front, r := rounds[..|rounds| - 1], rounds[|rounds| - 1];
      RunsKeepWakeups(g, s0, front, raising);
      RunsKeepInv(g, s0, front);
      var s := After(g, s0, front);
      DispatchInv(g, s, r.answers);
      DispatchProgress(g, s, r.answers);
      DispatchWakeups(g, s, r.answers, raising);
      SettleAllObeys(g, Dispatch(g, s, r.answers), r.batch, raising);
    }
  }
}
