/** Which tasks complete when some futures raise, and exactly when raising stays contained. */
module ExecutorContainment {
  import opened Prelude
  import opened Digraphs
  import opened TaskGraphs
  import opened Executor
  import opened ExecutorInvariants
  import opened ExecutorSettling
  import opened ExecutorProgress

  /** Neither the task nor anything it depends on raises. */
  ghost predicate Sound(g: seq<TaskNode>, raising: set<Id>, id: Id) {
    id !in raising && forall f :: f in raising ==> !Reaches(Deps(g), id, f)
  }

  ghost function SoundIds(g: seq<TaskNode>, raising: set<Id>): set<Id> {
    set id | id in Ids(g) && Sound(g, raising, id)
  }

  /** No agent query went unanswered so far: every drain emptied the queue. */
  ghost predicate RoundsServed(g: seq<TaskNode>, s0: State, rounds: seq<Round>) {
    rounds != [] ==>
      && RoundsServed(g, s0, rounds[..|rounds| - 1])
      && Dispatch(g, After(g, s0, rounds[..|rounds| - 1]), rounds[|rounds| - 1].answers).queue == multiset{}
  }

  /** The run did not end for want of an agent: if anything was unsettled, the last drain emptied the queue. */
  ghost predicate Served(g: seq<TaskNode>, s0: State, run: Run) {
    var s := After(g, s0, run.rounds);
    AllDone(g, s) || Dispatch(g, s, run.closing).queue == multiset{}
  }

  // ----- agents that are always free serve every run -----

  ghost predicate HasFreeAgent(candidates: seq<Candidate>) {
    && (forall c :: c in candidates ==> c.agent != "")
    && exists c :: c in candidates && Limit(c) > c.active
  }

  lemma {:induction false} FreeAgentPicked(candidates: seq<Candidate>, slots: map<AgentId, int>)
    requires HasFreeAgent(candidates)
    ensures PickAgent(candidates, slots).0.Some? && PickAgent(candidates, slots).0.value != ""
  {
    var slots' := Refreshed(slots, candidates[0]);
    assert candidates[0] in candidates;
    if FreeSlots(slots', candidates[0].agent) <= 0 {
      var c :| c in candidates && Limit(c) > c.active;
      assert c in candidates[1..];
      FreeAgentPicked(candidates[1..], slots');
    }
  }

  lemma {:induction false} FreeAgentsServe(g: seq<TaskNode>, s: State, answers: seq<seq<Candidate>>)
    requires |answers| >= |s.queue| && forall a :: a in answers ==> HasFreeAgent(a)
    ensures Dispatch(g, s, answers).queue == multiset{}
    decreases |s.queue|
  {
    if s.queue != multiset{} {
      assert answers[0] in answers;
      var e := Least(s.queue);
      FreeAgentPicked(answers[0], s.slots);
      var (next, rest, stop) := PopOne(g, s, answers);
      assert next.queue == s.queue - multiset{e};
      assert forall a :: a in rest ==> a in answers;
      FreeAgentsServe(g, next, rest);
    }
  }

  // ----- answers that depend on the state asked in -----

  /** The answers a drain gets when its k-th turn asks `ask`, and the turns after it ask on. */
  ghost function Replies(g: seq<TaskNode>, s: State, ask: (State, nat) -> seq<Candidate>, k: nat): seq<seq<Candidate>>
    decreases |s.queue|
  {
    if s.queue == multiset{} then []
    else
      var (next, _, stop) := PopOne(g, s, [ask(s, k)]);
      var more := if stop then [] else Replies(g, next, ask, k + 1);
      if IsPending(g, s, Least(s.queue).id) then [ask(s, k)] + more else more
  }

  /** A turn of the drain looks at no more than the first answer. */
  lemma PopLooksAtOne(g: seq<TaskNode>, s: State, answer: seq<Candidate>, more: seq<seq<Candidate>>)
    requires s.queue != multiset{}
    ensures var (next, _, stop) := PopOne(g, s, [answer]);
            if IsPending(g, s, Least(s.queue).id) then PopOne(g, s, [answer] + more) == (next, more, stop)
            else !stop && PopOne(g, s, more) == (next, more, false)
  {
    assert ([answer] + more)[1..] == more;
    assert Answer([answer] + more) == answer == Answer([answer]);
  }

  /** One turn with such answers leaves the answers of the turns that follow. */
  lemma PopWithReplies(g: seq<TaskNode>, s: State, ask: (State, nat) -> seq<Candidate>, k: nat)
    requires s.queue != multiset{}
    ensures var (next, _, stop) := PopOne(g, s, [ask(s, k)]);
            PopOne(g, s, Replies(g, s, ask, k)) == (next, if stop then [] else Replies(g, next, ask, k + 1), stop)
    ensures IsPending(g, s, Least(s.queue).id) ==> Answer(Replies(g, s, ask, k)) == ask(s, k)
  {
    var (next, _, stop) := PopOne(g, s, [ask(s, k)]);
    PopLooksAtOne(g, s, ask(s, k), if stop then [] else Replies(g, next, ask, k + 1));
    hide PopOne;
  }

  // ----- agents that are free when nothing is in flight -----

  /** Every query asked while nothing is in flight finds an agent below its limit. */
  ghost predicate IdleQueriesServed(g: seq<TaskNode>, s: State, answers: seq<seq<Candidate>>)
    decreases |s.queue|
  {
    s.queue == multiset{} ||
    var (next, rest, stop) := PopOne(g, s, answers);
    && (s.running == {} && IsPending(g, s, Least(s.queue).id) ==> HasFreeAgent(Answer(answers)))
    && (stop || IdleQueriesServed(g, next, rest))
  }

  lemma PopKeepsRunning(g: seq<TaskNode>, s: State, answers: seq<seq<Candidate>>)
    requires s.queue != multiset{}
    ensures s.running <= PopOne(g, s, answers).0.running
  {
    var e := Least(s.queue);
    if IsPending(g, s, e.id) {
      OfferShape(s.(queue := s.queue - multiset{e}), Node(g, e.id), Answer(answers));
    }
  }

  lemma {:induction false} DrainKeepsRunning(g: seq<TaskNode>, s: State, answers: seq<seq<Candidate>>)
    ensures s.running <= Dispatch(g, s, answers).running
    decreases |s.queue|
  {
    hide PopOne;
    if s.queue != multiset{} {
      PopKeepsRunning(g, s, answers);
      var (next, rest, stop) := PopOne(g, s, answers);
      if !stop {
        DrainKeepsRunning(g, next, rest);
      }
    }
  }

  lemma FreeAgentGoesOn(g: seq<TaskNode>, s: State, answers: seq<seq<Candidate>>)
    requires s.queue != multiset{} && (IsPending(g, s, Least(s.queue).id) ==> HasFreeAgent(Answer(answers)))
    ensures !PopOne(g, s, answers).2
  {
    if IsPending(g, s, Least(s.queue).id) {
      FreeAgentPicked(Answer(answers), s.slots);
    }
    hide PickAgent, Assign, HasFreeAgent;
  }

  /** A drain that leaves nothing in flight asked every query while idle, so it emptied the queue. */
  lemma {:induction false} IdleDrainEmpties(g: seq<TaskNode>, s: State, answers: seq<seq<Candidate>>)
    requires IdleQueriesServed(g, s, answers) && Dispatch(g, s, answers).running == {}
    ensures Dispatch(g, s, answers).queue == multiset{}
    decreases |s.queue|
  {
    hide PopOne, IsPending, HasFreeAgent;
    if s.queue != multiset{} {
      DrainKeepsRunning(g, s, answers);
      FreeAgentGoesOn(g, s, answers);
      var (next, rest, stop) := PopOne(g, s, answers);
      IdleDrainEmpties(g, next, rest);
    }
  }

  lemma {:induction false} IdleAsksServed(g: seq<TaskNode>, s: State, ask: (State, nat) -> seq<Candidate>, k: nat)
    requires forall s': State, k': nat :: s'.running == {} ==> HasFreeAgent(ask(s', k'))
    ensures IdleQueriesServed(g, s, Replies(g, s, ask, k))
    decreases |s.queue|
  {
    hide PopOne, IsPending, HasFreeAgent, Replies;
    if s.queue != multiset{} {
      PopWithReplies(g, s, ask, k);
      var (next, _, stop) := PopOne(g, s, [ask(s, k)]);
      if !stop {
        IdleAsksServed(g, next, ask, k + 1);
      }
    }
  }

  /**
   * Every query of the last drain that was asked while nothing was in flight found an agent. Drains
   * that stopped because the agents were busy do not matter.
   */
  ghost predicate ServedWhenIdle(g: seq<TaskNode>, s0: State, run: Run) {
    IdleQueriesServed(g, After(g, s0, run.rounds), run.closing)
  }

  lemma {:induction false} IdleServiceSuffices(g: seq<TaskNode>, s0: State, run: Run)
    requires IsRun(g, s0, run) && ServedWhenIdle(g, s0, run)
    ensures Served(g, s0, run)
  {
    var s := After(g, s0, run.rounds);
    if !AllDone(g, s) {
      IdleDrainEmpties(g, s, run.closing);
    }
  }

  // ----- nothing ready is left behind -----

  /** Every task whose dependencies are met has been settled or is one of `open`. */
  ghost predicate NothingReadyBut(g: seq<TaskNode>, s: State, open: set<Id>) {
    forall t :: t in g && DepsMet(t, s.completed) ==> t.id in s.completed || t.id in s.failed || t.id in open
  }

  ghost predicate NothingReady(g: seq<TaskNode>, s: State) {
    NothingReadyBut(g, s, {})
  }

  /** With the queue empty and only raising tasks running, whatever is ready is running. */
  lemma QuietMeansNothingReady(g: seq<TaskNode>, s: State, raising: set<Id>)
    requires Inv(g, s) && WakeupsKept(g, s, raising)
    requires s.queue == multiset{} && s.running <= raising
    ensures NothingReadyBut(g, s, s.running)
  {
    forall t | t in g && DepsMet(t, s.completed)
      ensures t.id in s.completed || t.id in s.failed || t.id in s.running
    {
      assert t.id in Ids(g);
      assert !Watched(g, s, raising, t);
      assert !Wakes(s, t);
    }
  }

  lemma SoundDeps(g: seq<TaskNode>, raising: set<Id>, t: TaskNode, d: Id)
    requires UniqueIds(g) && t in g && d in t.dependsOn && Sound(g, raising, t.id)
    ensures Sound(g, raising, d)
  {
    DepsOf(g, t);
    ReachesDirect(Deps(g), t.id, d);
    forall f | f in raising ensures !Reaches(Deps(g), d, f) {
      if Reaches(Deps(g), d, f) { ReachesStep(Deps(g), t.id, d, f); }
    }
  }

  lemma SoundTaskCompletes(g: seq<TaskNode>, s: State, raising: set<Id>, t: TaskNode)
    requires UniqueIds(g) && Inv(g, s) && NothingReadyBut(g, s, raising) && Truthful(s, raising)
    requires t in g && Sound(g, raising, t.id) && DepsMet(t, s.completed)
    ensures t.id in s.completed
  {
    DepsOf(g, t);
    forall d | d in t.dependsOn ensures d !in RaisedIds(s.failedLog) {
      ReachesDirect(Deps(g), t.id, d);
    }
    assert !HasRaisedDep(t, RaisedIds(s.failedLog));
  }

  lemma {:induction false} SoundTasksComplete(g: seq<TaskNode>, s: State, raising: set<Id>, order: seq<Id>, n: nat)
    requires UniqueIds(g) && Inv(g, s) && NothingReadyBut(g, s, raising) && Truthful(s, raising)
    requires IsTopo(Deps(g), order) && n <= |order|
    ensures forall i :: 0 <= i < n && Sound(g, raising, order[i]) ==> order[i] in s.completed
  {
    hide Inv;
    if n > 0 {
      SoundTasksComplete(g, s, raising, order, n - 1);
      var id := order[n - 1];
      if Sound(g, raising, id) {
        assert id in Elements(order);
        var t :| t in g && t.id == id;
        SoundDepsCompleted(g, s, raising, order, n - 1, t);
        SoundTaskCompletes(g, s, raising, t);
      }
    }
  }

  lemma SoundDepsCompleted(g: seq<TaskNode>, s: State, raising: set<Id>, order: seq<Id>, n: nat, t: TaskNode)
    requires UniqueIds(g) && SuccessorsEarlier(Deps(g), order) && n < |order|
    requires t in g && t.id == order[n] && Sound(g, raising, t.id)
    requires forall i :: 0 <= i < n && Sound(g, raising, order[i]) ==> order[i] in s.completed
    ensures DepsMet(t, s.completed)
  {
    DepsOf(g, t);
    forall d | d in t.dependsOn ensures d in s.completed {
      SoundDeps(g, raising, t, d);
      assert Edge(Deps(g), order[n], d);
      assert d in order[..n];
    }
  }

  lemma CompletedTasksAreSound(g: seq<TaskNode>, s: State, raising: set<Id>, t: TaskNode)
    requires UniqueIds(g) && Inv(g, s) && Truthful(s, raising) && t in g && t.id in s.completed
    ensures Sound(g, raising, t.id)
  {
    assert DepsMet(t, s.completed);
    forall f | f in raising ensures !Reaches(Deps(g), t.id, f) {
      if Reaches(Deps(g), t.id, f) { AncestorsCompleted(g, s, t, f); }
    }
  }

  /** With nothing ready left, the completed set is exactly the sound tasks. */
  lemma CompletedIsSound(g: seq<TaskNode>, s: State, raising: set<Id>)
    requires UniqueIds(g) && KnownDeps(g) && Acyclic(Deps(g))
    requires Inv(g, s) && NothingReady(g, s) && Truthful(s, raising)
    ensures s.completed == SoundIds(g, raising)
  {
    DepsClosed(g);
    AcyclicIffTopo(Deps(g));
    var order :| IsTopo(Deps(g), order);
    SoundTasksComplete(g, s, raising, order, |order|);
    forall id | id in SoundIds(g, raising) ensures id in s.completed {
      assert id in Elements(order);
    }
    forall id | id in s.completed ensures id in SoundIds(g, raising) {
      var t :| t in g && t.id == id;
      CompletedTasksAreSound(g, s, raising, t);
    }
  }

  /** A run that is served and whose raising tasks have no rivals ends with nothing ready. */
  lemma FinalHasNothingReady(g: seq<TaskNode>, s0: State, run: Run, raising: set<Id>)
    requires WellFormed(g) && Initial(g, s0) && IsRun(g, s0, run) && Served(g, s0, run)
    requires Isolated(g, raising) && Obeys(run.rounds, raising)
    ensures NothingReady(g, Final(g, s0, run)) && Truthful(Final(g, s0, run), raising)
  {
    var s := After(g, s0, run.rounds);
    RunsKeepInv(g, s0, run.rounds);
    RunsKeepWakeups(g, s0, run.rounds, raising);
    if !AllDone(g, s) {
      var d := Dispatch(g, s, run.closing);
      DispatchInv(g, s, run.closing);
      DispatchProgress(g, s, run.closing);
      DispatchWakeups(g, s, run.closing, raising);
      QuietMeansNothingReady(g, d, raising);
      MarkBlockedMeaning(g, d);
    }
  }

  /**
   * Failure containment. On an acyclic graph with known dependencies, if the run does not end for
   * want of an agent and no raising task has a rival, then the completed tasks are exactly those with no
   * raising task among themselves and their ancestors, and the tasks whose future really raised
   * are exactly the raising tasks all of whose dependencies are sound.
   */
  lemma Containment(g: seq<TaskNode>, s0: State, run: Run, raising: set<Id>)
    requires WellFormed(g) && KnownDeps(g) && Acyclic(Deps(g)) && Initial(g, s0)
    requires IsRun(g, s0, run) && Served(g, s0, run)
    requires Isolated(g, raising) && Obeys(run.rounds, raising)
    ensures Final(g, s0, run).completed == SoundIds(g, raising)
    ensures forall t :: t in g ==>
              (t.id in RaisedIds(Final(g, s0, run).failedLog)
               <==> t.id in raising && forall d :: d in t.dependsOn ==> Sound(g, raising, d))
  {
    var f := Final(g, s0, run);
    FinalFacts(g, s0, run);
    FinalHasNothingReady(g, s0, run, raising);
    CompletedIsSound(g, f, raising);
    forall t | t in g
      ensures t.id in RaisedIds(f.failedLog)
              <==> t.id in raising && forall d :: d in t.dependsOn ==> Sound(g, raising, d)
    {
      RaisedIffDepsSound(g, f, raising, t);
    }
  }

  lemma RaisedIffDepsSound(g: seq<TaskNode>, f: State, raising: set<Id>, t: TaskNode)
    requires UniqueIds(g) && KnownDeps(g) && Inv(g, f) && NothingReady(g, f) && Truthful(f, raising)
    requires f.completed == SoundIds(g, raising) && t in g
    ensures t.id in RaisedIds(f.failedLog)
            <==> t.id in raising && forall d :: d in t.dependsOn ==> Sound(g, raising, d)
  {
  }

  lemma EverythingIsSound(g: seq<TaskNode>)
    ensures SoundIds(g, {}) == Ids(g)
  {
  }

  lemma EntryHasId(log: seq<Failure>)
    requires log != []
    ensures FailureIds(log) != {}
  {
    assert log[0] in log;
    assert log[0].id in FailureIds(log);
  }

  /** When every task has completed, the result lists say so. */
  lemma AllCompleted(g: seq<TaskNode>, f: State)
    requires Inv(g, f) && f.completed == Ids(g)
    ensures NoDup(f.completedLog) && Elements(f.completedLog) == Ids(g) && f.failedLog == []
  {
    assert f.failed == {};
    if f.failedLog != [] {
      EntryHasId(f.failedLog);
    }
  }

  /**
   * No lost wake-up: if no future raises and queries asked while nothing is in flight find an
   * agent, every task completes, exactly once, no matter how often tasks were refused a lock and
   * dropped from the queue, or the agents were all at their limit, on the way.
   */
  lemma NoLostWakeup(g: seq<TaskNode>, s0: State, run: Run)
    requires WellFormed(g) && KnownDeps(g) && Acyclic(Deps(g)) && Initial(g, s0)
    requires IsRun(g, s0, run) && Obeys(run.rounds, {})
    requires Served(g, s0, run) || ServedWhenIdle(g, s0, run)
    ensures Final(g, s0, run).completed == Ids(g)
    ensures NoDup(Final(g, s0, run).completedLog) && Elements(Final(g, s0, run).completedLog) == Ids(g)
    ensures Final(g, s0, run).failedLog == []
  {
    hide *;
    FinalFacts(g, s0, run);
    if ServedWhenIdle(g, s0, run) {
      IdleServiceSuffices(g, s0, run);
    }
    NothingRaisesIsolated(g);
    Containment(g, s0, run, {});
    EverythingIsSound(g);
    AllCompleted(g, Final(g, s0, run));
  }

  lemma NothingRaisesIsolated(g: seq<TaskNode>)
    ensures Isolated(g, {})
  {
  }
}
