/** The coordinator object: the executor's code over mutable fields and a shared lock tracker. */
module Coordinator {
  import opened Prelude
  import opened TaskGraphs
  import opened LockTable
  import opened ResourceTracker
  import opened Executor
  import opened ExecutorInvariants
  import opened ExecutorSettling
  import opened Digraphs
  import opened ExecutorProgress
  import opened ExecutorContainment
  import opened ExecutorSteps

  /**
   * What the coordinator cannot decide: how the k-th query of a turn is answered while certain
   * tasks are in flight, and which futures finish when.
   */
  datatype Environment = Environment(
    answer: (nat, nat, set<Id>) -> seq<Candidate>,
    finish: (nat, set<Id>) -> seq<Outcome>)

  ghost function Asks(env: Environment, turn: nat): (State, nat) -> seq<Candidate> {
    (s: State, k: nat) => env.answer(turn, k, s.running)
  }

  ghost predicate Fair(env: Environment) {
    forall turn: nat, running: set<Id> :: running != {} ==> ValidBatch(running, env.finish(turn, running))
  }

  /** Every query asked while nothing is in flight finds an agent below its limit. */
  ghost predicate AgentsFreeWhenIdle(env: Environment) {
    forall turn: nat, k: nat :: HasFreeAgent(env.answer(turn, k, {}))
  }

  /** The futures that raise are those of the given tasks. */
  ghost predicate RaisesExactly(env: Environment, raising: set<Id>) {
    forall turn: nat, running: set<Id> :: OutcomesObey(env.finish(turn, running), raising)
  }

  /** What the environment promises of its outcomes shows in the rounds it took part in. */
  ghost predicate PlayedWith(rounds: seq<Round>, env: Environment) {
    forall raising :: RaisesExactly(env, raising) ==> Obeys(rounds, raising)
  }

  lemma PlayedOneMore(rounds: seq<Round>, answers: seq<seq<Candidate>>, env: Environment, turn: nat, running: set<Id>)
    requires PlayedWith(rounds, env)
    ensures PlayedWith(rounds + [Round(answers, env.finish(turn, running))], env)
  {
    var round := Round(answers, env.finish(turn, running));
    assert forall q :: q in rounds + [round] ==> q in rounds || q == round;
  }

  /** The run ended with everything settled, or in a drain the environment answered. */
  ghost predicate EndedWith(g: seq<TaskNode>, s0: State, run: Run, env: Environment, turn: nat) {
    && PlayedWith(run.rounds, env)
    && var s := After(g, s0, run.rounds);
       AllDone(g, s) || run.closing == Replies(g, s, Asks(env, turn), 0)
  }

  lemma EndedServed(g: seq<TaskNode>, s0: State, run: Run, env: Environment, turn: nat)
    requires IsRun(g, s0, run) && EndedWith(g, s0, run, env, turn) && AgentsFreeWhenIdle(env)
    ensures Served(g, s0, run)
  {
    var s := After(g, s0, run.rounds);
    if !AllDone(g, s) {
      IdleAsksServed(g, s, Asks(env, turn), 0);
      IdleServiceSuffices(g, s0, run);
    }
  }

  /**
   * A whole run in an environment that has a free agent whenever nothing is in flight, however busy
   * the agents are in between: if the raising tasks have no rivals, it completes exactly the tasks
   * no failure stands behind, hence all if none raises.
   */
  lemma EnvironmentOutcome(g: seq<TaskNode>, s0: State, run: Run, env: Environment, turn: nat)
    requires WellFormed(g) && Initial(g, s0) && IsRun(g, s0, run) && EndedWith(g, s0, run, env, turn)
    ensures KnownDeps(g) && Acyclic(Deps(g)) && AgentsFreeWhenIdle(env) ==>
              var f := Final(g, s0, run);
              && (forall raising :: RaisesExactly(env, raising) && Isolated(g, raising)
                                    ==> f.completed == SoundIds(g, raising))
              && (RaisesExactly(env, {}) ==> f.completed == Ids(g) && f.failedLog == [])
  {
    hide Final, SoundIds, IsRun, WellFormed, Initial, RaisesExactly, Isolated, Acyclic, Served, AgentsFreeWhenIdle;
    if KnownDeps(g) && Acyclic(Deps(g)) && AgentsFreeWhenIdle(env) {
      EndedServed(g, s0, run, env, turn);
      forall raising | RaisesExactly(env, raising) && Isolated(g, raising)
        ensures Final(g, s0, run).completed == SoundIds(g, raising)
      {
        Containment(g, s0, run, raising);
      }
      if RaisesExactly(env, {}) {
        NoLostWakeup(g, s0, run);
      }
    }
  }

  /** Every node listed so far is indexed by its id and pending. */
  ghost predicate Indexed(g: seq<TaskNode>, index: map<Id, TaskNode>, status: map<Id, Status>) {
    && index.Keys == status.Keys == Ids(g)
    && (forall t :: t in g ==> t.id in index && index[t.id] == t)
    && (forall id :: id in status ==> status[id] == Pending)
  }

  lemma IndexedSnoc(g: seq<TaskNode>, t: TaskNode, index: map<Id, TaskNode>, status: map<Id, Status>)
    requires Indexed(g, index, status) && forall u :: u in g ==> u.id != t.id
    ensures Indexed(g + [t], index[t.id := t], status[t.id := Pending])
  {
  }

  class ParallelExecutionCoordinator {
    const tracker: FileResourceTracker
    var graphTasks: map<Id, TaskNode>
    var runqueue: multiset<Entry>
    var status: map<Id, Status>
    var agentSlots: map<AgentId, int>
    var running: set<Id>
    var completed: set<Id>
    var failed: set<Id>
    var completedLog: seq<Id>
    var failedLog: seq<Failure>
    var blockedLog: seq<Id>
    ghost var events: seq<Event>

    constructor (tracker: FileResourceTracker)
      ensures this.tracker == tracker && runqueue == multiset{} && agentSlots == map[]
    {
      this.tracker := tracker;
      graphTasks, runqueue, status, agentSlots := map[], multiset{}, map[], map[];
      running, completed, failed := {}, {}, {};
      completedLog, failedLog, blockedLog, events := [], [], [], [];
    }

    ghost function Snapshot(): State
      reads this, tracker
    {
      State(runqueue, status, running, completed, failed, completedLog, failedLog, blockedLog,
            agentSlots, tracker.locks, events)
    }

    ghost predicate Indexes(g: seq<TaskNode>)
      reads this
    {
      graphTasks.Keys == Ids(g) && forall id :: id in graphTasks ==> graphTasks[id] == Node(g, id)
    }

    method PopLeast() returns (e: Entry)
      requires runqueue != multiset{}
      modifies this`runqueue
      ensures e == Least(old(runqueue)) && runqueue == old(runqueue) - multiset{e}
      ensures forall f :: f in old(runqueue) ==>
                e.priority < f.priority || (e.priority == f.priority && LexLeq(e.id, f.id))
    {
      LeastExists(runqueue);
      e :| IsLeast(e, runqueue);
      LeastUnique(e, Least(runqueue), runqueue);
      runqueue := runqueue - multiset{e};
    }

    method Pick(candidates: seq<Candidate>) returns (agent: Option<AgentId>)
      modifies this`agentSlots
      ensures (agent, agentSlots) == PickAgent(candidates, old(agentSlots))
      ensures DistinctAgents(candidates) ==> FirstFreePicked(candidates, old(agentSlots), agent, agentSlots)
    {
      ghost var was := agentSlots;
      for i := 0 to |candidates|
        invariant PickAgent(candidates[i..], agentSlots) == PickAgent(candidates, old(agentSlots))
      {
        var c := candidates[i];
        assert candidates[i..][1..] == candidates[i + 1..];
        if FreeSlots(agentSlots, c.agent) <= 0 {
          agentSlots := agentSlots[c.agent := Limit(c) - c.active];
        }
        if FreeSlots(agentSlots, c.agent) > 0 {
          agent := Some(c.agent);
          WasPicked(candidates, was, agent, agentSlots);
          return;
        }
      }
      agent := None;
      WasPicked(candidates, was, agent, agentSlots);
    }

    method AcquireResources(t: Id, paths: seq<Path>) returns (ok: bool)
      modifies tracker
      ensures (ok, tracker.locks) == AcquireAll(old(tracker.locks), t, paths)
    {
      for i := 0 to |paths|
        invariant AcquireFrom(tracker.locks, t, paths, i) == AcquireFrom(old(tracker.locks), t, paths, 0)
      {
        var got := tracker.Acquire(t, paths[i]);
        if !got {
          ghost var table := tracker.locks;
          var j := 0;
          while j < |paths| && paths[j] != paths[i]
            invariant j <= i
            invariant Rollback(tracker.locks, t, paths, paths[i], j) == Rollback(table, t, paths, paths[i], 0)
          {
            var _ := tracker.Release(t, paths[j]);
            j := j + 1;
          }
          return false;
        }
      }
      return true;
    }

    method AssignTask(t: TaskNode, agent: AgentId)
      modifies this, tracker
      ensures Snapshot() == Assign(old(Snapshot()), t, agent) && graphTasks == old(graphTasks)
      ensures var ok := AcquireAll(old(tracker.locks), t.id, t.artifactPaths).0;
              if ok then
                && status == old(status)[t.id := Assigned(agent)] && running == old(running) + {t.id}
                && agentSlots == old(agentSlots)[agent := FreeSlots(old(agentSlots), agent) - 1]
                && events == old(events) + [Started(t.id)] && blockedLog == old(blockedLog)
              else
                && status == old(status) && running == old(running) && agentSlots == old(agentSlots)
                && events == old(events) && blockedLog == old(blockedLog) + [t.id]
    {
      if t.artifactPaths != [] {
        var ok := AcquireResources(t.id, t.artifactPaths);
        if !ok {
          blockedLog := blockedLog + [t.id];
          return;
        }
      }
      status := status[t.id := Assigned(agent)];
      agentSlots := agentSlots[agent := FreeSlots(agentSlots, agent) - 1];
      running := running + {t.id};
      events := events + [Started(t.id)];
    }

    /** One turn of the drain. */
    method DispatchOne(g: seq<TaskNode>, answers: seq<seq<Candidate>>) returns (rest: seq<seq<Candidate>>, stop: bool)
      requires Indexes(g) && runqueue != multiset{}
      modifies this, tracker
      ensures (Snapshot(), rest, stop) == PopOne(g, old(Snapshot()), answers) && graphTasks == old(graphTasks)
    {
      hide Dispatch, AcquireAll, PickAgent, FreeSlots, FirstFreePicked, DistinctAgents, LexLeq;
      var e := PopLeast();
      if e.id !in graphTasks || e.id !in status || status[e.id] != Pending {
        return answers, false;
      }
      var t := graphTasks[e.id];
      var pick := Pick(Answer(answers));
      if pick.None? || pick.value == "" {
        runqueue := runqueue + multiset{EntryOf(t)};
        return Later(answers), true;
      }
      AssignTask(t, pick.value);
      return Later(answers), false;
    }

    /** Drains the queue, asking the environment turn by turn; the ghost result is what it answered. */
    method DispatchReady(g: seq<TaskNode>, env: Environment, turn: nat) returns (ghost answers: seq<seq<Candidate>>)
      requires Indexes(g)
      modifies this, tracker
      ensures answers == Replies(g, old(Snapshot()), Asks(env, turn), 0)
      ensures Snapshot() == Dispatch(g, old(Snapshot()), answers) && graphTasks == old(graphTasks)
    {
      hide PopOne, Replies;
      ghost var ask := Asks(env, turn);
      answers := Replies(g, Snapshot(), ask, 0);
      var k, stop := 0, false;
      while runqueue != multiset{} && !stop
        invariant graphTasks == old(graphTasks)
        invariant (if stop then Snapshot() else Dispatch(g, Snapshot(), Replies(g, Snapshot(), ask, k)))
               == Dispatch(g, old(Snapshot()), answers)
        decreases !stop, |runqueue|
      {
        PopWithReplies(g, Snapshot(), ask, k);
        var _, stopped := DispatchOne(g, [env.answer(turn, k, running)]);
        k, stop := k + 1, stopped;
      }
    }

    method FreeSlot(id: Id)
      modifies this`agentSlots
      ensures agentSlots == FreeSlotOf(old(Snapshot()), id)
    {
      if id in status && status[id].Assigned? {
        var agent := status[id].agent;
        agentSlots := agentSlots[agent := FreeSlots(agentSlots, agent) + 1];
      }
    }

    method FinishTask(id: Id)
      requires id !in running
      modifies this, tracker
      ensures Snapshot() == Finish(old(Snapshot()), id) && graphTasks == old(graphTasks)
      ensures completed == old(completed) + {id} && completedLog == old(completedLog) + [id]
      ensures failed == old(failed) && status == old(status) && runqueue == old(runqueue)
    {
      completed := completed + {id};
      completedLog := completedLog + [id];
      FreeSlot(id);
      var _ := tracker.ReleaseEverything(id);
      events := events + [Finished(id)];
    }

    method RequeueReady(g: seq<TaskNode>)
      modifies this`runqueue
      ensures Snapshot() == Requeue(g, old(Snapshot()))
    {
      for i := 0 to |g|
        invariant Requeue(g[i..], Snapshot()) == Requeue(g, old(Snapshot()))
      {
        assert g[i..][1..] == g[i + 1..];
        if g[i].id !in completed && g[i].id !in failed {
          if g[i].id in status && status[g[i].id] == Pending && DepsMet(g[i], completed) {
            runqueue := runqueue + multiset{EntryOf(g[i])};
          }
        }
      }
    }

    method OnTaskComplete(g: seq<TaskNode>, id: Id)
      requires id !in running
      modifies this, tracker
      ensures Snapshot() == Complete(g, old(Snapshot()), id) && graphTasks == old(graphTasks)
    {
      hide Finish, Requeue;
      FinishTask(id);
      RequeueReady(g);
    }

    method RecordFailure(id: Id, error: string)
      requires id !in running
      modifies this, tracker
      ensures Snapshot() == Record(old(Snapshot()), id, error) && graphTasks == old(graphTasks)
      ensures failed == old(failed) + {id} && failedLog == old(failedLog) + [Raised(id, error)]
      ensures completed == old(completed) && status == old(status) && runqueue == old(runqueue)
    {
      failed := failed + {id};
      failedLog := failedLog + [Raised(id, error)];
      FreeSlot(id);
      var _ := tracker.ReleaseEverything(id);
    }

    method CascadeFailure(g: seq<TaskNode>, id: Id)
      modifies this`failed, this`failedLog
      ensures Snapshot() == Cascade(g, old(Snapshot()), id)
    {
      for i := 0 to |g|
        invariant Cascade(g[i..], Snapshot(), id) == Cascade(g, old(Snapshot()), id)
      {
        assert g[i..][1..] == g[i + 1..];
        if id in g[i].dependsOn && g[i].id !in failed {
          failed := failed + {g[i].id};
          failedLog := failedLog + [Cascaded(g[i].id, id)];
        }
      }
    }

    method OnTaskFailed(g: seq<TaskNode>, id: Id, error: string)
      requires id !in running
      modifies this, tracker
      ensures Snapshot() == Fail(g, old(Snapshot()), id, error) && graphTasks == old(graphTasks)
    {
      hide Record, Cascade;
      RecordFailure(id, error);
      CascadeFailure(g, id);
    }

    method ProcessFuture(g: seq<TaskNode>, o: Outcome)
      modifies this, tracker
      ensures Snapshot() == Settle(g, old(Snapshot()), o) && graphTasks == old(graphTasks)
    {
      hide Requeue, Cascade, ReleaseAll;
      running := running - {o.id};
      assert running - {o.id} == running;
      assert FreeSlotOf(Snapshot(), o.id) == FreeSlotOf(old(Snapshot()), o.id);
      assert Finish(Snapshot(), o.id) == Finish(old(Snapshot()), o.id);
      if o.error.None? {
        OnTaskComplete(g, o.id);
      } else {
        OnTaskFailed(g, o.id, o.error.value);
      }
    }

    method MarkRest(g: seq<TaskNode>)
      modifies this`blockedLog
      ensures Snapshot() == MarkBlocked(g, old(Snapshot()))
    {
      for i := 0 to |g|
        invariant MarkBlocked(g[i..], Snapshot()) == MarkBlocked(g, old(Snapshot()))
      {
        assert g[i..][1..] == g[i + 1..];
        if g[i].id !in completed && g[i].id !in failed {
          blockedLog := blockedLog + [g[i].id];
        }
      }
    }

    method IndexNodes(g: seq<TaskNode>)
      requires UniqueIds(g)
      modifies this`graphTasks, this`status
      ensures Indexes(g) && status == map id | id in Ids(g) :: Pending
    {
      graphTasks, status := map[], map[];
      for i := 0 to |g|
        invariant Indexed(g[..i], graphTasks, status)
      {
        assert g[..i + 1] == g[..i] + [g[i]];
        assert forall t :: t in g[..i] ==> t.id != g[i].id;
        IndexedSnoc(g[..i], g[i], graphTasks, status);
        graphTasks := graphTasks[g[i].id := g[i]];
        status := status[g[i].id := Pending];
      }
      assert g[..|g|] == g;
      forall t | t in g ensures graphTasks[t.id] == Node(g, t.id) {
        NodeUnique(g, t);
      }
    }

    method QueueRoots(g: seq<TaskNode>)
      modifies this`runqueue
      ensures runqueue == old(runqueue) + Roots(g)
    {
      for i := 0 to |g|
        invariant runqueue + Roots(g[i..]) == old(runqueue) + Roots(g)
      {
        assert g[i..][1..] == g[i + 1..];
        if g[i].dependsOn == [] {
          runqueue := runqueue + multiset{EntryOf(g[i])};
        }
      }
    }

    method LoadGraph(g: seq<TaskNode>)
      requires UniqueIds(g) && runqueue == multiset{} && tracker.locks == map[]
      modifies this
      ensures Indexes(g) && Snapshot() == Start(g, old(agentSlots)) && agentSlots == old(agentSlots)
    {
      hide Roots;
      IndexNodes(g);
      running, completed, failed := {}, {}, {};
      completedLog, failedLog, blockedLog, events := [], [], [], [];
      QueueRoots(g);
    }

    method ProcessAll(g: seq<TaskNode>, batch: seq<Outcome>)
      modifies this, tracker
      ensures Snapshot() == SettleAll(g, old(Snapshot()), batch) && graphTasks == old(graphTasks)
    {
      hide Settle;
      for i := 0 to |batch|
        invariant SettleAll(g, Snapshot(), batch[i..]) == SettleAll(g, old(Snapshot()), batch)
        invariant graphTasks == old(graphTasks)
      {
        assert batch[i..][1..] == batch[i + 1..];
        ProcessFuture(g, batch[i]);
      }
    }

    /**
     * Executes a graph. The ghost result is the run that happened: the final state is the one
     * that run leads to, so everything proved of all runs holds of this object.
     */
    method ExecuteGraph(g: seq<TaskNode>, env: Environment) returns (ghost run: Run)
      requires WellFormed(g) && Fair(env)
      requires runqueue == multiset{} && tracker.locks == map[]
      modifies this, tracker
      ensures IsRun(g, Start(g, old(agentSlots)), run)
      ensures Snapshot() == Final(g, Start(g, old(agentSlots)), run)
      ensures Inv(g, Snapshot()) && running == {} && tracker.locks == map[]
      ensures |run.rounds| <= 2 * |Ids(g)|
      ensures ListsTell(g, Snapshot(), Outcomes(run.rounds))
      ensures forall t :: t in g ==> t.id in completed || t.id in failed || t.id in blockedLog
      ensures KnownDeps(g) && Acyclic(Deps(g)) && AgentsFreeWhenIdle(env) && RaisesExactly(env, {})
              ==> completed == Ids(g) && failedLog == []
      ensures KnownDeps(g) && Acyclic(Deps(g)) && AgentsFreeWhenIdle(env) ==>
                forall raising :: RaisesExactly(env, raising) && Isolated(g, raising)
                                  ==> completed == SoundIds(g, raising)
    {
      hide Inv, Dispatch, SettleAll, MarkBlocked, Start, Measure, Initial, Obeys, Acyclic, Deps, Isolated;
      hide PlayedWith, ListsTell, SoundIds, AgentsFreeWhenIdle, RaisesExactly, Replies, Asks;
      LoadGraph(g);
      ghost var s0 := Snapshot();
      StartIsInitial(g, old(agentSlots));
      InitialInv(g, s0);
      var turn := 0;
      run := Run([], []);
      NothingPlayed(env);
      while !Settled(g, completed, failed)
        invariant s0 == Start(g, old(agentSlots)) && Indexes(g)
        invariant Legals(g, s0, run.rounds) && Snapshot() == After(g, s0, run.rounds)
        invariant Inv(g, Snapshot()) && PlayedWith(run.rounds, env)
        decreases Measure(g, Snapshot())
      {
        ghost var before := Snapshot();
        ghost var answers := DispatchReady(g, env, turn);
        if running == {} {
          MarkRest(g);
          run := Run(run.rounds, answers);
          break;
        }
        var batch := env.finish(turn, running);
        ghost var round := Round(answers, batch);
        PlayProgress(g, before, round);
        PlayInv(g, before, round);
        PlayedOneMore(run.rounds, answers, env, turn, running);
        ProcessAll(g, batch);
        assert (run.rounds + [round])[..|run.rounds|] == run.rounds;
        run := Run(run.rounds + [round], []);
        turn := turn + 1;
      }
      FinalFacts(g, s0, run);
      RunsAreShort(g, s0, run.rounds);
      FinalListsTellOutcomes(g, s0, run);
      EnvironmentOutcome(g, s0, run, env, turn);
    }
  }

  lemma {:induction false} WasPicked(
      candidates: seq<Candidate>, slots: map<AgentId, int>, pick: Option<AgentId>, after: map<AgentId, int>)
    requires (pick, after) == PickAgent(candidates, slots)
    ensures DistinctAgents(candidates) ==> FirstFreePicked(candidates, slots, pick, after)
  {
    if DistinctAgents(candidates) {
      var _ := FirstFreeIsPicked(candidates, slots);
    }
  }

  lemma NothingPlayed(env: Environment)
    ensures PlayedWith([], env)
  {
  }

  lemma StartIsInitial(g: seq<TaskNode>, slots: map<AgentId, int>)
    ensures Initial(g, Start(g, slots))
  {
  }
}
