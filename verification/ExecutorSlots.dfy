/** Slot accounting: free slots and running tasks never exceed an agent's limit. */
module ExecutorSlots {
  import opened TaskGraphs
  import opened LockTable
  import opened Executor
  import opened ExecutorInvariants
  import opened ExecutorSettling

  ghost function TasksOn(running: set<Id>, status: map<Id, Status>, a: AgentId): set<Id> {
    set id | id in running && id in status && status[id] == Assigned(a)
  }

  ghost function InFlight(s: State, a: AgentId): nat {
    |TasksOn(s.running, s.status, a)|
  }

  /** What the recorded slots and the running tasks of an agent add up to. */
  ghost function Account(s: State, a: AgentId): int {
    FreeSlots(s.slots, a) + InFlight(s, a)
  }

  ghost predicate SlotBound(s: State, cap: AgentId -> int) {
    forall a: AgentId :: InFlight(s, a) <= cap(a) && Account(s, a) <= cap(a)
  }

  /** Storage reports the agent's own limit, and counts at least the tasks now running on it. */
  ghost predicate HonestAnswer(s: State, candidates: seq<Candidate>, cap: AgentId -> int) {
    forall c :: c in candidates ==> Limit(c) == cap(c.agent) && c.active >= InFlight(s, c.agent)
  }

  ghost predicate HonestAnswers(g: seq<TaskNode>, s: State, answers: seq<seq<Candidate>>, cap: AgentId -> int)
    decreases |s.queue|
  {
    s.queue == multiset{} ||
    var (next, rest, stop) := PopOne(g, s, answers);
    && (IsPending(g, s, Least(s.queue).id) ==> HonestAnswer(s, Answer(answers), cap))
    && (stop || HonestAnswers(g, next, rest, cap))
  }

  ghost predicate HonestRounds(g: seq<TaskNode>, s0: State, rounds: seq<Round>, cap: AgentId -> int) {
    rounds != [] ==>
      && HonestRounds(g, s0, rounds[..|rounds| - 1], cap)
      && HonestAnswers(g, After(g, s0, rounds[..|rounds| - 1]), rounds[|rounds| - 1].answers, cap)
  }

  // ----- starting and settling move one unit between the two sides -----

  /** Starting a task turns exactly one free slot of its agent into one running task. */
  lemma StartKeepsAccount(s: State, t: TaskNode, agent: AgentId, a: AgentId)
    requires t.id !in s.running
    ensures Account(MarkStarted(s, t, agent), a) == Account(s, a)
    ensures InFlight(MarkStarted(s, t, agent), a) == InFlight(s, a) + (if a == agent then 1 else 0)
  {
    var s' := MarkStarted(s, t, agent);
    if a == agent {
      assert TasksOn(s'.running, s'.status, a) == TasksOn(s.running, s.status, a) + {t.id};
    } else {
      assert TasksOn(s'.running, s'.status, a) == TasksOn(s.running, s.status, a);
    }
  }

  lemma OneLessRunning(s: State, id: Id, a: AgentId)
    requires id in s.running && id in s.status && s.status[id].Assigned?
    ensures |TasksOn(s.running - {id}, s.status, a)| == InFlight(s, a) - (if s.status[id] == Assigned(a) then 1 else 0)
    ensures FreeSlots(FreeSlotOf(s, id), a) == FreeSlots(s.slots, a) + (if s.status[id] == Assigned(a) then 1 else 0)
  {
    var before, after := TasksOn(s.running, s.status, a), TasksOn(s.running - {id}, s.status, a);
    if s.status[id] == Assigned(a) {
      assert before == after + {id} && id !in after;
    } else {
      assert before == after;
    }
  }

  /** Completing or failing gives the slot back, so the account of every agent is unchanged. */
  lemma SettleKeepsAccount(g: seq<TaskNode>, s: State, o: Outcome, a: AgentId)
    requires Inv(g, s) && o.id in s.running
    ensures Account(Settle(g, s, o), a) == Account(s, a)
    ensures InFlight(Settle(g, s, o), a) <= InFlight(s, a)
  {
    OneLessRunning(s, o.id, a);
    if o.error.None? {
      RequeueMeaning(g, Finish(s, o.id));
    } else {
      FailShape(g, s, o.id, o.error.value);
    }
  }

  // ----- the bound through one drain -----

  /** Picking refreshes only from honest counts, and picks only agents with a free slot. */
  lemma {:induction false} PickKeepsBound(s: State, candidates: seq<Candidate>, cap: AgentId -> int)
    requires SlotBound(s, cap) && HonestAnswer(s, candidates, cap)
    ensures var (pick, slots) := PickAgent(candidates, s.slots);
            && SlotBound(s.(slots := slots), cap)
            && (pick.Some? ==> FreeSlots(slots, pick.value) > 0)
    decreases |candidates|
  {
    if candidates != [] {
      var c := candidates[0];
      assert c in candidates;
      var s1 := s.(slots := Refreshed(s.slots, c));
      forall a: AgentId ensures InFlight(s1, a) <= cap(a) && Account(s1, a) <= cap(a) {
        assert InFlight(s1, a) == InFlight(s, a);
        assert InFlight(s, a) <= cap(a) && Account(s, a) <= cap(a);
      }
      if FreeSlots(s1.slots, c.agent) <= 0 {
        assert HonestAnswer(s1, candidates[1..], cap) by {
          forall d | d in candidates[1..] ensures Limit(d) == cap(d.agent) && d.active >= InFlight(s1, d.agent) {
            assert d in candidates;
          }
        }
        PickKeepsBound(s1, candidates[1..], cap);
        assert s1.(slots := PickAgent(candidates, s.slots).1) == s.(slots := PickAgent(candidates, s.slots).1);
      }
    }
  }

  lemma OfferKeepsBound(g: seq<TaskNode>, s: State, t: TaskNode, candidates: seq<Candidate>, cap: AgentId -> int)
    requires t.id !in s.running && SlotBound(s, cap) && HonestAnswer(s, candidates, cap)
    ensures SlotBound(Offer(s, t, candidates).1, cap)
  {
    PickKeepsBound(s, candidates, cap);
    var (pick, slots) := PickAgent(candidates, s.slots);
    var s1 := s.(slots := slots);
    var next := Offer(s, t, candidates).1;
    if pick.Some? && pick.value != "" && AcquireAll(s.locks, t.id, t.artifactPaths).0 {
      var s2 := s1.(locks := AcquireAll(s.locks, t.id, t.artifactPaths).1);
      forall a: AgentId ensures InFlight(next, a) <= cap(a) && Account(next, a) <= cap(a) {
        StartKeepsAccount(s2, t, pick.value, a);
        assert InFlight(s1, a) <= cap(a) && Account(s1, a) <= cap(a);
        assert InFlight(s2, a) == InFlight(s1, a);
      }
    } else {
      forall a: AgentId ensures InFlight(next, a) <= cap(a) && Account(next, a) <= cap(a) {
        assert InFlight(s1, a) <= cap(a) && Account(s1, a) <= cap(a);
        assert InFlight(next, a) == InFlight(s1, a);
      }
    }
  }

  lemma PoppedKeepsBound(s: State, e: Entry, cap: AgentId -> int)
    requires SlotBound(s, cap)
    ensures SlotBound(s.(queue := s.queue - multiset{e}), cap)
  {
  }

  lemma {:induction false} DispatchKeepsBound(
      g: seq<TaskNode>, s: State, answers: seq<seq<Candidate>>, cap: AgentId -> int)
    requires UniqueIds(g) && Inv(g, s) && SlotBound(s, cap) && HonestAnswers(g, s, answers, cap)
    ensures SlotBound(Dispatch(g, s, answers), cap)
    decreases |s.queue|
  {
    if s.queue != multiset{} {
      var e := Least(s.queue);
      var popped := s.(queue := s.queue - multiset{e});
      PoppedKeepsBound(s, e, cap);
      if IsPending(g, s, e.id) {
        forall c | c in Answer(answers) ensures Limit(c) == cap(c.agent) && c.active >= InFlight(popped, c.agent) {
          assert InFlight(popped, c.agent) == InFlight(s, c.agent);
        }
        OfferKeepsBound(g, popped, Node(g, e.id), Answer(answers), cap);
      }
      PopOneInv(g, s, answers);
      var (next, rest, stop) := PopOne(g, s, answers);
      if !stop {
        DispatchKeepsBound(g, next, rest, cap);
      }
    }
  }

  lemma {:induction false} SettleAllKeepsBound(g: seq<TaskNode>, s: State, batch: seq<Outcome>, cap: AgentId -> int)
    requires UniqueIds(g) && Inv(g, s) && BatchFits(s.running, batch) && SlotBound(s, cap)
    ensures SlotBound(SettleAll(g, s, batch), cap)
    decreases |batch|
  {
    if batch != [] {
      var s1 := Settle(g, s, batch[0]);
      SettleInv(g, s, batch[0]);
      forall a: AgentId ensures InFlight(s1, a) <= cap(a) && Account(s1, a) <= cap(a) {
        SettleKeepsAccount(g, s, batch[0], a);
        assert InFlight(s, a) <= cap(a) && Account(s, a) <= cap(a);
      }
      SettleAllKeepsBound(g, s1, batch[1..], cap);
    }
  }

  /**
   * At every loop head, and after every drain, no agent runs more tasks than its limit, whatever
   * the schedule, as long as storage counts at least the tasks running.
   */
  lemma {:induction false} RunsKeepSlotBound(g: seq<TaskNode>, s0: State, rounds: seq<Round>, cap: AgentId -> int)
    requires WellFormed(g) && Initial(g, s0) && Legals(g, s0, rounds)
    requires forall a: AgentId :: FreeSlots(s0.slots, a) <= cap(a) && 0 <= cap(a)
    requires HonestRounds(g, s0, rounds, cap)
    ensures SlotBound(After(g, s0, rounds), cap)
    ensures forall answers :: HonestAnswers(g, After(g, s0, rounds), answers, cap)
                              ==> SlotBound(Dispatch(g, After(g, s0, rounds), answers), cap)
  {
    var s := After(g, s0, rounds);
    RunsKeepInv(g, s0, rounds);
    if rounds == [] {
      forall a: AgentId ensures InFlight(s0, a) <= cap(a) && Account(s0, a) <= cap(a) {
        assert TasksOn(s0.running, s0.status, a) == {};
      }
    } else {
      var front, r := rounds[..|rounds| - 1], rounds[|rounds| - 1];
      RunsKeepSlotBound(g, s0, front, cap);
      RunsKeepInv(g, s0, front);
      DispatchInv(g, After(g, s0, front), r.answers);
      SettleAllKeepsBound(g, Dispatch(g, After(g, s0, front), r.answers), r.batch, cap);
    }
    forall answers | HonestAnswers(g, s, answers, cap) ensures SlotBound(Dispatch(g, s, answers), cap) {
      DispatchKeepsBound(g, s, answers, cap);
    }
  }
}
