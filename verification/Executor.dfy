/**
 * The parallel executor as functions on its state. The environment appears as data: the answers
 * to agent queries, and for each wake-up the futures that have finished and how.
 */
module Executor {
  import opened Prelude
  import opened TaskGraphs
  import opened LockTable

  datatype Entry = Entry(priority: int, id: Id)

  datatype Status = Pending | Assigned(agent: AgentId)

  /** An entry of the failure list: the task's own error, or the dependency that failed. */
  datatype Failure = Raised(id: Id, error: string) | Cascaded(id: Id, cause: Id)

  datatype Event = Started(id: Id) | Finished(id: Id)

  /** One capable agent, with what storage would report as its active task count. */
  datatype Candidate = Candidate(agent: AgentId, maxConcurrent: Option<int>, active: int)

  /** A finished future; `error` is what it raised, if it raised. */
  datatype Outcome = Outcome(id: Id, error: Option<string>)

  datatype State = State(
    queue: multiset<Entry>,
    status: map<Id, Status>,
    running: set<Id>,
    completed: set<Id>,
    failed: set<Id>,
    completedLog: seq<Id>,
    failedLog: seq<Failure>,
    blockedLog: seq<Id>,
    slots: map<AgentId, int>,
    locks: Locks,
    events: seq<Event>)

  // ----- the priority queue -----

  function EntryOf(t: TaskNode): Entry {
    Entry(t.priority, t.id)
  }

  predicate Before(a: Entry, b: Entry) {
    a.priority < b.priority || (a.priority == b.priority && LexLeq(a.id, b.id))
  }

  predicate IsLeast(e: Entry, q: multiset<Entry>) {
    e in q && forall f :: f in q ==> Before(e, f)
  }

  lemma {:induction false} LeastExists(q: multiset<Entry>)
    requires q != multiset{}
    ensures exists e :: IsLeast(e, q)
    decreases |q|
  {
    var x :| x in q;
    var rest := q - multiset{x};
    LexTotal(x.id, x.id);
    assert q == rest + multiset{x};
    if rest == multiset{} {
      assert IsLeast(x, q);
    } else {
      LeastExists(rest);
      var y :| IsLeast(y, rest);
      LexTotal(x.id, y.id);
      var least := if Before(y, x) then y else x;
      forall f | f in q ensures Before(least, f) {
        if f != x {
          assert f in rest;
          if least == x { LexTransitiveEntries(x, y, f); }
        }
      }
      assert IsLeast(least, q);
    }
  }

  lemma LexTransitiveEntries(a: Entry, b: Entry, c: Entry)
    requires Before(a, b) && Before(b, c)
    ensures Before(a, c)
  {
    if a.priority == b.priority == c.priority {
      LexTransitive(a.id, b.id, c.id);
    }
  }

  lemma LeastUnique(a: Entry, b: Entry, q: multiset<Entry>)
    requires IsLeast(a, q) && IsLeast(b, q)
    ensures a == b
  {
    LexAntisymmetric(a.id, b.id);
  }

  ghost function Least(q: multiset<Entry>): (e: Entry)
    requires q != multiset{}
    ensures IsLeast(e, q)
  {
    LeastExists(q);
    var e :| IsLeast(e, q);
    e
  }

  // ----- picking an agent -----

  function FreeSlots(slots: map<AgentId, int>, a: AgentId): int {
    if a in slots then slots[a] else 0
  }

  function Limit(c: Candidate): int {
    if c.maxConcurrent.Some? then c.maxConcurrent.value else 2
  }

  /** An agent without recorded free slots has its count fetched again. */
  function Refreshed(slots: map<AgentId, int>, c: Candidate): map<AgentId, int> {
    if FreeSlots(slots, c.agent) <= 0 then slots[c.agent := Limit(c) - c.active] else slots
  }

  function PickAgent(candidates: seq<Candidate>, slots: map<AgentId, int>): (Option<AgentId>, map<AgentId, int>) {
    if candidates == [] then (None, slots)
    else
      var slots' := Refreshed(slots, candidates[0]);
      if FreeSlots(slots', candidates[0].agent) > 0 then (Some(candidates[0].agent), slots')
      else PickAgent(candidates[1..], slots')
  }

  // ----- dispatching -----

  function MarkStarted(s: State, t: TaskNode, agent: AgentId): State {
    s.(status := s.status[t.id := Assigned(agent)],
       slots := s.slots[agent := FreeSlots(s.slots, agent) - 1],
       running := s.running + {t.id},
       events := s.events + [Started(t.id)])
  }

  /** Take the locks and start; a refused task is only noted as blocked. */
  function Assign(s: State, t: TaskNode, agent: AgentId): State {
    var (ok, table) := AcquireAll(s.locks, t.id, t.artifactPaths);
    if ok then MarkStarted(s.(locks := table), t, agent)
    else s.(locks := table, blockedLog := s.blockedLog + [t.id])
  }

  ghost predicate IsPending(g: seq<TaskNode>, s: State, id: Id) {
    id in Ids(g) && id in s.status && s.status[id] == Pending
  }

  function Answer(answers: seq<seq<Candidate>>): seq<Candidate> {
    if answers == [] then [] else answers[0]
  }

  function Later(answers: seq<seq<Candidate>>): seq<seq<Candidate>> {
    if answers == [] then [] else answers[1..]
  }

  /** What one popped entry that is still pending leads to; `None` ends the drain. */
  function Offer(s: State, t: TaskNode, candidates: seq<Candidate>): (Option<AgentId>, State) {
    var (pick, slots) := PickAgent(candidates, s.slots);
    if pick.None? || pick.value == "" then (None, s.(slots := slots, queue := s.queue + multiset{EntryOf(t)}))
    else (pick, Assign(s.(slots := slots), t, pick.value))
  }

  /** One turn of the drain: the state after it, the answers left, and whether to stop. */
  ghost function PopOne(g: seq<TaskNode>, s: State, answers: seq<seq<Candidate>>)
    : (r: (State, seq<seq<Candidate>>, bool))
    requires s.queue != multiset{}
    ensures !r.2 ==> |r.0.queue| < |s.queue|
  {
    var e := Least(s.queue);
    var popped := s.(queue := s.queue - multiset{e});
    if !IsPending(g, s, e.id) then (popped, answers, false)
    else
      var (pick, next) := Offer(popped, Node(g, e.id), Answer(answers));
      (next, Later(answers), pick.None?)
  }

  /** Drain the queue until it is empty or no agent is free. */
  ghost function Dispatch(g: seq<TaskNode>, s: State, answers: seq<seq<Candidate>>): State
    decreases |s.queue|
  {
    if s.queue == multiset{} then s
    else
      var (next, rest, stop) := PopOne(g, s, answers);
      if stop then next else Dispatch(g, next, rest)
  }

  // ----- settling a finished future -----

  predicate DepsMet(t: TaskNode, completed: set<Id>) {
    forall d :: d in t.dependsOn ==> d in completed
  }

  function FreeSlotOf(s: State, id: Id): map<AgentId, int> {
    if id in s.status && s.status[id].Assigned?
    then s.slots[s.status[id].agent := FreeSlots(s.slots, s.status[id].agent) + 1]
    else s.slots
  }

  predicate Wakes(s: State, t: TaskNode) {
    && t.id !in s.completed && t.id !in s.failed
    && t.id in s.status && s.status[t.id] == Pending && DepsMet(t, s.completed)
  }

  /** Queue every task that has become, or still is, ready. */
  function Requeue(g: seq<TaskNode>, s: State): State {
    if g == [] then s
    else Requeue(g[1..], if Wakes(s, g[0]) then s.(queue := s.queue + multiset{EntryOf(g[0])}) else s)
  }

  function Finish(s: State, id: Id): State {
    s.(running := s.running - {id},
       completed := s.completed + {id},
       completedLog := s.completedLog + [id],
       slots := FreeSlotOf(s, id),
       locks := ReleaseAll(s.locks, id),
       events := s.events + [Finished(id)])
  }

  function Complete(g: seq<TaskNode>, s: State, id: Id): State {
    Requeue(g, Finish(s, id))
  }

  /** Direct dependents fail with the task; theirs do not. */
  function Cascade(g: seq<TaskNode>, s: State, cause: Id): State {
    if g == [] then s
    else
      var t := g[0];
      Cascade(g[1..],
              if cause in t.dependsOn && t.id !in s.failed
              then s.(failed := s.failed + {t.id}, failedLog := s.failedLog + [Cascaded(t.id, cause)])
              else s,
              cause)
  }

  function Record(s: State, id: Id, error: string): State {
    s.(running := s.running - {id},
       failed := s.failed + {id},
       failedLog := s.failedLog + [Raised(id, error)],
       slots := FreeSlotOf(s, id),
       locks := ReleaseAll(s.locks, id))
  }

  function Fail(g: seq<TaskNode>, s: State, id: Id, error: string): State {
    Cascade(g, Record(s, id, error), id)
  }

  function Settle(g: seq<TaskNode>, s: State, o: Outcome): State {
    if o.error.None? then Complete(g, s, o.id) else Fail(g, s, o.id, o.error.value)
  }

  function SettleAll(g: seq<TaskNode>, s: State, batch: seq<Outcome>): State
    decreases |batch|
  {
    if batch == [] then s else SettleAll(g, Settle(g, s, batch[0]), batch[1..])
  }

  // ----- whole runs -----

  predicate Settled(g: seq<TaskNode>, completed: set<Id>, failed: set<Id>) {
    forall t :: t in g ==> t.id in completed || t.id in failed
  }

  predicate AllDone(g: seq<TaskNode>, s: State) {
    Settled(g, s.completed, s.failed)
  }

  /** Note everything unsettled as blocked. */
  function MarkBlocked(g: seq<TaskNode>, s: State): State {
    if g == [] then s
    else MarkBlocked(g[1..], if g[0].id !in s.completed && g[0].id !in s.failed
                             then s.(blockedLog := s.blockedLog + [g[0].id]) else s)
  }

  /** Distinct running futures, in the order they are looked at. */
  ghost predicate BatchFits(running: set<Id>, batch: seq<Outcome>) {
    && (forall i :: 0 <= i < |batch| ==> batch[i].id in running)
    && (forall i, j :: 0 <= i < j < |batch| ==> batch[i].id != batch[j].id)
  }

  ghost predicate ValidBatch(running: set<Id>, batch: seq<Outcome>) {
    batch != [] && BatchFits(running, batch)
  }

  /** One turn of the main loop: what the agent queries answer, then what has finished. */
  datatype Round = Round(answers: seq<seq<Candidate>>, batch: seq<Outcome>)

  /** A whole execution; `closing` answers the queries of a last drain that starts nothing. */
  datatype Run = Run(rounds: seq<Round>, closing: seq<seq<Candidate>>)

  ghost function Play(g: seq<TaskNode>, s: State, r: Round): State {
    SettleAll(g, Dispatch(g, s, r.answers), r.batch)
  }

  ghost predicate Legal(g: seq<TaskNode>, s: State, r: Round) {
    !AllDone(g, s) && ValidBatch(Dispatch(g, s, r.answers).running, r.batch)
  }

  /** The state at the loop head after these rounds. */
  ghost function After(g: seq<TaskNode>, s0: State, rounds: seq<Round>): State {
    if rounds == [] then s0
    else Play(g, After(g, s0, rounds[..|rounds| - 1]), rounds[|rounds| - 1])
  }

  ghost predicate Legals(g: seq<TaskNode>, s0: State, rounds: seq<Round>) {
    rounds != [] ==>
      && Legals(g, s0, rounds[..|rounds| - 1])
      && Legal(g, After(g, s0, rounds[..|rounds| - 1]), rounds[|rounds| - 1])
  }

  /** The rounds are played to the end: all is settled, or a last drain left nothing running. */
  ghost predicate IsRun(g: seq<TaskNode>, s0: State, run: Run) {
    && Legals(g, s0, run.rounds)
    && var s := After(g, s0, run.rounds);
       AllDone(g, s) || Dispatch(g, s, run.closing).running == {}
  }

  ghost function Final(g: seq<TaskNode>, s0: State, run: Run): State {
    var s := After(g, s0, run.rounds);
    if AllDone(g, s) then s else MarkBlocked(g, Dispatch(g, s, run.closing))
  }

  /** Ids are distinct and non-empty, as the generators make them. */
  predicate WellFormed(g: seq<TaskNode>) {
    UniqueIds(g) && forall t :: t in g ==> t.id != ""
  }

  function Roots(g: seq<TaskNode>): multiset<Entry> {
    if g == [] then multiset{}
    else (if g[0].dependsOn == [] then multiset{EntryOf(g[0])} else multiset{}) + Roots(g[1..])
  }

  /** Where a run starts: nothing queued before, no locks; slot counts may be left from before. */
  ghost function Start(g: seq<TaskNode>, slots: map<AgentId, int>): State {
    State(Roots(g), map id | id in Ids(g) :: Pending, {}, {}, {}, [], [], [], slots, map[], [])
  }

  ghost predicate Initial(g: seq<TaskNode>, s: State) {
    s == Start(g, s.slots)
  }
}
