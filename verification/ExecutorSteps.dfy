/** What the single steps of the executor change, and what the result lists of a whole run say. */
module ExecutorSteps {
  import opened Prelude
  import opened TaskGraphs
  import opened LockTable
  import opened Executor

  // ----- choosing an agent -----

  predicate HasRecorded(slots: map<AgentId, int>, c: Candidate) {
    c.agent in slots && slots[c.agent] > 0
  }

  /** The limit less the stored count; an agent without a limit of its own may run two tasks. */
  function Room(c: Candidate): int {
    (if c.maxConcurrent.Some? then c.maxConcurrent.value else 2) - c.active
  }

  predicate IsFree(slots: map<AgentId, int>, c: Candidate) {
    HasRecorded(slots, c) || Room(c) > 0
  }

  ghost predicate DistinctAgents(candidates: seq<Candidate>) {
    forall i, j :: 0 <= i < j < |candidates| ==> candidates[i].agent != candidates[j].agent
  }

  ghost predicate LookedAt(candidates: seq<Candidate>, n: nat, a: AgentId)
    requires n <= |candidates|
  {
    exists j :: 0 <= j < n && candidates[j].agent == a
  }

  /** Of the first `n` candidates, those without a recorded free slot get their room recorded; nothing else changes. */
  ghost predicate Recounted(candidates: seq<Candidate>, n: nat, slots: map<AgentId, int>, after: map<AgentId, int>)
    requires n <= |candidates|
  {
    && (forall j :: 0 <= j < n ==>
          var c := candidates[j];
          c.agent in after && after[c.agent] == if HasRecorded(slots, c) then slots[c.agent] else Room(c))
    && (forall a :: !LookedAt(candidates, n, a) ==>
          (a in after <==> a in slots) && (a in after ==> after[a] == slots[a]))
  }

  ghost predicate PickedAt(
      candidates: seq<Candidate>, slots: map<AgentId, int>, k: nat, pick: Option<AgentId>, after: map<AgentId, int>)
  {
    && k <= |candidates|
    && (forall j :: 0 <= j < k ==> !IsFree(slots, candidates[j]))
    && if k == |candidates| then pick == None && Recounted(candidates, k, slots, after)
       else IsFree(slots, candidates[k]) && pick == Some(candidates[k].agent)
            && Recounted(candidates, k + 1, slots, after)
  }

  /** The first free candidate is picked, and the candidates up to it are recounted; without one, all of them. */
  ghost predicate FirstFreePicked(
      candidates: seq<Candidate>, slots: map<AgentId, int>, pick: Option<AgentId>, after: map<AgentId, int>)
  {
    exists k :: PickedAt(candidates, slots, k, pick, after)
  }

  ghost predicate OneRecounted(c: Candidate, slots: map<AgentId, int>, after: map<AgentId, int>) {
    && c.agent in after && after[c.agent] == (if HasRecorded(slots, c) then slots[c.agent] else Room(c))
    && forall a :: a != c.agent ==> (a in after <==> a in slots) && (a in after ==> after[a] == slots[a])
  }

  lemma RefreshedRecounts(slots: map<AgentId, int>, c: Candidate)
    ensures OneRecounted(c, slots, Refreshed(slots, c))
    ensures FreeSlots(Refreshed(slots, c), c.agent) > 0 <==> IsFree(slots, c)
  {
  }

  lemma LookedAtShift(candidates: seq<Candidate>, n: nat, a: AgentId)
    requires n < |candidates|
    ensures LookedAt(candidates, n + 1, a) <==> a == candidates[0].agent || LookedAt(candidates[1..], n, a)
  {
    if j :| 0 <= j < n && candidates[1..][j].agent == a {
      assert candidates[j + 1].agent == a;
    }
    if j :| 0 <= j < n + 1 && candidates[j].agent == a {
      assert j > 0 ==> candidates[1..][j - 1].agent == a;
    }
  }

  lemma RecountedShift(
      candidates: seq<Candidate>, n: nat, slots: map<AgentId, int>, slots': map<AgentId, int>, after: map<AgentId, int>)
    requires DistinctAgents(candidates) && n < |candidates|
    requires OneRecounted(candidates[0], slots, slots') && Recounted(candidates[1..], n, slots', after)
    ensures Recounted(candidates, n + 1, slots, after)
  {
    var rest, c := candidates[1..], candidates[0];
    forall a ensures LookedAt(candidates, n + 1, a) <==> a == c.agent || LookedAt(rest, n, a) {
      LookedAtShift(candidates, n, a);
    }
    assert !LookedAt(rest, n, c.agent);
    hide LookedAt;
    forall j | 0 <= j < n + 1
      ensures var d := candidates[j];
              d.agent in after && after[d.agent] == if HasRecorded(slots, d) then slots[d.agent] else Room(d)
    {
      if j > 0 {
        assert rest[j - 1] == candidates[j];
        assert HasRecorded(slots', candidates[j]) == HasRecorded(slots, candidates[j]);
      }
    }
  }

  /** For distinct agents: the first with a recorded free slot or with room by its stored count is picked. */
  lemma {:induction false} FirstFreeIsPicked(candidates: seq<Candidate>, slots: map<AgentId, int>) returns (k: nat)
    requires DistinctAgents(candidates)
    ensures var (pick, after) := PickAgent(candidates, slots);
            && PickedAt(candidates, slots, k, pick, after) && FirstFreePicked(candidates, slots, pick, after)
            && (pick.None? <==> forall c :: c in candidates ==> !IsFree(slots, c))
    decreases |candidates|
  {
    k := 0;
    var (pick, after) := PickAgent(candidates, slots);
    if candidates != [] {
      var c, rest, slots' := candidates[0], candidates[1..], Refreshed(slots, candidates[0]);
      RefreshedRecounts(slots, c);
      if FreeSlots(slots', c.agent) > 0 {
        FirstRecounted(candidates, slots, slots');
        assert c in candidates;
      } else {
        var l := FirstFreeIsPicked(rest, slots');
        k := l + 1;
        RestIsSame(candidates, slots, slots');
        hide IsFree, Recounted, OneRecounted, PickAgent, DistinctAgents, Refreshed;
        LaterPick(candidates, slots, slots', l, pick, after);
      }
    }
    FreeIffPicked(candidates, slots, k, pick, after);
  }

  lemma FirstRecounted(candidates: seq<Candidate>, slots: map<AgentId, int>, slots': map<AgentId, int>)
    requires candidates != [] && OneRecounted(candidates[0], slots, slots')
    ensures Recounted(candidates, 1, slots, slots')
  {
    assert forall a :: LookedAt(candidates, 1, a) <==> a == candidates[0].agent;
  }

  lemma RestIsSame(candidates: seq<Candidate>, slots: map<AgentId, int>, slots': map<AgentId, int>)
    requires candidates != [] && DistinctAgents(candidates) && OneRecounted(candidates[0], slots, slots')
    ensures forall j :: 0 <= j < |candidates| - 1 ==>
              IsFree(slots', candidates[1..][j]) == IsFree(slots, candidates[j + 1])
  {
  }

  lemma LaterPick(candidates: seq<Candidate>, slots: map<AgentId, int>, slots': map<AgentId, int>, l: nat,
                  pick: Option<AgentId>, after: map<AgentId, int>)
    requires candidates != [] && DistinctAgents(candidates) && OneRecounted(candidates[0], slots, slots')
    requires !IsFree(slots, candidates[0]) && PickedAt(candidates[1..], slots', l, pick, after)
    requires forall j :: 0 <= j < |candidates| - 1 ==>
               IsFree(slots', candidates[1..][j]) == IsFree(slots, candidates[j + 1])
    ensures PickedAt(candidates, slots, l + 1, pick, after)
  {
    hide IsFree, Recounted, OneRecounted, DistinctAgents;
    RecountedShift(candidates, if l == |candidates| - 1 then l else l + 1, slots, slots', after);
    forall j | 0 <= j < l + 1 ensures !IsFree(slots, candidates[j]) {
      if j > 0 {
        assert !IsFree(slots', candidates[1..][j - 1]);
      }
    }
  }

  lemma FreeIffPicked(
      candidates: seq<Candidate>, slots: map<AgentId, int>, k: nat, pick: Option<AgentId>, after: map<AgentId, int>)
    requires PickedAt(candidates, slots, k, pick, after)
    ensures pick.None? <==> forall c :: c in candidates ==> !IsFree(slots, c)
  {
    hide IsFree, Recounted;
    if k < |candidates| {
      assert candidates[k] in candidates;
    }
  }

  /**
   * A popped task goes back to the queue, and the drain ends, exactly when no candidate is free or
   * the first free one has an empty name; otherwise it stays out, started or refused.
   */
  lemma OfferOutcome(s: State, t: TaskNode, candidates: seq<Candidate>) returns (k: nat)
    requires DistinctAgents(candidates)
    ensures k <= |candidates| && forall j :: 0 <= j < k ==> !IsFree(s.slots, candidates[j])
    ensures k < |candidates| ==> IsFree(s.slots, candidates[k])
    ensures var (pick, d) := Offer(s, t, candidates);
            if k == |candidates| || candidates[k].agent == ""
            then pick == None && d == s.(slots := d.slots, queue := s.queue + multiset{Entry(t.priority, t.id)})
            else pick == Some(candidates[k].agent) && d.queue == s.queue
                 && (d.running == s.running + {t.id}
                     <==> t.id in s.running || AcquireAll(s.locks, t.id, t.artifactPaths).0)
                 && (!AcquireAll(s.locks, t.id, t.artifactPaths).0 ==> d.blockedLog == s.blockedLog + [t.id])
  {
    hide IsFree, AcquireAll, PickAgent, Recounted;
    k := FirstFreeIsPicked(candidates, s.slots);
    if t.id in s.running {
      assert s.running + {t.id} == s.running;
    }
  }

  // ----- queueing -----

  /** Pending, unsettled, and all dependencies completed. */
  ghost predicate Wakeable(s: State, t: TaskNode) {
    && t.id in s.status && s.status[t.id] == Pending && t.id !in s.completed && t.id !in s.failed
    && forall d :: d in t.dependsOn ==> d in s.completed
  }

  /** Requeueing adds one entry for each task that can start now, and nothing else. */
  lemma {:induction false} RequeueExact(g: seq<TaskNode>, s: State, e: Entry)
    requires UniqueIds(g)
    ensures Requeue(g, s).queue[e] == s.queue[e]
            + if exists t :: t in g && Wakeable(s, t) && e == Entry(t.priority, t.id) then 1 else 0
    decreases |g|
  {
    if g != [] {
      var s1 := if Wakes(s, g[0]) then s.(queue := s.queue + multiset{EntryOf(g[0])}) else s;
      assert forall t :: Wakeable(s1, t) == Wakeable(s, t) == Wakes(s, t);
      RequeueExact(g[1..], s1, e);
      OneMoreEntry(g, s, e);
    }
  }

  lemma OneMoreEntry(g: seq<TaskNode>, s: State, e: Entry)
    requires UniqueIds(g) && g != []
    ensures (exists t :: t in g && Wakeable(s, t) && e == Entry(t.priority, t.id))
       <==> (exists t :: t in g[1..] && Wakeable(s, t) && e == Entry(t.priority, t.id))
            || (Wakeable(s, g[0]) && e == Entry(g[0].priority, g[0].id))
    ensures e.id == g[0].id ==> forall t :: t in g[1..] ==> t.id != e.id
  {
    hide Wakeable;
    assert forall t :: t in g <==> t == g[0] || t in g[1..];
  }

  /** A graph starts with one entry for each task without dependencies. */
  lemma {:induction false} RootsExact(g: seq<TaskNode>, e: Entry)
    requires UniqueIds(g)
    ensures Roots(g)[e] == if exists t :: t in g && t.dependsOn == [] && e == Entry(t.priority, t.id) then 1 else 0
    decreases |g|
  {
    if g != [] {
      RootsExact(g[1..], e);
      assert forall t :: t in g <==> t == g[0] || t in g[1..];
      assert forall t :: t in g[1..] ==> t.id != g[0].id;
    }
  }

  /** Where a run starts: the roots queued once each, everything pending, nothing locked or listed, old slots kept. */
  lemma StartExact(g: seq<TaskNode>, slots: map<AgentId, int>)
    requires UniqueIds(g)
    ensures var s := Start(g, slots);
            && (forall e :: s.queue[e] ==
                  if exists t :: t in g && t.dependsOn == [] && e == Entry(t.priority, t.id) then 1 else 0)
            && s.status.Keys == Ids(g) && (forall id :: id in s.status ==> s.status[id] == Pending)
            && s.running == s.completed == s.failed == {} && s.slots == slots && s.locks == map[]
            && s.completedLog == [] && s.failedLog == [] && s.blockedLog == []
  {
    forall e
      ensures Roots(g)[e] == if exists t :: t in g && t.dependsOn == [] && e == Entry(t.priority, t.id) then 1 else 0
    {
      RootsExact(g, e);
    }
  }

  // ----- what loops over the graph append to the lists -----

  /** The ids of the graph that lie in a set, in the order of the graph. */
  function Selected(g: seq<TaskNode>, ids: set<Id>): seq<Id> {
    if g == [] then [] else (if g[0].id in ids then [g[0].id] else []) + Selected(g[1..], ids)
  }

  lemma {:induction false} SelectedMeaning(g: seq<TaskNode>, ids: set<Id>)
    ensures Subsequence(Selected(g, ids), IdsOf(g))
    ensures forall id :: id in Selected(g, ids) <==> id in ids && id in Ids(g)
  {
    if g != [] {
      SelectedMeaning(g[1..], ids);
      assert IdsOf(g)[1..] == IdsOf(g[1..]);
      SubsequenceCons(Selected(g[1..], ids), IdsOf(g));
      assert [] + Selected(g[1..], ids) == Selected(g[1..], ids);
      assert forall u :: u in g <==> u == g[0] || u in g[1..];
    }
  }

  lemma {:induction false} SelectedStep(g: seq<TaskNode>, ids: set<Id>, log: seq<Id>)
    requires g != []
    ensures log + Selected(g, ids) == (if g[0].id in ids then log + [g[0].id] else log) + Selected(g[1..], ids)
  {
  }

  /** Marking notes the unsettled tasks, in the order of the graph, after what was noted before. */
  lemma {:induction false} MarkBlockedExact(g: seq<TaskNode>, s: State, unsettled: set<Id>)
    requires forall t :: t in g ==> (t.id in unsettled <==> t.id !in s.completed && t.id !in s.failed)
    ensures MarkBlocked(g, s) == s.(blockedLog := s.blockedLog + Selected(g, unsettled))
    decreases |g|
  {
    if g == [] {
      assert s.blockedLog + [] == s.blockedLog;
    } else {
      assert g[0] in g && forall t :: t in g[1..] ==> t in g;
      SelectedStep(g, unsettled, s.blockedLog);
      hide Selected;
      var s1 := if g[0].id in unsettled then s.(blockedLog := s.blockedLog + [g[0].id]) else s;
      MarkBlockedExact(g[1..], s1, unsettled);
    }
  }

  function FailuresFrom(ids: seq<Id>, cause: Id): seq<Failure> {
    if ids == [] then [] else [Cascaded(ids[0], cause)] + FailuresFrom(ids[1..], cause)
  }

  lemma {:induction false} StruckStep(g: seq<TaskNode>, ids: set<Id>, cause: Id, log: seq<Failure>)
    requires g != []
    ensures log + FailuresFrom(Selected(g, ids), cause)
         == (if g[0].id in ids then log + [Cascaded(g[0].id, cause)] else log)
            + FailuresFrom(Selected(g[1..], ids), cause)
  {
    var rest := Selected(g[1..], ids);
    if g[0].id in ids {
      assert ([g[0].id] + rest)[1..] == rest;
    } else {
      assert [] + rest == rest;
    }
  }

  lemma StruckStay(g: seq<TaskNode>, failed: set<Id>, cause: Id, struck: set<Id>)
    requires UniqueIds(g) && g != []
    requires forall t :: t in g ==> (t.id in struck <==> cause in t.dependsOn && t.id !in failed)
    ensures g[0].id in struck <==> cause in g[0].dependsOn && g[0].id !in failed
    ensures forall t :: t in g[1..] ==> (t.id in struck <==> cause in t.dependsOn && t.id !in failed + {g[0].id})
  {
    assert g[0] in g;
    assert forall u :: u in g[1..] ==> u in g && u.id != g[0].id;
  }

  /** The cascade lists the direct dependents that had not failed, in the order of the graph, with the cause. */
  lemma {:induction false} CascadeExact(g: seq<TaskNode>, s: State, cause: Id, struck: set<Id>)
    requires UniqueIds(g)
    requires forall t :: t in g ==> (t.id in struck <==> cause in t.dependsOn && t.id !in s.failed)
    ensures Cascade(g, s, cause).failedLog == s.failedLog + FailuresFrom(Selected(g, struck), cause)
    decreases |g|
  {
    if g == [] {
      assert s.failedLog + [] == s.failedLog;
    } else {
      var t := g[0];
      StruckStay(g, s.failed, cause, struck);
      assert forall u :: u in g[1..] ==> u in g;
      StruckStep(g, struck, cause, s.failedLog);
      assert UniqueIds(g[1..]);
      hide Selected, FailuresFrom, UniqueIds;
      var s1 := if t.id in struck
                then s.(failed := s.failed + {t.id}, failedLog := s.failedLog + [Cascaded(t.id, cause)]) else s;
      CascadeExact(g[1..], s1, cause, struck);
    }
  }

  // ----- the result lists of a run -----

  /** Everything that finished, batch after batch. */
  function Outcomes(rounds: seq<Round>): seq<Outcome> {
    if rounds == [] then [] else Outcomes(rounds[..|rounds| - 1]) + rounds[|rounds| - 1].batch
  }

  /** The tasks that returned, in order. */
  function Returned(outcomes: seq<Outcome>): seq<Id> {
    if outcomes == [] then []
    else
      var o := outcomes[|outcomes| - 1];
      Returned(outcomes[..|outcomes| - 1]) + if o.error.None? then [o.id] else []
  }

  /** The tasks that raised and what they raised, in order. */
  function Raises(outcomes: seq<Outcome>): seq<Failure> {
    if outcomes == [] then []
    else
      var o := outcomes[|outcomes| - 1];
      Raises(outcomes[..|outcomes| - 1]) + if o.error.Some? then [Raised(o.id, o.error.value)] else []
  }

  /** A failure list without the entries for dependents. */
  function OwnErrors(log: seq<Failure>): seq<Failure> {
    if log == [] then []
    else OwnErrors(log[..|log| - 1]) + if log[|log| - 1].Raised? then [log[|log| - 1]] else []
  }

  ghost predicate RaisedBefore(log: seq<Failure>, i: nat, id: Id)
    requires i <= |log|
  {
    exists j, e :: 0 <= j < i && log[j] == Raised(id, e)
  }

  /** Each entry for a dependent names a dependency of it whose own error is listed before. */
  ghost predicate CausesListed(g: seq<TaskNode>, log: seq<Failure>) {
    forall i :: 0 <= i < |log| && log[i].Cascaded? ==>
      && RaisedBefore(log, i, log[i].cause)
      && exists t :: t in g && t.id == log[i].id && log[i].cause in t.dependsOn
  }

  lemma CausesSnoc(g: seq<TaskNode>, log: seq<Failure>, f: Failure)
    requires CausesListed(g, log)
    requires f.Cascaded? ==>
               RaisedBefore(log, |log|, f.cause) && exists t :: t in g && t.id == f.id && f.cause in t.dependsOn
    ensures CausesListed(g, log + [f])
  {
    var more := log + [f];
    forall i | 0 <= i < |more| && more[i].Cascaded? ensures RaisedBefore(more, i, more[i].cause) {
      var j, e :| 0 <= j < i && log[j] == Raised(more[i].cause, e);
      assert more[j] == Raised(more[i].cause, e);
    }
  }

  lemma {:induction false} CascadeLog(g: seq<TaskNode>, all: seq<TaskNode>, s: State, cause: Id)
    requires CausesListed(all, s.failedLog) && RaisedBefore(s.failedLog, |s.failedLog|, cause)
    requires forall t :: t in g ==> t in all
    ensures var r := Cascade(g, s, cause);
            && r.completedLog == s.completedLog && CausesListed(all, r.failedLog)
            && OwnErrors(r.failedLog) == OwnErrors(s.failedLog)
    decreases |g|
  {
    if g != [] {
      var t := g[0];
      assert t in all;
      if cause in t.dependsOn && t.id !in s.failed {
        var log := s.failedLog + [Cascaded(t.id, cause)];
        CausesSnoc(all, s.failedLog, Cascaded(t.id, cause));
        var j, e :| 0 <= j < |s.failedLog| && s.failedLog[j] == Raised(cause, e);
        assert log[j] == Raised(cause, e);
        assert log[..|log| - 1] == s.failedLog && OwnErrors(s.failedLog) + [] == OwnErrors(s.failedLog);
        CascadeLog(g[1..], all, s.(failed := s.failed + {t.id}, failedLog := log), cause);
      } else {
        CascadeLog(g[1..], all, s, cause);
      }
    }
  }

  lemma {:induction false} RequeueKeepsLogs(g: seq<TaskNode>, s: State)
    ensures Requeue(g, s) == s.(queue := Requeue(g, s).queue)
    decreases |g|
  {
    if g != [] {
      RequeueKeepsLogs(g[1..], if Wakes(s, g[0]) then s.(queue := s.queue + multiset{EntryOf(g[0])}) else s);
    }
  }

  lemma {:induction false} SettleLogs(g: seq<TaskNode>, s: State, o: Outcome)
    requires CausesListed(g, s.failedLog)
    ensures var r := Settle(g, s, o);
            && CausesListed(g, r.failedLog)
            && r.completedLog == s.completedLog + (if o.error.None? then [o.id] else [])
            && OwnErrors(r.failedLog)
               == OwnErrors(s.failedLog) + if o.error.Some? then [Raised(o.id, o.error.value)] else []
  {
    if o.error.None? {
      RequeueKeepsLogs(g, Finish(s, o.id));
      assert OwnErrors(s.failedLog) + [] == OwnErrors(s.failedLog);
    } else {
      var own := Raised(o.id, o.error.value);
      var log := s.failedLog + [own];
      CausesSnoc(g, s.failedLog, own);
      assert log[..|log| - 1] == s.failedLog && log[|s.failedLog|] == own;
      CascadeLog(g, g, Record(s, o.id, o.error.value), o.id);
      assert s.completedLog + [] == s.completedLog;
    }
  }

  lemma {:induction false} SettleAllLogs(g: seq<TaskNode>, s: State, before: seq<Outcome>, batch: seq<Outcome>)
    requires ListsTell(g, s, before)
    ensures ListsTell(g, SettleAll(g, s, batch), before + batch)
    decreases |batch|
  {
    if batch == [] {
      assert before + [] == before;
    } else {
      var o, next := batch[0], before + [batch[0]];
      SettleLogs(g, s, o);
      assert next[..|next| - 1] == before;
      hide Settle;
      SettleAllLogs(g, Settle(g, s, o), next, batch[1..]);
      assert next + batch[1..] == before + batch;
    }
  }

  ghost predicate ListsTell(g: seq<TaskNode>, s: State, outcomes: seq<Outcome>) {
    s.completedLog == Returned(outcomes) && OwnErrors(s.failedLog) == Raises(outcomes) && CausesListed(g, s.failedLog)
  }

  lemma PopKeepsLogs(g: seq<TaskNode>, s: State, answers: seq<seq<Candidate>>)
    requires s.queue != multiset{}
    ensures var next := PopOne(g, s, answers).0;
            next.completedLog == s.completedLog && next.failedLog == s.failedLog
  {
    hide PickAgent, AcquireAll, Least;
  }

  lemma {:induction false} DispatchKeepsLogs(g: seq<TaskNode>, s: State, answers: seq<seq<Candidate>>)
    ensures var d := Dispatch(g, s, answers);
            d.completedLog == s.completedLog && d.failedLog == s.failedLog
    decreases |s.queue|
  {
    if s.queue != multiset{} {
      PopKeepsLogs(g, s, answers);
      hide PopOne;
      var (next, rest, stop) := PopOne(g, s, answers);
      if !stop {
        DispatchKeepsLogs(g, next, rest);
      }
    }
  }

  /**
   * The result lists after any rounds: the completed list names the futures that returned, the
   * failure list the futures that raised and their own errors, both in the order they finished; every
   * other failure names a dependency whose error is listed before it.
   */
  lemma {:induction false} ListsTellOutcomes(g: seq<TaskNode>, s0: State, rounds: seq<Round>)
    requires Initial(g, s0)
    ensures ListsTell(g, After(g, s0, rounds), Outcomes(rounds))
  {
    if rounds != [] {
      var front, r := rounds[..|rounds| - 1], rounds[|rounds| - 1];
      var s := After(g, s0, front);
      ListsTellOutcomes(g, s0, front);
      DispatchKeepsLogs(g, s, r.answers);
      hide Dispatch, SettleAll;
      SettleAllLogs(g, Dispatch(g, s, r.answers), Outcomes(front), r.batch);
    }
  }

  /** The same of the final lists. */
  lemma {:induction false} FinalListsTellOutcomes(g: seq<TaskNode>, s0: State, run: Run)
    requires Initial(g, s0)
    ensures ListsTell(g, Final(g, s0, run), Outcomes(run.rounds))
  {
    var s := After(g, s0, run.rounds);
    ListsTellOutcomes(g, s0, run.rounds);
    if !AllDone(g, s) {
      DispatchKeepsLogs(g, s, run.closing);
      var d := Dispatch(g, s, run.closing);
      MarkBlockedExact(g, d, Ids(g) - d.completed - d.failed);
    }
  }
}
