/** What every step of the executor keeps. */
module ExecutorInvariants {
  import opened Prelude
  import opened TaskGraphs
  import opened LockTable
  import opened Executor

  /** The tasks whose own future raised, as the failure list records them. */
  ghost function RaisedIds(log: seq<Failure>): set<Id> {
    set f | f in log && f.Raised? :: f.id
  }

  ghost function FailureIds(log: seq<Failure>): set<Id> {
    set f | f in log :: f.id
  }

  /** The tasks a future was ever created for: running, completed or raised. */
  ghost function Launched(s: State): set<Id> {
    s.running + s.completed + RaisedIds(s.failedLog)
  }

  ghost predicate Partition(g: seq<TaskNode>, running: set<Id>, completed: set<Id>, failed: set<Id>) {
    && running !! completed && running !! failed && completed !! failed
    && running <= Ids(g) && completed <= Ids(g) && failed <= Ids(g)
  }

  /** A node leaves PENDING exactly when its future is created. */
  ghost predicate StatusTracksLaunch(g: seq<TaskNode>, status: map<Id, Status>, launched: set<Id>) {
    && status.Keys == Ids(g)
    && forall id :: id in status ==> (status[id].Assigned? <==> id in launched)
  }

  ghost predicate LaunchedHaveDeps(g: seq<TaskNode>, launched: set<Id>, completed: set<Id>) {
    forall t :: t in g && t.id in launched ==> DepsMet(t, completed)
  }

  ghost predicate EntryReady(g: seq<TaskNode>, completed: set<Id>, e: Entry) {
    exists t :: t in g && EntryOf(t) == e && DepsMet(t, completed)
  }

  ghost predicate QueueReady(g: seq<TaskNode>, queue: multiset<Entry>, completed: set<Id>) {
    forall e :: e in queue ==> EntryReady(g, completed, e)
  }

  ghost predicate HasRaisedDep(t: TaskNode, raised: set<Id>) {
    exists d :: d in t.dependsOn && d in raised
  }

  /** The failed tasks are those that raised and their direct dependents, nothing else. */
  ghost predicate FailedExactly(g: seq<TaskNode>, failed: set<Id>, raised: set<Id>) {
    forall t :: t in g ==> (t.id in failed <==> t.id in raised || HasRaisedDep(t, raised))
  }

  /** A path is locked by a task iff the task is running and lists the path. */
  ghost predicate LocksAgree(g: seq<TaskNode>, locks: Locks, running: set<Id>) {
    && (forall p :: p in locks ==> locks[p].holder in running)
    && (forall t, p :: t in g ==>
          ((p in locks && locks[p].holder == t.id) <==> (t.id in running && p in t.artifactPaths)))
  }

  /** The failure list names each failed task once. */
  ghost predicate FailuresDistinct(log: seq<Failure>, failed: set<Id>) {
    && (forall i, j :: 0 <= i < j < |log| ==> log[i].id != log[j].id)
    && FailureIds(log) == failed
  }

  /** The result lists name each settled task once. */
  ghost predicate LogsMatch(completedLog: seq<Id>, completed: set<Id>, failedLog: seq<Failure>, failed: set<Id>) {
    && NoDup(completedLog) && Elements(completedLog) == completed
    && FailuresDistinct(failedLog, failed)
  }

  /** Futures are created once per task, after all its dependencies have finished. */
  ghost predicate HistoryOrdered(g: seq<TaskNode>, events: seq<Event>, launched: set<Id>, completed: set<Id>) {
    && NoDup(events)
    && (forall id :: Started(id) in events <==> id in launched)
    && (forall id :: Finished(id) in events <==> id in completed)
    && (forall i, t, d :: 0 <= i < |events| && t in g && events[i] == Started(t.id) && d in t.dependsOn
                          ==> Finished(d) in events[..i])
  }

  ghost predicate Inv(g: seq<TaskNode>, s: State) {
    && Partition(g, s.running, s.completed, s.failed)
    && StatusTracksLaunch(g, s.status, Launched(s))
    && LaunchedHaveDeps(g, Launched(s), s.completed)
    && QueueReady(g, s.queue, s.completed)
    && FailedExactly(g, s.failed, RaisedIds(s.failedLog))
    && LocksAgree(g, s.locks, s.running)
    && LogsMatch(s.completedLog, s.completed, s.failedLog, s.failed)
    && HistoryOrdered(g, s.events, Launched(s), s.completed)
  }

  // ----- the start -----

  lemma {:induction false} RootsReady(g: seq<TaskNode>, e: Entry)
    requires e in Roots(g)
    ensures exists t :: t in g && EntryOf(t) == e && t.dependsOn == []
  {
    if !(g[0].dependsOn == [] && e == EntryOf(g[0])) {
      RootsReady(g[1..], e);
    }
  }

  lemma InitialInv(g: seq<TaskNode>, s: State)
    requires Initial(g, s)
    ensures Inv(g, s)
  {
    forall e | e in s.queue ensures EntryReady(g, s.completed, e) {
      RootsReady(g, e);
    }
  }

  // ----- queue entries -----

  lemma QueueStaysReady(g: seq<TaskNode>, q: multiset<Entry>, c: set<Id>, q': multiset<Entry>, c': set<Id>)
    requires QueueReady(g, q, c) && c <= c'
    requires forall e :: e in q' ==> e in q || EntryReady(g, c', e)
    ensures QueueReady(g, q', c')
  {
  }

  lemma EntryNode(g: seq<TaskNode>, completed: set<Id>, e: Entry) returns (t: TaskNode)
    requires UniqueIds(g) && EntryReady(g, completed, e)
    ensures t in g && t.id == e.id && Node(g, e.id) == t && EntryOf(t) == e && DepsMet(t, completed)
  {
    t :| t in g && EntryOf(t) == e && DepsMet(t, completed);
    NodeUnique(g, t);
  }

  // ----- dispatching -----

  /** Changing only queue, locks, slots and the blocked list leaves the other facts alone. */
  lemma Reframe(g: seq<TaskNode>, s: State, s': State)
    requires Inv(g, s)
    requires s' == s.(queue := s'.queue, locks := s'.locks, slots := s'.slots, blockedLog := s'.blockedLog)
    requires QueueReady(g, s'.queue, s.completed) && LocksAgree(g, s'.locks, s.running)
    ensures Inv(g, s')
  {
  }

  lemma PoppedInv(g: seq<TaskNode>, s: State, e: Entry)
    requires Inv(g, s)
    ensures Inv(g, s.(queue := s.queue - multiset{e}))
  {
  }

  /** A pending task holds nothing, so the all-or-nothing reading of the lock table applies. */
  lemma PendingHoldsNone(g: seq<TaskNode>, s: State, t: TaskNode)
    requires Inv(g, s) && t in g && s.status[t.id] == Pending
    ensures HoldsNone(s.locks, t.id) && t.id !in Launched(s)
  {
  }

  lemma RefusedLocks(g: seq<TaskNode>, locks: Locks, running: set<Id>, t: TaskNode)
    requires LocksAgree(g, locks, running) && HoldsNone(locks, t.id)
    requires !AcquireAll(locks, t.id, t.artifactPaths).0
    ensures LocksAgree(g, AcquireAll(locks, t.id, t.artifactPaths).1, running)
  {
    AcquireAllMeaning(locks, t.id, t.artifactPaths);
    var table := AcquireAll(locks, t.id, t.artifactPaths).1;
    var k :| 0 <= k < |t.artifactPaths| && FirstBlocked(locks, t.id, t.artifactPaths, k)
             && table == locks[t.artifactPaths[k] := Waiting(locks[t.artifactPaths[k]], t.id)];
  }

  lemma GrantedLocks(g: seq<TaskNode>, locks: Locks, running: set<Id>, t: TaskNode)
    requires UniqueIds(g) && LocksAgree(g, locks, running) && t in g && t.id !in running
    requires forall p :: p in t.artifactPaths ==> p !in locks
    ensures LocksAgree(g, Granted(locks, t.id, t.artifactPaths), running + {t.id})
  {
  }

  lemma StartedHistory(g: seq<TaskNode>, events: seq<Event>, launched: set<Id>, completed: set<Id>, t: TaskNode)
    requires UniqueIds(g) && HistoryOrdered(g, events, launched, completed)
    requires t in g && t.id !in launched && DepsMet(t, completed)
    ensures HistoryOrdered(g, events + [Started(t.id)], launched + {t.id}, completed)
  {
    NoDupSnoc(events, Started(t.id));
    var more := events + [Started(t.id)];
    forall i, u, d | 0 <= i < |more| && u in g && more[i] == Started(u.id) && d in u.dependsOn
      ensures Finished(d) in more[..i]
    {
      assert more[..i] == events[..i];
      if i < |events| {
        assert events[i] == Started(u.id);
      } else {
        NodeUnique(g, t);
        NodeUnique(g, u);
      }
    }
  }

  /** Met dependencies have all completed, so none of them can have failed the task. */
  lemma NotFailedWhenReady(g: seq<TaskNode>, s: State, t: TaskNode)
    requires Inv(g, s) && t in g && DepsMet(t, s.completed) && t.id !in RaisedIds(s.failedLog)
    ensures t.id !in s.failed
  {
  }

  lemma StartedDeps(g: seq<TaskNode>, launched: set<Id>, completed: set<Id>, t: TaskNode)
    requires UniqueIds(g) && LaunchedHaveDeps(g, launched, completed) && t in g && DepsMet(t, completed)
    ensures LaunchedHaveDeps(g, launched + {t.id}, completed)
  {
  }

  lemma StartedInv(g: seq<TaskNode>, s: State, t: TaskNode, agent: AgentId)
    requires UniqueIds(g) && Inv(g, s) && t in g && s.status[t.id] == Pending && DepsMet(t, s.completed)
    requires AcquireAll(s.locks, t.id, t.artifactPaths).0
    ensures Inv(g, Assign(s, t, agent))
  {
    hide HistoryOrdered, LocksAgree, LaunchedHaveDeps, LogsMatch, FailedExactly, UniqueIds, Granted, AcquireAll;
    PendingHoldsNone(g, s, t);
    AcquireAllMeaning(s.locks, t.id, t.artifactPaths);
    GrantedLocks(g, s.locks, s.running, t);
    StartedHistory(g, s.events, Launched(s), s.completed, t);
    StartedDeps(g, Launched(s), s.completed, t);
    NotFailedWhenReady(g, s, t);
    assert Launched(Assign(s, t, agent)) == Launched(s) + {t.id};
  }

  lemma RefusedInv(g: seq<TaskNode>, s: State, t: TaskNode, agent: AgentId)
    requires Inv(g, s) && t in g && s.status[t.id] == Pending
    requires !AcquireAll(s.locks, t.id, t.artifactPaths).0
    ensures Inv(g, Assign(s, t, agent))
  {
    PendingHoldsNone(g, s, t);
    RefusedLocks(g, s.locks, s.running, t);
    Reframe(g, s, Assign(s, t, agent));
  }

  lemma OfferInv(g: seq<TaskNode>, s: State, t: TaskNode, candidates: seq<Candidate>)
    requires UniqueIds(g) && Inv(g, s) && t in g && s.status[t.id] == Pending && DepsMet(t, s.completed)
    ensures Inv(g, Offer(s, t, candidates).1)
  {
    var (pick, slots) := PickAgent(candidates, s.slots);
    var s1 := s.(slots := slots);
    Reframe(g, s, s1);
    if pick.None? || pick.value == "" {
      assert EntryReady(g, s.completed, EntryOf(t));
      QueueStaysReady(g, s.queue, s.completed, s.queue + multiset{EntryOf(t)}, s.completed);
      Reframe(g, s1, s1.(queue := s1.queue + multiset{EntryOf(t)}));
    } else if AcquireAll(s1.locks, t.id, t.artifactPaths).0 {
      StartedInv(g, s1, t, pick.value);
    } else {
      RefusedInv(g, s1, t, pick.value);
    }
  }

  lemma PopOneInv(g: seq<TaskNode>, s: State, answers: seq<seq<Candidate>>)
    requires UniqueIds(g) && Inv(g, s) && s.queue != multiset{}
    ensures Inv(g, PopOne(g, s, answers).0)
  {
    var e := Least(s.queue);
    PoppedInv(g, s, e);
    if IsPending(g, s, e.id) {
      assert EntryReady(g, s.completed, e);
      var t := EntryNode(g, s.completed, e);
      OfferInv(g, s.(queue := s.queue - multiset{e}), t, Answer(answers));
    }
  }

  lemma {:induction false} DispatchInv(g: seq<TaskNode>, s: State, answers: seq<seq<Candidate>>)
    requires UniqueIds(g) && Inv(g, s)
    ensures Inv(g, Dispatch(g, s, answers))
    decreases |s.queue|
  {
    if s.queue != multiset{} {
      PopOneInv(g, s, answers);
      var (next, rest, stop) := PopOne(g, s, answers);
      if !stop {
        DispatchInv(g, next, rest);
      }
    }
  }
}
