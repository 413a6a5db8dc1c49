/** Completion, failure and whole runs keep the executor's invariant. */
module ExecutorSettling {
  import opened Prelude
  import opened TaskGraphs
  import opened LockTable
  import opened Executor
  import opened ExecutorInvariants

  // ----- what the loops over the graph do -----

  lemma {:induction false} RequeueMeaning(g: seq<TaskNode>, s: State)
    ensures var q := Requeue(g, s).queue;
            && Requeue(g, s) == s.(queue := q)
            && s.queue <= q
            && (forall t :: t in g && Wakes(s, t) ==> EntryOf(t) in q)
            && (forall e :: e in q ==> e in s.queue || exists t :: t in g && Wakes(s, t) && EntryOf(t) == e)
  {
    if g != [] {
      var s1 := if Wakes(s, g[0]) then s.(queue := s.queue + multiset{EntryOf(g[0])}) else s;
      assert forall t :: Wakes(s1, t) == Wakes(s, t);
      RequeueMeaning(g[1..], s1);
      var q := Requeue(g, s).queue;
      forall t | t in g && Wakes(s, t) ensures EntryOf(t) in q {
        if t != g[0] { assert t in g[1..]; }
      }
      forall e | e in q ensures e in s.queue || exists t :: t in g && Wakes(s, t) && EntryOf(t) == e {
        if e !in s1.queue {
          var t :| t in g[1..] && Wakes(s, t) && EntryOf(t) == e;
          assert t in g;
        }
      }
    }
  }

  lemma FailureSnoc(log: seq<Failure>, failed: set<Id>, f: Failure)
    requires FailuresDistinct(log, failed) && f.id !in failed
    ensures FailuresDistinct(log + [f], failed + {f.id})
  {
  }

  lemma RaisedSnoc(log: seq<Failure>, f: Failure)
    ensures RaisedIds(log + [f]) == RaisedIds(log) + (if f.Raised? then {f.id} else {})
  {
  }

  ghost function DependentsOf(g: seq<TaskNode>, id: Id): set<Id> {
    set t | t in g && id in t.dependsOn :: t.id
  }

  lemma {:induction false} CascadeMeaning(g: seq<TaskNode>, s: State, cause: Id)
    requires FailuresDistinct(s.failedLog, s.failed)
    ensures var r := Cascade(g, s, cause);
            && r == s.(failed := r.failed, failedLog := r.failedLog)
            && r.failed == s.failed + DependentsOf(g, cause)
            && FailuresDistinct(r.failedLog, r.failed)
            && RaisedIds(r.failedLog) == RaisedIds(s.failedLog)
  {
    if g != [] {
      var t := g[0];
      var s1 := if cause in t.dependsOn && t.id !in s.failed
                then s.(failed := s.failed + {t.id}, failedLog := s.failedLog + [Cascaded(t.id, cause)]) else s;
      if cause in t.dependsOn && t.id !in s.failed {
        FailureSnoc(s.failedLog, s.failed, Cascaded(t.id, cause));
        RaisedSnoc(s.failedLog, Cascaded(t.id, cause));
      }
      CascadeMeaning(g[1..], s1, cause);
      assert g == [t] + g[1..];
      assert forall u :: u in g <==> u == t || u in g[1..];
    }
  }

  // ----- releasing -----

  lemma ReleasedLocks(g: seq<TaskNode>, locks: Locks, running: set<Id>, id: Id)
    requires LocksAgree(g, locks, running)
    ensures LocksAgree(g, ReleaseAll(locks, id), running - {id})
  {
  }

  // ----- completion -----

  lemma FinishedHistory(g: seq<TaskNode>, events: seq<Event>, launched: set<Id>, completed: set<Id>, id: Id)
    requires HistoryOrdered(g, events, launched, completed) && id !in completed
    ensures HistoryOrdered(g, events + [Finished(id)], launched, completed + {id})
  {
  }

  lemma FinishInv(g: seq<TaskNode>, s: State, id: Id)
    requires Inv(g, s) && id in s.running
    ensures Inv(g, Finish(s, id))
  {
    var s1 := Finish(s, id);
    assert Launched(s1) == Launched(s);
    ReleasedLocks(g, s.locks, s.running, id);
    FinishedHistory(g, s.events, Launched(s), s.completed, id);
    NoDupSnoc(s.completedLog, id);
    QueueStaysReady(g, s.queue, s.completed, s1.queue, s1.completed);
    DepsStayMet(g, Launched(s), s.completed, s1.completed);
  }

  lemma DepsStayMet(g: seq<TaskNode>, launched: set<Id>, c: set<Id>, c': set<Id>)
    requires LaunchedHaveDeps(g, launched, c) && c <= c'
    ensures LaunchedHaveDeps(g, launched, c')
  {
  }

  lemma {:induction false} RequeueInv(g: seq<TaskNode>, s: State)
    requires Inv(g, s)
    ensures Inv(g, Requeue(g, s))
  {
    RequeueMeaning(g, s);
    var s' := Requeue(g, s);
    forall e | e in s'.queue ensures e in s.queue || EntryReady(g, s.completed, e) {
      if e !in s.queue {
        var t :| t in g && Wakes(s, t) && EntryOf(t) == e;
      }
    }
    QueueStaysReady(g, s.queue, s.completed, s'.queue, s.completed);
    Reframe(g, s, s');
  }

  // ----- failure -----

  lemma FailedNow(g: seq<TaskNode>, failed: set<Id>, raised: set<Id>, id: Id)
    requires FailedExactly(g, failed, raised)
    requires UniqueIds(g)
    ensures FailedExactly(g, failed + {id} + DependentsOf(g, id), raised + {id})
  {
  }

  /** The whole effect of one failure, with the cascade summed up. */
  lemma FailShape(g: seq<TaskNode>, s: State, id: Id, error: string)
    requires FailuresDistinct(s.failedLog, s.failed) && id !in s.failed
    ensures var s' := Fail(g, s, id, error);
            && s' == s.(running := s.running - {id}, slots := FreeSlotOf(s, id), locks := ReleaseAll(s.locks, id),
                        failed := s.failed + {id} + DependentsOf(g, id), failedLog := s'.failedLog)
            && FailuresDistinct(s'.failedLog, s'.failed)
            && RaisedIds(s'.failedLog) == RaisedIds(s.failedLog) + {id}
  {
    FailureSnoc(s.failedLog, s.failed, Raised(id, error));
    RaisedSnoc(s.failedLog, Raised(id, error));
    CascadeMeaning(g, Record(s, id, error), id);
  }

  lemma RunningIsUnsettled(g: seq<TaskNode>, s: State, id: Id)
    requires Inv(g, s) && id in s.running
    ensures FailuresDistinct(s.failedLog, s.failed) && id !in s.failed && id !in s.completed && id in Ids(g)
  {
  }

  lemma FailPartition(g: seq<TaskNode>, s: State, id: Id)
    requires Inv(g, s) && id in s.running
    ensures Partition(g, s.running - {id}, s.completed, s.failed + {id} + DependentsOf(g, id))
  {
  }

  lemma FailInv(g: seq<TaskNode>, s: State, id: Id, error: string)
    requires UniqueIds(g) && Inv(g, s) && id in s.running
    ensures Inv(g, Fail(g, s, id, error))
  {
    hide HistoryOrdered, LocksAgree, LaunchedHaveDeps, FailedExactly, QueueReady, Partition;
    hide UniqueIds, Fail, ReleaseAll;
    RunningIsUnsettled(g, s, id);
    FailShape(g, s, id, error);
    ReleasedLocks(g, s.locks, s.running, id);
    FailedNow(g, s.failed, RaisedIds(s.failedLog), id);
    FailPartition(g, s, id);
    assert Launched(Fail(g, s, id, error)) == Launched(s);
  }

  lemma SettleInv(g: seq<TaskNode>, s: State, o: Outcome)
    requires UniqueIds(g) && Inv(g, s) && o.id in s.running
    ensures Inv(g, Settle(g, s, o)) && Settle(g, s, o).running == s.running - {o.id}
  {
    if o.error.None? {
      FinishInv(g, s, o.id);
      RequeueInv(g, Finish(s, o.id));
      RequeueMeaning(g, Finish(s, o.id));
    } else {
      FailInv(g, s, o.id, o.error.value);
      FailShape(g, s, o.id, o.error.value);
    }
  }

  lemma {:induction false} SettleAllInv(g: seq<TaskNode>, s: State, batch: seq<Outcome>)
    requires UniqueIds(g) && Inv(g, s) && BatchFits(s.running, batch)
    ensures Inv(g, SettleAll(g, s, batch))
    decreases |batch|
  {
    if batch != [] {
      SettleInv(g, s, batch[0]);
      SettleAllInv(g, Settle(g, s, batch[0]), batch[1..]);
    }
  }

  // ----- runs -----

  lemma PlayInv(g: seq<TaskNode>, s: State, r: Round)
    requires UniqueIds(g) && Inv(g, s) && Legal(g, s, r)
    ensures Inv(g, Play(g, s, r))
  {
    DispatchInv(g, s, r.answers);
    SettleAllInv(g, Dispatch(g, s, r.answers), r.batch);
  }

  lemma {:induction false} RunsKeepInv(g: seq<TaskNode>, s0: State, rounds: seq<Round>)
    requires WellFormed(g) && Initial(g, s0) && Legals(g, s0, rounds)
    ensures Inv(g, After(g, s0, rounds))
  {
    if rounds == [] {
      InitialInv(g, s0);
    } else {
      var front := rounds[..|rounds| - 1];
      RunsKeepInv(g, s0, front);
      PlayInv(g, After(g, s0, front), rounds[|rounds| - 1]);
    }
  }
}
