/** Why rivals matter: between two rivals, one failure can strand a task that could have run. */
module ExecutorRivals {
  import opened Prelude
  import opened Digraphs
  import opened TaskGraphs
  import opened Executor
  import opened ExecutorInvariants
  import opened ExecutorSettling
  import opened ExecutorProgress
  import opened ExecutorSlots
  import opened ExecutorContainment

  /** If this is a served run in which exactly `raising` raises, no other task is held up. */
  ghost predicate Contained(g: seq<TaskNode>, s0: State, raising: set<Id>, run: Run) {
    IsRun(g, s0, run) && Served(g, s0, run) && Obeys(run.rounds, raising)
    ==> Final(g, s0, run).completed == SoundIds(g, raising)
  }

  /** Whatever raises, every served run completes exactly the tasks no failure stands behind. */
  ghost predicate FailuresStayContained(g: seq<TaskNode>, s0: State) {
    forall raising: set<Id>, run: Run :: Contained(g, s0, raising, run)
  }

  /**
   * Storage tells the truth throughout, knowing each agent's limit and counting at least the tasks
   * in flight, and every query of every drain was answered.
   */
  ghost predicate HonestRun(g: seq<TaskNode>, s0: State, run: Run, cap: AgentId -> int) {
    && (forall a: AgentId :: FreeSlots(s0.slots, a) <= cap(a) && 0 <= cap(a))
    && HonestRounds(g, s0, run.rounds, cap) && RoundsServed(g, s0, run.rounds)
    && HonestAnswers(g, After(g, s0, run.rounds), run.closing, cap)
  }

  ghost predicate HonestlyContained(g: seq<TaskNode>, s0: State, raising: set<Id>, run: Run, cap: AgentId -> int) {
    HonestRun(g, s0, run, cap) ==> Contained(g, s0, raising, run)
  }

  /** The same, asked only of runs in which storage tells the truth. */
  ghost predicate FailuresStayContainedHonestly(g: seq<TaskNode>, s0: State) {
    forall raising: set<Id>, run: Run, cap: AgentId -> int :: HonestlyContained(g, s0, raising, run, cap)
  }

  ghost predicate NoRivals(g: seq<TaskNode>) {
    forall u, t :: u in g && t in g ==> !Rivals(g, u, t)
  }

  // ----- storage that counts what the coordinator wrote -----

  /** The tasks storage has down for an agent: every task ever marked as assigned to it. */
  ghost function MarkedFor(status: map<Id, Status>, a: AgentId): set<Id> {
    set id | id in status && status[id] == Assigned(a)
  }

  ghost function Stored(status: map<Id, Status>, a: AgentId): nat {
    |MarkedFor(status, a)|
  }

  /** Limits that leave room for the whole graph, and for slots recorded before. */
  ghost function Limits(g: seq<TaskNode>, s0: State): AgentId -> int {
    a => if FreeSlots(s0.slots, a) > |Ids(g)| then FreeSlots(s0.slots, a) else |Ids(g)| + 1
  }

  /** One agent, offered with its true stored count. */
  ghost function TrueCount(limit: int): (State, nat) -> seq<Candidate> {
    (s: State, k: nat) => [Candidate("agent", Some(limit), Stored(s.status, "agent"))]
  }

  /** That offer made at every query of the drain. */
  ghost function Recorded(g: seq<TaskNode>, s: State, limit: int): seq<seq<Candidate>> {
    Replies(g, s, TrueCount(limit), 0)
  }

  lemma StoredCounts(g: seq<TaskNode>, s: State, a: AgentId)
    requires Inv(g, s)
    ensures InFlight(s, a) <= Stored(s.status, a) <= |Ids(g)|
  {
    SubsetSize(TasksOn(s.running, s.status, a), MarkedFor(s.status, a));
    SubsetSize(MarkedFor(s.status, a), Ids(g));
  }

  lemma TrueCountIsFree(g: seq<TaskNode>, s: State, limit: int, k: nat)
    requires Inv(g, s) && limit > |Ids(g)|
    ensures HasFreeAgent(TrueCount(limit)(s, k))
  {
    StoredCounts(g, s, "agent");
    var answer := TrueCount(limit)(s, k);
    assert answer[0] in answer;
  }

  lemma TrueCountIsHonest(g: seq<TaskNode>, s: State, cap: AgentId -> int, k: nat)
    requires Inv(g, s)
    ensures HonestAnswer(s, TrueCount(cap("agent"))(s, k), cap)
  {
    StoredCounts(g, s, "agent");
  }

  lemma {:induction false} TrueCountsServe(g: seq<TaskNode>, s: State, cap: AgentId -> int, k: nat)
    requires UniqueIds(g) && Inv(g, s) && cap("agent") > |Ids(g)|
    ensures Dispatch(g, s, Replies(g, s, TrueCount(cap("agent")), k)).queue == multiset{}
    ensures HonestAnswers(g, s, Replies(g, s, TrueCount(cap("agent")), k), cap)
    decreases |s.queue|
  {
    hide Inv, PopOne, TrueCount, IsPending, HasFreeAgent, HonestAnswer, Replies;
    if s.queue != multiset{} {
      var ask := TrueCount(cap("agent"));
      PopWithReplies(g, s, ask, k);
      TrueCountIsFree(g, s, cap("agent"), k);
      TrueCountIsHonest(g, s, cap, k);
      FreeAgentGoesOn(g, s, Replies(g, s, ask, k));
      PopOneInv(g, s, Replies(g, s, ask, k));
      TrueCountsServe(g, PopOne(g, s, [ask(s, k)]).0, cap, k + 1);
    }
  }

  /** True counts are honest, and an agent with that much room serves every query. */
  lemma {:induction false} RecordedServes(g: seq<TaskNode>, s: State, cap: AgentId -> int)
    requires UniqueIds(g) && Inv(g, s) && cap("agent") > |Ids(g)|
    ensures Dispatch(g, s, Recorded(g, s, cap("agent"))).queue == multiset{}
    ensures HonestAnswers(g, s, Recorded(g, s, cap("agent")), cap)
  {
    TrueCountsServe(g, s, cap, 0);
  }

  // ----- the adversarial schedule -----

  ghost predicate CalmBatch(batch: seq<Outcome>, x: Id, y: Id) {
    forall o :: o in batch ==> o.error.None? && o.id != x && o.id != y
  }

  /** Nothing has raised so far, and neither of the two tasks has been settled. */
  ghost predicate HoldsBack(rounds: seq<Round>, x: Id, y: Id) {
    forall r :: r in rounds ==> CalmBatch(r.batch, x, y)
  }

  lemma HoldsBackObeys(rounds: seq<Round>, x: Id, y: Id, raising: set<Id>)
    requires HoldsBack(rounds, x, y) && raising <= {x, y}
    ensures Obeys(rounds, raising)
  {
  }

  lemma {:induction false} CalmBatchHoldsBack(g: seq<TaskNode>, s: State, batch: seq<Outcome>, x: Id, y: Id)
    requires UniqueIds(g) && Inv(g, s) && BatchFits(s.running, batch) && CalmBatch(batch, x, y)
    requires x !in s.completed && y !in s.completed
    ensures x !in SettleAll(g, s, batch).completed && y !in SettleAll(g, s, batch).completed
    decreases |batch|
  {
    hide Inv;
    if batch != [] {
      assert batch[0] in batch;
      SettleInv(g, s, batch[0]);
      RequeueMeaning(g, Finish(s, batch[0].id));
      CalmBatchHoldsBack(g, Settle(g, s, batch[0]), batch[1..], x, y);
    }
  }

  lemma CalmRoundHoldsBack(g: seq<TaskNode>, s: State, r: Round, x: Id, y: Id)
    requires UniqueIds(g) && Inv(g, s) && Legal(g, s, r) && CalmBatch(r.batch, x, y)
    requires x !in s.completed && y !in s.completed
    ensures x !in Play(g, s, r).completed && y !in Play(g, s, r).completed
  {
    hide Inv;
    DispatchInv(g, s, r.answers);
    DispatchProgress(g, s, r.answers);
    CalmBatchHoldsBack(g, Dispatch(g, s, r.answers), r.batch, x, y);
  }

  lemma {:induction false} HeldBackNotCompleted(g: seq<TaskNode>, s0: State, rounds: seq<Round>, x: Id, y: Id)
    requires WellFormed(g) && Initial(g, s0) && Legals(g, s0, rounds) && HoldsBack(rounds, x, y)
    ensures x !in After(g, s0, rounds).completed && y !in After(g, s0, rounds).completed
  {
    hide Inv;
    if rounds != [] {
      var front, r := rounds[..|rounds| - 1], rounds[|rounds| - 1];
      HeldBackNotCompleted(g, s0, front, x, y);
      RunsKeepInv(g, s0, front);
      CalmRoundHoldsBack(g, After(g, s0, front), r, x, y);
    }
  }

  /** While nothing raised, nothing failed. */
  lemma NothingFailed(g: seq<TaskNode>, s: State)
    requires Inv(g, s) && RaisedIds(s.failedLog) == {}
    ensures s.failed == {}
  {
  }

  /** A calm prefix of a run: legal, served, honestly answered, nothing raised, `x` and `y` held back. */
  ghost predicate Calm(g: seq<TaskNode>, s0: State, rounds: seq<Round>, x: Id, y: Id) {
    && Legals(g, s0, rounds) && RoundsServed(g, s0, rounds) && HoldsBack(rounds, x, y)
    && HonestRounds(g, s0, rounds, Limits(g, s0))
  }

  lemma {:induction false} CalmFacts(g: seq<TaskNode>, s0: State, rounds: seq<Round>, x: Id, y: Id)
    requires WellFormed(g) && Initial(g, s0) && Calm(g, s0, rounds, x, y)
    ensures var s := After(g, s0, rounds);
            && Inv(g, s) && WakeupsKept(g, s, {}) && Truthful(s, {}) && s.failed == {}
            && x !in s.completed && y !in s.completed
  {
    RunsKeepInv(g, s0, rounds);
    HoldsBackObeys(rounds, x, y, {});
    RunsKeepWakeups(g, s0, rounds, {});
    HeldBackNotCompleted(g, s0, rounds, x, y);
    NothingFailed(g, After(g, s0, rounds));
  }

  /** Played next, these answers empty the queue and are honest. */
  ghost predicate ServesHonestly(g: seq<TaskNode>, s0: State, rounds: seq<Round>, answers: seq<seq<Candidate>>) {
    var s := After(g, s0, rounds);
    Dispatch(g, s, answers).queue == multiset{} && HonestAnswers(g, s, answers, Limits(g, s0))
  }

  lemma HoldsBackSnoc(rounds: seq<Round>, x: Id, y: Id, r: Round)
    requires HoldsBack(rounds, x, y) && CalmBatch(r.batch, x, y)
    ensures HoldsBack(rounds + [r], x, y)
  {
  }

  lemma {:induction false} RoundsSnoc(g: seq<TaskNode>, s0: State, rounds: seq<Round>, r: Round)
    requires Legals(g, s0, rounds) && RoundsServed(g, s0, rounds) && Legal(g, After(g, s0, rounds), r)
    requires HonestRounds(g, s0, rounds, Limits(g, s0)) && ServesHonestly(g, s0, rounds, r.answers)
    ensures Legals(g, s0, rounds + [r]) && RoundsServed(g, s0, rounds + [r])
    ensures HonestRounds(g, s0, rounds + [r], Limits(g, s0))
    ensures After(g, s0, rounds + [r]) == Play(g, After(g, s0, rounds), r)
  {
  }

  lemma {:induction false} RecordedServesNext(g: seq<TaskNode>, s0: State, rounds: seq<Round>, x: Id, y: Id)
    requires WellFormed(g) && Initial(g, s0) && Calm(g, s0, rounds, x, y)
    ensures ServesHonestly(g, s0, rounds, Recorded(g, After(g, s0, rounds), Limits(g, s0)("agent")))
  {
    hide Inv, Recorded, Dispatch, HonestAnswers, After, Calm, Initial;
    CalmFacts(g, s0, rounds, x, y);
    RecordedServes(g, After(g, s0, rounds), Limits(g, s0));
  }

  /** One more calm round: some third task completes, and the measure goes down. */
  lemma {:induction false} CompleteThird(
      g: seq<TaskNode>, s0: State, rounds: seq<Round>, answers: seq<seq<Candidate>>, x: TaskNode, y: TaskNode, z: Id)
    returns (r: Round)
    requires WellFormed(g) && Initial(g, s0) && x in g && Calm(g, s0, rounds, x.id, y.id)
    requires ServesHonestly(g, s0, rounds, answers)
    requires z in Dispatch(g, After(g, s0, rounds), answers).running && z != x.id && z != y.id
    ensures Calm(g, s0, rounds + [r], x.id, y.id)
    ensures Measure(g, After(g, s0, rounds + [r])) < Measure(g, After(g, s0, rounds))
  {
    hide Inv, Dispatch, After, HonestAnswers, Initial;
    var s := After(g, s0, rounds);
    CalmFacts(g, s0, rounds, x.id, y.id);
    r := Round(answers, [Outcome(z, None)]);
    NotDone(g, s, x);
    RoundsSnoc(g, s0, rounds, r);
    HoldsBackSnoc(rounds, x.id, y.id, r);
    PlayProgress(g, s, r);
  }

  /** Complete everything except `x` and `y` for as long as anything else runs. */
  lemma {:induction false} DrainOthers(g: seq<TaskNode>, s0: State, rounds: seq<Round>, x: TaskNode, y: TaskNode)
    returns (more: seq<Round>, answers: seq<seq<Candidate>>)
    requires WellFormed(g) && Initial(g, s0) && x in g && y in g
    requires Calm(g, s0, rounds, x.id, y.id)
    ensures Calm(g, s0, more, x.id, y.id)
    ensures ServesHonestly(g, s0, more, answers) && Dispatch(g, After(g, s0, more), answers).running <= {x.id, y.id}
    decreases Measure(g, After(g, s0, rounds))
  {
    hide *;
    RecordedServesNext(g, s0, rounds, x.id, y.id);
    answers := Recorded(g, After(g, s0, rounds), Limits(g, s0)("agent"));
    var running := Dispatch(g, After(g, s0, rounds), answers).running;
    if running <= {x.id, y.id} {
      more := rounds;
    } else {
      var z :| z in running && z != x.id && z != y.id;
      var r := CompleteThird(g, s0, rounds, answers, x, y, z);
      more, answers := DrainOthers(g, s0, rounds + [r], x, y);
    }
  }

  lemma NotBothHold(g: seq<TaskNode>, d: State, x: TaskNode, y: TaskNode)
    requires x in g && y in g && Rivals(g, x, y) && LocksAgree(g, d.locks, d.running)
    ensures !(x.id in d.running && y.id in d.running)
  {
    var p :| p in x.artifactPaths && p in y.artifactPaths;
    assert (p in d.locks && d.locks[p].holder == x.id) <==> x.id in d.running;
    assert (p in d.locks && d.locks[p].holder == y.id) <==> y.id in d.running;
  }

  lemma SomethingRuns(g: seq<TaskNode>, d: State, x: TaskNode)
    requires UniqueIds(g) && KnownDeps(g) && Acyclic(Deps(g)) && x in g
    requires Inv(g, d) && WakeupsKept(g, d, {}) && Truthful(d, {}) && d.queue == multiset{} && x.id !in d.completed
    ensures d.running != {}
  {
    if d.running == {} {
      QuietCompletesAll(g, d);
    }
  }

  lemma QuietCompletesAll(g: seq<TaskNode>, d: State)
    requires UniqueIds(g) && KnownDeps(g) && Acyclic(Deps(g))
    requires Inv(g, d) && WakeupsKept(g, d, {}) && Truthful(d, {}) && d.queue == multiset{} && d.running == {}
    ensures d.completed == Ids(g)
  {
    QuietMeansNothingReady(g, d, {});
    CompletedIsSound(g, d, {});
    assert SoundIds(g, {}) == Ids(g);
  }

  /** The state a calm prefix drains to. */
  lemma {:induction false} DrainedFacts(
      g: seq<TaskNode>, s0: State, rounds: seq<Round>, answers: seq<seq<Candidate>>, x: Id, y: Id)
    requires WellFormed(g) && Initial(g, s0) && Calm(g, s0, rounds, x, y)
    ensures var d := Dispatch(g, After(g, s0, rounds), answers);
            && Inv(g, d) && WakeupsKept(g, d, {}) && Truthful(d, {}) && d.failed == {}
            && x !in d.completed && y !in d.completed
  {
    var s := After(g, s0, rounds);
    CalmFacts(g, s0, rounds, x, y);
    DispatchInv(g, s, answers);
    DispatchProgress(g, s, answers);
    DispatchWakeups(g, s, answers, {});
  }

  /** Once only `x` and `y` can run, one of them holds the shared path and the other waits. */
  lemma {:induction false} OneHolds(
      g: seq<TaskNode>, s0: State, rounds: seq<Round>, answers: seq<seq<Candidate>>, x: TaskNode, y: TaskNode)
    requires WellFormed(g) && KnownDeps(g) && Acyclic(Deps(g)) && Initial(g, s0)
    requires x in g && y in g && Rivals(g, x, y) && Calm(g, s0, rounds, x.id, y.id)
    requires ServesHonestly(g, s0, rounds, answers)
    requires Dispatch(g, After(g, s0, rounds), answers).running <= {x.id, y.id}
    ensures var d := Dispatch(g, After(g, s0, rounds), answers); d.running == {x.id} || d.running == {y.id}
  {
    var d := Dispatch(g, After(g, s0, rounds), answers);
    DrainedFacts(g, s0, rounds, answers, x.id, y.id);
    NotBothHold(g, d, x, y);
    SomethingRuns(g, d, x);
  }

  lemma {:induction false} HolderFails(g: seq<TaskNode>, d: State, h: Id, w: Id)
    requires Inv(g, d) && d.queue == multiset{} && d.running == {h} && w !in d.completed
    ensures var s := SettleAll(g, d, [Outcome(h, Some("error"))]);
            s.running == {} && s.queue == multiset{} && w !in s.completed
  {
    var o := Outcome(h, Some("error"));
    assert SettleAll(g, d, [o]) == SettleAll(g, Settle(g, d, o), []);
    FailShape(g, d, h, "error");
  }

  lemma NotDone(g: seq<TaskNode>, s: State, h: TaskNode)
    requires h in g && h.id !in s.completed && h.id !in s.failed
    ensures !AllDone(g, s)
  {
  }

  lemma LastRoundObeys(rounds: seq<Round>, r: Round, h: Id, w: Id)
    requires HoldsBack(rounds, h, w) && r.batch == [Outcome(h, Some("error"))]
    ensures Obeys(rounds + [r], {h})
  {
  }

  /** The round in which the holder fails: afterwards nothing runs and nothing is queued. */
  lemma LastFailure(g: seq<TaskNode>, s0: State, rounds: seq<Round>, answers: seq<seq<Candidate>>, h: TaskNode, w: Id)
    returns (all: seq<Round>)
    requires WellFormed(g) && Initial(g, s0) && h in g && Calm(g, s0, rounds, h.id, w)
    requires ServesHonestly(g, s0, rounds, answers) && Dispatch(g, After(g, s0, rounds), answers).running == {h.id}
    ensures Legals(g, s0, all) && RoundsServed(g, s0, all) && Obeys(all, {h.id})
    ensures HonestRounds(g, s0, all, Limits(g, s0))
    ensures var s := After(g, s0, all); s.running == {} && s.queue == multiset{} && w !in s.completed
  {
    hide Inv;
    CalmFacts(g, s0, rounds, h.id, w);
    DrainedFacts(g, s0, rounds, answers, h.id, w);
    NotDone(g, After(g, s0, rounds), h);
    var r := Round(answers, [Outcome(h.id, Some("error"))]);
    RoundsSnoc(g, s0, rounds, r);
    all := rounds + [r];
    LastRoundObeys(rounds, r, h.id, w);
    HolderFails(g, Dispatch(g, After(g, s0, rounds), answers), h.id, w);
  }

  /** With nothing queued and nothing running, one more drain ends the run where it is. */
  lemma {:induction false} QuietRunIsOver(g: seq<TaskNode>, s0: State, all: seq<Round>)
    requires Legals(g, s0, all) && RoundsServed(g, s0, all)
    requires var s := After(g, s0, all); s.running == {} && s.queue == multiset{}
    ensures IsRun(g, s0, Run(all, [])) && Served(g, s0, Run(all, []))
    ensures Final(g, s0, Run(all, [])).completed == After(g, s0, all).completed
    ensures HonestRounds(g, s0, all, Limits(g, s0)) ==> HonestRun(g, s0, Run(all, []), Limits(g, s0))
  {
    var s := After(g, s0, all);
    assert Dispatch(g, s, []) == s;
    MarkBlockedMeaning(g, s);
  }

  lemma RivalIsSound(g: seq<TaskNode>, h: TaskNode, w: TaskNode)
    requires w in g && Rivals(g, h, w)
    ensures w.id in SoundIds(g, {h.id})
  {
  }

  lemma NotContained(g: seq<TaskNode>, s0: State, raising: set<Id>, run: Run, cap: AgentId -> int, w: Id)
    requires IsRun(g, s0, run) && Served(g, s0, run) && Obeys(run.rounds, raising) && HonestRun(g, s0, run, cap)
    requires w in SoundIds(g, raising) && w !in Final(g, s0, run).completed
    ensures !HonestlyContained(g, s0, raising, run, cap)
  {
  }

  /** The holder fails, nothing requeues the rival, and the run is over. */
  lemma {:induction false} RivalStranded(
      g: seq<TaskNode>, s0: State, rounds: seq<Round>, answers: seq<seq<Candidate>>, h: TaskNode, w: TaskNode)
    requires WellFormed(g) && Initial(g, s0) && h in g && w in g && Rivals(g, h, w)
    requires Calm(g, s0, rounds, h.id, w.id)
    requires ServesHonestly(g, s0, rounds, answers) && Dispatch(g, After(g, s0, rounds), answers).running == {h.id}
    ensures exists run :: !HonestlyContained(g, s0, {h.id}, run, Limits(g, s0))
  {
    hide *;
    var all := LastFailure(g, s0, rounds, answers, h, w.id);
    RivalIsSound(g, h, w);
    QuietRunIsOver(g, s0, all);
    NotContained(g, s0, {h.id}, Run(all, []), Limits(g, s0), w.id);
  }

  lemma RivalsSymmetric(g: seq<TaskNode>, x: TaskNode, y: TaskNode)
    requires Rivals(g, x, y)
    ensures Rivals(g, y, x)
  {
  }

  lemma CalmSymmetric(g: seq<TaskNode>, s0: State, rounds: seq<Round>, x: Id, y: Id)
    requires Calm(g, s0, rounds, x, y)
    ensures Calm(g, s0, rounds, y, x)
  {
  }

  lemma {:induction false} DrainedRivalsLeak(
      g: seq<TaskNode>, s0: State, rounds: seq<Round>, answers: seq<seq<Candidate>>, x: TaskNode, y: TaskNode)
    requires WellFormed(g) && KnownDeps(g) && Acyclic(Deps(g)) && Initial(g, s0)
    requires x in g && y in g && Rivals(g, x, y) && Calm(g, s0, rounds, x.id, y.id)
    requires ServesHonestly(g, s0, rounds, answers)
    requires Dispatch(g, After(g, s0, rounds), answers).running <= {x.id, y.id}
    ensures exists raising, run :: !HonestlyContained(g, s0, raising, run, Limits(g, s0))
  {
    hide *;
    OneHolds(g, s0, rounds, answers, x, y);
    if Dispatch(g, After(g, s0, rounds), answers).running == {x.id} {
      RivalStranded(g, s0, rounds, answers, x, y);
    } else {
      RivalsSymmetric(g, x, y);
      CalmSymmetric(g, s0, rounds, x.id, y.id);
      RivalStranded(g, s0, rounds, answers, y, x);
    }
  }

  /**
   * Exactly when failures stay contained: on an acyclic graph with known dependencies, every
   * served run completes precisely the tasks that neither raise nor depend on one that does,
   * for every choice of raising tasks and every schedule, if and only if no two tasks that are
   * unordered by dependencies list a common artifact path. Asking it only of runs in which
   * storage tells the truth changes nothing.
   */
  lemma ContainmentIffNoRivals(g: seq<TaskNode>, s0: State)
    requires WellFormed(g) && KnownDeps(g) && Acyclic(Deps(g)) && Initial(g, s0)
    ensures FailuresStayContained(g, s0) <==> NoRivals(g)
    ensures FailuresStayContainedHonestly(g, s0) <==> NoRivals(g)
  {
    if NoRivals(g) {
      forall raising: set<Id>, run: Run ensures Contained(g, s0, raising, run) {
        if IsRun(g, s0, run) && Served(g, s0, run) && Obeys(run.rounds, raising) {
          Containment(g, s0, run, raising);
        }
      }
    } else {
      SomeRivalLeaks(g, s0);
    }
  }

  /** Two rivals: some honest, served run loses one of them to a failure of the other. */
  lemma SomeRivalLeaks(g: seq<TaskNode>, s0: State)
    requires WellFormed(g) && KnownDeps(g) && Acyclic(Deps(g)) && Initial(g, s0) && !NoRivals(g)
    ensures !FailuresStayContained(g, s0) && !FailuresStayContainedHonestly(g, s0)
  {
    var x, y :| x in g && y in g && Rivals(g, x, y);
    var rounds, answers := DrainOthers(g, s0, [], x, y);
    DrainedRivalsLeak(g, s0, rounds, answers, x, y);
    var raising, run :| !HonestlyContained(g, s0, raising, run, Limits(g, s0));
    assert !Contained(g, s0, raising, run);
  }
}
