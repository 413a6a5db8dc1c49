/** The write-lock table of the file resource tracker. */
module LockTable {
  import opened Prelude
  import opened TaskGraphs

  datatype Lock = Lock(holder: Id, waiters: seq<Id>)
  type Locks = map<Path, Lock>

  /** Somebody else holds `p`. */
  predicate Blocked(locks: Locks, t: Id, p: Path) {
    p in locks && locks[p].holder != t
  }

  /** What a task can observe of exclusion: who holds which path. */
  ghost function Holders(locks: Locks): map<Path, Id> {
    map p | p in locks :: locks[p].holder
  }

  function Waiting(l: Lock, t: Id): Lock {
    if t in l.waiters then l else l.(waiters := l.waiters + [t])
  }

  // ----- one path -----

  function AfterAcquire(locks: Locks, t: Id, p: Path): Locks {
    if p !in locks then locks[p := Lock(t, [])]
    else if locks[p].holder == t then locks
    else locks[p := Waiting(locks[p], t)]
  }

  function AfterRelease(locks: Locks, t: Id, p: Path): Locks {
    if p !in locks || locks[p].holder != t then locks
    else if locks[p].waiters != [] then
      locks[p := Lock(locks[p].waiters[0], locks[p].waiters[1..])]
    else locks - {p}
  }

  // ----- a list of paths, one after the other, undoing everything on the first refusal -----

  /** The position of the first refused path (or the end) and the table at that moment. */
  function AcquireFrom(locks: Locks, t: Id, paths: seq<Path>, i: nat): (r: (nat, Locks))
    requires i <= |paths|
    ensures i <= r.0 <= |paths|
    decreases |paths| - i
  {
    if i == |paths| then (i, locks)
    else if Blocked(locks, t, paths[i]) then (i, AfterAcquire(locks, t, paths[i]))
    else AcquireFrom(AfterAcquire(locks, t, paths[i]), t, paths, i + 1)
  }

  function Rollback(locks: Locks, t: Id, paths: seq<Path>, stop: Path, i: nat): Locks
    requires i <= |paths|
    decreases |paths| - i
  {
    if i == |paths| || paths[i] == stop then locks
    else Rollback(AfterRelease(locks, t, paths[i]), t, paths, stop, i + 1)
  }

  function AcquireAll(locks: Locks, t: Id, paths: seq<Path>): (bool, Locks) {
    var (k, table) := AcquireFrom(locks, t, paths, 0);
    if k == |paths| then (true, table) else (false, Rollback(table, t, paths, paths[k], 0))
  }

  function ReleaseAll(locks: Locks, t: Id): Locks {
    map p | p in locks && locks[p].holder != t :: locks[p]
  }

  // ----- what acquiring a list amounts to -----

  predicate HoldsNone(locks: Locks, t: Id) {
    forall p :: p in locks ==> locks[p].holder != t
  }

  /** `locks` with the listed paths added for `t`, nobody waiting on them. */
  function Granted(locks: Locks, t: Id, paths: seq<Path>): Locks {
    locks + map p | p in paths && p !in locks :: Lock(t, [])
  }

  lemma OneMoreListed(paths: seq<Path>, i: nat, p: Path)
    requires i < |paths|
    ensures p in paths[..i + 1] <==> p in paths[..i] || p == paths[i]
  {
    assert paths[..i + 1] == paths[..i] + [paths[i]];
  }

  lemma GrantedSnoc(base: Locks, t: Id, paths: seq<Path>, i: nat)
    requires i < |paths|
    ensures Blocked(Granted(base, t, paths[..i]), t, paths[i]) == Blocked(base, t, paths[i])
    ensures !Blocked(base, t, paths[i]) ==>
              AfterAcquire(Granted(base, t, paths[..i]), t, paths[i]) == Granted(base, t, paths[..i + 1])
    ensures Blocked(base, t, paths[i]) ==>
              AfterAcquire(Granted(base, t, paths[..i]), t, paths[i])
              == Granted(base, t, paths[..i])[paths[i] := Waiting(base[paths[i]], t)]
  {
    forall p ensures p in paths[..i + 1] <==> p in paths[..i] || p == paths[i] {
      OneMoreListed(paths, i, p);
    }
    hide Waiting;
  }

  /** The table when acquiring stops: grants up to the first refusal, where `t` now waits. */
  ghost function StoppedAt(base: Locks, t: Id, paths: seq<Path>, k: nat): Locks
    requires k <= |paths|
  {
    if k < |paths| && paths[k] in base
    then Granted(base, t, paths[..k])[paths[k] := Waiting(base[paths[k]], t)]
    else Granted(base, t, paths[..k])
  }

  ghost predicate FirstBlocked(base: Locks, t: Id, paths: seq<Path>, k: nat) {
    && k <= |paths|
    && (forall j :: 0 <= j < k ==> !Blocked(base, t, paths[j]))
    && (k < |paths| ==> Blocked(base, t, paths[k]))
  }

  lemma {:induction false} AcquireFromMeaning(base: Locks, t: Id, paths: seq<Path>, i: nat)
    requires i <= |paths|
    requires forall j :: 0 <= j < i ==> !Blocked(base, t, paths[j])
    ensures var (k, table) := AcquireFrom(Granted(base, t, paths[..i]), t, paths, i);
            FirstBlocked(base, t, paths, k) && table == StoppedAt(base, t, paths, k)
    decreases |paths| - i
  {
    hide Granted, AfterAcquire;
    if i < |paths| {
      GrantedSnoc(base, t, paths, i);
      if !Blocked(base, t, paths[i]) {
        AcquireFromMeaning(base, t, paths, i + 1);
      }
    }
  }

  /** Undoing grants nobody waits on deletes them; the hand-over branch is never taken. */
  lemma {:induction false} RollbackDeletes(table: Locks, t: Id, paths: seq<Path>, k: nat, i: nat)
    requires i <= k < |paths|
    requires forall j :: i <= j < k ==> paths[j] != paths[k]
    requires forall j :: i <= j < k && paths[j] in table ==> table[paths[j]] == Lock(t, [])
    ensures Rollback(table, t, paths, paths[k], i) == table - Elements(paths[i..k])
    decreases k - i
  {
    if i < k {
      var p := paths[i];
      assert AfterRelease(table, t, p) == table - {p};
      RollbackDeletes(table - {p}, t, paths, k, i + 1);
      assert paths[i..k] == [p] + paths[i + 1..k];
      assert Elements(paths[i..k]) == {p} + Elements(paths[i + 1..k]);
    }
  }

  lemma StoppedMinusGrants(base: Locks, t: Id, paths: seq<Path>, k: nat)
    requires k < |paths| && FirstBlocked(base, t, paths, k)
    requires forall j :: 0 <= j < k ==> paths[j] !in base
    ensures StoppedAt(base, t, paths, k) - Elements(paths[..k])
            == base[paths[k] := Waiting(base[paths[k]], t)]
  {
  }

  lemma SequentialOutcome(locks: Locks, t: Id, paths: seq<Path>) returns (k: nat)
    ensures FirstBlocked(locks, t, paths, k)
    ensures AcquireFrom(locks, t, paths, 0) == (k, StoppedAt(locks, t, paths, k))
    ensures AcquireAll(locks, t, paths).0 <==> k == |paths|
    ensures k == |paths| ==> AcquireAll(locks, t, paths).1 == Granted(locks, t, paths)
  {
    assert Granted(locks, t, paths[..0]) == locks;
    AcquireFromMeaning(locks, t, paths, 0);
    k := AcquireFrom(locks, t, paths, 0).0;
    if k == |paths| {
      assert paths[..k] == paths;
    }
  }

  lemma {:induction false} FreshGrantsUndone(locks: Locks, t: Id, paths: seq<Path>, k: nat)
    requires k < |paths| && FirstBlocked(locks, t, paths, k)
    requires forall j :: 0 <= j < k ==> paths[j] !in locks
    ensures Rollback(StoppedAt(locks, t, paths, k), t, paths, paths[k], 0)
            == locks[paths[k] := Waiting(locks[paths[k]], t)]
  {
    StoppedMinusGrants(locks, t, paths, k);
    assert paths[0..k] == paths[..k];
    RollbackDeletes(StoppedAt(locks, t, paths, k), t, paths, k, 0);
  }

  /**
   * All or nothing, for a task that holds nothing yet: it succeeds iff every path is free, and
   * a failure leaves the table as it was except for one more waiter on the first taken path.
   */
  lemma AcquireAllMeaning(locks: Locks, t: Id, paths: seq<Path>)
    requires HoldsNone(locks, t)
    ensures var (ok, table) := AcquireAll(locks, t, paths);
            && (ok <==> forall p :: p in paths ==> p !in locks)
            && (ok ==> table == Granted(locks, t, paths))
            && (!ok ==> exists k :: 0 <= k < |paths| && FirstBlocked(locks, t, paths, k)
                                    && table == locks[paths[k] := Waiting(locks[paths[k]], t)])
  {
    var k := SequentialOutcome(locks, t, paths);
    if k < |paths| {
      FreshGrantsUndone(locks, t, paths, k);
      assert paths[k] in locks;
    }
  }

  // ----- when the rollback gives away more than it took -----

  ghost predicate Tidy(locks: Locks) {
    forall p :: p in locks ==> locks[p].holder !in locks[p].waiters
  }

  /** Tidy, and nobody waits twice behind the same lock. */
  ghost predicate Orderly(locks: Locks) {
    Tidy(locks) && forall p :: p in locks ==> NoDup(locks[p].waiters)
  }

  lemma OrderlyStep(locks: Locks, t: Id, p: Path)
    requires Orderly(locks)
    ensures Orderly(AfterAcquire(locks, t, p)) && Orderly(AfterRelease(locks, t, p))
  {
    if p in locks {
      var l := locks[p];
      if l.waiters != [] {
        assert l.waiters == [l.waiters[0]] + l.waiters[1..];
        assert l.waiters[0] !in l.waiters[1..];
      }
    }
  }

  lemma {:induction false} AcquireFromOrderly(locks: Locks, t: Id, paths: seq<Path>, i: nat)
    requires Orderly(locks) && i <= |paths|
    ensures Orderly(AcquireFrom(locks, t, paths, i).1)
    decreases |paths| - i
  {
    if i < |paths| {
      OrderlyStep(locks, t, paths[i]);
      if !Blocked(locks, t, paths[i]) {
        AcquireFromOrderly(AfterAcquire(locks, t, paths[i]), t, paths, i + 1);
      }
    }
  }

  lemma {:induction false} RollbackOrderly(locks: Locks, t: Id, paths: seq<Path>, stop: Path, i: nat)
    requires Orderly(locks) && i <= |paths|
    ensures Orderly(Rollback(locks, t, paths, stop, i))
    decreases |paths| - i
  {
    if i < |paths| && paths[i] != stop {
      OrderlyStep(locks, t, paths[i]);
      RollbackOrderly(AfterRelease(locks, t, paths[i]), t, paths, stop, i + 1);
    }
  }

  /** The empty table is orderly, and every operation keeps it so: holders never wait for themselves. */
  lemma TablesStayOrderly(locks: Locks, t: Id, p: Path, paths: seq<Path>)
    ensures Orderly(map[])
    ensures Orderly(locks) ==>
              && Orderly(AfterAcquire(locks, t, p)) && Orderly(AfterRelease(locks, t, p))
              && Orderly(AcquireAll(locks, t, paths).1) && Orderly(ReleaseAll(locks, t))
  {
    if Orderly(locks) {
      OrderlyStep(locks, t, p);
      var (k, table) := AcquireFrom(locks, t, paths, 0);
      AcquireFromOrderly(locks, t, paths, 0);
      if k < |paths| {
        RollbackOrderly(table, t, paths, paths[k], 0);
      }
    }
  }

  predicate NotHeldBy(locks: Locks, t: Id, p: Path) {
    p !in locks || locks[p].holder != t
  }

  lemma {:induction false} RollbackGivesUp(table: Locks, t: Id, paths: seq<Path>, k: nat, i: nat, p: Path)
    requires i <= k < |paths|
    requires forall j :: i <= j < k ==> paths[j] != paths[k]
    requires p in paths[i..k] || NotHeldBy(table, t, p)
    requires NotHeldBy(table, t, p) || t !in table[p].waiters
    ensures NotHeldBy(Rollback(table, t, paths, paths[k], i), t, p)
    decreases k - i
  {
    if i < k {
      var next := AfterRelease(table, t, paths[i]);
      assert paths[i..k] == [paths[i]] + paths[i + 1..k];
      assert p != paths[i] ==> (p in next <==> p in table) && (p in table ==> next[p] == table[p]);
      assert p == paths[i] ==> NotHeldBy(next, t, p);
      RollbackGivesUp(next, t, paths, k, i + 1, p);
    }
  }

  /**
   * A failed acquisition leaves every path with the holder it had exactly when the task did not
   * already hold one of the paths listed before the refused one.
   */
  lemma FailedAcquireKeepsHoldersIff(locks: Locks, t: Id, paths: seq<Path>, k: nat)
    requires Tidy(locks) && k < |paths| && FirstBlocked(locks, t, paths, k)
    ensures !AcquireAll(locks, t, paths).0
    ensures Holders(AcquireAll(locks, t, paths).1) == Holders(locks)
            <==> forall j :: 0 <= j < k ==> paths[j] !in locks
  {
    var k' := SequentialOutcome(locks, t, paths);
    assert k == k';
    var table := AcquireAll(locks, t, paths).1;
    if j :| 0 <= j < k && paths[j] in locks {
      assert paths[j] in paths[0..k];
      RollbackGivesUp(StoppedAt(locks, t, paths, k), t, paths, k, 0, paths[j]);
      assert NotHeldBy(table, t, paths[j]) && Holders(locks)[paths[j]] == t;
      assert paths[j] in Holders(table) ==> Holders(table)[paths[j]] != t;
    } else {
      FreshGrantsUndone(locks, t, paths, k);
    }
  }

  /** Where it fails: a task that already holds "x" asks for "x" and a taken "y", and loses "x". */
  lemma RollbackLosesALock()
    ensures var locks := map["x" := Lock("t", []), "y" := Lock("u", [])];
            && Orderly(locks) && !AcquireAll(locks, "t", ["x", "y"]).0
            && Holders(AcquireAll(locks, "t", ["x", "y"]).1) != Holders(locks)
  {
    var locks, paths := map["x" := Lock("t", []), "y" := Lock("u", [])], ["x", "y"];
    assert FirstBlocked(locks, "t", paths, 1);
    assert paths[0] in locks;
    FailedAcquireKeepsHoldersIff(locks, "t", paths, 1);
  }

  /** Acquiring and then releasing everything gives the old table back. */
  lemma ReleaseUndoesAcquire(locks: Locks, t: Id, paths: seq<Path>)
    requires HoldsNone(locks, t) && AcquireAll(locks, t, paths).0
    ensures ReleaseAll(AcquireAll(locks, t, paths).1, t) == locks
  {
    AcquireAllMeaning(locks, t, paths);
  }

  // ----- the order in which waiters are served -----

  /** Tasks ask for one path, one after the other. */
  function AskedBy(locks: Locks, p: Path, asks: seq<Id>): Locks
    decreases |asks|
  {
    if asks == [] then locks else AskedBy(AfterAcquire(locks, asks[0], p), p, asks[1..])
  }

  /** Tasks give up one path, one after the other. */
  function GivenUpBy(locks: Locks, p: Path, tasks: seq<Id>): Locks
    decreases |tasks|
  {
    if tasks == [] then locks else GivenUpBy(AfterRelease(locks, tasks[0], p), p, tasks[1..])
  }

  lemma {:induction false} LinesUp(locks: Locks, p: Path, asks: seq<Id>)
    requires p in locks && NoDup(asks) && locks[p].holder !in asks
    requires forall t :: t in asks ==> t !in locks[p].waiters
    ensures AskedBy(locks, p, asks) == locks[p := Lock(locks[p].holder, locks[p].waiters + asks)]
    decreases |asks|
  {
    var l := locks[p];
    if asks == [] {
      assert l.waiters + [] == l.waiters;
    } else {
      assert asks[0] in asks;
      assert asks == [asks[0]] + asks[1..];
      LinesUp(AfterAcquire(locks, asks[0], p), p, asks[1..]);
      assert (l.waiters + [asks[0]]) + asks[1..] == l.waiters + asks;
    }
  }

  lemma {:induction false} MovesUp(locks: Locks, p: Path, line: seq<Id>, k: nat)
    requires k < |line| && p in locks && locks[p] == Lock(line[0], line[1..])
    ensures GivenUpBy(locks, p, line[..k]) == locks[p := Lock(line[k], line[k + 1..])]
    decreases k
  {
    if k > 0 {
      var next := AfterRelease(locks, line[0], p);
      assert line[1..][0] == line[1] && line[1..][1..] == line[2..];
      assert next == locks[p := Lock(line[1], line[2..])];
      assert line[..k][1..] == line[1..][..k - 1];
      MovesUp(next, p, line[1..], k - 1);
      assert line[1..][k - 1] == line[k] && line[1..][k..] == line[k + 1..];
    }
  }

  /**
   * First come, first served: when tasks ask for a free path one after the other, and then give it
   * up in the same order, each holds it in its turn with those behind it waiting, and at the end
   * the table is as before.
   */
  lemma {:induction false} FirstComeFirstServed(locks: Locks, p: Path, asks: seq<Id>, k: nat)
    requires p !in locks && NoDup(asks) && k < |asks|
    ensures GivenUpBy(AskedBy(locks, p, asks), p, asks[..k]) == locks[p := Lock(asks[k], asks[k + 1..])]
    ensures GivenUpBy(AskedBy(locks, p, asks), p, asks) == locks
  {
    FirstHolds(locks, p, asks);
    var table, last := AskedBy(locks, p, asks), |asks| - 1;
    hide AskedBy, GivenUpBy;
    MovesUp(table, p, asks, k);
    MovesUp(table, p, asks, last);
    GivenUpLast(table, p, asks);
    assert table[p := Lock(asks[last], [])] - {p} == locks;
  }

  lemma {:induction false} FirstHolds(locks: Locks, p: Path, asks: seq<Id>)
    requires p !in locks && NoDup(asks) && asks != []
    ensures AskedBy(locks, p, asks) == locks[p := Lock(asks[0], asks[1..])]
  {
    LinesUp(AfterAcquire(locks, asks[0], p), p, asks[1..]);
    assert [] + asks[1..] == asks[1..];
  }

  lemma {:induction false} GivenUpLast(locks: Locks, p: Path, tasks: seq<Id>)
    requires tasks != []
    ensures var last := |tasks| - 1;
            GivenUpBy(locks, p, tasks) == AfterRelease(GivenUpBy(locks, p, tasks[..last]), tasks[last], p)
    decreases |tasks|
  {
    if |tasks| > 1 {
      GivenUpLast(AfterRelease(locks, tasks[0], p), p, tasks[1..]);
      assert tasks[1..][..|tasks| - 2] == tasks[..|tasks| - 1][1..];
    }
  }

  /** Asking again, while holding or while waiting, changes nothing. */
  lemma AskingAgain(locks: Locks, t: Id, p: Path)
    ensures AfterAcquire(AfterAcquire(locks, t, p), t, p) == AfterAcquire(locks, t, p)
  {
    if Blocked(locks, t, p) {
      var next := AfterAcquire(locks, t, p);
      assert t in next[p].waiters;
    }
  }
}
