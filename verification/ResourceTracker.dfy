/** The file resource tracker: one mutable lock table, write mode. */
module ResourceTracker {
  import opened TaskGraphs
  import opened LockTable

  class FileResourceTracker {
    var locks: Locks

    constructor ()
      ensures locks == map[]
    {
      locks := map[];
    }

    method Acquire(t: Id, p: Path) returns (ok: bool)
      modifies this
      ensures ok <==> !Blocked(old(locks), t, p)
      ensures locks == AfterAcquire(old(locks), t, p)
    {
      if p !in locks {
        locks := locks[p := Lock(t, [])];
        return true;
      }
      var existing := locks[p];
      if existing.holder == t {
        return true;
      }
      if t !in existing.waiters {
        locks := locks[p := Lock(existing.holder, existing.waiters + [t])];
      }
      return false;
    }

    /** Returns the task the lock was handed to, if any. */
    method Release(t: Id, p: Path) returns (unblocked: seq<Id>)
      modifies this
      ensures locks == AfterRelease(old(locks), t, p)
      ensures unblocked == if p in old(locks) && old(locks)[p].holder == t && old(locks)[p].waiters != []
                           then [old(locks)[p].waiters[0]] else []
    {
      if p !in locks || locks[p].holder != t {
        return [];
      }
      var lock := locks[p];
      if lock.waiters != [] {
        var next := lock.waiters[0];
        locks := locks[p := Lock(next, lock.waiters[1..])];
        return [next];
      }
      locks := locks - {p};
      return [];
    }

    /** The list form of acquire: checks everything first, then takes everything. */
    method AcquireSync(t: Id, paths: seq<Path>) returns (ok: bool)
      modifies this
      ensures ok <==> AcquireAll(old(locks), t, paths).0
      ensures locks == if ok then AcquireAll(old(locks), t, paths).1 else old(locks)
    {
      ghost var k := SequentialOutcome(locks, t, paths);
      for i := 0 to |paths|
        invariant unchanged(this) && forall j :: 0 <= j < i ==> !Blocked(locks, t, paths[j])
      {
        if paths[i] in locks && locks[paths[i]].holder != t {
          return false;
        }
      }
      assert locks == Granted(locks, t, paths[..0]);
      for i := 0 to |paths|
        invariant locks == Granted(old(locks), t, paths[..i])
      {
        GrantedSnoc(old(locks), t, paths, i);
        if !(paths[i] in locks && locks[paths[i]].holder == t) {
          locks := locks[paths[i] := Lock(t, [])];
        }
      }
      assert paths[..|paths|] == paths;
      return true;
    }

    /** Drops every lock of `t`; returns whoever waited behind them. */
    method ReleaseEverything(t: Id) returns (waiting: set<Id>)
      modifies this
      ensures locks == ReleaseAll(old(locks), t)
      ensures forall w :: w in waiting <==>
                exists p :: p in old(locks) && old(locks)[p].holder == t && w in old(locks)[p].waiters
    {
      waiting := {};
      var todo := locks.Keys;
      ghost var was := locks;
      while todo != {}
        invariant todo <= was.Keys
        invariant locks == map p | p in was && (p in todo || was[p].holder != t) :: was[p]
        invariant waiting == set p, w | p in was && p !in todo && was[p].holder == t && w in was[p].waiters :: w
        decreases todo
      {
        var p :| p in todo;
        if locks[p].holder == t {
          waiting := waiting + Queued(locks[p].waiters);
          locks := locks - {p};
        }
        todo := todo - {p};
      }
    }
  }

  function Queued(waiters: seq<Id>): set<Id> {
    set w | w in waiters
  }
}
