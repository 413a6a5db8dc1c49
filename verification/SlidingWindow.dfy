/** The sliding-window limiter: at most so many accepted calls in any sixty seconds. */
module SlidingWindow {
  import opened Prelude

  const WINDOW := 60.0

  /** The stamps later than `cutoff`, in order. */
  function Kept(stamps: seq<real>, cutoff: real): seq<real> {
    if stamps == [] then []
    else if stamps[0] > cutoff then [stamps[0]] + Kept(stamps[1..], cutoff)
    else Kept(stamps[1..], cutoff)
  }

  /**
   * One call. `at` is the clock when the window is computed, `stamp` the clock read again when
   * an accepted call is recorded; `accept` asks for the call rather than only for the remainder.
   */
  datatype Call = Ask(at: real, stamp: real) | Peek(at: real)

  predicate Accepts(stamps: seq<real>, limit: int, at: real) {
    |Kept(stamps, at - WINDOW)| < limit
  }

  function Remaining(stamps: seq<real>, limit: int, at: real): int {
    var left := limit - |Kept(stamps, at - WINDOW)|;
    if left > 0 then left else 0
  }

  /** What is stored after a call: the pruned list, plus the stamp of an accepted call. */
  function Stored(stamps: seq<real>, limit: int, call: Call): seq<real> {
    var kept := Kept(stamps, call.at - WINDOW);
    if call.Ask? && Accepts(stamps, limit, call.at) then kept + [call.stamp] else kept
  }

  // ----- runs -----

  function StoredAfter(limit: int, calls: seq<Call>): seq<real> {
    if calls == [] then [] else Stored(StoredAfter(limit, calls[..|calls| - 1]), limit, calls[|calls| - 1])
  }

  /** Every call accepted in the run, never pruned. */
  function Accepted(limit: int, calls: seq<Call>): seq<real> {
    if calls == [] then []
    else
      var front, last := calls[..|calls| - 1], calls[|calls| - 1];
      if last.Ask? && Accepts(StoredAfter(limit, front), limit, last.at)
      then Accepted(limit, front) + [last.stamp] else Accepted(limit, front)
  }

  /** The clock does not run backwards, within a call and from call to call. */
  ghost predicate Forward(calls: seq<Call>) {
    && (forall i :: 0 <= i < |calls| && calls[i].Ask? ==> calls[i].at <= calls[i].stamp)
    && (forall i, j :: 0 <= i < j < |calls| ==> calls[i].at <= calls[j].at)
  }

  /** Stamps in the half-open window `(from, from + 60]`. */
  function InWindow(stamps: seq<real>, from: real): nat {
    if stamps == [] then 0
    else (if from < stamps[0] <= from + 60.0 then 1 else 0) + InWindow(stamps[1..], from)
  }

  lemma {:induction false} KeptSnoc(stamps: seq<real>, x: real, cutoff: real)
    ensures Kept(stamps + [x], cutoff) == Kept(stamps, cutoff) + (if x > cutoff then [x] else [])
  {
    if stamps == [] {
      assert [x][1..] == [];
    } else {
      assert (stamps + [x])[1..] == stamps[1..] + [x];
      KeptSnoc(stamps[1..], x, cutoff);
    }
  }

  /** Pruning in stages loses nothing a single pruning would keep. */
  lemma {:induction false} KeptTwice(stamps: seq<real>, c1: real, c2: real)
    requires c1 <= c2
    ensures Kept(Kept(stamps, c1), c2) == Kept(stamps, c2)
  {
    if stamps != [] {
      KeptTwice(stamps[1..], c1, c2);
      if stamps[0] > c1 {
        assert ([stamps[0]] + Kept(stamps[1..], c1))[1..] == Kept(stamps[1..], c1);
      }
    }
  }

  /** The stored list is the full history of accepted calls, cut to the window of the last call. */
  lemma {:induction false} StoredIsHistory(limit: int, calls: seq<Call>)
    requires Forward(calls) && calls != []
    ensures StoredAfter(limit, calls) == Kept(Accepted(limit, calls), calls[|calls| - 1].at - WINDOW)
  {
    var front, last := calls[..|calls| - 1], calls[|calls| - 1];
    var cutoff := last.at - WINDOW;
    if front != [] {
      StoredIsHistory(limit, front);
      KeptTwice(Accepted(limit, front), front[|front| - 1].at - WINDOW, cutoff);
    }
    if last.Ask? {
      KeptSnoc(Accepted(limit, front), last.stamp, cutoff);
    }
  }

  lemma {:induction false} InWindowSnoc(stamps: seq<real>, x: real, from: real)
    ensures InWindow(stamps + [x], from) == InWindow(stamps, from) + (if from < x <= from + 60.0 then 1 else 0)
  {
    if stamps == [] {
      assert [x][1..] == [];
    } else {
      assert (stamps + [x])[1..] == stamps[1..] + [x];
      InWindowSnoc(stamps[1..], x, from);
    }
  }

  lemma {:induction false} InWindowKept(stamps: seq<real>, from: real, cutoff: real)
    requires cutoff <= from
    ensures InWindow(stamps, from) <= |Kept(stamps, cutoff)|
  {
    if stamps != [] {
      InWindowKept(stamps[1..], from, cutoff);
    }
  }

  /** How many stamps are later than `cutoff`. */
  function Later(stamps: seq<real>, cutoff: real): nat {
    if stamps == [] then 0 else (if cutoff < stamps[0] then 1 else 0) + Later(stamps[1..], cutoff)
  }

  lemma {:induction false} KeptCount(stamps: seq<real>, cutoff: real)
    ensures |Kept(stamps, cutoff)| == Later(stamps, cutoff)
  {
    if stamps != [] {
      KeptCount(stamps[1..], cutoff);
    }
  }

  /** What a call decides, it decides on the full history: pruning never changes an answer. */
  lemma {:induction false} DecidedOnHistory(limit: int, calls: seq<Call>, next: Call)
    requires Forward(calls + [next])
    ensures Kept(StoredAfter(limit, calls), next.at - WINDOW) == Kept(Accepted(limit, calls), next.at - WINDOW)
  {
    var all := calls + [next];
    if calls != [] {
      assert forall i :: 0 <= i < |calls| ==> all[i] == calls[i];
      assert Forward(calls);
      StoredIsHistory(limit, calls);
      assert all[|calls| - 1].at <= all[|calls|].at;
      KeptTwice(Accepted(limit, calls), calls[|calls| - 1].at - WINDOW, next.at - WINDOW);
    }
  }

  /**
   * A call is accepted exactly when fewer than `limit` calls accepted before are less than sixty
   * seconds old; a refused call and a look leave no stamp.
   */
  lemma {:induction false} AcceptedIffRoom(limit: int, calls: seq<Call>, next: Call)
    requires Forward(calls + [next])
    ensures Accepted(limit, calls + [next])
            == if next.Ask? && Later(Accepted(limit, calls), next.at - 60.0) < limit
               then Accepted(limit, calls) + [next.stamp] else Accepted(limit, calls)
  {
    var all := calls + [next];
    assert all[..|all| - 1] == calls && all[|all| - 1] == next;
    DecidedOnHistory(limit, calls, next);
    KeptCount(Accepted(limit, calls), next.at - 60.0);
  }

  /** In every run, every sixty-second window holds at most `limit` accepted calls. */
  lemma {:induction false} WindowBound(limit: int, calls: seq<Call>, from: real)
    requires Forward(calls)
    ensures InWindow(Accepted(limit, calls), from) <= if limit > 0 then limit else 0
  {
    if calls != [] {
      var front, last := calls[..|calls| - 1], calls[|calls| - 1];
      WindowBound(limit, front, from);
      if last.Ask? && Accepts(StoredAfter(limit, front), limit, last.at) {
        InWindowSnoc(Accepted(limit, front), last.stamp, from);
        if from < last.stamp <= from + WINDOW {
          assert front + [last] == calls;
          DecidedOnHistory(limit, front, last);
          InWindowKept(Accepted(limit, front), from, last.at - WINDOW);
        }
      }
    }
  }

  // ----- closed windows -----

  /** Stamps in the closed window `[from, from + 60]`. */
  function InClosed(stamps: seq<real>, from: real): nat {
    if stamps == [] then 0
    else (if from <= stamps[0] <= from + 60.0 then 1 else 0) + InClosed(stamps[1..], from)
  }

  lemma {:induction false} ClosedIsTwoHalfOpen(stamps: seq<real>, from: real)
    ensures InClosed(stamps, from) <= InWindow(stamps, from - WINDOW) + InWindow(stamps, from)
  {
    if stamps != [] {
      ClosedIsTwoHalfOpen(stamps[1..], from);
    }
  }

  /** A closed window holds at most twice the limit. */
  lemma {:induction false} ClosedWindowBound(limit: int, calls: seq<Call>, from: real)
    requires Forward(calls)
    ensures InClosed(Accepted(limit, calls), from) <= if limit > 0 then 2 * limit else 0
  {
    ClosedIsTwoHalfOpen(Accepted(limit, calls), from);
    WindowBound(limit, calls, from - WINDOW);
    WindowBound(limit, calls, from);
  }

  function Burst(at: real, n: nat): seq<Call> {
    seq(n, _ => Ask(at, at))
  }

  function Stamped(at: real, n: nat): seq<real> {
    seq(n, _ => at)
  }

  lemma {:induction false} KeptConcat(a: seq<real>, b: seq<real>, cutoff: real)
    ensures Kept(a + b, cutoff) == Kept(a, cutoff) + Kept(b, cutoff)
  {
    if a == [] {
      assert a + b == b;
    } else {
      assert (a + b)[0] == a[0] && (a + b)[1..] == a[1..] + b;
      KeptConcat(a[1..], b, cutoff);
    }
  }

  lemma {:induction false} KeptStamped(at: real, n: nat, cutoff: real)
    ensures Kept(Stamped(at, n), cutoff) == if at > cutoff then Stamped(at, n) else []
  {
    if n > 0 {
      assert Stamped(at, n)[1..] == Stamped(at, n - 1);
      KeptStamped(at, n - 1, cutoff);
    }
  }

  lemma {:induction false} InClosedStamped(before: seq<real>, at: real, n: nat, from: real)
    requires from <= at <= from + WINDOW
    ensures InClosed(before + Stamped(at, n), from) == InClosed(before, from) + n
  {
    if before != [] {
      assert (before + Stamped(at, n))[1..] == before[1..] + Stamped(at, n);
      InClosedStamped(before[1..], at, n, from);
    } else if n > 0 {
      assert before + Stamped(at, n) == Stamped(at, n) && Stamped(at, n)[1..] == [] + Stamped(at, n - 1);
      InClosedStamped([], at, n - 1, from);
    } else {
      assert before + Stamped(at, n) == before;
    }
  }

  lemma {:induction false} OneMoreAccepted(limit: int, calls: seq<Call>, at: real)
    requires Forward(calls + [Ask(at, at)]) && |Kept(Accepted(limit, calls), at - WINDOW)| < limit
    ensures Accepted(limit, calls + [Ask(at, at)]) == Accepted(limit, calls) + [at]
  {
    var all := calls + [Ask(at, at)];
    DecidedOnHistory(limit, calls, Ask(at, at));
    assert all[..|all| - 1] == calls && all[|all| - 1] == Ask(at, at);
  }

  lemma BurstSnoc(calls: seq<Call>, at: real, n: nat)
    ensures calls + Burst(at, n + 1) == (calls + Burst(at, n)) + [Ask(at, at)]
    ensures Stamped(at, n + 1) == Stamped(at, n) + [at]
  {
  }

  /** A burst of up to `limit` calls is accepted in full once everything accepted before has left the window. */
  lemma {:induction false} BurstAccepted(limit: int, calls: seq<Call>, at: real, n: nat)
    requires Forward(calls + Burst(at, n)) && n <= limit && Kept(Accepted(limit, calls), at - WINDOW) == []
    ensures Accepted(limit, calls + Burst(at, n)) == Accepted(limit, calls) + Stamped(at, n)
  {
    hide Accepted, Forward, Kept;
    if n == 0 {
      assert calls + Burst(at, 0) == calls;
      assert Accepted(limit, calls) + Stamped(at, 0) == Accepted(limit, calls);
    } else {
      var front, was := calls + Burst(at, n - 1), Accepted(limit, calls);
      BurstSnoc(calls, at, n - 1);
      assert (front + [Ask(at, at)])[..|front|] == front;
      ForwardPart(calls + Burst(at, n), |front|);
      BurstAccepted(limit, calls, at, n - 1);
      KeptConcat(was, Stamped(at, n - 1), at - WINDOW);
      KeptStamped(at, n - 1, at - WINDOW);
      assert [] + Stamped(at, n - 1) == Stamped(at, n - 1);
      OneMoreAccepted(limit, front, at);
      assert (was + Stamped(at, n - 1)) + [at] == was + (Stamped(at, n - 1) + [at]);
    }
  }

  lemma ForwardPart(calls: seq<Call>, n: nat)
    requires Forward(calls) && n <= |calls|
    ensures Forward(calls[..n])
  {
  }

  lemma TwoBurstsForward(at: real, n: nat)
    ensures Forward(Burst(at, n)) && Forward(Burst(at, n) + Burst(at + WINDOW, n))
  {
  }

  /**
   * That bound is reached for every positive limit: two full bursts exactly sixty seconds apart
   * are both accepted, so only half-open windows obey the limit itself.
   */
  lemma ClosedWindowCanHoldTwice(limit: int, at: real) returns (calls: seq<Call>)
    requires limit > 0
    ensures Forward(calls) && InClosed(Accepted(limit, calls), at) == 2 * limit
  {
    var first := Burst(at, limit);
    calls := first + Burst(at + WINDOW, limit);
    TwoBurstsForward(at, limit);
    FirstBurst(limit, at);
    hide Accepted, Forward, Kept, InClosed, Burst, Stamped;
    KeptStamped(at, limit, at);
    BurstAccepted(limit, first, at + WINDOW, limit);
    InClosedStamped([], at, limit, at);
    assert [] + Stamped(at, limit) == Stamped(at, limit);
    InClosedStamped(Stamped(at, limit), at + WINDOW, limit, at);
    NothingInClosed(at);
  }

  lemma {:induction false} FirstBurst(limit: int, at: real)
    requires limit > 0
    ensures Accepted(limit, Burst(at, limit)) == Stamped(at, limit)
  {
    TwoBurstsForward(at, limit);
    assert [] + Burst(at, limit) == Burst(at, limit) && [] + Stamped(at, limit) == Stamped(at, limit);
    BurstAccepted(limit, [], at, limit);
  }

  lemma {:induction false} NothingInClosed(from: real)
    ensures InClosed([], from) == 0
  {
  }

  // ----- the announced remainder -----

  /** How many of `n` calls made at the same instant are accepted; `None` is an unlimited action. */
  function AcceptedAtOnce(stamps: seq<real>, limit: Option<int>, at: real, n: nat): nat
    decreases n
  {
    if n == 0 then 0
    else if limit.None? then 1 + AcceptedAtOnce(stamps, limit, at, n - 1)
    else (if Accepts(stamps, limit.value, at) then 1 else 0)
         + AcceptedAtOnce(Stored(stamps, limit.value, Ask(at, at)), limit, at, n - 1)
  }

  /** What is announced: an action without a limit is treated as one with limit zero. */
  function Announced(stamps: seq<real>, limit: Option<int>, at: real): int {
    Remaining(stamps, if limit.Some? then limit.value else 0, at)
  }

  lemma {:induction false} RemainderExact(stamps: seq<real>, limit: int, at: real, n: nat)
    ensures AcceptedAtOnce(stamps, Some(limit), at, n)
            == if n <= Remaining(stamps, limit, at) then n else Remaining(stamps, limit, at)
    decreases n
  {
    if n > 0 {
      var stored := Stored(stamps, limit, Ask(at, at));
      KeptTwice(stamps, at - WINDOW, at - WINDOW);
      KeptSnoc(Kept(stamps, at - WINDOW), at, at - WINDOW);
      RemainderExact(stored, limit, at, n - 1);
    }
  }

  lemma {:induction false} UnlimitedAcceptsAll(stamps: seq<real>, at: real, n: nat)
    ensures AcceptedAtOnce(stamps, None, at, n) == n
    decreases n
  {
    if n > 0 {
      UnlimitedAcceptsAll(stamps, at, n - 1);
    }
  }

  ghost predicate AnnouncesTruly(stamps: seq<real>, limit: Option<int>, at: real) {
    forall n: nat :: AcceptedAtOnce(stamps, limit, at, n)
                     == if n <= Announced(stamps, limit, at) then n else Announced(stamps, limit, at)
  }

  /** The remainder is exactly the number of further immediate accepts, iff the action has a limit. */
  lemma RemainderExactIffLimited(stamps: seq<real>, limit: Option<int>, at: real)
    ensures AnnouncesTruly(stamps, limit, at) <==> limit.Some?
  {
    if limit.Some? {
      forall n: nat
        ensures AcceptedAtOnce(stamps, limit, at, n)
                == if n <= Announced(stamps, limit, at) then n else Announced(stamps, limit, at)
      {
        RemainderExact(stamps, limit.value, at, n);
      }
    } else {
      UnlimitedAcceptsAll(stamps, at, 1);
    }
  }

  // ----- the mutable limiter -----

  type Table = map<string, map<string, seq<real>>>

  /** Missing agents and actions count as empty lists. */
  function Stamps(counts: Table, agent: string, action: string): seq<real> {
    if agent in counts && action in counts[agent] then counts[agent][action] else []
  }

  function WithStamps(counts: Table, agent: string, action: string, stamps: seq<real>): Table {
    counts[agent := (if agent in counts then counts[agent] else map[])[action := stamps]]
  }

  lemma OnlyOneChanges(counts: Table, agent: string, action: string, stamps: seq<real>, a: string, c: string)
    ensures Stamps(WithStamps(counts, agent, action, stamps), a, c)
            == if a == agent && c == action then stamps else Stamps(counts, a, c)
  {
  }

  // ----- runs of the whole limiter -----

  /** Anything asked of the limiter: calls of any agent for any action, and resets. */
  datatype Request = Request(agent: string, action: string, call: Call) | Forget(agent: string)

  type Limits = map<string, int>

  /** The table after one request: an unlimited action is never recorded, though a look prunes it. */
  function NextTable(limits: Limits, counts: Table, r: Request): Table {
    match r
    case Forget(agent) => counts - {agent}
    case Request(agent, action, call) =>
      if action in limits then
        WithStamps(counts, agent, action, Stored(Stamps(counts, agent, action), limits[action], call))
      else if call.Peek? then
        WithStamps(counts, agent, action, Kept(Stamps(counts, agent, action), call.at - WINDOW))
      else counts
  }

  function TableAfter(limits: Limits, requests: seq<Request>): Table {
    if requests == [] then map[]
    else NextTable(limits, TableAfter(limits, requests[..|requests| - 1]), requests[|requests| - 1])
  }

  predicate IsFor(r: Request, agent: string, action: string) {
    r.Request? && r.agent == agent && r.action == action
  }

  /** One agent's calls for one action since its last reset, whatever comes in between. */
  function CallsOf(requests: seq<Request>, agent: string, action: string): seq<Call> {
    if requests == [] then []
    else
      var front, last := requests[..|requests| - 1], requests[|requests| - 1];
      if last == Forget(agent) then []
      else if IsFor(last, agent, action) then CallsOf(front, agent, action) + [last.call]
      else CallsOf(front, agent, action)
  }

  /** What the limiter accepted for one agent and action since the agent's last reset. */
  function AcceptedFor(limits: Limits, requests: seq<Request>, agent: string, action: string): seq<real>
    requires action in limits
  {
    if requests == [] then []
    else
      var front, last := requests[..|requests| - 1], requests[|requests| - 1];
      if last == Forget(agent) then []
      else if IsFor(last, agent, action) && last.call.Ask?
              && Accepts(Stamps(TableAfter(limits, front), agent, action), limits[action], last.call.at)
      then AcceptedFor(limits, front, agent, action) + [last.call.stamp]
      else AcceptedFor(limits, front, agent, action)
  }

  ghost predicate ClockForward(requests: seq<Request>) {
    && (forall i :: 0 <= i < |requests| && requests[i].Request? && requests[i].call.Ask?
                    ==> requests[i].call.at <= requests[i].call.stamp)
    && (forall i, j :: 0 <= i < j < |requests| && requests[i].Request? && requests[j].Request?
                       ==> requests[i].call.at <= requests[j].call.at)
  }

  /** Other agents and other actions do not interfere: each pair sees its own run only. */
  lemma {:induction false} PairsAreSeparate(limits: Limits, requests: seq<Request>, agent: string, action: string)
    requires action in limits
    ensures Stamps(TableAfter(limits, requests), agent, action)
            == StoredAfter(limits[action], CallsOf(requests, agent, action))
    ensures AcceptedFor(limits, requests, agent, action) == Accepted(limits[action], CallsOf(requests, agent, action))
  {
    if requests != [] {
      var front, last := requests[..|requests| - 1], requests[|requests| - 1];
      var calls := CallsOf(front, agent, action);
      PairsAreSeparate(limits, front, agent, action);
      if last.Request? {
        var before := TableAfter(limits, front);
        var stamps := Stamps(NextTable(limits, before, last), last.agent, last.action);
        OnlyOneChanges(before, last.agent, last.action, stamps, agent, action);
      }
      hide WithStamps;
      if IsFor(last, agent, action) {
        assert (calls + [last.call])[..|calls|] == calls;
      }
    }
  }

  lemma {:induction false} CallsAreOld(requests: seq<Request>, agent: string, action: string)
    ensures forall c :: c in CallsOf(requests, agent, action) ==>
              exists i :: 0 <= i < |requests| && requests[i].Request? && requests[i].call == c
  {
    if requests != [] {
      var front, last := requests[..|requests| - 1], requests[|requests| - 1];
      CallsAreOld(front, agent, action);
      forall c | c in CallsOf(requests, agent, action)
        ensures exists i :: 0 <= i < |requests| && requests[i].Request? && requests[i].call == c
      {
        if c in CallsOf(front, agent, action) {
          var i :| 0 <= i < |front| && front[i].Request? && front[i].call == c;
          assert requests[i] == front[i];
        } else {
          assert requests[|requests| - 1].call == c;
        }
      }
    }
  }

  lemma {:induction false} CallsForward(requests: seq<Request>, agent: string, action: string)
    requires ClockForward(requests)
    ensures Forward(CallsOf(requests, agent, action))
  {
    if requests != [] {
      var front, last := requests[..|requests| - 1], requests[|requests| - 1];
      var calls := CallsOf(front, agent, action);
      CallsForward(front, agent, action);
      if IsFor(last, agent, action) {
        CallsAreOld(front, agent, action);
        forall i | 0 <= i < |calls| ensures calls[i].at <= last.call.at {
          assert calls[i] in calls;
          var k :| 0 <= k < |front| && front[k].Request? && front[k].call == calls[i];
          assert requests[k] == front[k];
        }
      }
    }
  }

  /**
   * In every run of the limiter, whatever agents and actions are interleaved: since its last
   * reset, each agent has at most `limit` accepted calls per action in any sixty-second window.
   */
  lemma {:induction false} LimiterWindowBound(
      limits: Limits, requests: seq<Request>, agent: string, action: string, from: real)
    requires ClockForward(requests) && action in limits
    ensures InWindow(AcceptedFor(limits, requests, agent, action), from)
            <= if limits[action] > 0 then limits[action] else 0
  {
    PairsAreSeparate(limits, requests, agent, action);
    CallsForward(requests, agent, action);
    WindowBound(limits[action], CallsOf(requests, agent, action), from);
  }

  /** The stored stamps of a pair that are less than sixty seconds old are all that was accepted so lately. */
  lemma {:induction false} StoredCountsHistory(
      limits: Limits, requests: seq<Request>, agent: string, action: string, call: Call)
    requires action in limits && ClockForward(requests + [Request(agent, action, call)])
    ensures Later(Stamps(TableAfter(limits, requests), agent, action), call.at - 60.0)
            == Later(AcceptedFor(limits, requests, agent, action), call.at - 60.0)
  {
    var last := Request(agent, action, call);
    var all, calls := requests + [last], CallsOf(requests, agent, action);
    assert all[..|requests|] == requests && all[|requests|] == last;
    CallsForward(all, agent, action);
    assert CallsOf(all, agent, action) == calls + [call];
    hide *;
    PairsAreSeparate(limits, requests, agent, action);
    DecidedOnHistory(limits[action], calls, call);
    KeptCount(Stamps(TableAfter(limits, requests), agent, action), call.at - 60.0);
    KeptCount(AcceptedFor(limits, requests, agent, action), call.at - 60.0);
  }

  /**
   * In every run of the limiter a call with a limit is accepted exactly when, since the agent's last
   * reset, fewer than `limit` of its accepted calls are less than sixty seconds old.
   */
  lemma {:induction false} LimiterAcceptsIffRoom(
      limits: Limits, requests: seq<Request>, agent: string, action: string, call: Call)
    requires action in limits && ClockForward(requests + [Request(agent, action, call)])
    ensures var was := AcceptedFor(limits, requests, agent, action);
            AcceptedFor(limits, requests + [Request(agent, action, call)], agent, action)
            == if call.Ask? && Later(was, call.at - 60.0) < limits[action] then was + [call.stamp] else was
  {
    var all := requests + [Request(agent, action, call)];
    assert all[..|all| - 1] == requests;
    StoredCountsHistory(limits, requests, agent, action, call);
    KeptCount(Stamps(TableAfter(limits, requests), agent, action), call.at - 60.0);
  }

  /** What is announced after a run is the room left in the last sixty seconds. */
  lemma {:induction false} LimiterAnnouncesRoom(
      limits: Limits, requests: seq<Request>, agent: string, action: string, at: real)
    requires action in limits && ClockForward(requests + [Request(agent, action, Peek(at))])
    ensures var room := limits[action] - Later(AcceptedFor(limits, requests, agent, action), at - 60.0);
            Announced(Stamps(TableAfter(limits, requests), agent, action), Some(limits[action]), at)
            == if room > 0 then room else 0
  {
    StoredCountsHistory(limits, requests, agent, action, Peek(at));
    KeptCount(Stamps(TableAfter(limits, requests), agent, action), at - 60.0);
  }

  class RateLimiter {
    const limits: Limits
    var counts: Table

    constructor (speak: int, vote: int)
      ensures counts == map[] && limits == map["speak" := speak, "vote" := vote]
    {
      limits := map["speak" := speak, "vote" := vote];
      counts := map[];
    }

    method Prune(stamps: seq<real>, cutoff: real) returns (kept: seq<real>)
      ensures kept == Kept(stamps, cutoff)
    {
      kept := [];
      for i := 0 to |stamps|
        invariant kept + Kept(stamps[i..], cutoff) == Kept(stamps, cutoff)
      {
        assert stamps[i..][1..] == stamps[i + 1..];
        if stamps[i] > cutoff {
          kept := kept + [stamps[i]];
        }
      }
    }

    method CheckRate(agent: string, action: string, at: real, stamp: real) returns (ok: bool)
      modifies this
      ensures ok <==> action !in limits || Accepts(Stamps(old(counts), agent, action), limits[action], at)
      ensures ok <==> action !in limits || Later(Stamps(old(counts), agent, action), at - 60.0) < limits[action]
      ensures counts == NextTable(limits, old(counts), Request(agent, action, Ask(at, stamp)))
    {
      if action !in limits {
        return true;
      }
      var stamps := Prune(Stamps(counts, agent, action), at - WINDOW);
      KeptCount(Stamps(counts, agent, action), at - WINDOW);
      if |stamps| >= limits[action] {
        counts := WithStamps(counts, agent, action, stamps);
        return false;
      }
      counts := WithStamps(counts, agent, action, stamps + [stamp]);
      return true;
    }

    method GetRemaining(agent: string, action: string, at: real) returns (left: int)
      modifies this
      ensures left == Announced(Stamps(old(counts), agent, action),
                                if action in limits then Some(limits[action]) else None, at)
      ensures left >= 0
      ensures var room := (if action in limits then limits[action] else 0)
                          - Later(Stamps(old(counts), agent, action), at - 60.0);
              left == if room > 0 then room else 0
      ensures counts == NextTable(limits, old(counts), Request(agent, action, Peek(at)))
    {
      var limit := if action in limits then limits[action] else 0;
      var stamps := Prune(Stamps(counts, agent, action), at - WINDOW);
      KeptCount(Stamps(counts, agent, action), at - WINDOW);
      counts := WithStamps(counts, agent, action, stamps);
      left := if limit - |stamps| > 0 then limit - |stamps| else 0;
    }

    /** Forgets the agent's stamps, all of them and nobody else's. */
    method Reset(agent: string)
      modifies this
      ensures forall a, action :: Stamps(counts, a, action) == if a == agent then [] else Stamps(old(counts), a, action)
      ensures counts == NextTable(limits, old(counts), Forget(agent))
    {
      counts := counts - {agent};
    }
  }
}
