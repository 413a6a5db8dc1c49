/** Round-robin choice among candidate agents, skipping those at capacity. */
module RoundRobin {
  import opened Prelude
  import opened TaskGraphs

  type Loads = map<AgentId, int>

  const DEFAULT_MAX_CONCURRENT := 5

  datatype Choice = Choice(agent: Option<AgentId>, next: nat)

  function LoadOf(loads: Loads, a: AgentId): int {
    if a in loads then loads[a] else 0
  }

  function CapOf(caps: Loads, a: AgentId): int {
    if a in caps then caps[a] else DEFAULT_MAX_CONCURRENT
  }

  predicate HasRoom(loads: Loads, caps: Loads, a: AgentId) {
    LoadOf(loads, a) < CapOf(caps, a)
  }

  /** The candidate that `s` turns after `rr` falls on. */
  function Turn(candidates: seq<AgentId>, rr: nat, s: nat): AgentId
    requires candidates != []
  {
    candidates[(rr + s) % |candidates|]
  }

  function Search(candidates: seq<AgentId>, loads: Loads, caps: Loads, rr: nat, tries: nat): Choice
    requires candidates != []
    decreases tries
  {
    if tries == 0 then Choice(None, rr)
    else if HasRoom(loads, caps, Turn(candidates, rr, 0)) then Choice(Some(Turn(candidates, rr, 0)), rr + 1)
    else Search(candidates, loads, caps, rr + 1, tries - 1)
  }

  function Choose(candidates: seq<AgentId>, loads: Loads, caps: Loads, rr: nat): Choice {
    if candidates == [] then Choice(None, rr) else Search(candidates, loads, caps, rr, |candidates|)
  }

  // ----- remainders -----

  lemma MultiplesAreApart(n: int, d: int)
    requires n > 0
    ensures d >= 1 ==> n * d >= n
    ensures d <= -1 ==> n * d <= -n
  {
    if d >= 1 {
      assert n * (d - 1) >= 0;
    } else if d <= -1 {
      assert n * (d + 1) <= 0;
    }
  }

  lemma DivisionUnique(x: nat, n: nat, q: nat, r: nat)
    requires 0 <= r < n && x == n * q + r
    ensures x / n == q && x % n == r
  {
    assert x == n * (x / n) + x % n;
    assert n * (x / n - q) == r - x % n;
    MultiplesAreApart(n, x / n - q);
  }

  lemma RemainderShifts(x: nat, n: nat, q: nat)
    requires n > 0
    ensures (x + n * q) % n == x % n
  {
    assert x + n * q == n * (x / n + q) + x % n;
    DivisionUnique(x + n * q, n, x / n + q, x % n);
  }

  /** n consecutive turns fall on every residue. */
  lemma TurnsCover(rr: nat, n: nat, i: nat) returns (k: nat)
    requires i < n
    ensures k < n && (rr + k) % n == i
  {
    var r := rr % n;
    k := if r <= i then i - r else i + n - r;
    assert rr + k == (if r <= i then i else i + n) + n * (rr / n);
    RemainderShifts(if r <= i then i else i + n, n, rr / n);
    RemainderShifts(i, n, 1);
    DivisionUnique(i, n, 0, i);
  }

  lemma TurnsDiffer(rr: nat, n: nat, s: nat, t: nat)
    requires s < n && t < n && (rr + s) % n == (rr + t) % n
    ensures s == t
  {
    var a, b := (rr + s) / n, (rr + t) / n;
    assert rr + s == n * a + (rr + s) % n;
    assert rr + t == n * b + (rr + t) % n;
    assert s - t == n * a - n * b == n * (a - b);
    MultiplesAreApart(n, a - b);
  }

  // ----- completeness -----

  /** The choice is the first agent with room, counting turns from `rr`; without one, all turns are used up. */
  lemma {:induction false} SearchMeaning(candidates: seq<AgentId>, loads: Loads, caps: Loads, rr: nat, tries: nat)
    returns (k: nat)
    requires candidates != []
    ensures k <= tries
    ensures forall j :: 0 <= j < k ==> !HasRoom(loads, caps, Turn(candidates, rr, j))
    ensures k < tries ==> HasRoom(loads, caps, Turn(candidates, rr, k))
    ensures Search(candidates, loads, caps, rr, tries)
         == if k < tries then Choice(Some(Turn(candidates, rr, k)), rr + k + 1) else Choice(None, rr + tries)
    decreases tries
  {
    if tries == 0 || HasRoom(loads, caps, Turn(candidates, rr, 0)) {
      k := 0;
    } else {
      var l := SearchMeaning(candidates, loads, caps, rr + 1, tries - 1);
      k := l + 1;
      forall j | 0 <= j < k ensures !HasRoom(loads, caps, Turn(candidates, rr, j)) {
        if j > 0 {
          assert Turn(candidates, rr, j) == Turn(candidates, rr + 1, j - 1);
        }
      }
      assert Turn(candidates, rr, k) == Turn(candidates, rr + 1, l);
    }
  }

  /** At its limit, which is five for an agent without one of its own. */
  predicate Full(loads: Loads, caps: Loads, a: AgentId) {
    (if a in loads then loads[a] else 0) >= (if a in caps then caps[a] else 5)
  }

  /** The candidates in the order their turns come, from the remembered position round to it again. */
  function Turns(candidates: seq<AgentId>, rr: nat): (turns: seq<AgentId>)
    ensures |turns| == |candidates| && forall a :: a in turns <==> a in candidates
  {
    if candidates == [] then []
    else
      var start := rr % |candidates|;
      assert candidates == candidates[..start] + candidates[start..];
      candidates[start..] + candidates[..start]
  }

  lemma TurnsAt(candidates: seq<AgentId>, rr: nat, j: nat)
    requires j < |candidates|
    ensures Turns(candidates, rr)[j] == Turn(candidates, rr, j)
  {
    var n := |candidates|;
    var start := rr % n;
    assert rr + j == start + j + n * (rr / n);
    RemainderShifts(start + j, n, rr / n);
    if start + j < n {
      DivisionUnique(start + j, n, 0, start + j);
    } else {
      DivisionUnique(start + j, n, 1, start + j - n);
    }
  }

  /**
   * The first candidate in turn that is not full is chosen and the position moves past it; when
   * all are full, nobody is chosen and the position has gone once round.
   */
  lemma {:induction false} FirstWithRoomInTurn(candidates: seq<AgentId>, loads: Loads, caps: Loads, rr: nat)
    returns (k: nat)
    ensures k <= |candidates|
    ensures forall j :: 0 <= j < k ==> Full(loads, caps, Turns(candidates, rr)[j])
    ensures k < |candidates| ==> !Full(loads, caps, Turns(candidates, rr)[k])
    ensures Choose(candidates, loads, caps, rr)
         == if k < |candidates| then Choice(Some(Turns(candidates, rr)[k]), rr + k + 1)
            else Choice(None, rr + |candidates|)
  {
    hide Turns;
    k := 0;
    if candidates != [] {
      k := SearchMeaning(candidates, loads, caps, rr, |candidates|);
      hide Search, Turn;
      forall j | 0 <= j < k ensures Full(loads, caps, Turns(candidates, rr)[j]) {
        TurnsAt(candidates, rr, j);
        assert !HasRoom(loads, caps, Turn(candidates, rr, j));
      }
      if k < |candidates| {
        TurnsAt(candidates, rr, k);
      }
    }
  }

  /** Nobody is chosen exactly when every candidate is at capacity. */
  lemma NoChoiceIffAllFull(candidates: seq<AgentId>, loads: Loads, caps: Loads, rr: nat)
    ensures var choice := Choose(candidates, loads, caps, rr);
            && (choice.agent.None? <==> forall a :: a in candidates ==> !HasRoom(loads, caps, a))
            && (choice.agent.Some? ==> choice.agent.value in candidates && HasRoom(loads, caps, choice.agent.value))
  {
    if candidates != [] {
      var n := |candidates|;
      var k := SearchMeaning(candidates, loads, caps, rr, n);
      if k == n {
        forall a | a in candidates ensures !HasRoom(loads, caps, a) {
          var i :| 0 <= i < n && candidates[i] == a;
          var turn := TurnsCover(rr, n, i);
          assert Turn(candidates, rr, turn) == a;
        }
      }
    }
  }

  // ----- fairness -----

  datatype Progress = Progress(loads: Loads, next: nat)

  /** `m` choices in a row, each adding to the chosen agent's load. */
  function AfterChoices(candidates: seq<AgentId>, caps: Loads, loads: Loads, rr: nat, m: nat): Progress {
    if m == 0 then Progress(loads, rr)
    else
      var p := AfterChoices(candidates, caps, loads, rr, m - 1);
      var choice := Choose(candidates, p.loads, caps, p.next);
      Progress(
        if choice.agent.Some? then p.loads[choice.agent.value := LoadOf(p.loads, choice.agent.value) + 1] else p.loads,
        choice.next)
  }

  /** How often turn `s` of `n` comes up among the first `m` turns. */
  function Share(m: nat, n: nat, s: nat): nat
    requires n > 0
  {
    m / n + if s < m % n then 1 else 0
  }

  predicate FairStart(candidates: seq<AgentId>, caps: Loads, loads: Loads, cap: nat) {
    && candidates != [] && NoDup(candidates)
    && forall a :: a in candidates ==> CapOf(caps, a) == cap && LoadOf(loads, a) == 0
  }

  ghost predicate Shared(candidates: seq<AgentId>, loads: Loads, rr: nat, m: nat)
    requires candidates != []
  {
    forall s: nat :: s < |candidates| ==> LoadOf(loads, Turn(candidates, rr, s)) == Share(m, |candidates|, s)
  }

  lemma NextShare(m: nat, n: nat, s: nat)
    requires n > 0 && s < n
    ensures Share(m + 1, n, s) == Share(m, n, s) + if s == m % n then 1 else 0
  {
    if m % n == n - 1 {
      assert m + 1 == n * (m / n + 1);
      DivisionUnique(m + 1, n, m / n + 1, 0);
    } else {
      DivisionUnique(m + 1, n, m / n, m % n + 1);
    }
  }

  lemma QuotientReaches(m: nat, n: nat, cap: nat)
    requires n > 0
    ensures m / n >= cap ==> m >= n * cap
  {
    assert m == n * (m / n) + m % n;
    if m / n >= cap {
      assert n * (m / n - cap) >= 0;
    }
  }

  /** The agent whose turn it is has room, so it is chosen at once. */
  lemma TurnTaken(candidates: seq<AgentId>, caps: Loads, loads: Loads, rr: nat, cap: nat, m: nat)
    requires candidates != [] && m < |candidates| * cap
    requires forall a :: a in candidates ==> CapOf(caps, a) == cap
    requires Shared(candidates, loads, rr, m)
    ensures Choose(candidates, loads, caps, rr + m)
         == Choice(Some(Turn(candidates, rr, m % |candidates|)), rr + m + 1)
  {
    var n := |candidates|;
    var s := m % n;
    QuotientReaches(m, n, cap);
    RemainderShifts(rr + s, n, m / n);
    assert rr + s + n * (m / n) == rr + m;
    assert Turn(candidates, rr + m, 0) == Turn(candidates, rr, s);
    assert LoadOf(loads, Turn(candidates, rr, s)) == Share(m, n, s);
    assert Turn(candidates, rr, s) in candidates;
  }

  /** Until everybody is full, the choices go round in turn. */
  lemma {:induction false} ChoicesGoRound(
      candidates: seq<AgentId>, caps: Loads, loads: Loads, rr: nat, cap: nat, m: nat)
    requires FairStart(candidates, caps, loads, cap) && m <= |candidates| * cap
    ensures var p := AfterChoices(candidates, caps, loads, rr, m);
            p.next == rr + m && Shared(candidates, p.loads, rr, m)
  {
    var n := |candidates|;
    if m > 0 {
      ChoicesGoRound(candidates, caps, loads, rr, cap, m - 1);
      var p := AfterChoices(candidates, caps, loads, rr, m - 1);
      var after := AfterChoices(candidates, caps, loads, rr, m);
      TurnTaken(candidates, caps, p.loads, rr, cap, m - 1);
      var t := (m - 1) % n;
      forall s: nat | s < n ensures LoadOf(after.loads, Turn(candidates, rr, s)) == Share(m, n, s) {
        NextShare(m - 1, n, s);
        assert LoadOf(p.loads, Turn(candidates, rr, s)) == Share(m - 1, n, s);
        if s != t && Turn(candidates, rr, s) == Turn(candidates, rr, t) {
          TurnsDiffer(rr, n, s, t);
        }
      }
    }
  }

  lemma EveryTurn(candidates: seq<AgentId>, rr: nat, a: AgentId) returns (s: nat)
    requires a in candidates
    ensures s < |candidates| && Turn(candidates, rr, s) == a
  {
    var i :| 0 <= i < |candidates| && candidates[i] == a;
    s := TurnsCover(rr, |candidates|, i);
  }

  /** Once every place is taken nobody is chosen any more, and the loads stay at the cap. */
  lemma {:induction false} FullForGood(candidates: seq<AgentId>, caps: Loads, loads: Loads, rr: nat, cap: nat, m: nat)
    requires FairStart(candidates, caps, loads, cap) && m >= |candidates| * cap
    ensures var p := AfterChoices(candidates, caps, loads, rr, m);
            && (forall a :: a in candidates ==> LoadOf(p.loads, a) == cap)
            && Choose(candidates, p.loads, caps, p.next).agent == None
  {
    var n := |candidates|;
    var p := AfterChoices(candidates, caps, loads, rr, m);
    if m == n * cap {
      ChoicesGoRound(candidates, caps, loads, rr, cap, m);
      DivisionUnique(m, n, cap, 0);
      forall a | a in candidates ensures LoadOf(p.loads, a) == cap {
        var s := EveryTurn(candidates, rr, a);
      }
    } else {
      FullForGood(candidates, caps, loads, rr, cap, m - 1);
    }
    NoChoiceIffAllFull(candidates, p.loads, caps, p.next);
  }

  /** However many choices are made, the loads stay within one of each other. */
  lemma {:induction false} LoadsWithinOne(
      candidates: seq<AgentId>, caps: Loads, loads: Loads, rr: nat, cap: nat, m: nat, a: AgentId, b: AgentId)
    requires FairStart(candidates, caps, loads, cap) && a in candidates && b in candidates
    ensures var after := AfterChoices(candidates, caps, loads, rr, m).loads;
            LoadOf(after, a) <= LoadOf(after, b) + 1
  {
    if m <= |candidates| * cap {
      ChoicesGoRound(candidates, caps, loads, rr, cap, m);
      var s := EveryTurn(candidates, rr, a);
      var t := EveryTurn(candidates, rr, b);
    } else {
      FullForGood(candidates, caps, loads, rr, cap, m);
    }
  }
}
