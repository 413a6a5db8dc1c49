/** Instant-runoff voting as the coordinator counts it. */
module InstantRunoff {
  import opened Prelude

  type Ballot = seq<string>

  datatype Verdict =
    | NoBallots
    | NoOptions
    | NoValidVotes
    | LoopEnded
    | Adopted(winner: string, results: map<string, nat>)
    | Tie(options: set<string>)

  // ----- one round -----

  /** The first listed option that is still in the race. */
  function Top(b: Ballot, remaining: set<string>): Option<string> {
    if b == [] then None
    else if b[0] in remaining then Some(b[0])
    else Top(b[1..], remaining)
  }

  function Vote(b: Ballot, remaining: set<string>, o: string): nat {
    if Top(b, remaining) == Some(o) then 1 else 0
  }

  function Tally(ballots: seq<Ballot>, remaining: set<string>, o: string): nat {
    if ballots == [] then 0 else Vote(ballots[0], remaining, o) + Tally(ballots[1..], remaining, o)
  }

  /** Ballots whose top choice lies in `s`; with `s` all remaining options, the counted ballots. */
  function TopIn(ballots: seq<Ballot>, remaining: set<string>, s: set<string>): nat {
    if ballots == [] then 0
    else
      var top := Top(ballots[0], remaining);
      (if top.Some? && top.value in s then 1 else 0) + TopIn(ballots[1..], remaining, s)
  }

  function Counted(ballots: seq<Ballot>, remaining: set<string>): nat {
    TopIn(ballots, remaining, remaining)
  }

  /** The counter of a round: options without a first choice do not appear in it. */
  function Results(ballots: seq<Ballot>, remaining: set<string>): map<string, nat> {
    map o | o in remaining && Tally(ballots, remaining, o) > 0 :: Tally(ballots, remaining, o)
  }

  predicate IsMajority(ballots: seq<Ballot>, remaining: set<string>, o: string) {
    o in remaining && 2 * Tally(ballots, remaining, o) > Counted(ballots, remaining)
  }

  predicate IsLowest(ballots: seq<Ballot>, remaining: set<string>, o: string) {
    && o in Results(ballots, remaining)
    && forall p :: p in Results(ballots, remaining) ==> Tally(ballots, remaining, o) <= Tally(ballots, remaining, p)
  }

  /** The options with the fewest first choices among those that have any. */
  function Lowest(ballots: seq<Ballot>, remaining: set<string>): set<string> {
    set o | o in remaining && IsLowest(ballots, remaining, o)
  }

  ghost predicate HasMajority(ballots: seq<Ballot>, remaining: set<string>) {
    exists o :: IsMajority(ballots, remaining, o)
  }

  lemma {:induction false} TallySplits(ballots: seq<Ballot>, remaining: set<string>, s: set<string>, o: string)
    requires o !in s
    ensures TopIn(ballots, remaining, s + {o}) == TopIn(ballots, remaining, s) + Tally(ballots, remaining, o)
  {
    if ballots != [] {
      TallySplits(ballots[1..], remaining, s, o);
    }
  }

  lemma {:induction false} TopInMonotone(ballots: seq<Ballot>, remaining: set<string>, s: set<string>, s': set<string>)
    requires s <= s'
    ensures TopIn(ballots, remaining, s) <= TopIn(ballots, remaining, s')
  {
    if ballots != [] {
      TopInMonotone(ballots[1..], remaining, s, s');
    }
  }

  lemma {:induction false} TwoTallies(ballots: seq<Ballot>, remaining: set<string>, o: string, p: string)
    requires o in remaining && p in remaining && o != p
    ensures Tally(ballots, remaining, o) + Tally(ballots, remaining, p) <= Counted(ballots, remaining)
  {
    NobodyTopsNothing(ballots, remaining);
    TallySplits(ballots, remaining, {}, o);
    TallySplits(ballots, remaining, {} + {o}, p);
    TopInMonotone(ballots, remaining, {} + {o} + {p}, remaining);
  }

  lemma {:induction false} NobodyTopsNothing(ballots: seq<Ballot>, remaining: set<string>)
    ensures TopIn(ballots, remaining, {}) == 0
  {
    if ballots != [] {
      NobodyTopsNothing(ballots[1..], remaining);
    }
  }

  /** At most one option can have more than half. */
  lemma MajorityUnique(ballots: seq<Ballot>, remaining: set<string>, o: string, p: string)
    requires IsMajority(ballots, remaining, o) && IsMajority(ballots, remaining, p)
    ensures o == p
  {
    if o != p {
      TwoTallies(ballots, remaining, o, p);
    }
  }

  lemma {:induction false} SomebodyTallied(ballots: seq<Ballot>, remaining: set<string>) returns (o: string)
    requires Counted(ballots, remaining) > 0
    ensures o in Results(ballots, remaining)
  {
    if Top(ballots[0], remaining).Some? {
      o := Top(ballots[0], remaining).value;
      TopRemains(ballots[0], remaining);
    } else {
      o := SomebodyTallied(ballots[1..], remaining);
    }
  }

  lemma {:induction false} TopRemains(b: Ballot, remaining: set<string>)
    ensures Top(b, remaining).Some? ==> Top(b, remaining).value in remaining && Top(b, remaining).value in b
    ensures Top(b, remaining).None? ==> forall o :: o in b ==> o !in remaining
  {
    if b != [] {
      TopRemains(b[1..], remaining);
    }
  }

  lemma {:induction false} LeastExists(s: set<string>, f: string -> nat) returns (o: string)
    requires s != {}
    ensures o in s && forall p :: p in s ==> f(o) <= f(p)
  {
    var x :| x in s;
    if s == {x} {
      o := x;
    } else {
      var y := LeastExists(s - {x}, f);
      o := if f(x) <= f(y) then x else y;
      forall p | p in s ensures f(o) <= f(p) {
        assert p == x || p in s - {x};
      }
    }
  }

  lemma LowestNonEmpty(ballots: seq<Ballot>, remaining: set<string>)
    requires Counted(ballots, remaining) > 0
    ensures Lowest(ballots, remaining) != {}
  {
    var somebody := SomebodyTallied(ballots, remaining);
    var o := LeastExists(Results(ballots, remaining).Keys, x => Tally(ballots, remaining, x));
    assert o in Lowest(ballots, remaining);
  }

  // ----- the elimination -----

  /** A round ends the count: nothing remains, no ballot counts, somebody has more than half, or all tie for lowest. */
  ghost predicate Decides(ballots: seq<Ballot>, remaining: set<string>) {
    || remaining == {}
    || Counted(ballots, remaining) == 0
    || HasMajority(ballots, remaining)
    || |remaining| <= |Lowest(ballots, remaining)|
  }

  ghost function Decision(ballots: seq<Ballot>, remaining: set<string>): Verdict
    requires Decides(ballots, remaining)
  {
    if remaining == {} then LoopEnded
    else if Counted(ballots, remaining) == 0 then NoValidVotes
    else if HasMajority(ballots, remaining) then
      var o :| IsMajority(ballots, remaining, o);
      Adopted(o, Results(ballots, remaining))
    else Tie(Lowest(ballots, remaining))
  }

  ghost function Irv(ballots: seq<Ballot>, remaining: set<string>): Verdict
    decreases |remaining|
  {
    if Decides(ballots, remaining) then Decision(ballots, remaining)
    else
      EliminationShrinks(ballots, remaining);
      Irv(ballots, remaining - Lowest(ballots, remaining))
  }

  lemma Smaller(s: set<string>, less: set<string>)
    requires less <= s && less != {}
    ensures |s - less| < |s|
  {
  }

  lemma NotWhole(a: set<string>, b: set<string>)
    requires a <= b && |a| < |b|
    ensures b - a != {}
  {
    assert b == a + (b - a);
  }

  lemma EliminationShrinks(ballots: seq<Ballot>, remaining: set<string>)
    requires !Decides(ballots, remaining)
    ensures Lowest(ballots, remaining) != {} && remaining - Lowest(ballots, remaining) != {}
    ensures |remaining - Lowest(ballots, remaining)| < |remaining|
  {
    LowestNonEmpty(ballots, remaining);
    Smaller(remaining, Lowest(ballots, remaining));
    NotWhole(Lowest(ballots, remaining), remaining);
  }

  /** The options left in the round that decides. */
  ghost function LastRound(ballots: seq<Ballot>, remaining: set<string>): set<string>
    decreases |remaining|
  {
    if Decides(ballots, remaining) then remaining
    else
      EliminationShrinks(ballots, remaining);
      LastRound(ballots, remaining - Lowest(ballots, remaining))
  }

  /** The options standing in each round, the first one included. */
  ghost function Stages(ballots: seq<Ballot>, remaining: set<string>): seq<set<string>>
    decreases |remaining|
  {
    if remaining == {} then []
    else if Decides(ballots, remaining) then [remaining]
    else
      EliminationShrinks(ballots, remaining);
      [remaining] + Stages(ballots, remaining - Lowest(ballots, remaining))
  }

  function AllOptions(ballots: seq<Ballot>): set<string> {
    set b, o | b in ballots && o in b :: o
  }

  function NonEmpty(ballots: seq<Ballot>): seq<Ballot> {
    if ballots == [] then []
    else (if ballots[0] != [] then [ballots[0]] else []) + NonEmpty(ballots[1..])
  }

  ghost function Outcome(ballots: seq<Ballot>): Verdict {
    if ballots == [] then NoBallots
    else if AllOptions(ballots) == {} then NoOptions
    else Irv(NonEmpty(ballots), AllOptions(ballots))
  }

  // ----- progress -----

  function StillRanking(ballots: seq<Ballot>, remaining: set<string>): nat {
    if ballots == [] then 0
    else (if exists o :: o in ballots[0] && o in remaining then 1 else 0) + StillRanking(ballots[1..], remaining)
  }

  /** The ballots counted in a round are those that list any remaining option. */
  lemma {:induction false} CountedMeaning(ballots: seq<Ballot>, remaining: set<string>)
    ensures Counted(ballots, remaining) == StillRanking(ballots, remaining)
  {
    if ballots != [] {
      CountedMeaning(ballots[1..], remaining);
      TopRemains(ballots[0], remaining);
    }
  }

  lemma {:induction false} FewerOptionsFewerCounted(ballots: seq<Ballot>, remaining: set<string>, fewer: set<string>)
    requires fewer <= remaining
    ensures Counted(ballots, fewer) <= Counted(ballots, remaining)
  {
    if ballots != [] {
      FewerOptionsFewerCounted(ballots[1..], remaining, fewer);
      TopRemains(ballots[0], remaining);
      TopRemains(ballots[0], fewer);
    }
  }

  /** From round to round options go and the number of ballots counted never grows. */
  ghost predicate Dwindles(ballots: seq<Ballot>, stages: seq<set<string>>) {
    forall i, j :: 0 <= i < j < |stages| ==>
      stages[j] < stages[i] && Counted(ballots, stages[j]) <= Counted(ballots, stages[i])
  }

  lemma OneMoreStage(ballots: seq<Ballot>, remaining: set<string>, rest: seq<set<string>>)
    requires rest != [] && rest[0] < remaining && Dwindles(ballots, rest)
    ensures Dwindles(ballots, [remaining] + rest)
  {
    FewerOptionsFewerCounted(ballots, remaining, rest[0]);
    var stages := [remaining] + rest;
    forall i, j | 0 <= i < j < |stages|
      ensures stages[j] < stages[i] && Counted(ballots, stages[j]) <= Counted(ballots, stages[i])
    {
      if i == 0 && j > 1 {
        assert rest[j - 1] < rest[0];
      }
    }
  }

  /**
   * The elimination ends within as many rounds as there are options, loses options and never
   * gains counted ballots from one round to the next, and never falls out of its loop.
   */
  lemma {:induction false} Progress(ballots: seq<Ballot>, remaining: set<string>)
    requires remaining != {}
    ensures var stages := Stages(ballots, remaining);
            && 1 <= |stages| <= |remaining|
            && stages[0] == remaining && stages[|stages| - 1] == LastRound(ballots, remaining)
            && Dwindles(ballots, stages)
    ensures {} != LastRound(ballots, remaining) <= remaining
    ensures Irv(ballots, remaining) != LoopEnded
    decreases |remaining|
  {
    if !Decides(ballots, remaining) {
      var fewer := remaining - Lowest(ballots, remaining);
      EliminationShrinks(ballots, remaining);
      Progress(ballots, fewer);
      OneMoreStage(ballots, remaining, Stages(ballots, fewer));
    }
  }

  lemma {:induction false} ListedIsCounted(ballots: seq<Ballot>, remaining: set<string>, b: Ballot, o: string)
    requires b in ballots && o in b && o in remaining
    ensures Counted(ballots, remaining) > 0
  {
    CountedMeaning(ballots, remaining);
    if b != ballots[0] {
      CountedMeaning(ballots[1..], remaining);
      ListedIsCounted(ballots[1..], remaining, b, o);
    }
  }

  /** While every remaining option stands on some ballot, no round finds nothing to count. */
  lemma {:induction false} AlwaysVotesLeft(ballots: seq<Ballot>, remaining: set<string>)
    requires remaining != {} && remaining <= AllOptions(ballots)
    ensures Irv(ballots, remaining) != NoValidVotes
    decreases |remaining|
  {
    var o :| o in remaining;
    var b :| b in ballots && o in b;
    ListedIsCounted(ballots, remaining, b, o);
    if !Decides(ballots, remaining) {
      EliminationShrinks(ballots, remaining);
      AlwaysVotesLeft(ballots, remaining - Lowest(ballots, remaining));
    }
  }

  lemma {:induction false} NonEmptyMembers(ballots: seq<Ballot>)
    ensures forall b :: b in NonEmpty(ballots) <==> b in ballots && b != []
  {
    if ballots != [] {
      NonEmptyMembers(ballots[1..]);
      assert ballots == [ballots[0]] + ballots[1..];
    }
  }

  /** The whole count never reports that the loop ended without a decision, nor that no valid vote was left. */
  lemma ClosingReturnUnreachable(ballots: seq<Ballot>)
    ensures Outcome(ballots) != LoopEnded && Outcome(ballots) != NoValidVotes
  {
    if ballots != [] && AllOptions(ballots) != {} {
      NonEmptyMembers(ballots);
      assert AllOptions(NonEmpty(ballots)) == AllOptions(ballots);
      Progress(NonEmpty(ballots), AllOptions(ballots));
      AlwaysVotesLeft(NonEmpty(ballots), AllOptions(ballots));
    }
  }

  /** How a count ends: no ballots, only empty ballots, or a winner or a tie. */
  lemma VerdictShape(ballots: seq<Ballot>)
    ensures Outcome(ballots) == NoBallots <==> ballots == []
    ensures Outcome(ballots) == NoOptions <==> ballots != [] && forall b :: b in ballots ==> b == []
    ensures Outcome(ballots).Adopted? || Outcome(ballots).Tie? <==> exists b :: b in ballots && b != []
  {
    ClosingReturnUnreachable(ballots);
    if b :| b in ballots && b != [] {
      assert b[0] in b && b[0] in AllOptions(ballots);
    }
    if ballots != [] && AllOptions(ballots) != {} {
      hide LastRound;
      VerdictOfLastRound(NonEmpty(ballots), AllOptions(ballots));
      var o :| o in AllOptions(ballots);
      var b :| b in ballots && o in b;
    }
  }

  // ----- what a verdict means -----

  function IndexOf(b: Ballot, o: string): nat
    ensures IndexOf(b, o) <= |b|
    ensures IndexOf(b, o) < |b| ==> b[IndexOf(b, o)] == o
  {
    if b == [] || b[0] == o then 0 else 1 + IndexOf(b[1..], o)
  }

  /** `o` is ranked, and ranked above `p` or `p` is not ranked at all. */
  predicate RanksAbove(b: Ballot, o: string, p: string) {
    o in b && IndexOf(b, o) < IndexOf(b, p)
  }

  function Supporters(ballots: seq<Ballot>, o: string, p: string): nat {
    if ballots == [] then 0
    else (if RanksAbove(ballots[0], o, p) then 1 else 0) + Supporters(ballots[1..], o, p)
  }

  lemma {:induction false} TopBeatsOthers(b: Ballot, remaining: set<string>, o: string, p: string)
    requires Top(b, remaining) == Some(o) && p in remaining && p != o
    ensures RanksAbove(b, o, p)
  {
    if b[0] !in remaining {
      TopBeatsOthers(b[1..], remaining, o, p);
    }
  }

  lemma {:induction false} TallySupports(ballots: seq<Ballot>, remaining: set<string>, o: string, p: string)
    requires p in remaining && p != o
    ensures Tally(ballots, remaining, o) <= Supporters(ballots, o, p)
  {
    if ballots != [] {
      TallySupports(ballots[1..], remaining, o, p);
      if Top(ballots[0], remaining) == Some(o) {
        TopBeatsOthers(ballots[0], remaining, o, p);
      }
    }
  }

  lemma {:induction false} VerdictOfLastRound(ballots: seq<Ballot>, remaining: set<string>)
    ensures Decides(ballots, LastRound(ballots, remaining))
    ensures Irv(ballots, remaining) == Decision(ballots, LastRound(ballots, remaining))
    decreases |remaining|
  {
    if !Decides(ballots, remaining) {
      EliminationShrinks(ballots, remaining);
      VerdictOfLastRound(ballots, remaining - Lowest(ballots, remaining));
    }
  }

  /**
   * A declared winner is ranked above each other option of the last round on more than half of
   * the ballots counted there.
   */
  lemma {:induction false} WinnerBeatsRemaining(ballots: seq<Ballot>, remaining: set<string>, p: string)
    requires Irv(ballots, remaining).Adopted?
    requires p in LastRound(ballots, remaining) && p != Irv(ballots, remaining).winner
    ensures var w := Irv(ballots, remaining).winner;
            && w in LastRound(ballots, remaining)
            && 2 * Supporters(ballots, w, p) > Counted(ballots, LastRound(ballots, remaining))
  {
    hide Irv, LastRound;
    var last := LastRound(ballots, remaining);
    VerdictOfLastRound(ballots, remaining);
    AdoptedHasMajority(ballots, last);
    TallySupports(ballots, last, Decision(ballots, last).winner, p);
  }

  lemma AdoptedHasMajority(ballots: seq<Ballot>, last: set<string>)
    requires Decides(ballots, last) && Decision(ballots, last).Adopted?
    ensures IsMajority(ballots, last, Decision(ballots, last).winner)
  {
  }

  /** The results reported with a winner are the first choices in the last round, of the options that have any. */
  lemma {:induction false} AdoptedResults(ballots: seq<Ballot>, remaining: set<string>, o: string)
    requires Irv(ballots, remaining).Adopted?
    ensures var last, results := LastRound(ballots, remaining), Irv(ballots, remaining).results;
            var w := Irv(ballots, remaining).winner;
            && (o in results <==> o in last && Tally(ballots, last, o) > 0)
            && (o in results ==> results[o] == Tally(ballots, last, o))
            && (o in results && o != w ==> w in results && results[o] < results[w])
  {
    hide Irv, LastRound;
    var last := LastRound(ballots, remaining);
    VerdictOfLastRound(ballots, remaining);
    AdoptedHasMajority(ballots, last);
    var w := Decision(ballots, last).winner;
    if o in last && o != w {
      TwoTallies(ballots, last, w, o);
    }
    NobodyTopsNothing(ballots, last);
    TallySplits(ballots, last, {}, w);
    TopInMonotone(ballots, last, {} + {w}, last);
  }

  /** A tie leaves exactly the tied options, all with the same number of first choices. */
  lemma {:induction false} TieIsEven(ballots: seq<Ballot>, remaining: set<string>)
    requires Irv(ballots, remaining).Tie?
    ensures var last := LastRound(ballots, remaining);
            && Irv(ballots, remaining).options == last
            && forall o, p :: o in last && p in last ==> Tally(ballots, last, o) == Tally(ballots, last, p)
  {
    hide Irv, LastRound;
    var last := LastRound(ballots, remaining);
    VerdictOfLastRound(ballots, remaining);
    TiedRound(ballots, last);
  }

  lemma {:induction false} TiedRound(ballots: seq<Ballot>, last: set<string>)
    requires Decides(ballots, last) && Decision(ballots, last).Tie?
    ensures Lowest(ballots, last) == last
    ensures forall o, p :: o in last && p in last ==> Tally(ballots, last, o) == Tally(ballots, last, p)
  {
    FullSubset(Lowest(ballots, last), last);
    forall o, p | o in last && p in last ensures Tally(ballots, last, o) == Tally(ballots, last, p) {
      assert IsLowest(ballots, last, o) && IsLowest(ballots, last, p);
    }
  }

  lemma FullSubset(a: set<string>, b: set<string>)
    requires a <= b && |b| <= |a|
    ensures a == b
  {
    assert b == a + (b - a);
  }

  // ----- first choices of more than half -----

  function FirstOn(ballots: seq<Ballot>, o: string): nat {
    if ballots == [] then 0
    else (if ballots[0] != [] && ballots[0][0] == o then 1 else 0) + FirstOn(ballots[1..], o)
  }

  lemma {:induction false} FirstRound(ballots: seq<Ballot>, remaining: set<string>, o: string)
    requires AllOptions(ballots) <= remaining
    ensures Counted(NonEmpty(ballots), remaining) == |NonEmpty(ballots)|
    ensures Tally(NonEmpty(ballots), remaining, o) == FirstOn(ballots, o)
  {
    if ballots != [] {
      assert AllOptions(ballots[1..]) <= AllOptions(ballots) by {
        assert forall b :: b in ballots[1..] ==> b in ballots;
      }
      FirstRound(ballots[1..], remaining, o);
      if ballots[0] != [] {
        assert ballots[0][0] in AllOptions(ballots) by {
          assert ballots[0] in ballots && ballots[0][0] in ballots[0];
        }
        assert NonEmpty(ballots)[0] == ballots[0] && NonEmpty(ballots)[1..] == NonEmpty(ballots[1..]);
        assert Top(ballots[0], remaining) == Some(ballots[0][0]);
      } else {
        assert NonEmpty(ballots) == NonEmpty(ballots[1..]);
      }
    }
  }

  lemma {:induction false} FirstIsAnOption(ballots: seq<Ballot>, o: string)
    requires FirstOn(ballots, o) > 0
    ensures o in AllOptions(ballots)
  {
    if ballots[0] != [] && ballots[0][0] == o {
      assert ballots[0] in ballots && o in ballots[0];
    } else {
      FirstIsAnOption(ballots[1..], o);
      var b :| b in ballots[1..] && o in b;
      assert b in ballots;
    }
  }

  /** An option listed first on more than half of the non-empty ballots is adopted. */
  lemma {:induction false} MajorityWins(ballots: seq<Ballot>, o: string)
    requires 2 * FirstOn(ballots, o) > |NonEmpty(ballots)|
    ensures Outcome(ballots).Adopted? && Outcome(ballots).winner == o
  {
    var all := AllOptions(ballots);
    FirstRound(ballots, all, o);
    FirstIsAnOption(ballots, o);
    assert IsMajority(NonEmpty(ballots), all, o);
    forall p | IsMajority(NonEmpty(ballots), all, p) ensures p == o {
      MajorityUnique(NonEmpty(ballots), all, o, p);
    }
  }

  /**
   * The round's counter has no entry for an option without first choices, so such an option is not
   * eliminated as lowest and can win from behind.
   */
  lemma {:induction false} UnsupportedOptionSurvives(ballots: seq<Ballot>, remaining: set<string>, o: string)
    requires !Decides(ballots, remaining) && o in remaining && Tally(ballots, remaining, o) == 0
    ensures Irv(ballots, remaining) == Irv(ballots, remaining - Lowest(ballots, remaining))
    ensures o in remaining - Lowest(ballots, remaining)
  {
  }

  // ----- when the elimination really takes the fewest -----

  /** The remaining options with the fewest first choices, none at all included. */
  ghost function Fewest(ballots: seq<Ballot>, remaining: set<string>): set<string> {
    set o | o in remaining
            && forall p :: p in remaining ==> Tally(ballots, remaining, o) <= Tally(ballots, remaining, p)
  }

  /** In every round that eliminates, those eliminated are the remaining options with the fewest first choices. */
  ghost predicate EliminatesFewest(ballots: seq<Ballot>, remaining: set<string>)
    decreases |remaining|
  {
    Decides(ballots, remaining)
    || (EliminationShrinks(ballots, remaining);
        && Lowest(ballots, remaining) == Fewest(ballots, remaining)
        && EliminatesFewest(ballots, remaining - Lowest(ballots, remaining)))
  }

  ghost predicate AllSupported(ballots: seq<Ballot>, remaining: set<string>) {
    forall o :: o in remaining ==> Tally(ballots, remaining, o) > 0
  }

  /** An option that stays in loses no first choice when others go. */
  lemma {:induction false} SupportStays(ballots: seq<Ballot>, remaining: set<string>, fewer: set<string>, o: string)
    requires o in fewer && fewer <= remaining
    ensures Tally(ballots, remaining, o) <= Tally(ballots, fewer, o)
  {
    if ballots != [] {
      SupportStays(ballots[1..], remaining, fewer, o);
      if Top(ballots[0], remaining) == Some(o) {
        TopStays(ballots[0], remaining, fewer, o);
      }
    }
  }

  lemma {:induction false} TopStays(b: Ballot, remaining: set<string>, fewer: set<string>, o: string)
    requires o in fewer && fewer <= remaining && Top(b, remaining) == Some(o)
    ensures Top(b, fewer) == Some(o)
  {
    if b[0] !in remaining {
      TopStays(b[1..], remaining, fewer, o);
    }
  }

  lemma {:induction false} LowestAreFewestIff(ballots: seq<Ballot>, remaining: set<string>)
    requires !Decides(ballots, remaining)
    ensures Lowest(ballots, remaining) == Fewest(ballots, remaining) <==> AllSupported(ballots, remaining)
  {
    LowestNonEmpty(ballots, remaining);
    if AllSupported(ballots, remaining) {
      assert Results(ballots, remaining).Keys == remaining;
    } else {
      var z :| z in remaining && Tally(ballots, remaining, z) == 0;
      assert z in Fewest(ballots, remaining) && z !in Lowest(ballots, remaining);
    }
  }

  /**
   * The elimination takes the lowest-ranked options in every round exactly when the first round
   * decides at once or every option has a first choice in it.
   */
  lemma {:induction false} EliminatesFewestIff(ballots: seq<Ballot>, remaining: set<string>)
    ensures EliminatesFewest(ballots, remaining) <==> Decides(ballots, remaining) || AllSupported(ballots, remaining)
    decreases |remaining|
  {
    if !Decides(ballots, remaining) {
      var fewer := remaining - Lowest(ballots, remaining);
      EliminationShrinks(ballots, remaining);
      LowestAreFewestIff(ballots, remaining);
      EliminatesFewestIff(ballots, fewer);
      if AllSupported(ballots, remaining) {
        forall o | o in fewer ensures Tally(ballots, fewer, o) > 0 {
          SupportStays(ballots, remaining, fewer, o);
        }
      }
    }
  }

  /** For a whole count: exactly when it is decided at once or every option listed is somebody's first. */
  lemma {:induction false} CountEliminatesFewestIff(ballots: seq<Ballot>)
    ensures var all := AllOptions(ballots);
            EliminatesFewest(NonEmpty(ballots), all)
            <==> Decides(NonEmpty(ballots), all) || forall o :: o in all ==> FirstOn(ballots, o) > 0
  {
    var all := AllOptions(ballots);
    EliminatesFewestIff(NonEmpty(ballots), all);
    forall o ensures Tally(NonEmpty(ballots), all, o) == FirstOn(ballots, o) {
      FirstRound(ballots, all, o);
    }
  }

  lemma {:induction false} TwoBallots(x: Ballot, y: Ballot, remaining: set<string>)
    requires |x| == |y| == 2
    ensures NonEmpty([x, y]) == [x, y]
    ensures forall o :: Tally([x, y], remaining, o) == Vote(x, remaining, o) + Vote(y, remaining, o)
    ensures Counted([x, y], remaining)
         == (if Top(x, remaining).Some? then 1 else 0) + (if Top(y, remaining).Some? then 1 else 0)
    ensures Top(x, remaining)
         == if x[0] in remaining then Some(x[0]) else if x[1] in remaining then Some(x[1]) else None
    ensures Top(y, remaining)
         == if y[0] in remaining then Some(y[0]) else if y[1] in remaining then Some(y[1]) else None
  {
    assert [] + [x] == [x] && [x] + [y] == [x, y];
    NonEmptyAppend([], x);
    NonEmptyAppend([x], y);
    forall o ensures Tally([x, y], remaining, o) == Vote(x, remaining, o) + Vote(y, remaining, o) {
      TallyAppend([], x, remaining, o);
      TallyAppend([x], y, remaining, o);
    }
    var both, one := [x, y], [y];
    assert both[0] == x && both[1..] == one && one[0] == y && one[1..] == [];
    assert x[1..] == [x[1]] && y[1..] == [y[1]];
    TopRemains(x, remaining);
    TopRemains(y, remaining);
    CountedMeaning(both, remaining);
    assert StillRanking(one, remaining) == if Top(y, remaining).Some? then 1 else 0;
  }

  /** Two ballots with different first choices and the same last one: the first round eliminates both firsts. */
  lemma {:induction false} TwoFirsts()
    ensures var ballots := [["A", "Z"], ["B", "Z"]];
            && !Decides(ballots, {"A", "B", "Z"}) && Lowest(ballots, {"A", "B", "Z"}) == {"A", "B"}
            && Tally(ballots, {"A", "B", "Z"}, "Z") == 0
  {
    hide Tally, TopIn, Top;
    var x, y := ["A", "Z"], ["B", "Z"];
    var all := {"A", "B", "Z"};
    TwoBallots(x, y, all);
    assert Results([x, y], all) == map["A" := 1, "B" := 1];
    assert Lowest([x, y], all) == {"A", "B"};
    assert |all| == 3;
  }

  /** Where the condition fails: an option that was nobody's first choice outlives the others and wins. */
  lemma {:induction false} NobodysFirstChoiceCanWin()
    ensures Outcome([["A", "Z"], ["B", "Z"]]) == Adopted("Z", map["Z" := 2])
    ensures !EliminatesFewest([["A", "Z"], ["B", "Z"]], {"A", "B", "Z"})
  {
    hide EliminatesFewest, Tally, TopIn, Top, Irv, NonEmpty, Decides, Lowest;
    var x, y := ["A", "Z"], ["B", "Z"];
    var all := {"A", "B", "Z"};
    assert AllOptions([x, y]) == all by {
      assert x in [x, y] && y in [x, y];
      assert x[0] in x && x[1] in x && y[0] in y;
    }
    TwoFirsts();
    EliminatesFewestIff([x, y], all);
    TwoBallots(x, y, all);
    UnsupportedOptionSurvives([x, y], all, "Z");
    assert all - {"A", "B"} == {"Z"};
    TwoBallots(x, y, {"Z"});
    MajorityDecides([x, y], {"Z"}, "Z");
    assert Results([x, y], {"Z"}) == map["Z" := 2];
  }

  // ----- the order of the ballots does not matter -----

  lemma {:induction false} TallyWithout(ballots: seq<Ballot>, remaining: set<string>, o: string, i: nat)
    requires i < |ballots|
    ensures Tally(ballots, remaining, o)
         == Vote(ballots[i], remaining, o) + Tally(ballots[..i] + ballots[i + 1..], remaining, o)
  {
    if i == 0 {
      assert ballots[..0] + ballots[1..] == ballots[1..];
    } else {
      TallyWithout(ballots[1..], remaining, o, i - 1);
      var less := ballots[..i] + ballots[i + 1..];
      assert less[0] == ballots[0] && less[1..] == ballots[1..][..i - 1] + ballots[1..][i..];
    }
  }

  lemma {:induction false} TallyPermuted(a: seq<Ballot>, b: seq<Ballot>, remaining: set<string>, o: string)
    requires multiset(a) == multiset(b)
    ensures Tally(a, remaining, o) == Tally(b, remaining, o)
    decreases |a|
  {
    if a == [] {
      assert |b| == |multiset(b)| == 0;
    } else {
      var i := RemoveOne(a, b);
      TallyPermuted(a[1..], b[..i] + b[i + 1..], remaining, o);
      TallyWithout(b, remaining, o, i);
    }
  }

  lemma {:induction false} CountedFromTallies(a: seq<Ballot>, b: seq<Ballot>, remaining: set<string>, s: set<string>)
    requires forall o :: Tally(a, remaining, o) == Tally(b, remaining, o)
    ensures TopIn(a, remaining, s) == TopIn(b, remaining, s)
    decreases |s|
  {
    if s == {} {
      NobodyTopsNothing(a, remaining);
      NobodyTopsNothing(b, remaining);
    } else {
      var o :| o in s;
      assert s == (s - {o}) + {o};
      CountedFromTallies(a, b, remaining, s - {o});
      TallySplits(a, remaining, s - {o}, o);
      TallySplits(b, remaining, s - {o}, o);
    }
  }

  /** Two lists of ballots give every option the same first choices, whatever remains. */
  ghost predicate SameTallies(a: seq<Ballot>, b: seq<Ballot>) {
    forall remaining, o :: Tally(a, remaining, o) == Tally(b, remaining, o)
  }

  lemma SameRound(a: seq<Ballot>, b: seq<Ballot>, remaining: set<string>)
    requires SameTallies(a, b)
    ensures Counted(a, remaining) == Counted(b, remaining)
    ensures Results(a, remaining) == Results(b, remaining) && Lowest(a, remaining) == Lowest(b, remaining)
    ensures forall o :: IsMajority(a, remaining, o) == IsMajority(b, remaining, o)
  {
    CountedFromTallies(a, b, remaining, remaining);
  }

  lemma SameDecision(a: seq<Ballot>, b: seq<Ballot>, remaining: set<string>)
    requires SameTallies(a, b)
    ensures Decides(a, remaining) == Decides(b, remaining)
    ensures Decides(a, remaining) ==> Decision(a, remaining) == Decision(b, remaining)
  {
    SameRound(a, b, remaining);
    if HasMajority(a, remaining) {
      var o :| IsMajority(a, remaining, o);
      forall p | IsMajority(a, remaining, p) ensures p == o {
        MajorityUnique(a, remaining, o, p);
      }
    }
  }

  lemma {:induction false} IrvFromTallies(a: seq<Ballot>, b: seq<Ballot>, remaining: set<string>)
    requires SameTallies(a, b)
    ensures Irv(a, remaining) == Irv(b, remaining)
    decreases |remaining|
  {
    SameDecision(a, b, remaining);
    SameRound(a, b, remaining);
    if !Decides(a, remaining) {
      EliminationShrinks(a, remaining);
      IrvFromTallies(a, b, remaining - Lowest(a, remaining));
    }
  }

  lemma {:induction false} NonEmptyCount(ballots: seq<Ballot>, b: Ballot)
    ensures multiset(NonEmpty(ballots))[b] == if b == [] then 0 else multiset(ballots)[b]
  {
    if ballots != [] {
      NonEmptyCount(ballots[1..], b);
      assert ballots == [ballots[0]] + ballots[1..];
    }
  }

  /** Decision, winner, counts and tied options depend only on the multiset of ballots. */
  lemma OutcomePermuted(a: seq<Ballot>, b: seq<Ballot>)
    requires multiset(a) == multiset(b)
    ensures Outcome(a) == Outcome(b)
  {
    assert |a| == |multiset(a)| == |multiset(b)| == |b|;
    assert forall x :: x in a <==> x in multiset(a);
    assert forall x :: x in b <==> x in multiset(b);
    assert AllOptions(a) == AllOptions(b);
    forall x ensures multiset(NonEmpty(a))[x] == multiset(NonEmpty(b))[x] {
      NonEmptyCount(a, x);
      NonEmptyCount(b, x);
    }
    assert multiset(NonEmpty(a)) == multiset(NonEmpty(b));
    forall remaining, o ensures Tally(NonEmpty(a), remaining, o) == Tally(NonEmpty(b), remaining, o) {
      TallyPermuted(NonEmpty(a), NonEmpty(b), remaining, o);
    }
    IrvFromTallies(NonEmpty(a), NonEmpty(b), AllOptions(a));
  }

  // ----- the count itself, step by step -----

  lemma {:induction false} TopAppend(b: Ballot, o: string, remaining: set<string>)
    ensures Top(b + [o], remaining) ==
            if Top(b, remaining).Some? then Top(b, remaining) else if o in remaining then Some(o) else None
  {
    if b == [] {
      assert b + [o] == [o];
    } else {
      assert (b + [o])[0] == b[0] && (b + [o])[1..] == b[1..] + [o];
      TopAppend(b[1..], o, remaining);
    }
  }

  /** The keys of a ballot's rank table: each listed option once, at its first place. */
  method RankTable(ranking: Ballot) returns (keys: Ballot)
    ensures NoDup(keys) && Elements(keys) == Elements(ranking)
    ensures forall remaining :: Top(keys, remaining) == Top(ranking, remaining)
  {
    keys := [];
    for i := 0 to |ranking|
      invariant NoDup(keys) && Elements(keys) == Elements(ranking[..i])
      invariant forall remaining :: Top(keys, remaining) == Top(ranking[..i], remaining)
    {
      var o := ranking[i];
      assert ranking[..i + 1] == ranking[..i] + [o];
      var longer := if o in keys then keys else keys + [o];
      forall remaining ensures Top(longer, remaining) == Top(ranking[..i + 1], remaining) {
        TopAppend(ranking[..i], o, remaining);
        TopAppend(keys, o, remaining);
        TopRemains(keys, remaining);
      }
      if o !in keys {
        NoDupSnoc(keys, o);
      }
      keys := longer;
    }
    assert ranking[..|ranking|] == ranking;
  }

  lemma {:induction false} TallyAppend(ballots: seq<Ballot>, b: Ballot, remaining: set<string>, o: string)
    ensures Tally(ballots + [b], remaining, o) == Tally(ballots, remaining, o) + Vote(b, remaining, o)
  {
    if ballots == [] {
      assert ballots + [b] == [b];
    } else {
      assert (ballots + [b])[0] == ballots[0] && (ballots + [b])[1..] == ballots[1..] + [b];
      TallyAppend(ballots[1..], b, remaining, o);
    }
  }

  method FirstRemaining(b: Ballot, remaining: seq<string>) returns (top: Option<string>)
    ensures top == Top(b, Elements(remaining))
  {
    for i := 0 to |b|
      invariant Top(b, Elements(remaining)) == Top(b[i..], Elements(remaining))
    {
      if b[i] in remaining {
        return Some(b[i]);
      }
      assert b[i..][1..] == b[i + 1..];
    }
    return None;
  }

  method CountFirst(ballots: seq<Ballot>, remaining: seq<string>) returns (first: map<string, nat>)
    ensures first == Results(ballots, Elements(remaining))
  {
    ghost var left := Elements(remaining);
    first := map[];
    for i := 0 to |ballots|
      invariant first == Results(ballots[..i], left)
    {
      var top := FirstRemaining(ballots[i], remaining);
      TopRemains(ballots[i], left);
      assert ballots[..i + 1] == ballots[..i] + [ballots[i]];
      forall o ensures Tally(ballots[..i + 1], left, o) == Tally(ballots[..i], left, o) + Vote(ballots[i], left, o) {
        TallyAppend(ballots[..i], ballots[i], left, o);
      }
      if top.Some? {
        first := first[top.value := (if top.value in first then first[top.value] else 0) + 1];
      }
    }
    assert ballots[..|ballots|] == ballots;
  }

  lemma {:induction false} TalliedIsCounted(ballots: seq<Ballot>, remaining: set<string>, s: set<string>)
    requires forall o :: o in remaining && Tally(ballots, remaining, o) > 0 ==> o in s
    ensures TopIn(ballots, remaining, s) == TopIn(ballots, remaining, s + remaining)
  {
    if ballots != [] {
      TalliedIsCounted(ballots[1..], remaining, s);
      TopRemains(ballots[0], remaining);
    }
  }

  /** The sum of a round's counts is the number of ballots that still rank a remaining option. */
  method Total(first: map<string, nat>, ghost ballots: seq<Ballot>, ghost remaining: set<string>) returns (total: nat)
    requires first == Results(ballots, remaining)
    ensures total == Counted(ballots, remaining)
  {
    total := 0;
    var keys := first.Keys;
    NobodyTopsNothing(ballots, remaining);
    assert first.Keys - keys == {};
    while keys != {}
      invariant keys <= first.Keys
      invariant total == TopIn(ballots, remaining, first.Keys - keys)
    {
      var o :| o in keys;
      TallySplits(ballots, remaining, first.Keys - keys, o);
      assert first.Keys - keys + {o} == first.Keys - (keys - {o});
      total := total + first[o];
      keys := keys - {o};
    }
    assert first.Keys - keys == first.Keys;
    TalliedIsCounted(ballots, remaining, first.Keys);
    assert first.Keys + remaining == remaining;
  }

  method FindMajority(first: map<string, nat>, total: nat) returns (winner: Option<string>)
    ensures winner.Some? ==> winner.value in first && 2 * first[winner.value] > total
    ensures winner.None? ==> forall o :: o in first ==> 2 * first[o] <= total
  {
    var keys := first.Keys;
    while keys != {}
      invariant keys <= first.Keys
      invariant forall o :: o in first && o !in keys ==> 2 * first[o] <= total
    {
      var o :| o in keys;
      if 2 * first[o] > total {
        return Some(o);
      }
      keys := keys - {o};
    }
    return None;
  }

  method FewestFirst(first: map<string, nat>) returns (least: nat)
    requires first != map[]
    ensures exists o :: o in first && first[o] == least
    ensures forall o :: o in first ==> least <= first[o]
  {
    var o :| o in first.Keys;
    least := first[o];
    var keys := first.Keys - {o};
    while keys != {}
      invariant keys <= first.Keys
      invariant exists o :: o in first && first[o] == least
      invariant forall o :: o in first && o !in keys ==> least <= first[o]
    {
      var p :| p in keys;
      if first[p] < least {
        least := first[p];
      }
      keys := keys - {p};
    }
  }

  method Remove(options: seq<string>, o: string) returns (rest: seq<string>)
    requires NoDup(options) && o in options
    ensures NoDup(rest) && Elements(rest) == Elements(options) - {o}
    ensures |rest| == |options| - 1
  {
    var i :| 0 <= i < |options| && options[i] == o;
    rest := options[..i] + options[i + 1..];
    assert options == options[..i] + [options[i]] + options[i + 1..];
  }

  lemma {:induction false} MajorityDecides(ballots: seq<Ballot>, remaining: set<string>, o: string)
    requires IsMajority(ballots, remaining, o)
    ensures Irv(ballots, remaining) == Adopted(o, Results(ballots, remaining))
  {
    forall p | IsMajority(ballots, remaining, p) ensures p == o {
      MajorityUnique(ballots, remaining, o, p);
    }
    TallySplits(ballots, remaining, {}, o);
    TopInMonotone(ballots, remaining, {} + {o}, remaining);
  }

  lemma LeastAreLowest(ballots: seq<Ballot>, remaining: set<string>, least: nat)
    requires exists o :: o in Results(ballots, remaining) && Results(ballots, remaining)[o] == least
    requires forall o :: o in Results(ballots, remaining) ==> least <= Results(ballots, remaining)[o]
    ensures (set o | o in Results(ballots, remaining).Keys && Results(ballots, remaining)[o] == least)
         == Lowest(ballots, remaining)
    ensures {} != Lowest(ballots, remaining) <= remaining
  {
    var o :| o in Results(ballots, remaining) && Results(ballots, remaining)[o] == least;
    assert o in Lowest(ballots, remaining);
  }

  method Listed(s: set<string>) returns (l: seq<string>)
    ensures NoDup(l) && Elements(l) == s
  {
    l := [];
    var todo := s;
    while todo != {}
      invariant todo <= s && NoDup(l) && Elements(l) == s - todo
    {
      var o :| o in todo;
      NoDupSnoc(l, o);
      l, todo := l + [o], todo - {o};
    }
  }

  lemma {:induction false} SameTalliesAppend(a: seq<Ballot>, b: seq<Ballot>, x: Ballot, y: Ballot)
    requires SameTallies(a, b) && forall remaining :: Top(x, remaining) == Top(y, remaining)
    ensures SameTallies(a + [x], b + [y])
  {
    forall remaining, o ensures Tally(a + [x], remaining, o) == Tally(b + [y], remaining, o) {
      TallyAppend(a, x, remaining, o);
      TallyAppend(b, y, remaining, o);
    }
  }

  lemma {:induction false} NonEmptyAppend(ballots: seq<Ballot>, b: Ballot)
    ensures NonEmpty(ballots + [b]) == NonEmpty(ballots) + if b == [] then [] else [b]
  {
    if ballots == [] {
      assert ballots + [b] == [b];
    } else {
      assert (ballots + [b])[0] == ballots[0] && (ballots + [b])[1..] == ballots[1..] + [b];
      NonEmptyAppend(ballots[1..], b);
    }
  }

  /** How one round's counts settle the verdict or pass it on to the options that survive. */
  lemma {:induction false} RoundSettles(ballots: seq<Ballot>, remaining: set<string>)
    requires remaining != {}
    ensures var low := Lowest(ballots, remaining);
            Irv(ballots, remaining) ==
            if Counted(ballots, remaining) == 0 then NoValidVotes
            else if HasMajority(ballots, remaining) then Irv(ballots, remaining)
            else if |remaining| <= |low| then Tie(low)
            else Irv(ballots, remaining - low)
  {
    if !Decides(ballots, remaining) {
      assert Counted(ballots, remaining) != 0 && !HasMajority(ballots, remaining);
      assert |remaining| > |Lowest(ballots, remaining)|;
    } else if Counted(ballots, remaining) != 0 && !HasMajority(ballots, remaining) {
      assert |remaining| <= |Lowest(ballots, remaining)|;
    }
  }

  lemma NoMajority(ballots: seq<Ballot>, remaining: set<string>, total: nat)
    requires total == Counted(ballots, remaining) > 0
    requires forall o :: o in Results(ballots, remaining) ==> 2 * Results(ballots, remaining)[o] <= total
    ensures !HasMajority(ballots, remaining) && Results(ballots, remaining) != map[]
  {
    var somebody := SomebodyTallied(ballots, remaining);
    forall o ensures !IsMajority(ballots, remaining, o) {
      assert o in Results(ballots, remaining) <==> o in remaining && Tally(ballots, remaining, o) > 0;
    }
  }

  lemma MajorityFound(ballots: seq<Ballot>, remaining: set<string>, total: nat, o: string)
    requires total == Counted(ballots, remaining)
    requires o in Results(ballots, remaining) && 2 * Results(ballots, remaining)[o] > total
    ensures IsMajority(ballots, remaining, o)
  {
  }

  /** The rounds, over the options still listed and ballots turned into rank tables. */
  method IrvIterate(ballots: seq<Ballot>, options: seq<string>) returns (verdict: Verdict)
    requires NoDup(options)
    ensures verdict == Irv(ballots, Elements(options))
  {
    hide Irv, Results, Lowest, Counted, IsMajority, HasMajority, NoDup;
    var remaining := options;
    while remaining != []
      invariant NoDup(remaining)
      invariant Irv(ballots, Elements(options)) == Irv(ballots, Elements(remaining))
      decreases |remaining|
    {
      ghost var left := Elements(remaining);
      assert remaining[0] in left;
      RoundSettles(ballots, left);
      var first := CountFirst(ballots, remaining);
      var total := Total(first, ballots, left);
      if total == 0 {
        return NoValidVotes;
      }
      var winner := FindMajority(first, total);
      if winner.Some? {
        MajorityFound(ballots, left, total, winner.value);
        MajorityDecides(ballots, left, winner.value);
        return Adopted(winner.value, first);
      }
      NoMajority(ballots, left, total);
      var least := FewestFirst(first);
      var elim := set o | o in first.Keys && first[o] == least;
      LeastAreLowest(ballots, left, least);
      NoDupCard(remaining);
      if |remaining| <= |elim| {
        return Tie(elim);
      }
      remaining := RemoveAll(remaining, elim);
    }
    NothingLeft(ballots, Elements(remaining));
    return LoopEnded;
  }

  lemma {:induction false} NothingLeft(ballots: seq<Ballot>, remaining: set<string>)
    requires remaining == {}
    ensures Irv(ballots, remaining) == LoopEnded
  {
  }

  method RemoveAll(options: seq<string>, elim: set<string>) returns (rest: seq<string>)
    requires NoDup(options) && elim <= Elements(options)
    ensures NoDup(rest) && Elements(rest) == Elements(options) - elim
    ensures |rest| + |elim| == |options|
  {
    rest := options;
    var todo := elim;
    while todo != {}
      invariant todo <= elim && NoDup(rest)
      invariant Elements(rest) == (Elements(options) - elim) + todo
      invariant |rest| + |elim| == |options| + |todo|
    {
      var o :| o in todo;
      rest := Remove(rest, o);
      todo := todo - {o};
    }
  }

  method Count(ballots: seq<Ballot>) returns (verdict: Verdict)
    ensures verdict == Outcome(ballots)
    ensures verdict == NoBallots <==> ballots == []
    ensures verdict == NoOptions <==> ballots != [] && forall b :: b in ballots ==> b == []
  {
    VerdictShape(ballots);
    if ballots == [] {
      return NoBallots;
    }
    var allOptions: set<string> := {};
    for i := 0 to |ballots|
      invariant allOptions == AllOptions(ballots[..i])
    {
      allOptions := allOptions + (set o | o in ballots[i]);
      assert AllOptions(ballots[..i + 1]) == allOptions;
    }
    assert ballots[..|ballots|] == ballots;
    if allOptions == {} {
      return NoOptions;
    }
    var ranked: seq<Ballot> := [];
    for i := 0 to |ballots|
      invariant SameTallies(ranked, NonEmpty(ballots[..i]))
    {
      assert ballots[..i + 1] == ballots[..i] + [ballots[i]];
      NonEmptyAppend(ballots[..i], ballots[i]);
      if ballots[i] == [] {
        assert NonEmpty(ballots[..i + 1]) == NonEmpty(ballots[..i]);
      } else {
        var table := RankTable(ballots[i]);
        SameTalliesAppend(ranked, NonEmpty(ballots[..i]), table, ballots[i]);
        ranked := ranked + [table];
      }
    }
    var options := Listed(allOptions);
    verdict := IrvIterate(ranked, options);
    IrvFromTallies(ranked, NonEmpty(ballots), allOptions);
  }
}
