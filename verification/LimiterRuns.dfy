/** Whole runs of the per-agent token limiter: agents interleaved, limits set, changed and removed. */
module LimiterRuns {
  import opened TokenBuckets

  /** What can be asked of the limiter. */
  datatype Order =
    | SetLimit(agent: string, tpm: int, burst: real, at: real)
    | Drop(agent: string)
    | Take(agent: string, count: int, at: real)
    | Ask(agent: string, at: real)

  type Buckets = map<string, Bucket>

  function NextBuckets(buckets: Buckets, o: Order): Buckets {
    match o
    case Drop(agent) => buckets - {agent}
    case SetLimit(agent, tpm, burst, at) =>
      if tpm <= 0 then buckets - {agent}
      else if agent in buckets then buckets[agent := Reconfigure(buckets[agent], tpm, burst)]
      else buckets[agent := NewBucket(tpm, burst, at)]
    case Take(agent, count, at) =>
      if agent in buckets then buckets[agent := Consume(buckets[agent], count, at)] else buckets
    case Ask(agent, at) =>
      if agent in buckets then buckets[agent := Refill(buckets[agent], at)] else buckets
  }

  function BucketsAfter(orders: seq<Order>): Buckets {
    if orders == [] then map[] else NextBuckets(BucketsAfter(orders[..|orders| - 1]), orders[|orders| - 1])
  }

  predicate Removes(o: Order, agent: string) {
    o == Drop(agent) || (o.SetLimit? && o.agent == agent && o.tpm <= 0)
  }

  /** The tokens an order takes out of its agent's bucket. */
  function Taken(buckets: Buckets, o: Order): real {
    if o.Take? && o.agent in buckets && Affords(buckets[o.agent], o.count, o.at) then o.count as real else 0.0
  }

  /** What was granted against one agent's limit within a window, since the limit was last removed. */
  function GrantedWithin(orders: seq<Order>, agent: string, from: real, to: real): real {
    if orders == [] then 0.0
    else
      var front, last := orders[..|orders| - 1], orders[|orders| - 1];
      if Removes(last, agent) then 0.0
      else
        GrantedWithin(front, agent, from, to)
        + if last.Take? && last.agent == agent && from <= last.at <= to then Taken(BucketsAfter(front), last) else 0.0
  }

  // ----- what one agent's bucket lives through -----

  datatype Life = Unlimited | Live(first: Bucket, events: seq<Event>)

  function Lived(life: Life, o: Order): Life {
    match o
    case Drop(_) => Unlimited
    case SetLimit(_, tpm, burst, at) =>
      if tpm <= 0 then Unlimited
      else if life.Live? then life.(events := life.events + [Configure(tpm, burst)])
      else Live(NewBucket(tpm, burst, at), [])
    case Take(_, count, at) => if life.Live? then life.(events := life.events + [Spend(count, at)]) else life
    case Ask(_, at) => if life.Live? then life.(events := life.events + [Look(at)]) else life
  }

  /** The bucket an agent has now: when it was made, and what happened to it since. */
  function LifeOf(orders: seq<Order>, agent: string): Life {
    if orders == [] then Unlimited
    else
      var life := LifeOf(orders[..|orders| - 1], agent);
      if orders[|orders| - 1].agent == agent then Lived(life, orders[|orders| - 1]) else life
  }

  lemma {:induction false} AfterSnoc(b: Bucket, events: seq<Event>, ev: Event)
    ensures After(b, events + [ev]) == Next(After(b, events), ev)
    decreases |events|
  {
    if events == [] {
      assert events + [ev] == [ev] && [ev][1..] == [];
    } else {
      assert (events + [ev])[0] == events[0] && (events + [ev])[1..] == events[1..] + [ev];
      AfterSnoc(Next(b, events[0]), events[1..], ev);
    }
  }

  /** Other agents do not interfere: the bucket is the one its own life leads to. */
  lemma {:induction false} LifeLeadsToBucket(orders: seq<Order>, agent: string)
    ensures agent in BucketsAfter(orders) <==> LifeOf(orders, agent).Live?
    ensures agent in BucketsAfter(orders) ==>
              BucketsAfter(orders)[agent] == After(LifeOf(orders, agent).first, LifeOf(orders, agent).events)
  {
    hide Consume, Refill, Reconfigure, NewBucket;
    if orders != [] {
      var front, last := orders[..|orders| - 1], orders[|orders| - 1];
      LifeLeadsToBucket(front, agent);
      var life := LifeOf(front, agent);
      if last.agent == agent && life.Live? && !Removes(last, agent) {
        var ev := if last.SetLimit? then Configure(last.tpm, last.burst)
                  else if last.Take? then Spend(last.count, last.at) else Look(last.at);
        AfterSnoc(life.first, life.events, ev);
      }
    }
  }

  // ----- grants inside a window -----

  /** What a run of one bucket grants inside a window, whatever happens before and after. */
  function GrantedIn(b: Bucket, events: seq<Event>, from: real, to: real): real
    decreases |events|
  {
    if events == [] then 0.0
    else
      (if Timed(events[0]) && from <= events[0].at <= to then Granted(b, events[0]) else 0.0)
      + GrantedIn(Next(b, events[0]), events[1..], from, to)
  }

  lemma {:induction false} GrantedInSnoc(b: Bucket, events: seq<Event>, ev: Event, from: real, to: real)
    ensures GrantedIn(b, events + [ev], from, to)
         == GrantedIn(b, events, from, to)
            + if Timed(ev) && from <= ev.at <= to then Granted(After(b, events), ev) else 0.0
    decreases |events|
  {
    hide Granted, Next;
    if events == [] {
      assert events + [ev] == [ev] && [ev][1..] == [];
    } else {
      assert (events + [ev])[0] == events[0] && (events + [ev])[1..] == events[1..] + [ev];
      GrantedInSnoc(Next(b, events[0]), events[1..], ev, from, to);
    }
  }

  lemma {:induction false} NothingLate(
      b: Bucket, events: seq<Event>, maxCapacity: real, maxRate: real, from: real, to: real)
    requires Orderly(b, events, maxCapacity, maxRate) && b.last > to
    ensures GrantedIn(b, events, from, to) == 0.0
    decreases |events|
  {
    hide Earned, Level;
    if events != [] {
      NothingLate(Next(b, events[0]), events[1..], maxCapacity, maxRate, from, to);
    }
  }

  lemma {:induction false} GrantedInFromLevel(
      b: Bucket, events: seq<Event>, maxCapacity: real, maxRate: real, from: real, to: real)
    requires Orderly(b, events, maxCapacity, maxRate) && b.last <= to && b.tokens >= 0.0
    ensures GrantedIn(b, events, from, to) <= b.tokens + Earned(b.last, to, maxRate)
    decreases |events|
  {
    hide Earned, Level;
    if events == [] {
      EarnedNonNegative(b.last, to, maxRate);
    } else {
      var ev, b' := events[0], Next(b, events[0]);
      if !Timed(ev) {
        GrantedInFromLevel(b', events[1..], maxCapacity, maxRate, from, to);
      } else if ev.at > to {
        NothingLate(b', events[1..], maxCapacity, maxRate, from, to);
        EarnedNonNegative(b.last, to, maxRate);
      } else {
        LevelBound(b, ev.at, maxRate);
        StepAccounts(b, ev);
        NotOverdrawn(b, ev.at);
        GrantedInFromLevel(b', events[1..], maxCapacity, maxRate, from, to);
        PaidFor(Granted(b, ev), b'.tokens, GrantedIn(b', events[1..], from, to), b.tokens, b.last, ev.at, to, maxRate);
      }
    }
  }

  lemma {:induction false} WindowEnvelope(
      b: Bucket, events: seq<Event>, maxCapacity: real, maxRate: real, from: real, to: real)
    requires Orderly(b, events, maxCapacity, maxRate) && from <= to && b.tokens >= 0.0
    ensures GrantedIn(b, events, from, to) <= maxCapacity + Earned(from, to, maxRate)
    decreases |events|
  {
    hide Earned;
    EarnedNonNegative(from, to, maxRate);
    if events != [] {
      var ev, b' := events[0], Next(b, events[0]);
      if Timed(ev) {
        NotOverdrawn(b, ev.at);
        StepAccounts(b, ev);
      }
      if !Timed(ev) || ev.at < from {
        WindowEnvelope(b', events[1..], maxCapacity, maxRate, from, to);
      } else if ev.at > to {
        NothingLate(b', events[1..], maxCapacity, maxRate, from, to);
      } else {
        GrantedInFromLevel(b', events[1..], maxCapacity, maxRate, from, to);
        EarnedNonNegative(from, ev.at, maxRate);
        PaidFor(Granted(b, ev), b'.tokens, GrantedIn(b', events[1..], from, to), maxCapacity, from, ev.at, to, maxRate);
      }
    }
  }

  // ----- runs of the limiter -----

  predicate IsTimed(o: Order) {
    !o.Drop?
  }

  /** The clock never runs backwards, nothing negative is taken, and live limits stay within bounds. */
  ghost predicate OrdersFit(orders: seq<Order>, maxCapacity: real, maxRate: real) {
    && (forall i, j :: 0 <= i < j < |orders| && IsTimed(orders[i]) && IsTimed(orders[j])
                       ==> orders[i].at <= orders[j].at)
    && (forall o :: o in orders ==> OrderFits(o, maxCapacity, maxRate))
  }

  predicate OrderFits(o: Order, maxCapacity: real, maxRate: real) {
    match o
    case SetLimit(_, tpm, burst, _) =>
      tpm > 0 ==> burst > 0.0 && 0.0 <= tpm as real * burst <= maxCapacity && tpm as real / 60.0 <= maxRate
    case Take(_, count, _) => count >= 0
    case _ => true
  }

  lemma FrontFits(orders: seq<Order>, maxCapacity: real, maxRate: real)
    requires orders != [] && OrdersFit(orders, maxCapacity, maxRate)
    ensures OrdersFit(orders[..|orders| - 1], maxCapacity, maxRate)
    ensures OrderFits(orders[|orders| - 1], maxCapacity, maxRate)
    ensures forall o :: o in orders[..|orders| - 1] && IsTimed(o) && IsTimed(orders[|orders| - 1])
                        ==> o.at <= orders[|orders| - 1].at
  {
  }

  lemma {:induction false} OrderlySnoc(b: Bucket, events: seq<Event>, ev: Event, maxCapacity: real, maxRate: real)
    requires Orderly(b, events, maxCapacity, maxRate)
    requires Orderly(After(b, events), [ev], maxCapacity, maxRate)
    ensures Orderly(b, events + [ev], maxCapacity, maxRate)
    decreases |events|
  {
    hide Next;
    if events == [] {
      assert events + [ev] == [ev];
    } else {
      assert (events + [ev])[0] == events[0] && (events + [ev])[1..] == events[1..] + [ev];
      OrderlySnoc(Next(b, events[0]), events[1..], ev, maxCapacity, maxRate);
    }
  }

  /** No bucket has been touched later than the latest order. */
  lemma {:induction false} TouchedBefore(orders: seq<Order>, agent: string, now: real)
    requires forall o :: o in orders && IsTimed(o) ==> o.at <= now
    ensures agent in BucketsAfter(orders) ==> BucketsAfter(orders)[agent].last <= now
  {
    hide Level;
    if orders != [] {
      assert orders[|orders| - 1] in orders;
      assert forall o :: o in orders[..|orders| - 1] ==> o in orders;
      TouchedBefore(orders[..|orders| - 1], agent, now);
    }
  }

  lemma {:induction false} OrderlyNow(b: Bucket, events: seq<Event>, maxCapacity: real, maxRate: real)
    requires Orderly(b, events, maxCapacity, maxRate)
    ensures Orderly(After(b, events), [], maxCapacity, maxRate)
    decreases |events|
  {
    hide Next;
    if events != [] {
      OrderlyNow(Next(b, events[0]), events[1..], maxCapacity, maxRate);
    }
  }

  lemma {:induction false} OrderlyOne(b: Bucket, ev: Event, maxCapacity: real, maxRate: real)
    requires Orderly(b, [], maxCapacity, maxRate)
    requires match ev
             case Spend(count, at) => count >= 0 && at >= b.last
             case Look(at) => at >= b.last
             case Configure(tpm, burst) =>
               tpm > 0 && burst > 0.0 && 0.0 <= tpm as real * burst <= maxCapacity && tpm as real / 60.0 <= maxRate
    ensures Orderly(b, [ev], maxCapacity, maxRate)
  {
    assert [ev][1..] == [];
  }

  lemma {:induction false} NewBucketFits(o: Order, maxCapacity: real, maxRate: real, from: real, to: real)
    requires o.SetLimit? && o.tpm > 0 && OrderFits(o, maxCapacity, maxRate)
    ensures var b := NewBucket(o.tpm, o.burst, o.at);
            && Orderly(b, [], maxCapacity, maxRate) && b.tokens >= 0.0
            && GrantedIn(b, [], from, to) == 0.0
  {
  }

  /** Each bucket has lived through an orderly run, and its grants are those of that run. */
  lemma {:induction false} LivesAreOrderly(
      orders: seq<Order>, agent: string, maxCapacity: real, maxRate: real, from: real, to: real)
    requires OrdersFit(orders, maxCapacity, maxRate)
    ensures var life := LifeOf(orders, agent);
            if life.Live? then
              && Orderly(life.first, life.events, maxCapacity, maxRate) && life.first.tokens >= 0.0
              && GrantedWithin(orders, agent, from, to) == GrantedIn(life.first, life.events, from, to)
            else GrantedWithin(orders, agent, from, to) == 0.0
  {
    hide Orderly, GrantedIn, OrdersFit, After, Affords, BucketsAfter, NewBucket;
    if orders != [] {
      var front, last := orders[..|orders| - 1], orders[|orders| - 1];
      FrontFits(orders, maxCapacity, maxRate);
      LivesAreOrderly(front, agent, maxCapacity, maxRate, from, to);
      LifeLeadsToBucket(front, agent);
      var life := LifeOf(front, agent);
      if last.agent == agent && life.Live? && !Removes(last, agent) {
        var ev := if last.SetLimit? then Configure(last.tpm, last.burst)
                  else if last.Take? then Spend(last.count, last.at) else Look(last.at);
        TouchedBefore(front, agent, last.at);
        LivesOn(life, ev, maxCapacity, maxRate, from, to);
      } else if last.SetLimit? && last.agent == agent && last.tpm > 0 {
        NewBucketFits(last, maxCapacity, maxRate, from, to);
      }
    }
  }

  lemma {:induction false} LivesOn(life: Life, ev: Event, maxCapacity: real, maxRate: real, from: real, to: real)
    requires life.Live? && Orderly(life.first, life.events, maxCapacity, maxRate)
    requires var b := After(life.first, life.events);
             match ev
             case Spend(count, at) => count >= 0 && at >= b.last
             case Look(at) => at >= b.last
             case Configure(tpm, burst) =>
               tpm > 0 && burst > 0.0 && 0.0 <= tpm as real * burst <= maxCapacity && tpm as real / 60.0 <= maxRate
    ensures Orderly(life.first, life.events + [ev], maxCapacity, maxRate)
    ensures GrantedIn(life.first, life.events + [ev], from, to)
         == GrantedIn(life.first, life.events, from, to)
            + if Timed(ev) && from <= ev.at <= to then Granted(After(life.first, life.events), ev) else 0.0
  {
    OrderlyNow(life.first, life.events, maxCapacity, maxRate);
    OrderlyOne(After(life.first, life.events), ev, maxCapacity, maxRate);
    OrderlySnoc(life.first, life.events, ev, maxCapacity, maxRate);
    GrantedInSnoc(life.first, life.events, ev, from, to);
  }

  /**
   * The envelope of the whole limiter: however agents, spends, status reads and limits interleave,
   * what is granted against an agent's limit within a window, since the limit was last removed, is
   * at most the largest capacity plus the largest rate times the window's length.
   */
  lemma {:induction false} LimiterEnvelope(
      orders: seq<Order>, agent: string, maxCapacity: real, maxRate: real, from: real, to: real)
    requires OrdersFit(orders, maxCapacity, maxRate) && from <= to && 0.0 <= maxCapacity && 0.0 <= maxRate
    ensures GrantedWithin(orders, agent, from, to) <= maxCapacity + Earned(from, to, maxRate)
  {
    LivesAreOrderly(orders, agent, maxCapacity, maxRate, from, to);
    EarnedNonNegative(from, to, maxRate);
    var life := LifeOf(orders, agent);
    if life.Live? {
      WindowEnvelope(life.first, life.events, maxCapacity, maxRate, from, to);
    }
    hide Earned, Orderly, GrantedIn, GrantedWithin, LifeOf;
  }

  /** Why only since the last removal: taking a limit away and setting it again fills the bucket up at once. */
  lemma {:induction false} RemovalRefills(orders: seq<Order>, agent: string, tpm: int, burst: real, at: real)
    requires tpm > 0
    ensures var after := BucketsAfter(orders + [SetLimit(agent, 0, burst, at), SetLimit(agent, tpm, burst, at)]);
            agent in after && after[agent] == NewBucket(tpm, burst, at)
  {
    var off, on := SetLimit(agent, 0, burst, at), SetLimit(agent, tpm, burst, at);
    var all := orders + [off, on];
    assert all[..|all| - 1] == orders + [off] && all[|all| - 1] == on;
    assert (orders + [off])[..|orders|] == orders && (orders + [off])[|orders|] == off;
  }
}
