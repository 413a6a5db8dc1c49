/**
 * Token buckets: the coordinator's, which refuses what it cannot pay for, and the client's, which
 * only ever deducts. Amounts and times are real numbers; the clock is an argument.
 */
module TokenBuckets {
  import opened Prelude

  datatype Bucket = Bucket(capacity: real, rate: real, tokens: real, last: real)

  function Min(a: real, b: real): real {
    if a <= b then a else b
  }

  /** What an interval earns at a given rate. */
  function Earned(from: real, to: real, rate: real): real {
    (to - from) * rate
  }

  /** What the bucket holds at `now`, refilled since it was last touched and capped. */
  function Level(b: Bucket, now: real): real {
    Min(b.capacity, b.tokens + Earned(b.last, now, b.rate))
  }

  function Refill(b: Bucket, now: real): Bucket {
    b.(tokens := Level(b, now), last := now)
  }

  predicate Affords(b: Bucket, count: int, now: real) {
    Level(b, now) >= count as real
  }

  function Consume(b: Bucket, count: int, now: real): Bucket {
    var r := Refill(b, now);
    if Affords(b, count, now) then r.(tokens := r.tokens - count as real) else r
  }

  /** Seconds until `needed` tokens are there; `None` stands for never. */
  function WaitTime(b: Bucket, needed: int, now: real): Option<real> {
    if Affords(b, needed, now) then Some(0.0)
    else if b.rate <= 0.0 then None
    else Some((needed as real - Level(b, now)) / b.rate)
  }

  function Full(capacity: real, rate: real, now: real): Bucket {
    Bucket(capacity, rate, capacity, now)
  }

  /** The bucket a new limit starts with. */
  function NewBucket(tpm: int, burst: real, now: real): Bucket {
    Full(tpm as real * burst, tpm as real / 60.0, now)
  }

  /** Reconfiguring keeps the level and the time of the last refill. */
  function Reconfigure(b: Bucket, tpm: int, burst: real): Bucket {
    b.(capacity := tpm as real * burst, rate := tpm as real / 60.0)
  }

  // ----- in plain numbers -----

  /** A spend is granted when it fits the capacity and what is there plus what the seconds since have earned. */
  lemma AffordsMeaning(b: Bucket, count: int, now: real)
    ensures Affords(b, count, now) <==>
            count as real <= b.capacity && count as real <= b.tokens + (now - b.last) * b.rate
  {
  }

  /**
   * A limit of `tpm` per minute: a new bucket grants up to `tpm` times the burst factor at once, and
   * after `spent` of it a sixtieth of `tpm` comes back per second, up to the same amount.
   */
  lemma NewLimitGrants(tpm: int, burst: real, start: real, spent: int, count: int, now: real)
    requires 0 <= spent && spent as real <= tpm as real * burst && start <= now
    ensures Affords(NewBucket(tpm, burst, start), spent, start)
    ensures Affords(Consume(NewBucket(tpm, burst, start), spent, start), count, now) <==>
            && count as real <= tpm as real * burst
            && count as real <= tpm as real * burst - spent as real + (now - start) * (tpm as real / 60.0)
  {
    var b := NewBucket(tpm, burst, start);
    NothingEarned(start, b.rate);
    AffordsMeaning(b, spent, start);
    AffordsMeaning(Consume(b, spent, start), count, now);
  }

  /** A changed limit keeps what was there; the time since the last refill is credited at the new rate. */
  lemma ChangedLimitGrants(b: Bucket, tpm: int, burst: real, count: int, now: real)
    ensures Affords(Reconfigure(b, tpm, burst), count, now) <==>
            && count as real <= tpm as real * burst
            && count as real <= b.tokens + (now - b.last) * (tpm as real / 60.0)
  {
    AffordsMeaning(Reconfigure(b, tpm, burst), count, now);
  }

  // ----- the envelope of a live bucket -----

  datatype Event = Spend(count: int, at: real) | Look(at: real) | Configure(tpm: int, burst: real)

  function Next(b: Bucket, ev: Event): Bucket {
    match ev
    case Spend(count, at) => Consume(b, count, at)
    case Look(at) => Refill(b, at)
    case Configure(tpm, burst) => Reconfigure(b, tpm, burst)
  }

  function Granted(b: Bucket, ev: Event): real {
    match ev
    case Spend(count, at) => if Affords(b, count, at) then count as real else 0.0
    case _ => 0.0
  }

  function After(b: Bucket, events: seq<Event>): Bucket
    decreases |events|
  {
    if events == [] then b else After(Next(b, events[0]), events[1..])
  }

  function TotalGranted(b: Bucket, events: seq<Event>): real
    decreases |events|
  {
    if events == [] then 0.0 else Granted(b, events[0]) + TotalGranted(Next(b, events[0]), events[1..])
  }

  /** The clock never runs backwards, nothing negative is spent, settings are positive and bounded. */
  ghost predicate Orderly(b: Bucket, events: seq<Event>, maxCapacity: real, maxRate: real)
    decreases |events|
  {
    && 0.0 <= b.capacity <= maxCapacity && 0.0 <= b.rate <= maxRate
    && (events != [] ==>
          && (match events[0]
              case Spend(count, at) => count >= 0 && at >= b.last
              case Look(at) => at >= b.last
              case Configure(tpm, burst) => tpm > 0 && burst > 0.0)
          && Orderly(Next(b, events[0]), events[1..], maxCapacity, maxRate))
  }

  predicate Timed(ev: Event) {
    !ev.Configure?
  }

  ghost predicate Within(events: seq<Event>, from: real, to: real) {
    forall ev :: ev in events && Timed(ev) ==> from <= ev.at <= to
  }

  lemma RateBound(t: real, rate: real, maxRate: real)
    requires 0.0 <= rate <= maxRate && t >= 0.0
    ensures 0.0 <= t * rate <= t * maxRate
  {
    assert t * maxRate == t * rate + t * (maxRate - rate);
  }

  lemma EarnedNonNegative(from: real, to: real, rate: real)
    requires from <= to && 0.0 <= rate
    ensures Earned(from, to, rate) >= 0.0
  {
    RateBound(to - from, rate, rate);
  }

  lemma SplitTime(t0: real, t1: real, t2: real, rate: real)
    ensures Earned(t0, t2, rate) == Earned(t1, t2, rate) + Earned(t0, t1, rate)
  {
  }

  lemma LevelBound(b: Bucket, now: real, maxRate: real)
    requires 0.0 <= b.rate <= maxRate && b.last <= now
    ensures Level(b, now) <= b.tokens + Earned(b.last, now, maxRate)
  {
    RateBound(now - b.last, b.rate, maxRate);
  }

  /** A grant and what follows it, against a level and the time from `t0` on. */
  lemma PaidFor(granted: real, tokens: real, rest: real, level: real, t0: real, t1: real, to: real, rate: real)
    requires rest <= tokens + Earned(t1, to, rate)
    requires tokens + granted <= level + Earned(t0, t1, rate)
    ensures granted + rest <= level + Earned(t0, to, rate)
  {
    SplitTime(t0, t1, to, rate);
  }

  /** A timed event refills first; what is then missing has been granted. */
  lemma StepAccounts(b: Bucket, ev: Event)
    requires Timed(ev)
    ensures Next(b, ev).last == ev.at && Next(b, ev).tokens + Granted(b, ev) == Level(b, ev.at)
  {
  }

  lemma NotOverdrawn(b: Bucket, now: real)
    requires now >= b.last && b.rate >= 0.0 && b.tokens >= 0.0 && b.capacity >= 0.0
    ensures Level(b, now) >= 0.0
  {
    hide Earned;
    EarnedNonNegative(b.last, now, b.rate);
  }

  lemma {:induction false} LaterWithin(events: seq<Event>, b: Bucket, maxCapacity: real, maxRate: real, to: real)
    requires Orderly(b, events, maxCapacity, maxRate)
    requires forall ev :: ev in events && Timed(ev) ==> ev.at <= to
    ensures Within(events, b.last, to)
    decreases |events|
  {
    if events != [] {
      LaterWithin(events[1..], Next(b, events[0]), maxCapacity, maxRate, to);
      assert forall ev :: ev in events ==> ev == events[0] || ev in events[1..];
    }
  }

  /** From a given level on, grants are paid for by that level and by the time passing. */
  lemma {:induction false} GrantedFromLevel(b: Bucket, events: seq<Event>, maxCapacity: real, maxRate: real, to: real)
    requires Orderly(b, events, maxCapacity, maxRate) && Within(events, b.last, to) && b.last <= to
    requires b.tokens >= 0.0
    ensures TotalGranted(b, events) <= b.tokens + Earned(b.last, to, maxRate)
    decreases |events|
  {
    hide Earned, Level;
    if events == [] {
      EarnedNonNegative(b.last, to, maxRate);
    } else {
      var ev, b' := events[0], Next(b, events[0]);
      assert ev in events;
      if Timed(ev) {
        LevelBound(b, ev.at, maxRate);
        StepAccounts(b, ev);
        NotOverdrawn(b, ev.at);
        LaterWithin(events[1..], b', maxCapacity, maxRate, to);
        GrantedFromLevel(b', events[1..], maxCapacity, maxRate, to);
        PaidFor(Granted(b, ev), b'.tokens, TotalGranted(b', events[1..]), b.tokens, b.last, ev.at, to, maxRate);
      } else {
        GrantedFromLevel(b', events[1..], maxCapacity, maxRate, to);
      }
    }
  }

  /**
   * The envelope: whatever is spent, read and reconfigured, the tokens granted inside a window
   * of length T are at most the largest capacity plus T times the largest rate.
   */
  lemma {:induction false} Envelope(
      b: Bucket, events: seq<Event>, maxCapacity: real, maxRate: real, from: real, to: real)
    requires Orderly(b, events, maxCapacity, maxRate) && Within(events, from, to) && from <= to
    requires b.tokens >= 0.0
    ensures TotalGranted(b, events) <= maxCapacity + Earned(from, to, maxRate)
    decreases |events|
  {
    hide Earned;
    if events == [] {
      EarnedNonNegative(from, to, maxRate);
    } else {
      var ev, b' := events[0], Next(b, events[0]);
      assert ev in events;
      if Timed(ev) {
        NotOverdrawn(b, ev.at);
        LaterWithin(events[1..], b', maxCapacity, maxRate, to);
        GrantedFromLevel(b', events[1..], maxCapacity, maxRate, to);
        StepAccounts(b, ev);
        EarnedNonNegative(from, ev.at, maxRate);
        PaidFor(Granted(b, ev), b'.tokens, TotalGranted(b', events[1..]), maxCapacity, from, ev.at, to, maxRate);
      } else {
        Envelope(b', events[1..], maxCapacity, maxRate, from, to);
      }
    }
  }

  lemma {:induction false} OrderlyPart(b: Bucket, events: seq<Event>, i: nat, j: nat, maxCapacity: real, maxRate: real)
    requires Orderly(b, events, maxCapacity, maxRate) && b.tokens >= 0.0 && i <= j <= |events|
    ensures Orderly(After(b, events[..i]), events[i..j], maxCapacity, maxRate) && After(b, events[..i]).tokens >= 0.0
    decreases |events|
  {
    hide Earned, Level;
    if events != [] {
      var b', rest := Next(b, events[0]), events[1..];
      if Timed(events[0]) { NotOverdrawn(b, events[0].at); }
      if i > 0 {
        OrderlyPart(b', rest, i - 1, j - 1, maxCapacity, maxRate);
        assert events[..i][1..] == rest[..i - 1] && events[i..j] == rest[i - 1..j - 1];
      } else if j > 0 {
        OrderlyPart(b', rest, 0, j - 1, maxCapacity, maxRate);
        assert events[0..j][1..] == rest[0..j - 1];
        assert After(b, events[..0]) == b && After(b', rest[..0]) == b';
      }
    }
  }

  /** The envelope holds in every window of a run that starts with a full bucket. */
  lemma {:induction false} EnvelopeInEveryWindow(
      capacity: real, rate: real, start: real, events: seq<Event>, i: nat, j: nat,
      maxCapacity: real, maxRate: real, from: real, to: real)
    requires Orderly(Full(capacity, rate, start), events, maxCapacity, maxRate)
    requires i <= j <= |events| && from <= to && Within(events[i..j], from, to)
    ensures TotalGranted(After(Full(capacity, rate, start), events[..i]), events[i..j])
            <= maxCapacity + Earned(from, to, maxRate)
  {
    OrderlyPart(Full(capacity, rate, start), events, i, j, maxCapacity, maxRate);
    Envelope(After(Full(capacity, rate, start), events[..i]), events[i..j], maxCapacity, maxRate, from, to);
  }

  // ----- waiting -----

  /** Time split in two refills the same as in one go. */
  lemma LevelInSteps(b: Bucket, t1: real, t2: real)
    requires b.last <= t1 <= t2 && b.rate >= 0.0
    ensures Level(Refill(b, t1), t2) == Level(b, t2)
  {
    hide Earned;
    SplitTime(b.last, t1, t2, b.rate);
    EarnedNonNegative(t1, t2, b.rate);
  }

  lemma QuotientBound(gap: real, rate: real, t: real)
    requires rate > 0.0
    ensures t * rate >= gap <==> t >= gap / rate
  {
    var q := gap / rate;
    assert q * rate == gap;
    if t >= q {
      assert (t - q) * rate >= 0.0;
      assert t * rate == q * rate + (t - q) * rate;
    } else {
      assert (q - t) * rate > 0.0;
      assert q * rate == t * rate + (q - t) * rate;
    }
  }

  /** With nothing else happening, the spend can be afforded from `moment` on and not before. */
  ghost predicate AffordableFrom(b: Bucket, needed: int, moment: real) {
    forall t: real :: t >= b.last ==> (Affords(b, needed, t) <==> t >= moment)
  }

  lemma AffordsAfterWait(b: Bucket, needed: int, t: real)
    requires b.rate > 0.0 && b.last <= t && b.tokens < needed as real
    ensures Affords(b, needed, t) <==>
            needed as real <= b.capacity && t >= b.last + (needed as real - b.tokens) / b.rate
  {
    QuotientBound(needed as real - b.tokens, b.rate, t - b.last);
  }

  /**
   * The announced wait is exact when the request fits the bucket, and only then: a request larger
   * than the capacity is given a finite wait but never succeeds.
   */
  lemma WaitIsExactIffItFits(b: Bucket, needed: int, now: real)
    requires b.rate > 0.0 && b.last <= now && !Affords(b, needed, now)
    ensures WaitTime(b, needed, now).Some?
    ensures AffordableFrom(Refill(b, now), needed, now + WaitTime(b, needed, now).value)
            <==> needed as real <= b.capacity
  {
    var r := Refill(b, now);
    var moment := now + WaitTime(b, needed, now).value;
    QuotientBound(needed as real - r.tokens, r.rate, 0.0);
    forall t: real | t >= r.last ensures Affords(r, needed, t) <==> needed as real <= b.capacity && t >= moment {
      AffordsAfterWait(r, needed, t);
    }
    AffordsAfterWait(r, needed, moment);
  }

  /** No wait is announced exactly when the spend can be granted, and no end exactly when nothing is ever earned. */
  lemma WaitShape(b: Bucket, needed: int, now: real)
    ensures WaitTime(b, needed, now) == Some(0.0) <==>
            needed as real <= b.capacity && needed as real <= b.tokens + (now - b.last) * b.rate
    ensures WaitTime(b, needed, now) == None <==> !Affords(b, needed, now) && b.rate <= 0.0
    ensures WaitTime(b, needed, now).Some? ==> WaitTime(b, needed, now).value >= 0.0
  {
    AffordsMeaning(b, needed, now);
    if !Affords(b, needed, now) && b.rate > 0.0 {
      QuotientBound(needed as real - Level(b, now), b.rate, 0.0);
    }
  }

  // ----- the client's own bucket -----

  datatype Tracker = Tracker(tpm: int, burst: real, tokens: real, last: real)

  function TrackerCapacity(c: Tracker): real {
    c.tpm as real * c.burst
  }

  function TrackerRate(c: Tracker): real {
    if c.tpm > 0 then c.tpm as real / 60.0 else 0.0
  }

  function TrackerLevel(c: Tracker, now: real): real {
    Min(TrackerCapacity(c), c.tokens + Earned(c.last, now, TrackerRate(c)))
  }

  function TrackerRefill(c: Tracker, now: real): Tracker {
    if c.tpm <= 0 then c else c.(tokens := TrackerLevel(c, now), last := now)
  }

  /** The check before a call: unlimited without a limit, otherwise what the level allows. */
  predicate Passes(c: Tracker, estimate: int, now: real) {
    c.tpm <= 0 || TrackerLevel(c, now) >= estimate as real
  }

  /** Deducting what was used, never below zero. */
  function Report(c: Tracker, used: int, now: real): Tracker {
    if c.tpm <= 0 then c
    else
      var r := TrackerRefill(c, now);
      r.(tokens := if r.tokens - used as real >= 0.0 then r.tokens - used as real else 0.0)
  }

  // ----- client and coordinator side by side -----

  /** Usage is reported to both; checks touch only the client, status reads only the coordinator. */
  datatype Shared = Used(count: int, at: real) | Checked(estimate: int, at: real) | Looked(at: real)

  function ClientNext(c: Tracker, ev: Shared): Tracker {
    match ev
    case Used(count, at) => Report(c, count, at)
    case Checked(_, at) => TrackerRefill(c, at)
    case Looked(_) => c
  }

  function ServerNext(b: Bucket, ev: Shared): Bucket {
    match ev
    case Used(count, at) => Consume(b, count, at)
    case Checked(_, _) => b
    case Looked(at) => Refill(b, at)
  }

  function ClientAfter(c: Tracker, events: seq<Shared>): Tracker
    decreases |events|
  {
    if events == [] then c else ClientAfter(ClientNext(c, events[0]), events[1..])
  }

  function ServerAfter(b: Bucket, events: seq<Shared>): Bucket
    decreases |events|
  {
    if events == [] then b else ServerAfter(ServerNext(b, events[0]), events[1..])
  }

  ghost predicate InOrder(events: seq<Shared>, from: real, to: real)
    decreases |events|
  {
    if events == [] then from <= to
    else from <= events[0].at && (events[0].Used? ==> events[0].count >= 0) && InOrder(events[1..], events[0].at, to)
  }

  /** At `now` the client believes in no more than the coordinator has, under the same settings. */
  ghost predicate Conservative(c: Tracker, b: Bucket, now: real) {
    && c.tpm > 0 && c.burst > 0.0 && c.last <= now && b.last <= now
    && b.capacity == TrackerCapacity(c) && b.rate == TrackerRate(c)
    && c.tokens >= 0.0 && b.tokens >= 0.0
    && TrackerLevel(c, now) <= Level(b, now)
  }

  function AsBucket(c: Tracker): Bucket {
    Bucket(TrackerCapacity(c), TrackerRate(c), c.tokens, c.last)
  }

  /** Of two buckets with the same settings, the lower stays lower as time passes. */
  lemma LowerStaysLower(c: Bucket, b: Bucket, now: real, later: real)
    requires c.capacity == b.capacity && c.rate == b.rate && b.rate >= 0.0
    requires c.last <= now <= later && b.last <= now && Level(c, now) <= Level(b, now)
    ensures Level(c, later) <= Level(b, later)
  {
    LevelInSteps(c, now, later);
    LevelInSteps(b, now, later);
  }

  lemma SettingsPositive(c: Tracker)
    requires c.tpm > 0 && c.burst > 0.0
    ensures TrackerCapacity(c) > 0.0 && TrackerRate(c) > 0.0
  {
  }

  lemma ConservativeLater(c: Tracker, b: Bucket, now: real, later: real)
    requires Conservative(c, b, now) && now <= later
    ensures Conservative(c, b, later)
  {
    SettingsPositive(c);
    LowerStaysLower(AsBucket(c), b, now, later);
  }

  /** Just after a refill the level is what the bucket holds. */
  lemma LevelNow(b: Bucket, now: real)
    requires b.tokens <= b.capacity && b.last == now
    ensures Level(b, now) == b.tokens
  {
    NothingEarned(now, b.rate);
    hide Earned;
  }

  lemma NothingEarned(now: real, rate: real)
    ensures Earned(now, now, rate) == 0.0
  {
    ZeroTimes(now - now, rate);
  }

  lemma ZeroTimes(t: real, rate: real)
    requires t == 0.0
    ensures t * rate == 0.0
  {
  }

  lemma LevelCapped(b: Bucket, now: real)
    ensures Level(b, now) <= b.capacity
  {
  }

  lemma TrackerIsBucket(c: Tracker, now: real)
    ensures TrackerLevel(c, now) == Level(AsBucket(c), now)
  {
  }

  /** The client deducts down to zero at most, the coordinator only what it can pay in full. */
  lemma ConservativeUse(c: Tracker, b: Bucket, count: int, now: real)
    requires Conservative(c, b, now) && count >= 0
    ensures Conservative(Report(c, count, now), Consume(b, count, now), now)
  {
    SettingsPositive(c);
    NotOverdrawn(AsBucket(c), now);
    NotOverdrawn(b, now);
    LevelCapped(AsBucket(c), now);
    LevelCapped(b, now);
    LevelNow(AsBucket(Report(c, count, now)), now);
    LevelNow(Consume(b, count, now), now);
    TrackerIsBucket(c, now);
    TrackerIsBucket(Report(c, count, now), now);
    hide Level, TrackerLevel, TrackerCapacity, TrackerRate;
  }

  lemma ConservativeRead(c: Tracker, b: Bucket, now: real)
    requires Conservative(c, b, now)
    ensures Conservative(TrackerRefill(c, now), b, now)
    ensures Conservative(c, Refill(b, now), now)
  {
    SettingsPositive(c);
    NotOverdrawn(AsBucket(c), now);
    NotOverdrawn(b, now);
    LevelCapped(AsBucket(c), now);
    LevelCapped(b, now);
    LevelNow(AsBucket(TrackerRefill(c, now)), now);
    LevelNow(Refill(b, now), now);
  }

  lemma ConservativeStep(c: Tracker, b: Bucket, ev: Shared)
    requires Conservative(c, b, ev.at) && (ev.Used? ==> ev.count >= 0)
    ensures Conservative(ClientNext(c, ev), ServerNext(b, ev), ev.at)
  {
    hide Conservative, Report, Consume, TrackerRefill, Refill;
    match ev
    case Used(count, at) => ConservativeUse(c, b, count, at);
    case _ => ConservativeRead(c, b, ev.at);
  }

  lemma {:induction false} RunStaysConservative(c: Tracker, b: Bucket, events: seq<Shared>, from: real, to: real)
    requires Conservative(c, b, from) && InOrder(events, from, to)
    ensures Conservative(ClientAfter(c, events), ServerAfter(b, events), to)
    decreases |events|
  {
    hide Conservative;
    if events == [] {
      ConservativeLater(c, b, from, to);
    } else {
      var ev := events[0];
      ConservativeLater(c, b, from, ev.at);
      ConservativeStep(c, b, ev);
      RunStaysConservative(ClientNext(c, ev), ServerNext(b, ev), events[1..], ev.at, to);
    }
  }

  lemma FullStaysFull(b: Bucket, now: real)
    requires b.tokens == b.capacity && b.last <= now && b.rate >= 0.0
    ensures Level(b, now) == b.capacity
  {
    RateBound(now - b.last, b.rate, b.rate);
  }

  /**
   * The client is conservative: with the same settings and the same reported usage, in any order
   * of reports, checks and status reads, a call the client lets pass the coordinator grants.
   */
  lemma {:induction false} PassingCheckIsGranted(
      tpm: int, burst: real, clientStart: real, serverStart: real, events: seq<Shared>,
      from: real, now: real, estimate: int)
    requires tpm > 0 && burst > 0.0 && clientStart <= from && serverStart <= from && InOrder(events, from, now)
    ensures var c := ClientAfter(Tracker(tpm, burst, tpm as real * burst, clientStart), events);
            var b := ServerAfter(Full(tpm as real * burst, tpm as real / 60.0, serverStart), events);
            && TrackerLevel(c, now) <= Level(b, now)
            && (Passes(c, estimate, now) ==> Affords(b, estimate, now))
  {
    var c0 := Tracker(tpm, burst, tpm as real * burst, clientStart);
    var b0 := Full(tpm as real * burst, tpm as real / 60.0, serverStart);
    SettingsPositive(c0);
    FullStaysFull(AsBucket(c0), from);
    FullStaysFull(b0, from);
    RunStaysConservative(c0, b0, events, from, now);
    KeepsSettings(c0, events);
  }

  lemma {:induction false} KeepsSettings(c: Tracker, events: seq<Shared>)
    ensures ClientAfter(c, events).tpm == c.tpm && ClientAfter(c, events).burst == c.burst
    decreases |events|
  {
    if events != [] {
      KeepsSettings(ClientNext(c, events[0]), events[1..]);
    }
  }

  // ----- when the client is exact -----

  /** Every report so far was one the coordinator could pay for. */
  ghost predicate AllPaid(b: Bucket, events: seq<Shared>)
    decreases |events|
  {
    events == [] ||
    (&& (events[0].Used? ==> Affords(b, events[0].count, events[0].at))
     && AllPaid(ServerNext(b, events[0]), events[1..]))
  }

  ghost predicate InStep(c: Tracker, b: Bucket, now: real) {
    Conservative(c, b, now) && TrackerLevel(c, now) == Level(b, now)
  }

  lemma InStepLater(c: Tracker, b: Bucket, now: real, later: real)
    requires InStep(c, b, now) && now <= later
    ensures InStep(c, b, later)
  {
    SettingsPositive(c);
    ConservativeLater(c, b, now, later);
    LowerStaysLower(b, AsBucket(c), now, later);
  }

  lemma InStepUse(c: Tracker, b: Bucket, count: int, now: real)
    requires InStep(c, b, now) && count >= 0 && Affords(b, count, now)
    ensures InStep(Report(c, count, now), Consume(b, count, now), now)
  {
    ConservativeUse(c, b, count, now);
    SettingsPositive(c);
    LevelCapped(AsBucket(c), now);
    LevelCapped(b, now);
    LevelNow(AsBucket(Report(c, count, now)), now);
    LevelNow(Consume(b, count, now), now);
    TrackerIsBucket(c, now);
    TrackerIsBucket(Report(c, count, now), now);
    hide Level, TrackerLevel, TrackerCapacity, TrackerRate, Conservative;
  }

  lemma InStepRead(c: Tracker, b: Bucket, now: real)
    requires InStep(c, b, now)
    ensures InStep(TrackerRefill(c, now), b, now) && InStep(c, Refill(b, now), now)
  {
    ConservativeRead(c, b, now);
    SettingsPositive(c);
    LevelCapped(AsBucket(c), now);
    LevelCapped(b, now);
    LevelNow(AsBucket(TrackerRefill(c, now)), now);
    LevelNow(Refill(b, now), now);
  }

  lemma {:induction false} RunStaysInStep(c: Tracker, b: Bucket, events: seq<Shared>, from: real, to: real)
    requires InStep(c, b, from) && InOrder(events, from, to) && AllPaid(b, events)
    ensures InStep(ClientAfter(c, events), ServerAfter(b, events), to)
    decreases |events|
  {
    hide InStep, Report, Consume, TrackerRefill, Refill, Affords;
    if events == [] {
      InStepLater(c, b, from, to);
    } else {
      var ev := events[0];
      InStepLater(c, b, from, ev.at);
      match ev {
        case Used(count, at) => InStepUse(c, b, count, at);
        case _ => InStepRead(c, b, ev.at);
      }
      RunStaysInStep(ClientNext(c, ev), ServerNext(b, ev), events[1..], ev.at, to);
    }
  }

  /**
   * As long as every reported usage was one the coordinator could pay for, the client lets pass
   * exactly the calls the coordinator grants.
   */
  lemma {:induction false} PaidClientIsExact(
      tpm: int, burst: real, clientStart: real, serverStart: real, events: seq<Shared>,
      from: real, now: real, estimate: int)
    requires tpm > 0 && burst > 0.0 && clientStart <= from && serverStart <= from && InOrder(events, from, now)
    requires AllPaid(NewBucket(tpm, burst, serverStart), events)
    ensures var c := ClientAfter(Tracker(tpm, burst, tpm as real * burst, clientStart), events);
            var b := ServerAfter(NewBucket(tpm, burst, serverStart), events);
            Passes(c, estimate, now) <==> Affords(b, estimate, now)
  {
    var c0 := Tracker(tpm, burst, tpm as real * burst, clientStart);
    var b0 := NewBucket(tpm, burst, serverStart);
    SettingsPositive(c0);
    FullStaysFull(AsBucket(c0), from);
    FullStaysFull(b0, from);
    RunStaysInStep(c0, b0, events, from, now);
    KeepsSettings(c0, events);
  }

  /** A report empties the client's bucket when it exceeds the level, and otherwise takes exactly what was used. */
  lemma ReportMeaning(c: Tracker, used: int, now: real)
    requires c.tpm > 0
    ensures var level := TrackerLevel(c, now);
            && level <= c.tpm as real * c.burst && level <= c.tokens + (now - c.last) * (c.tpm as real / 60.0)
            && (level == c.tpm as real * c.burst || level == c.tokens + (now - c.last) * (c.tpm as real / 60.0))
            && Report(c, used, now)
               == Tracker(c.tpm, c.burst, if used as real <= level then level - used as real else 0.0, now)
  {
  }
}
