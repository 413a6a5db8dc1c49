/** The mutable buckets: one per agent on the coordinator, one on the client. */
module TokenLimiter {
  import opened Prelude
  import opened TokenBuckets
  import opened LimiterRuns

  class TokenBucket {
    var capacity: real
    var rate: real
    var tokens: real
    var last: real

    ghost function View(): Bucket
      reads this
    {
      Bucket(capacity, rate, tokens, last)
    }

    constructor (capacity: real, rate: real, now: real)
      ensures View() == Full(capacity, rate, now)
    {
      this.capacity, this.rate, this.tokens, this.last := capacity, rate, capacity, now;
    }

    method DoRefill(now: real)
      modifies this
      ensures View() == Refill(old(View()), now)
    {
      var full := tokens + Earned(last, now, rate);
      tokens := if capacity <= full then capacity else full;
      last := now;
    }

    method Spend(count: int, now: real) returns (ok: bool)
      modifies this
      ensures ok <==> Affords(old(View()), count, now)
      ensures View() == Consume(old(View()), count, now)
    {
      DoRefill(now);
      if tokens >= count as real {
        tokens := tokens - count as real;
        return true;
      }
      return false;
    }

    method Available(now: real) returns (level: real)
      modifies this
      ensures level == Level(old(View()), now) && View() == Refill(old(View()), now)
    {
      DoRefill(now);
      return tokens;
    }

    method TimeUntilAvailable(needed: int, now: real) returns (wait: Option<real>)
      modifies this
      ensures wait == WaitTime(old(View()), needed, now) && View() == Refill(old(View()), now)
    {
      var level := Available(now);
      if level >= needed as real {
        return Some(0.0);
      }
      if rate <= 0.0 {
        return None;
      }
      return Some((needed as real - level) / rate);
    }
  }

  class TokenRateLimiter {
    var buckets: map<string, TokenBucket>

    /** Agents do not share bucket objects. */
    ghost predicate Valid()
      reads this
    {
      forall a, b :: a in buckets && b in buckets && a != b ==> buckets[a] != buckets[b]
    }

    ghost function Contents(): map<string, Bucket>
      reads this, buckets.Values
    {
      map a | a in buckets :: buckets[a].View()
    }

    constructor ()
      ensures Valid() && Contents() == map[]
    {
      buckets := map[];
    }

    /** A limit of zero or less removes the bucket; a live one keeps its level. */
    method Configure(agent: string, tpm: int, burst: real, now: real)
      requires Valid()
      modifies this, buckets.Values
      ensures Valid() && fresh(buckets.Values - old(buckets.Values))
      ensures Contents() == NextBuckets(old(Contents()), SetLimit(agent, tpm, burst, now))
    {
      if tpm <= 0 {
        Remove(agent);
        return;
      }
      var capacity, rate := tpm as real * burst, tpm as real / 60.0;
      if agent in buckets {
        var b := buckets[agent];
        b.capacity := capacity;
        b.rate := rate;
        assert b.View() == Reconfigure(old(buckets[agent].View()), tpm, burst);
        assert forall a :: a in buckets && a != agent ==> buckets[a].View() == old(buckets[a].View());
      } else {
        var b := new TokenBucket(capacity, rate, now);
        buckets := buckets[agent := b];
        assert b.View() == NewBucket(tpm, burst, now);
        assert forall a :: a in old(buckets) ==> buckets[a].View() == old(buckets[a].View());
        assert Contents() == old(Contents())[agent := NewBucket(tpm, burst, now)];
      }
    }

    method Remove(agent: string)
      requires Valid()
      modifies this
      ensures Valid() && buckets == old(buckets) - {agent}
      ensures Contents() == NextBuckets(old(Contents()), Drop(agent))
    {
      buckets := buckets - {agent};
    }

    /** Without a bucket everything is allowed; nobody else's bucket changes. */
    method Spend(agent: string, count: int, now: real) returns (ok: bool)
      requires Valid()
      modifies buckets.Values
      ensures Valid() && buckets == old(buckets)
      ensures ok <==> agent !in old(Contents()) || Affords(old(Contents())[agent], count, now)
      ensures Contents() == NextBuckets(old(Contents()), Take(agent, count, now))
    {
      if agent !in buckets {
        return true;
      }
      ok := buckets[agent].Spend(count, now);
    }

    method TimeUntilAvailable(agent: string, needed: int, now: real) returns (wait: Option<real>)
      requires Valid()
      modifies buckets.Values
      ensures Valid() && buckets == old(buckets)
      ensures wait == if agent in old(Contents()) then WaitTime(old(Contents())[agent], needed, now) else Some(0.0)
      ensures Contents() == NextBuckets(old(Contents()), Order.Ask(agent, now))
    {
      if agent !in buckets {
        return Some(0.0);
      }
      wait := buckets[agent].TimeUntilAvailable(needed, now);
    }
  }

  class RateLimitTracker {
    var tpm: int
    var burst: real
    var tokens: real
    var last: real

    function View(): Tracker
      reads this
    {
      Tracker(tpm, burst, tokens, last)
    }

    constructor (tpm: int, burst: real, now: real)
      ensures View() == Tracker(tpm, burst, tpm as real * burst, now)
    {
      this.tpm, this.burst, this.tokens, this.last := tpm, burst, tpm as real * burst, now;
    }

    method DoRefill(now: real)
      modifies this
      ensures View() == TrackerRefill(old(View()), now)
    {
      if tpm <= 0 {
        return;
      }
      var capacity := TrackerCapacity(View());
      var full := tokens + Earned(last, now, TrackerRate(View()));
      tokens := if capacity <= full then capacity else full;
      last := now;
    }

    method Check(estimate: int, now: real) returns (ok: bool)
      modifies this
      ensures ok <==> Passes(old(View()), estimate, now)
      ensures tpm == old(tpm) && (tpm <= 0 ==> ok)
      ensures View() == TrackerRefill(old(View()), now)
    {
      if tpm <= 0 {
        return true;
      }
      DoRefill(now);
      return tokens >= estimate as real;
    }

    method Deduct(used: int, now: real)
      modifies this
      ensures View() == Report(old(View()), used, now)
      ensures old(tpm) <= 0 ==> View() == old(View())
    {
      if tpm <= 0 {
        return;
      }
      DoRefill(now);
      var left := tokens - used as real;
      tokens := if left >= 0.0 then left else 0.0;
    }
  }
}
