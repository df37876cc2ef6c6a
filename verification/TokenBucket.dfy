/** The per-tenant token buckets of the rate-limiting middleware, in exact arithmetic, and the
    store that drops idle ones while callers are using it. Instants are in seconds. */
module TokenBucket {
  datatype Bucket = Bucket(tokens: real, lastRefill: real)

  const IDLE_SECONDS := 600.0

  function Rate(rpm: nat): real {
    rpm as real / 60.0
  }

  function Min(a: real, b: real): real {
    if a <= b then a else b
  }

  /** The tokens gained in a stretch of time. */
  function Refill(rpm: nat, seconds: real): real {
    seconds * Rate(rpm)
  }

  /** The tokens of a bucket at an instant. */
  function Level(rpm: nat, b: Bucket, now: real): real {
    Min(rpm as real, b.tokens + Refill(rpm, now - b.lastRefill))
  }

  function Full(rpm: nat, now: real): Bucket {
    Bucket(rpm as real, now)
  }

  predicate Allows(rpm: nat, b: Bucket, now: real) {
    Level(rpm, b, now) >= 1.0
  }

  function Take(rpm: nat, b: Bucket, now: real): Bucket {
    var level := Level(rpm, b, now);
    Bucket(if level >= 1.0 then level - 1.0 else level, now)
  }

  /** The seconds until the next token, for a bucket just found below one. */
  function RetryAfter(rpm: nat, b: Bucket): real
    requires rpm > 0
  {
    (1.0 - b.tokens) / Rate(rpm)
  }

  /** What a call is told to wait; a bucket that is never refilled answers with an infinite time. */
  datatype Wait = NoWait | Seconds(seconds: real) | Forever

  class TokenBucket {
    const rpm: nat
    var tokens: real
    var lastRefill: real

    constructor (rpm: nat, now: real)
      ensures this.rpm == rpm && Fields() == Full(rpm, now)
    {
      this.rpm := rpm;
      tokens, lastRefill := rpm as real, now;
    }

    ghost function Fields(): Bucket
      reads this
    {
      Bucket(tokens, lastRefill)
    }

    method Allow(now: real) returns (ok: bool, wait: Wait)
      modifies this
      ensures ok == Allows(rpm, old(Fields()), now)
      ensures Fields() == Take(rpm, old(Fields()), now)
      ensures wait == if ok then NoWait else if rpm == 0 then Forever else Seconds(RetryAfter(rpm, Fields()))
    {
      var elapsed := now - lastRefill;
      tokens := Min(rpm as real, tokens + elapsed * (rpm as real / 60.0));
      lastRefill := now;
      if tokens >= 1.0 {
        tokens := tokens - 1.0;
        return true, NoWait;
      }
      var refillRate := rpm as real / 60.0;
      return false, if refillRate == 0.0 then Forever else Seconds((1.0 - tokens) / refillRate);
    }
  }

  class RateLimiterStore {
    const rpm: nat
    var buckets: map<string, TokenBucket>

    constructor (rpm: nat)
      ensures this.rpm == rpm && buckets == map[]
    {
      this.rpm := rpm;
      buckets := map[];
    }

    method GetBucket(tenant: string, now: real) returns (b: TokenBucket)
      modifies this
      ensures tenant in old(buckets) ==> b == old(buckets[tenant]) && buckets == old(buckets)
      ensures tenant !in old(buckets) ==>
                fresh(b) && b.rpm == rpm && b.Fields() == Full(rpm, now) && buckets == old(buckets)[tenant := b]
    {
      if tenant in buckets {
        return buckets[tenant];
      }
      b := new TokenBucket(rpm, now);
      buckets := buckets[tenant := b];
    }

    /** One sweep that no caller interrupts deletes exactly the buckets idle for over ten minutes. */
    method Cleanup(now: real)
      modifies this
      ensures buckets.Keys == set k | k in old(buckets) && now - old(buckets[k].lastRefill) <= 10.0 * 60.0
      ensures forall k :: k in buckets ==> buckets[k] == old(buckets[k])
    {
      var todo := buckets.Keys;
      ghost var was := buckets;
      while todo != {}
        invariant todo <= was.Keys && buckets.Keys <= was.Keys && todo <= buckets.Keys
        invariant forall k :: k in buckets ==> buckets[k] == was[k]
        invariant forall k :: k in was && k !in todo ==> (k in buckets <==> now - was[k].lastRefill <= IDLE_SECONDS)
        decreases |todo|
      {
        var key :| key in todo;
        if now - buckets[key].lastRefill > IDLE_SECONDS {
          buckets := buckets - {key};
        }
        todo := todo - {key};
      }
    }
  }

  // ----- Arithmetic -----

  lemma ProductOrder(x: real, y: real, z: real)
    requires x <= y && z >= 0.0
    ensures x * z <= y * z
    ensures x < y && z > 0.0 ==> x * z < y * z
  {
    assert (y - x) * z >= 0.0;
    assert y * z == x * z + (y - x) * z;
  }

  lemma RefillSum(rpm: nat, x: real, y: real)
    ensures Refill(rpm, x + y) == Refill(rpm, x) + Refill(rpm, y)
  {
    var r := Rate(rpm);
    assert (x + y) * r == x * r + y * r;
  }

  lemma RefillOrder(rpm: nat, x: real, y: real)
    requires x <= y
    ensures Refill(rpm, x) <= Refill(rpm, y)
    ensures x < y && rpm > 0 ==> Refill(rpm, x) < Refill(rpm, y)
  {
    ProductOrder(x, y, Rate(rpm));
  }

  lemma RefillMarks(rpm: nat)
    ensures Refill(rpm, 0.0) == 0.0
    ensures Refill(rpm, 60.0) == rpm as real
    ensures Refill(rpm, IDLE_SECONDS) >= rpm as real
  {
    RefillSum(rpm, 0.0, 0.0);
    RefillOrder(rpm, 60.0, IDLE_SECONDS);
  }

  /** Between two instants a bucket gains no more than the refill. */
  lemma LevelGrows(rpm: nat, b: Bucket, t: real, t': real)
    requires t <= t'
    ensures Level(rpm, b, t) <= Level(rpm, b, t') <= Level(rpm, b, t) + Refill(rpm, t' - t)
  {
    hide Refill;
    RefillMarks(rpm);
    RefillOrder(rpm, 0.0, t' - t);
    RefillSum(rpm, t - b.lastRefill, t' - t);
    assert t' - b.lastRefill == (t - b.lastRefill) + (t' - t);
  }

  /** Refilling a bucket in two goes, with no call let through in between, changes nothing later. */
  lemma LevelOfTaken(rpm: nat, b: Bucket, now: real, later: real)
    requires now <= later
    ensures Level(rpm, Take(rpm, b, now), later) ==
            Min(rpm as real, (if Allows(rpm, b, now) then Level(rpm, b, now) - 1.0 else Level(rpm, b, now))
              + Refill(rpm, later - now))
  {
    hide Refill;
  }

  /** A call takes one token, if there is one. */
  lemma TakeNow(rpm: nat, b: Bucket, at: real)
    ensures Level(rpm, Take(rpm, b, at), at) == Level(rpm, b, at) - if Level(rpm, b, at) >= 1.0 then 1.0 else 0.0
  {
    hide Refill;
    LevelOfTaken(rpm, b, at, at);
    RefillMarks(rpm);
  }

  lemma FullStaysFull(rpm: nat, b: Bucket, t: real, t': real)
    requires Level(rpm, b, t) == rpm as real && t <= t'
    ensures Level(rpm, b, t') == rpm as real
  {
    hide Refill;
    LevelGrows(rpm, b, t, t');
  }

  lemma FullIsFull(rpm: nat, now: real, t: real)
    requires now <= t
    ensures Level(rpm, Full(rpm, now), t) == rpm as real
  {
    hide Refill;
    RefillMarks(rpm);
    RefillOrder(rpm, 0.0, t - now);
  }

  /** After ten idle minutes any bucket is full. */
  lemma IdleIsFull(rpm: nat, b: Bucket, t: real)
    requires b.tokens >= 0.0 && t - b.lastRefill >= IDLE_SECONDS
    ensures Level(rpm, b, t) == rpm as real
  {
    hide Refill;
    RefillMarks(rpm);
    RefillOrder(rpm, IDLE_SECONDS, t - b.lastRefill);
  }

  lemma Quotient(rpm: nat, x: real)
    requires rpm > 0
    ensures Refill(rpm, x / Rate(rpm)) == x
  {
    var r := Rate(rpm);
    assert x / r * r == x;
  }

  /** A rejected caller, if nobody else uses the bucket, is next allowed exactly at retryAfter. */
  lemma RetryAfterIsExact(rpm: nat, b: Bucket, now: real, later: real)
    requires rpm > 0 && !Allows(rpm, b, now) && now <= later
    ensures Allows(rpm, Take(rpm, b, now), later) <==> later >= now + RetryAfter(rpm, Take(rpm, b, now))
  {
    hide Refill, Rate;
    var after := Take(rpm, b, now);
    var gap, wait := later - now, RetryAfter(rpm, after);
    Quotient(rpm, 1.0 - after.tokens);
    if gap >= wait {
      RefillOrder(rpm, wait, gap);
    } else {
      RefillOrder(rpm, gap, wait);
    }
  }

  /** The whole seconds that the Retry-After header announces. */
  function RetrySeconds(wait: real): int {
    var up := if wait.Floor as real == wait then wait.Floor else wait.Floor + 1;
    if up < 1 then 1 else up
  }

  /** A caller who waits as long as the header says is let through. */
  lemma RetrySecondsSuffice(rpm: nat, b: Bucket, now: real)
    requires rpm > 0 && !Allows(rpm, b, now)
    ensures Allows(rpm, Take(rpm, b, now), now + RetrySeconds(RetryAfter(rpm, Take(rpm, b, now))) as real)
  {
    hide Allows, Take, RetryAfter;
    RetryAfterIsExact(rpm, b, now, now + RetrySeconds(RetryAfter(rpm, Take(rpm, b, now))) as real);
  }

  /** The least whole number of seconds that is no shorter than the wait, and one at least. */
  lemma RetrySecondsAreLeast(wait: real)
    ensures var n := RetrySeconds(wait);
            n >= 1 && wait <= n as real && (n > 1 ==> (n - 1) as real < wait)
  {
  }

  // ----- How many calls a bucket serves -----

  /** The bucket after n calls at one instant. */
  function Drained(rpm: nat, b: Bucket, now: real, n: nat): Bucket {
    if n == 0 then b else Take(rpm, Drained(rpm, b, now, n - 1), now)
  }

  /** Each of n calls at one instant is let through. */
  ghost predicate Serves(rpm: nat, b: Bucket, now: real, n: nat) {
    forall k: nat | k < n :: Allows(rpm, Drained(rpm, b, now, k), now)
  }

  lemma {:induction false} DrainedLevel(rpm: nat, b: Bucket, now: real, n: nat)
    requires n as real <= Level(rpm, b, now)
    ensures Level(rpm, Drained(rpm, b, now, n), now) == Level(rpm, b, now) - n as real
  {
    hide Level, Take;
    if n > 0 {
      DrainedLevel(rpm, b, now, n - 1);
      TakeNow(rpm, Drained(rpm, b, now, n - 1), now);
    }
  }

  /** A bucket serves as many calls at once as it has whole tokens. */
  lemma {:induction false} ServesItsLevel(rpm: nat, b: Bucket, now: real, n: nat)
    ensures n == 0 || n as real <= Level(rpm, b, now) <==> Serves(rpm, b, now, n)
  {
    hide Level, Take, Drained;
    if n > 0 {
      if n as real <= Level(rpm, b, now) {
        forall k: nat | k < n ensures Allows(rpm, Drained(rpm, b, now, k), now) {
          DrainedLevel(rpm, b, now, k);
        }
      } else if Serves(rpm, b, now, n) {
        ServesItsLevel(rpm, b, now, n - 1);
        assert Serves(rpm, b, now, n - 1) && Allows(rpm, Drained(rpm, b, now, n - 1), now);
        if n == 1 {
          NothingDrained(rpm, b, now);
        } else {
          DrainedLevel(rpm, b, now, n - 1);
        }
      }
    }
  }

  lemma NothingDrained(rpm: nat, b: Bucket, now: real)
    ensures Drained(rpm, b, now, 0) == b
  {
  }

  /** A new bucket serves as many calls at once as the limit per minute says, and no more; whoever comes then
      is told to wait for the time in which one token is refilled. */
  lemma NewBucketServes(rpm: nat, now: real, n: nat)
    requires rpm > 0
    ensures Serves(rpm, Full(rpm, now), now, n) <==> n <= rpm
    ensures RetryAfter(rpm, Take(rpm, Drained(rpm, Full(rpm, now), now, rpm), now)) == 60.0 / rpm as real
  {
    hide Drained, Refill, RetryAfter;
    FullIsFull(rpm, now, now);
    ServesItsLevel(rpm, Full(rpm, now), now, n);
    DrainedLevel(rpm, Full(rpm, now), now, rpm);
    assert Take(rpm, Drained(rpm, Full(rpm, now), now, rpm), now) == Bucket(0.0, now);
    EmptyWait(rpm, now);
  }

  lemma EmptyWait(rpm: nat, now: real)
    requires rpm > 0
    ensures RetryAfter(rpm, Bucket(0.0, now)) == 60.0 / rpm as real
  {
    var r, z := rpm as real, Rate(rpm);
    assert r == z * 60.0;
    SixtyTimes(z);
  }

  lemma SixtyTimes(z: real)
    requires z > 0.0
    ensures 1.0 / z == 60.0 / (z * 60.0)
  {
    var q := 60.0 / (z * 60.0);
    assert q * (z * 60.0) == 60.0;
    assert q * (z * 60.0) == (q * z) * 60.0;
    QuotientIs(z, q);
  }

  lemma QuotientIs(z: real, q: real)
    requires z > 0.0 && q * z == 1.0
    ensures 1.0 / z == q
  {
    var p := 1.0 / z;
    assert p * z == 1.0;
    assert (q - p) * z == q * z - p * z == 0.0;
  }

  /** An empty bucket that is left alone for up to a minute then serves the minute's share of the limit. */
  lemma EmptyBucketServes(rpm: nat, now: real, seconds: real, n: nat)
    requires 0.0 <= seconds <= 60.0
    ensures Serves(rpm, Bucket(0.0, now), now + seconds, n) <==> n as real * 60.0 <= seconds * rpm as real
  {
    hide Level, Serves;
    ServesItsLevel(rpm, Bucket(0.0, now), now + seconds, n);
    ShareOfMinute(rpm, now, seconds);
    ProductOrder(0.0, seconds, rpm as real);
  }

  lemma ShareOfMinute(rpm: nat, now: real, seconds: real)
    requires 0.0 <= seconds <= 60.0
    ensures Level(rpm, Bucket(0.0, now), now + seconds) * 60.0 == seconds * rpm as real
  {
    RefillMarks(rpm);
    RefillOrder(rpm, seconds, 60.0);
    SixtyRates(rpm, seconds);
    hide Refill;
    assert Level(rpm, Bucket(0.0, now), now + seconds) == Refill(rpm, seconds);
  }

  lemma SixtyRates(rpm: nat, seconds: real)
    ensures Refill(rpm, seconds) * 60.0 == seconds * rpm as real
  {
    var z := Rate(rpm);
    assert z * 60.0 == rpm as real;
    assert seconds * z * 60.0 == seconds * (z * 60.0);
  }
}
