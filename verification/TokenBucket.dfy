/** The token bucket that limits Modbus traffic (`src/resilience/rate_limiter.rs`), with
    each call taken as one step.  TokenBucketThreads interleaves the atomic operations
    inside the calls. */
module TokenBucket {
  import opened Wrappers

  datatype Config = Config(capacity: nat, refillAmount: nat, intervalMs: nat) {
    ghost predicate Valid() {
      capacity > 0 && refillAmount > 0 && intervalMs > 0
    }
  }

  /** `with_interval` takes a duration, in nanoseconds, and keeps whole milliseconds of it. */
  function WithInterval(capacity: nat, refillAmount: nat, intervalNanos: nat): Config {
    Config(capacity, refillAmount, intervalNanos / 1_000_000)
  }

  /** The constructor's assertions accept every non-zero duration, but the bucket can only
      be refilled (the refill divides by the interval) when it is a millisecond or more: 500
      nanoseconds pass and are no interval. */
  lemma AcceptedIntervalMayBeUnusable(capacity: nat, refillAmount: nat, intervalNanos: nat)
    requires capacity > 0 && refillAmount > 0 && intervalNanos > 0
    ensures WithInterval(capacity, refillAmount, intervalNanos).Valid() <==> intervalNanos >= 1_000_000
    ensures WithInterval(capacity, refillAmount, 500).intervalMs == 0
  {
  }

  datatype Bucket = Bucket(tokens: nat, lastRefill: int)

  /** Whole intervals from `last` to `now`; none when the clock reads earlier. */
  function Intervals(c: Config, last: int, now: int): nat
    requires c.Valid()
  {
    if now >= last then (now - last) / c.intervalMs else 0
  }

  function Refill(c: Config, b: Bucket, now: int): Bucket
    requires c.Valid()
  {
    var k := Intervals(c, b.lastRefill, now);
    if k == 0 then b
    else Bucket(Min(b.tokens + k * c.refillAmount, c.capacity), b.lastRefill + k * c.intervalMs)
  }

  function Acquire(c: Config, b: Bucket, n: nat, now: int): (Bucket, bool)
    requires c.Valid()
  {
    var r := Refill(c, b, now);
    if r.tokens < n then (r, false) else (r.(tokens := r.tokens - n), true)
  }

  class RateLimiter {
    const config: Config
    var tokens: nat
    var lastRefillMs: int

    ghost function State(): Bucket
      reads this
    {
      Bucket(tokens, lastRefillMs)
    }

    constructor (config: Config, now: int)
      requires config.Valid()
      ensures this.config == config && State() == Bucket(config.capacity, now)
    {
      this.config := config;
      tokens := config.capacity;
      lastRefillMs := now;
    }

    method RefillNow(now: int)
      requires config.Valid()
      modifies this
      ensures State() == Refill(config, old(State()), now)
    {
      var elapsed := if now >= lastRefillMs then now - lastRefillMs else 0;
      if elapsed >= config.intervalMs {
        var intervals := elapsed / config.intervalMs;
        lastRefillMs := lastRefillMs + intervals * config.intervalMs;
        tokens := Min(tokens + intervals * config.refillAmount, config.capacity);
      } else {
        QuotientIsZero(elapsed, config.intervalMs);
      }
    }

    method TryAcquireN(n: nat, now: int) returns (ok: bool)
      requires config.Valid()
      modifies this
      ensures (State(), ok) == Acquire(config, old(State()), n, now)
    {
      RefillNow(now);
      if tokens < n {
        return false;
      }
      tokens := tokens - n;
      ok := true;
    }

    method AvailableTokens(now: int) returns (available: nat)
      requires config.Valid()
      modifies this
      ensures State() == Refill(config, old(State()), now) && available == State().tokens
    {
      RefillNow(now);
      available := tokens;
    }

    method Reset(now: int)
      modifies this
      ensures State() == Bucket(config.capacity, now)
    {
      tokens := config.capacity;
      lastRefillMs := now;
    }
  }

  // ---- Arithmetic of whole intervals ----

  lemma QuotientIsZero(a: nat, d: nat)
    requires a < d
    ensures a / d == 0
  {
  }

  lemma QuotientUnique(a: int, d: nat, q: int)
    requires d > 0 && q * d <= a < (q + 1) * d
    ensures a / d == q
  {
    var p := a / d;
    assert p * d <= a < (p + 1) * d;
    if p < q {
      ScaleMonotone(d, p + 1, q);
    } else if p > q {
      ScaleMonotone(d, q + 1, p);
    }
  }

  /** Intervals claimed at a first refill and those left for a later one add up. */
  lemma IntervalsCompose(c: Config, last: int, t: int, u: int)
    requires c.Valid() && last <= t <= u
    ensures var k := Intervals(c, last, t);
            && last + k * c.intervalMs <= t < last + (k + 1) * c.intervalMs
            && Intervals(c, last, u) == k + Intervals(c, last + k * c.intervalMs, u)
  {
    QuotientsAdd(t - last, u - last, c.intervalMs);
  }

  lemma QuotientsAdd(n: nat, m: nat, d: nat)
    requires d > 0 && n <= m
    ensures var k := n / d; k * d <= n < (k + 1) * d && k * d <= m && m / d == k + (m - k * d) / d
  {
    var k := n / d;
    assert k * d <= n < (k + 1) * d;
    var j := (m - k * d) / d;
    assert j * d <= m - k * d < (j + 1) * d;
    assert (k + j) * d == k * d + j * d && (k + j + 1) * d == k * d + (j + 1) * d;
    QuotientUnique(m, d, k + j);
  }

  // ---- Runs ----

  datatype Event = TryAcquire(n: nat, now: int) | Probe(now: int)

  ghost predicate InOrder(events: seq<Event>, from: int) {
    events == [] || (from <= events[0].now && InOrder(events[1..], events[0].now))
  }

  ghost predicate Until(events: seq<Event>, t: int) {
    forall e | e in events :: e.now <= t
  }

  function Step(c: Config, b: Bucket, e: Event): Bucket
    requires c.Valid()
  {
    match e
    case TryAcquire(n, now) => Acquire(c, b, n, now).0
    case Probe(now) => Refill(c, b, now)
  }

  /** What one event grants. */
  function Grant(c: Config, b: Bucket, e: Event): nat
    requires c.Valid()
  {
    if e.TryAcquire? && Acquire(c, b, e.n, e.now).1 then e.n else 0
  }

  ghost function Granted(c: Config, b: Bucket, events: seq<Event>): nat
    requires c.Valid()
    decreases |events|
  {
    if events == [] then 0
    else Grant(c, b, events[0]) + Granted(c, Step(c, b, events[0]), events[1..])
  }

  /** The answer to every `TryAcquire` of the run, in order. */
  ghost function Decisions(c: Config, b: Bucket, events: seq<Event>): seq<bool>
    requires c.Valid()
    decreases |events|
  {
    if events == [] then []
    else
      (if events[0].TryAcquire? then [Acquire(c, b, events[0].n, events[0].now).1] else [])
      + Decisions(c, Step(c, b, events[0]), events[1..])
  }

  ghost function WithoutProbes(events: seq<Event>): seq<Event> {
    if events == [] then []
    else (if events[0].Probe? then [] else [events[0]]) + WithoutProbes(events[1..])
  }

  // ---- The rate bound ----

  /** An event grants out of what the bucket holds once its intervals are claimed. */
  lemma StepClaims(c: Config, b: Bucket, e: Event)
    requires c.Valid() && b.lastRefill <= e.now
    ensures var k, next := Intervals(c, b.lastRefill, e.now), Step(c, b, e);
      && next.lastRefill == b.lastRefill + k * c.intervalMs
      && Grant(c, b, e) + next.tokens <= b.tokens + k * c.refillAmount
  {
    var k := Intervals(c, b.lastRefill, e.now);
    assert k == 0 ==> k * c.intervalMs == 0 && k * c.refillAmount == 0;
  }

  /** A run can use what is in the bucket and what it can still claim before it ends. */
  lemma {:induction false} GrantedByClaims(c: Config, b: Bucket, events: seq<Event>, end: int)
    requires c.Valid() && b.lastRefill <= end
    requires InOrder(events, b.lastRefill) && Until(events, end)
    ensures Granted(c, b, events) <= b.tokens + c.refillAmount * Intervals(c, b.lastRefill, end)
    decreases |events|
  {
    if events != [] {
      var e, rest := events[0], events[1..];
      assert e in events && forall x | x in rest :: x in events;
      IntervalsCompose(c, b.lastRefill, e.now, end);
      StepClaims(c, b, e);
      var k, next := Intervals(c, b.lastRefill, e.now), Step(c, b, e);
      OrderedFromEarlier(rest, next.lastRefill, e.now);
      GrantedByClaims(c, next, rest, end);
      ScaleSum(c.refillAmount, Intervals(c, next.lastRefill, end), k);
    }
  }

  lemma OrderedFromEarlier(events: seq<Event>, from: int, later: int)
    requires InOrder(events, later) && from <= later
    ensures InOrder(events, from)
  {
  }

  /** Between `t1` and `t2` no run grants more than the capacity and one refill amount for
      every interval that could have ended in between. */
  lemma {:induction false} RateBound(c: Config, b: Bucket, events: seq<Event>, t1: int, t2: int)
    requires c.Valid() && b.tokens <= c.capacity && b.lastRefill <= t1 <= t2
    requires InOrder(events, t1) && Until(events, t2)
    ensures Granted(c, b, events) <= c.capacity + c.refillAmount * ((t2 - t1) / c.intervalMs + 1)
  {
    var r := Refill(c, b, t1);
    ProbeIsInvisible(c, b, events, t1);
    IntervalsCompose(c, b.lastRefill, t1, t2);
    OrderedFromEarlier(events, r.lastRefill, t1);
    GrantedByClaims(c, r, events, t2);
    ClaimsAfter(c, r.lastRefill, t1, t2);
    ScaleMonotone(c.refillAmount, Intervals(c, r.lastRefill, t2), (t2 - t1) / c.intervalMs + 1);
  }

  lemma ClaimsAfter(c: Config, last: int, t1: int, t2: int)
    requires c.Valid() && last <= t1 < last + c.intervalMs && t1 <= t2
    ensures Intervals(c, last, t2) <= (t2 - t1) / c.intervalMs + 1
  {
    var d := c.intervalMs;
    var k, q := Intervals(c, last, t2), (t2 - t1) / d;
    assert k * d <= t2 - last;
    assert t2 - t1 < (q + 1) * d;
    assert (q + 2) * d == (q + 1) * d + d;
    if k > q + 1 {
      ScaleMonotone(d, q + 2, k);
    }
  }

  /** The bound is reached, for every configuration that refills at most a bucketful. */
  lemma RateBoundIsReached(c: Config)
    requires c.Valid() && c.refillAmount <= c.capacity && c.intervalMs > 1
    ensures var d := c.intervalMs;
            var events := [TryAcquire(c.capacity, d - 1), TryAcquire(c.refillAmount, d)];
            && InOrder(events, d - 1) && Until(events, d)
            && Granted(c, Bucket(c.capacity, 0), events)
               == c.capacity + c.refillAmount * ((d - (d - 1)) / d + 1)
  {
    var d := c.intervalMs;
    var first, second := TryAcquire(c.capacity, d - 1), TryAcquire(c.refillAmount, d);
    var events := [first, second];
    assert events[1..] == [second] && [second][1..] == [];
    QuotientIsZero(d - 1, d);
    QuotientIsZero(1, d);
    var b := Bucket(c.capacity, 0);
    assert Step(c, b, first) == Bucket(0, 0);
    assert Intervals(c, 0, d) == 1 by { QuotientUnique(d, d, 1); }
    assert Refill(c, Bucket(0, 0), d) == Bucket(c.refillAmount, d);
    assert Granted(c, b, events) == c.capacity + Granted(c, Bucket(0, 0), [second]);
    assert Granted(c, Bucket(0, 0), [second]) == c.refillAmount;
  }

  // ---- Refills compose ----

  /** Refilling early and again is refilling once. */
  lemma RefillComposes(c: Config, b: Bucket, t: int, u: int)
    requires c.Valid() && b.tokens <= c.capacity && b.lastRefill <= t <= u
    ensures Refill(c, Refill(c, b, t), u) == Refill(c, b, u)
  {
    IntervalsCompose(c, b.lastRefill, t, u);
    var k := Intervals(c, b.lastRefill, t);
    var j := Intervals(c, b.lastRefill + k * c.intervalMs, u);
    assert (k + j) * c.intervalMs == k * c.intervalMs + j * c.intervalMs;
    assert (k + j) * c.refillAmount == k * c.refillAmount + j * c.refillAmount;
    assert j * c.refillAmount >= 0 && k * c.refillAmount >= 0;
  }

  /** A refill in front of a run changes nothing in it. */
  lemma ProbeIsInvisible(c: Config, b: Bucket, events: seq<Event>, t: int)
    requires c.Valid() && b.tokens <= c.capacity && b.lastRefill <= t && InOrder(events, t)
    ensures Granted(c, Refill(c, b, t), events) == Granted(c, b, events)
    ensures Decisions(c, Refill(c, b, t), events) == Decisions(c, b, events)
  {
    if events != [] {
      RefillComposes(c, b, t, events[0].now);
    }
  }

  /** `available_tokens` may be called anywhere, any number of times: every later grant
      decision stays what it would have been without it. */
  lemma {:induction false} ProbesChangeNoDecision(c: Config, b: Bucket, events: seq<Event>)
    requires c.Valid() && b.tokens <= c.capacity && InOrder(events, b.lastRefill)
    ensures Decisions(c, b, events) == Decisions(c, b, WithoutProbes(events))
    ensures Granted(c, b, events) == Granted(c, b, WithoutProbes(events))
    decreases |events|
  {
    if events != [] {
      var e, rest := events[0], events[1..];
      var next, kept := Step(c, b, e), WithoutProbes(rest);
      StepIsBounded(c, b, e);
      OrderedFromEarlier(rest, next.lastRefill, e.now);
      ProbesChangeNoDecision(c, next, rest);
      if e.Probe? {
        OrderedWithoutProbes(rest, e.now);
        ProbeIsInvisible(c, b, kept, e.now);
        assert WithoutProbes(events) == kept;
      } else {
        FirstEvent(c, b, e, rest, events);
        FirstEvent(c, b, e, kept, WithoutProbes(events));
      }
    }
  }

  lemma StepIsBounded(c: Config, b: Bucket, e: Event)
    requires c.Valid() && b.tokens <= c.capacity && b.lastRefill <= e.now
    ensures Step(c, b, e).tokens <= c.capacity && Step(c, b, e).lastRefill <= e.now
  {
    IntervalsCompose(c, b.lastRefill, e.now, e.now);
  }

  lemma FirstEvent(c: Config, b: Bucket, e: Event, rest: seq<Event>, events: seq<Event>)
    requires c.Valid() && e.TryAcquire? && events == [e] + rest
    ensures Granted(c, b, events) == Grant(c, b, e) + Granted(c, Step(c, b, e), rest)
    ensures Decisions(c, b, events)
            == [Acquire(c, b, e.n, e.now).1] + Decisions(c, Step(c, b, e), rest)
  {
    assert events[0] == e && events[1..] == rest;
  }

  lemma {:induction false} OrderedWithoutProbes(events: seq<Event>, from: int)
    requires InOrder(events, from)
    ensures InOrder(WithoutProbes(events), from)
  {
    if events != [] {
      var rest := events[1..];
      OrderedWithoutProbes(rest, events[0].now);
      if events[0].Probe? {
        OrderedFromEarlier(WithoutProbes(rest), from, events[0].now);
        assert WithoutProbes(events) == WithoutProbes(rest);
      } else {
        assert WithoutProbes(events) == [events[0]] + WithoutProbes(rest);
        assert WithoutProbes(events)[1..] == WithoutProbes(rest);
      }
    }
  }
}
