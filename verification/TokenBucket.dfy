/** The token bucket that paces calls to an exchange; acquisitions queue on a lock and may sleep. */
module TokenBucket {
  import opened Options
  import opened Reals

  /** Tokens flow in at `rate`, one per `interval`, and the bucket holds `burst`. */
  datatype Config = Config(rate: real, interval: real, burst: int)

  ghost predicate Valid(cfg: Config) {
    cfg.rate > 0.0 && cfg.interval > 0.0 && cfg.rate * cfg.interval == 1.0 && cfg.burst >= 1
  }

  /** maxRequests per window; a burst of 0 stands for maxRequests. */
  function Configure(maxRequests: int, window: real, burst: int): (cfg: Config)
    requires maxRequests > 0 && window > 0.0 && burst >= 0
    ensures Valid(cfg) && cfg.rate * window == maxRequests as real
    ensures cfg.burst == if burst == 0 then maxRequests else burst
  {
    Inverse(maxRequests as real, window);
    Config(maxRequests as real / window, window / maxRequests as real, if burst == 0 then maxRequests else burst)
  }

  lemma Inverse(a: real, b: real)
    requires a > 0.0 && b > 0.0
    ensures a / b > 0.0 && b / a > 0.0 && (a / b) * (b / a) == 1.0
  {
    var x, y := a / b, b / a;
    assert x * b == a && y * a == b;
    Reciprocals(x, b, y, a);
  }

  lemma Reciprocals(x: real, b: real, y: real, a: real)
    requires x * b == a && y * a == b && a > 0.0 && b > 0.0
    ensures x * y == 1.0
  {
    assert (x * y) * a == x * (y * a);
    Cancel(a, x * y, x * (y * a));
  }

  /** What flows in between two times. */
  function Inflow(cfg: Config, from: real, upto: real): real {
    (upto - from) * cfg.rate
  }

  lemma InflowLaws(cfg: Config, a: real, b: real, c: real)
    requires Valid(cfg)
    ensures Inflow(cfg, a, b) + Inflow(cfg, b, c) == Inflow(cfg, a, c)
    ensures a <= b ==> Inflow(cfg, a, b) >= 0.0
    ensures Inflow(cfg, a, a) == 0.0
  {
  }

  /** The time a request with too few tokens asks to sleep: until enough has flowed in. */
  function Wait(cfg: Config, tokens: real): real {
    (1.0 - tokens) * cfg.interval
  }

  lemma WaitIsEnough(cfg: Config, tokens: real, now: real)
    requires Valid(cfg)
    ensures Inflow(cfg, now, now + Wait(cfg, tokens)) == 1.0 - tokens
  {
    RateTimesInterval(1.0 - tokens, cfg.interval, cfg.rate);
  }

  lemma RateTimesInterval(a: real, b: real, c: real)
    requires c * b == 1.0
    ensures (a * b) * c == a
  {
    assert (a * b) * c == a * (c * b);
  }

  /** The bucket; the holder of the lock may be asleep until a time. */
  datatype Bucket = Bucket(tokens: real, last: real, asleep: Option<real>)

  function Initial(cfg: Config, now: real): Bucket {
    Bucket(cfg.burst as real, now, None)
  }

  function Refill(cfg: Config, b: Bucket, now: real): Bucket {
    var tokens := b.tokens + Inflow(cfg, b.last, now);
    b.(tokens := if tokens < cfg.burst as real then tokens else cfg.burst as real, last := now)
  }

  /** A look at the available tokens, which also refills, even while the lock holder sleeps; the start of an
      acquisition; and its end after the sleep. */
  datatype Step = Look(now: real) | Begin(now: real) | Wake(now: real)

  predicate Enabled(cfg: Config, b: Bucket, step: Step) {
    && step.now >= b.last
    && match step
       case Look(_) => true
       case Begin(_) => b.asleep == None
       case Wake(now) => b.asleep.Some? && now >= b.asleep.value
  }

  /** The bucket after a step, and whether the step grants an acquisition. */
  function Next(cfg: Config, b: Bucket, step: Step): (Bucket, bool) {
    var r := Refill(cfg, b, step.now);
    match step
    case Look(_) => (r, false)
    case Begin(now) =>
      if r.tokens < 1.0 then (r.(asleep := Some(now + Wait(cfg, r.tokens))), false)
      else (r.(tokens := r.tokens - 1.0), true)
    case Wake(_) => (r.(tokens := r.tokens - 1.0, asleep := None), true)
  }

  ghost predicate IsRun(cfg: Config, start: real, steps: seq<Step>, b: Bucket, grants: seq<real>) {
    if steps == [] then b == Initial(cfg, start) && grants == []
    else
      var last := steps[|steps| - 1];
      exists b0, g0 :: IsRun(cfg, start, steps[..|steps| - 1], b0, g0) && IsStep(cfg, b0, g0, last, b, grants)
  }

  ghost predicate IsStep(cfg: Config, b0: Bucket, g0: seq<real>, step: Step, b: Bucket, grants: seq<real>) {
    && Enabled(cfg, b0, step) && b == Next(cfg, b0, step).0
    && grants == g0 + if Next(cfg, b0, step).1 then [step.now] else []
  }

  /** Tokens stay between 0 and the burst; a sleeper is owed at most what flows in until it may wake; and since
      any grant, what was granted plus what is left is covered by the burst and the inflow. */
  ghost predicate Inv(cfg: Config, b: Bucket, grants: seq<real>) {
    && 0.0 <= b.tokens <= cfg.burst as real
    && (forall k :: 0 <= k < |grants| ==> grants[k] <= b.last)
    && (b.asleep.Some? ==> b.tokens >= 1.0 || 1.0 - b.tokens <= Inflow(cfg, b.last, b.asleep.value))
    && forall k :: 0 <= k < |grants| ==> Covered(cfg, b, grants, k)
  }

  ghost predicate Covered(cfg: Config, b: Bucket, grants: seq<real>, k: nat)
    requires k < |grants|
  {
    (|grants| - k) as real + b.tokens <= cfg.burst as real + Inflow(cfg, grants[k], b.last)
  }

  /** Refilling keeps the invariant, and after a full sleep a token is there. */
  lemma InvRefill(cfg: Config, b: Bucket, grants: seq<real>, now: real)
    requires Valid(cfg) && Inv(cfg, b, grants) && now >= b.last
    ensures Inv(cfg, Refill(cfg, b, now), grants)
    ensures b.asleep.Some? && now >= b.asleep.value ==> Refill(cfg, b, now).tokens >= 1.0
  {
    var b' := Refill(cfg, b, now);
    InflowLaws(cfg, b.last, now, now);
    forall k | 0 <= k < |grants|
      ensures Covered(cfg, b', grants, k)
    {
      assert Covered(cfg, b, grants, k);
      InflowLaws(cfg, grants[k], b.last, now);
    }
    if b.asleep.Some? {
      InflowLaws(cfg, b.last, now, b.asleep.value);
      InflowLaws(cfg, b.last, b.asleep.value, now);
      InflowLaws(cfg, b.asleep.value, now, now);
    }
  }

  /** Taking a token that is there keeps the invariant, the new grant included. */
  lemma InvGrant(cfg: Config, b: Bucket, grants: seq<real>)
    requires Valid(cfg) && Inv(cfg, b, grants) && b.tokens >= 1.0
    ensures Inv(cfg, b.(tokens := b.tokens - 1.0, asleep := None), grants + [b.last])
  {
    var b', grants' := b.(tokens := b.tokens - 1.0, asleep := None), grants + [b.last];
    forall k | 0 <= k < |grants'|
      ensures Covered(cfg, b', grants', k)
    {
      if k < |grants| {
        assert Covered(cfg, b, grants, k) && grants'[k] == grants[k];
      } else {
        InflowLaws(cfg, b.last, b.last, b.last);
      }
    }
  }

  lemma InvStep(cfg: Config, b0: Bucket, g0: seq<real>, step: Step, b: Bucket, grants: seq<real>)
    requires Valid(cfg) && Inv(cfg, b0, g0) && IsStep(cfg, b0, g0, step, b, grants)
    ensures Inv(cfg, b, grants) && b.last == step.now
  {
    InvRefill(cfg, b0, g0, step.now);
    var r := Refill(cfg, b0, step.now);
    assert g0 + [] == g0;
    match step
    case Look(_) =>
    case Begin(now) =>
      if r.tokens < 1.0 {
        WaitIsEnough(cfg, r.tokens, now);
        SleepInv(cfg, r, g0, now + Wait(cfg, r.tokens));
      } else {
        InvGrant(cfg, r, g0);
      }
    case Wake(_) =>
      InvGrant(cfg, r, g0);
  }

  lemma SleepInv(cfg: Config, b: Bucket, grants: seq<real>, until: real)
    requires Valid(cfg) && Inv(cfg, b, grants) && 1.0 - b.tokens <= Inflow(cfg, b.last, until)
    ensures Inv(cfg, b.(asleep := Some(until)), grants)
  {
    forall k | 0 <= k < |grants|
      ensures Covered(cfg, b.(asleep := Some(until)), grants, k)
    {
      assert Covered(cfg, b, grants, k);
    }
  }

  lemma {:induction false} InvOfRun(cfg: Config, start: real, steps: seq<Step>, b: Bucket, grants: seq<real>)
    requires Valid(cfg) && IsRun(cfg, start, steps, b, grants)
    ensures Inv(cfg, b, grants)
  {
    if steps != [] {
      var rest, last := steps[..|steps| - 1], steps[|steps| - 1];
      var b0, g0 :| IsRun(cfg, start, rest, b0, g0) && IsStep(cfg, b0, g0, last, b, grants);
      InvOfRun(cfg, start, rest, b0, g0);
      InvStep(cfg, b0, g0, last, b, grants);
    }
  }

  /** Between any two grants, inclusive, there are at most the burst plus what flows in between them. */
  lemma {:induction false} GrantBound(cfg: Config, start: real, steps: seq<Step>, b: Bucket, grants: seq<real>,
                                      i: nat, j: nat)
    requires Valid(cfg) && IsRun(cfg, start, steps, b, grants) && i <= j < |grants|
    ensures (j - i + 1) as real <= cfg.burst as real + Inflow(cfg, grants[i], grants[j])
  {
    var rest, last := steps[..|steps| - 1], steps[|steps| - 1];
    var b0, g0 :| IsRun(cfg, start, rest, b0, g0) && IsStep(cfg, b0, g0, last, b, grants);
    if j < |g0| {
      GrantBound(cfg, start, rest, b0, g0, i, j);
    } else {
      InvOfRun(cfg, start, rest, b0, g0);
      InvStep(cfg, b0, g0, last, b, grants);
      assert Covered(cfg, b, grants, i);
    }
  }

  /** No window holds more grants than the burst and maxRequests together. */
  lemma GrantsInWindow(maxRequests: int, window: real, burst: int, start: real, steps: seq<Step>, b: Bucket,
                       grants: seq<real>, i: nat, j: nat)
    requires maxRequests > 0 && window > 0.0 && burst >= 0
    requires IsRun(Configure(maxRequests, window, burst), start, steps, b, grants)
    requires i <= j < |grants| && grants[j] - grants[i] <= window
    ensures j - i + 1 <= maxRequests + if burst == 0 then maxRequests else burst
  {
    hide IsRun, Valid, Configure;
    var cfg := Configure(maxRequests, window, burst);
    GrantBound(cfg, start, steps, b, grants, i, j);
    var inflow := Inflow(cfg, grants[i], grants[j]);
    InflowWithin(cfg, grants[i], grants[j], window, maxRequests);
    hide Inflow;
    assert (j - i + 1) as real <= cfg.burst as real + maxRequests as real;
  }

  lemma InflowWithin(cfg: Config, from: real, upto: real, window: real, n: int)
    requires Valid(cfg) && upto - from <= window && cfg.rate * window == n as real
    ensures Inflow(cfg, from, upto) <= n as real
  {
    ProductNonneg(window - (upto - from), cfg.rate);
    assert (window - (upto - from)) * cfg.rate == cfg.rate * window - (upto - from) * cfg.rate;
  }

  /** In every run the bucket holds between 0 and `burst` tokens, after every acquisition and every look. */
  lemma TokensInRange(cfg: Config, start: real, steps: seq<Step>, b: Bucket, grants: seq<real>)
    requires Valid(cfg) && IsRun(cfg, start, steps, b, grants)
    ensures 0.0 <= b.tokens <= cfg.burst as real
  {
    InvOfRun(cfg, start, steps, b, grants);
  }

  // The bound is all that holds a request back.

  /** The bucket is full, or some grant's bound is used up to the tokens that are left. */
  ghost predicate Tight(cfg: Config, b: Bucket, grants: seq<real>) {
    b.tokens == cfg.burst as real || exists k: nat :: k < |grants| && Binding(cfg, b, grants, k)
  }

  ghost predicate Binding(cfg: Config, b: Bucket, grants: seq<real>, k: nat)
    requires k < |grants|
  {
    (|grants| - k) as real + b.tokens == cfg.burst as real + Inflow(cfg, grants[k], b.last)
  }

  lemma TightRefill(cfg: Config, b: Bucket, grants: seq<real>, now: real)
    requires Valid(cfg) && Tight(cfg, b, grants) && now >= b.last
    ensures Tight(cfg, Refill(cfg, b, now), grants)
  {
    InflowLaws(cfg, b.last, now, now);
    var b' := Refill(cfg, b, now);
    if b.tokens != cfg.burst as real && b'.tokens != cfg.burst as real {
      var k: nat :| k < |grants| && Binding(cfg, b, grants, k);
      InflowLaws(cfg, grants[k], b.last, now);
      assert Binding(cfg, b', grants, k);
    }
  }

  lemma TightGrant(cfg: Config, b: Bucket, grants: seq<real>)
    requires Valid(cfg) && Tight(cfg, b, grants)
    ensures Tight(cfg, b.(tokens := b.tokens - 1.0, asleep := None), grants + [b.last])
  {
    var b', grants' := b.(tokens := b.tokens - 1.0, asleep := None), grants + [b.last];
    if b.tokens == cfg.burst as real {
      InflowLaws(cfg, b.last, b.last, b.last);
      assert Binding(cfg, b', grants', |grants|);
    } else {
      var k: nat :| k < |grants| && Binding(cfg, b, grants, k);
      assert grants'[k] == grants[k] && Binding(cfg, b', grants', k);
    }
  }

  lemma TightSleep(cfg: Config, b: Bucket, grants: seq<real>, asleep: Option<real>)
    requires Tight(cfg, b, grants)
    ensures Tight(cfg, b.(asleep := asleep), grants)
  {
    if b.tokens != cfg.burst as real {
      var k: nat :| k < |grants| && Binding(cfg, b, grants, k);
      assert Binding(cfg, b.(asleep := asleep), grants, k);
    }
  }

  lemma TightStep(cfg: Config, b0: Bucket, g0: seq<real>, step: Step, b: Bucket, grants: seq<real>)
    requires Valid(cfg) && Tight(cfg, b0, g0) && IsStep(cfg, b0, g0, step, b, grants)
    ensures Tight(cfg, b, grants)
  {
    TightRefill(cfg, b0, g0, step.now);
    hide Tight;
    var r := Refill(cfg, b0, step.now);
    assert g0 + [] == g0;
    match step
    case Look(_) =>
    case Begin(now) =>
      if r.tokens < 1.0 {
        TightSleep(cfg, r, g0, b.asleep);
      } else {
        TightGrant(cfg, r, g0);
      }
    case Wake(_) =>
      TightGrant(cfg, r, g0);
  }

  lemma {:induction false} TightOfRun(cfg: Config, start: real, steps: seq<Step>, b: Bucket, grants: seq<real>)
    requires Valid(cfg) && IsRun(cfg, start, steps, b, grants)
    ensures Tight(cfg, b, grants)
  {
    if steps != [] {
      var rest, last := steps[..|steps| - 1], steps[|steps| - 1];
      var b0, g0 :| IsRun(cfg, start, rest, b0, g0) && IsStep(cfg, b0, g0, last, b, grants);
      TightOfRun(cfg, start, rest, b0, g0);
      TightStep(cfg, b0, g0, last, b, grants);
    }
  }

  /** One more grant at that time keeps within the burst plus inflow since every earlier one. */
  ghost predicate HasRoom(cfg: Config, grants: seq<real>, now: real) {
    forall k :: 0 <= k < |grants| ==> RoomSince(cfg, grants, k, now)
  }

  ghost predicate RoomSince(cfg: Config, grants: seq<real>, k: nat, now: real)
    requires k < |grants|
  {
    (|grants| - k + 1) as real <= cfg.burst as real + Inflow(cfg, grants[k], now)
  }

  /** In every run a request is granted at once if and only if the bound on grants leaves room for it. */
  lemma WhenGranted(cfg: Config, start: real, steps: seq<Step>, b: Bucket, grants: seq<real>, now: real)
    requires Valid(cfg) && IsRun(cfg, start, steps, b, grants) && Enabled(cfg, b, Begin(now))
    ensures Next(cfg, b, Begin(now)).1 <==> HasRoom(cfg, grants, now)
  {
    InvOfRun(cfg, start, steps, b, grants);
    TightOfRun(cfg, start, steps, b, grants);
    InvRefill(cfg, b, grants, now);
    TightRefill(cfg, b, grants, now);
    var r := Refill(cfg, b, now);
    if r.tokens >= 1.0 {
      forall k | 0 <= k < |grants|
        ensures RoomSince(cfg, grants, k, now)
      {
        assert Covered(cfg, r, grants, k);
      }
    } else {
      var k: nat :| k < |grants| && Binding(cfg, r, grants, k);
      assert !RoomSince(cfg, grants, k, now);
    }
  }

  lemma LaterInflow(cfg: Config, now: real, until: real, t: real)
    requires Valid(cfg)
    ensures Inflow(cfg, now, t) >= Inflow(cfg, now, until) <==> t >= until
  {
    InflowLaws(cfg, now, until, t);
    if t < until {
      assert (until - t) * cfg.rate > 0.0;
      assert (t - until) * cfg.rate < 0.0;
    } else {
      InflowLaws(cfg, until, t, t);
    }
  }

  /** One that is not granted at once is asked to sleep until the first time at which there is room. */
  lemma SleepIsShortest(cfg: Config, start: real, steps: seq<Step>, b: Bucket, grants: seq<real>, now: real, t: real)
    requires Valid(cfg) && IsRun(cfg, start, steps, b, grants) && Enabled(cfg, b, Begin(now))
    requires !Next(cfg, b, Begin(now)).1 && t >= now
    ensures var until := Next(cfg, b, Begin(now)).0.asleep;
            until.Some? && (HasRoom(cfg, grants, t) <==> t >= until.value)
  {
    InvOfRun(cfg, start, steps, b, grants);
    TightOfRun(cfg, start, steps, b, grants);
    InvRefill(cfg, b, grants, now);
    TightRefill(cfg, b, grants, now);
    var r := Refill(cfg, b, now);
    var until := Next(cfg, b, Begin(now)).0.asleep.value;
    WaitIsEnough(cfg, r.tokens, now);
    LaterInflow(cfg, now, until, t);
    var k: nat :| k < |grants| && Binding(cfg, r, grants, k);
    InflowLaws(cfg, grants[k], now, t);
    hide Inflow;
    if t >= until {
      forall j | 0 <= j < |grants|
        ensures RoomSince(cfg, grants, j, t)
      {
        assert Covered(cfg, r, grants, j);
        InflowLaws(cfg, grants[j], now, t);
      }
    } else {
      assert !RoomSince(cfg, grants, k, t);
    }
  }

  /** The limiter object. An acquisition that has to sleep is in two parts, with the lock held between them. */
  class RateLimiter {
    const cfg: Config
    var tokens: real
    var last: real
    var asleep: Option<real>

    function View(): Bucket
      reads this
    {
      Bucket(tokens, last, asleep)
    }

    constructor (maxRequests: int, window: real, burst: int, now: real)
      requires maxRequests > 0 && window > 0.0 && burst >= 0
      ensures cfg == Configure(maxRequests, window, burst) && View() == Initial(cfg, now)
    {
      cfg := Configure(maxRequests, window, burst);
      tokens, last, asleep := (if burst == 0 then maxRequests else burst) as real, now, None;
    }

    method RefillTokens(now: real)
      modifies this
      ensures View() == Refill(cfg, old(View()), now)
    {
      var refill := Inflow(cfg, last, now);
      tokens := if tokens + refill < cfg.burst as real then tokens + refill else cfg.burst as real;
      last := now;
    }

    method AvailableTokens(now: real) returns (available: real)
      modifies this
      ensures View() == Next(cfg, old(View()), Look(now)).0 && available == tokens
    {
      RefillTokens(now);
      available := tokens;
    }

    method BeginAcquire(now: real) returns (granted: bool)
      requires asleep == None
      modifies this
      ensures (View(), granted) == Next(cfg, old(View()), Begin(now))
    {
      RefillTokens(now);
      if tokens < 1.0 {
        asleep := Some(now + Wait(cfg, tokens));
        return false;
      }
      tokens := tokens - 1.0;
      return true;
    }

    method EndAcquire(now: real)
      requires asleep.Some? && now >= asleep.value
      modifies this
      ensures View() == Next(cfg, old(View()), Wake(now)).0
    {
      RefillTokens(now);
      asleep := None;
      tokens := tokens - 1.0;
    }
  }
}
