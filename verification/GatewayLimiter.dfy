/** The gateway's request limiter: a counter with expiry in Redis, and per-key local buckets when Redis fails. */
module GatewayLimiter {
  import opened Options

  datatype Config = Config(limit: int, window: real)

  datatype Bucket = Bucket(tokens: int, lastCheck: real)

  /** The Redis key: its count, and when it expires, if that has been set. */
  datatype Counter = Counter(count: nat, expiry: Option<real>)

  /** What is kept for one key. */
  datatype Entry = Entry(bucket: Option<Bucket>, counter: Counter)

  const NO_ENTRY := Entry(None, Counter(0, None))

  /** A request for a key, with or without Redis answering, or a late EXPIRE for it. */
  datatype Event = Request(now: real, redis: bool) | Expire(now: real)

  function Live(c: Counter, now: real): Counter {
    if c.expiry.Some? && now >= c.expiry.value then Counter(0, None) else c
  }

  function AllowLocal(cfg: Config, bucket: Option<Bucket>, now: real): (Bucket, bool) {
    if bucket == None || now - bucket.value.lastCheck > cfg.window then (Bucket(cfg.limit - 1, now), true)
    else if bucket.value.tokens <= 0 then (bucket.value, false)
    else (Bucket(bucket.value.tokens - 1, now), true)
  }

  function Next(cfg: Config, e: Entry, ev: Event): (Entry, bool) {
    match ev
    case Request(now, false) =>
      var (bucket, ok) := AllowLocal(cfg, e.bucket, now);
      (e.(bucket := Some(bucket)), ok)
    case Request(now, true) =>
      var counter := Live(e.counter, now);
      (e.(counter := counter.(count := counter.count + 1)), counter.count + 1 <= cfg.limit)
    case Expire(now) =>
      var counter := Live(e.counter, now);
      (e.(counter := if counter.count == 0 then counter else counter.(expiry := Some(now + cfg.window))), false)
  }

  function Run(cfg: Config, events: seq<Event>): Entry {
    if events == [] then NO_ENTRY else Next(cfg, Run(cfg, events[..|events| - 1]), events[|events| - 1]).0
  }

  function Outcome(cfg: Config, events: seq<Event>, ev: Event, redis: bool): seq<real> {
    Given(ev, Next(cfg, Run(cfg, events), ev).1, redis)
  }

  /** The times of the requests admitted by one of the two ways. */
  function Admitted(cfg: Config, events: seq<Event>, redis: bool): seq<real> {
    if events == [] then []
    else
      var rest, last := events[..|events| - 1], events[|events| - 1];
      Admitted(cfg, rest, redis) + Outcome(cfg, rest, last, redis)
  }

  ghost predicate Monotone(events: seq<Event>) {
    forall i, j :: 0 <= i < j < |events| ==> events[i].now <= events[j].now
  }

  /** How many of the times lie in the closed interval of length w that starts at s. */
  function InWindow(times: seq<real>, s: real, w: real): nat {
    if times == [] then 0
    else InWindow(times[..|times| - 1], s, w) + if s <= times[|times| - 1] <= s + w then 1 else 0
  }

  lemma InWindowAppend(times: seq<real>, x: real, s: real, w: real)
    ensures InWindow(times + [x], s, w) == InWindow(times, s, w) + if s <= x <= s + w then 1 else 0
  {
    assert (times + [x])[..|times + [x]| - 1] == times;
  }

  lemma {:induction false} NoneInWindow(times: seq<real>, s: real, w: real)
    requires forall k :: 0 <= k < |times| ==> times[k] < s || times[k] > s + w
    ensures InWindow(times, s, w) == 0
  {
    if times != [] {
      NoneInWindow(times[..|times| - 1], s, w);
    }
  }

  // The local buckets.

  function LocalBound(cfg: Config): int {
    if cfg.limit < 1 then 1 else cfg.limit
  }

  ghost predicate AtMost(times: seq<real>, w: real, bound: int) {
    forall s :: InWindow(times, s, w) <= bound
  }

  /** Whatever window reaches the last admission lies in the present bucket; it has used up limit - tokens. */
  ghost predicate LocalInv(cfg: Config, bucket: Option<Bucket>, times: seq<real>, now: real) {
    && AtMost(times, cfg.window, LocalBound(cfg))
    && match bucket
       case None => times == []
       case Some(b) =>
         && b.lastCheck <= now && LocalBound(cfg) - b.tokens >= 1
         && (forall k :: 0 <= k < |times| ==> times[k] <= b.lastCheck)
         && forall s :: s + cfg.window >= b.lastCheck ==> InWindow(times, s, cfg.window) <= Used(cfg, b)
  }

  function Used(cfg: Config, b: Bucket): int {
    if cfg.limit < 1 then 1 else cfg.limit - b.tokens
  }

  lemma LocalNext(cfg: Config, bucket: Option<Bucket>, times: seq<real>, before: real, now: real)
    requires cfg.window > 0.0 && LocalInv(cfg, bucket, times, before) && before <= now
    ensures var (b, ok) := AllowLocal(cfg, bucket, now);
            LocalInv(cfg, Some(b), if ok then times + [now] else times, now)
  {
    var (b, ok) := AllowLocal(cfg, bucket, now);
    if ok {
      var renewed := bucket == None || now - bucket.value.lastCheck > cfg.window;
      forall s
        ensures InWindow(times + [now], s, cfg.window) <= LocalBound(cfg)
        ensures s + cfg.window >= now ==> InWindow(times + [now], s, cfg.window) <= Used(cfg, b)
      {
        InWindowAppend(times, now, s, cfg.window);
        if s + cfg.window >= now && (renewed || s > bucket.value.lastCheck) {
          NoneInWindow(times, s, cfg.window);
        }
      }
    }
  }

  // The Redis counter.

  function RedisBound(cfg: Config): int {
    if cfg.limit < 0 then 0 else cfg.limit
  }

  function Passed(cfg: Config, c: Counter): int {
    if c.count < RedisBound(cfg) then c.count else RedisBound(cfg)
  }

  /** The present life of the key began at `start`. Windows that reach it hold one earlier life at most, and
      windows inside it only what the present count has let pass. */
  ghost predicate RedisInvFrom(cfg: Config, c: Counter, times: seq<real>, now: real, start: real) {
    && start <= now && (c.count == 0 ==> c.expiry == None)
    && (forall k :: 0 <= k < |times| ==> times[k] <= now)
    && (c.expiry.Some? ==>
          c.expiry.value >= start + cfg.window && forall k :: 0 <= k < |times| ==> times[k] < c.expiry.value)
    && AtMost(times, cfg.window, 2 * RedisBound(cfg))
    && forall s :: Reach(cfg, c, times, start, s)
  }

  ghost predicate Reach(cfg: Config, c: Counter, times: seq<real>, start: real, s: real) {
    && (s + cfg.window >= start ==> InWindow(times, s, cfg.window) <= RedisBound(cfg) + Passed(cfg, c))
    && (s >= start ==> InWindow(times, s, cfg.window) <= Passed(cfg, c))
  }

  ghost predicate RedisInv(cfg: Config, c: Counter, times: seq<real>, now: real) {
    exists start :: RedisInvFrom(cfg, c, times, now, start)
  }

  /** When the key has expired, a new life begins now. */
  lemma RedisLive(cfg: Config, c: Counter, times: seq<real>, before: real, now: real)
    requires cfg.window > 0.0 && RedisInv(cfg, c, times, before) && before <= now
    ensures RedisInv(cfg, Live(c, now), times, now)
  {
    var start :| RedisInvFrom(cfg, c, times, before, start);
    if Live(c, now) == c {
      assert RedisInvFrom(cfg, c, times, now, start);
    } else {
      forall s
        ensures Reach(cfg, Counter(0, None), times, now, s)
      {
        assert Reach(cfg, c, times, start, s);
        if s >= now {
          NoneInWindow(times, s, cfg.window);
        }
      }
      assert RedisInvFrom(cfg, Counter(0, None), times, now, now);
    }
  }

  lemma RedisCount(cfg: Config, c: Counter, times: seq<real>, now: real)
    requires cfg.window > 0.0 && RedisInv(cfg, c, times, now) && Live(c, now) == c
    ensures RedisInv(cfg, c.(count := c.count + 1), if c.count + 1 <= cfg.limit then times + [now] else times, now)
  {
    var start :| RedisInvFrom(cfg, c, times, now, start);
    var c' := c.(count := c.count + 1);
    var times' := if c.count + 1 <= cfg.limit then times + [now] else times;
    forall s
      ensures Reach(cfg, c', times', start, s) && InWindow(times', s, cfg.window) <= 2 * RedisBound(cfg)
    {
      assert Reach(cfg, c, times, start, s);
      InWindowAppend(times, now, s, cfg.window);
    }
    assert RedisInvFrom(cfg, c', times', now, start);
  }

  lemma RedisExpire(cfg: Config, c: Counter, times: seq<real>, now: real)
    requires cfg.window > 0.0 && RedisInv(cfg, c, times, now) && c.count > 0
    ensures RedisInv(cfg, c.(expiry := Some(now + cfg.window)), times, now)
  {
    var start :| RedisInvFrom(cfg, c, times, now, start);
    var c' := c.(expiry := Some(now + cfg.window));
    forall s
      ensures Reach(cfg, c', times, start, s)
    {
      assert Reach(cfg, c, times, start, s);
    }
    assert RedisInvFrom(cfg, c', times, now, start);
  }

  // Every run.

  lemma RunAppend(cfg: Config, events: seq<Event>, ev: Event)
    ensures Run(cfg, events + [ev]) == Next(cfg, Run(cfg, events), ev).0
    ensures Admitted(cfg, events + [ev], true) == Admitted(cfg, events, true) + Outcome(cfg, events, ev, true)
    ensures Admitted(cfg, events + [ev], false) == Admitted(cfg, events, false) + Outcome(cfg, events, ev, false)
  {
    assert (events + [ev])[..|events + [ev]| - 1] == events;
  }

  lemma LocalLater(cfg: Config, bucket: Option<Bucket>, times: seq<real>, before: real, now: real)
    requires LocalInv(cfg, bucket, times, before) && before <= now
    ensures LocalInv(cfg, bucket, times, now)
  {
  }

  lemma RedisLater(cfg: Config, c: Counter, times: seq<real>, before: real, now: real)
    requires RedisInv(cfg, c, times, before) && before <= now
    ensures RedisInv(cfg, c, times, now)
  {
    var start :| RedisInvFrom(cfg, c, times, before, start);
    assert RedisInvFrom(cfg, c, times, now, start);
  }

  ghost predicate EntryInv(cfg: Config, events: seq<Event>, now: real) {
    && LocalInv(cfg, Run(cfg, events).bucket, Admitted(cfg, events, false), now)
    && RedisInv(cfg, Run(cfg, events).counter, Admitted(cfg, events, true), now)
  }

  function Given(ev: Event, ok: bool, redis: bool): seq<real> {
    if ev.Request? && ev.redis == redis && ok then [ev.now] else []
  }

  lemma LocalStep(cfg: Config, e: Entry, times: seq<real>, ev: Event, before: real)
    requires cfg.window > 0.0 && LocalInv(cfg, e.bucket, times, before) && before <= ev.now
    ensures var (e', ok) := Next(cfg, e, ev);
            LocalInv(cfg, e'.bucket, times + Given(ev, ok, false), ev.now)
  {
    hide LocalInv, AllowLocal;
    assert times + [] == times;
    LocalLater(cfg, e.bucket, times, before, ev.now);
    if ev.Request? && !ev.redis {
      LocalNext(cfg, e.bucket, times, before, ev.now);
    }
  }

  lemma RedisStep(cfg: Config, e: Entry, times: seq<real>, ev: Event, before: real)
    requires cfg.window > 0.0 && RedisInv(cfg, e.counter, times, before) && before <= ev.now
    ensures var (e', ok) := Next(cfg, e, ev);
            RedisInv(cfg, e'.counter, times + Given(ev, ok, true), ev.now)
  {
    hide RedisInv, AllowLocal;
    assert times + [] == times;
    RedisLive(cfg, e.counter, times, before, ev.now);
    RedisLater(cfg, e.counter, times, before, ev.now);
    var live := Live(e.counter, ev.now);
    match ev
    case Request(now, redis) =>
      if redis {
        RedisCount(cfg, live, times, now);
      }
    case Expire(now) =>
      if live.count > 0 {
        RedisExpire(cfg, live, times, now);
      }
  }

  lemma EntryNext(cfg: Config, events: seq<Event>, ev: Event, before: real)
    requires cfg.window > 0.0 && EntryInv(cfg, events, before) && before <= ev.now
    ensures EntryInv(cfg, events + [ev], ev.now)
  {
    RunAppend(cfg, events, ev);
    LocalStep(cfg, Run(cfg, events), Admitted(cfg, events, false), ev, before);
    RedisStep(cfg, Run(cfg, events), Admitted(cfg, events, true), ev, before);
  }

  lemma EntryInvStart(cfg: Config, now: real)
    requires cfg.window > 0.0
    ensures EntryInv(cfg, [], now)
  {
    assert RedisInvFrom(cfg, NO_ENTRY.counter, [], now, now);
  }

  lemma {:induction false} EntryInvOfRun(cfg: Config, events: seq<Event>)
    requires cfg.window > 0.0 && events != [] && Monotone(events)
    ensures EntryInv(cfg, events, events[|events| - 1].now)
  {
    hide EntryInv;
    var rest, last := events[..|events| - 1], events[|events| - 1];
    assert rest + [last] == events;
    if rest == [] {
      EntryInvStart(cfg, last.now);
      EntryNext(cfg, rest, last, last.now);
    } else {
      EntryInvOfRun(cfg, rest);
      EntryNext(cfg, rest, last, rest[|rest| - 1].now);
    }
  }

  /** In every closed interval of the window's length, the local fallback admits at most `limit` requests for a
      key (one, if the limit is below one), and the Redis counter at most twice the limit. */
  lemma WindowBounds(cfg: Config, events: seq<Event>, s: real)
    requires cfg.window > 0.0 && Monotone(events)
    ensures InWindow(Admitted(cfg, events, false), s, cfg.window) <= LocalBound(cfg)
    ensures InWindow(Admitted(cfg, events, true), s, cfg.window) <= 2 * RedisBound(cfg)
  {
    if events != [] {
      EntryInvOfRun(cfg, events);
      var now := events[|events| - 1].now;
      var start :| RedisInvFrom(cfg, Run(cfg, events).counter, Admitted(cfg, events, true), now, start);
    }
  }

  // What the fallback decides.

  /** How many of the last times followed one another without a gap of more than w. */
  function Chain(times: seq<real>, w: real): nat {
    if times == [] then 0
    else
      var rest := times[..|times| - 1];
      if rest != [] && times[|times| - 1] - rest[|rest| - 1] <= w then Chain(rest, w) + 1 else 1
  }

  /** The bucket has given one token to each request since the last gap. */
  ghost predicate Spent(cfg: Config, bucket: Option<Bucket>, times: seq<real>) {
    match bucket
    case None => times == []
    case Some(b) => times != [] && b.lastCheck == times[|times| - 1] && b.tokens == cfg.limit - Chain(times, cfg.window)
  }

  lemma SpentNext(cfg: Config, bucket: Option<Bucket>, times: seq<real>, now: real)
    requires Spent(cfg, bucket, times)
    ensures var (b, ok) := AllowLocal(cfg, bucket, now);
            Spent(cfg, Some(b), if ok then times + [now] else times)
  {
    assert (times + [now])[..|times + [now]| - 1] == times;
  }

  lemma {:induction false} SpentOfRun(cfg: Config, events: seq<Event>)
    ensures Spent(cfg, Run(cfg, events).bucket, Admitted(cfg, events, false))
  {
    if events != [] {
      var rest, last := events[..|events| - 1], events[|events| - 1];
      SpentOfRun(cfg, rest);
      SpentNext(cfg, Run(cfg, rest).bucket, Admitted(cfg, rest, false), last.now);
      assert Admitted(cfg, rest, false) + [] == Admitted(cfg, rest, false);
    }
  }

  /** After every run the fallback refuses a request exactly if it comes within a window of the last admission, and at
      least `limit` requests have been admitted without a longer gap up to that one. */
  lemma WhenRefusedLocally(cfg: Config, events: seq<Event>, now: real)
    ensures var times := Admitted(cfg, events, false);
            !Next(cfg, Run(cfg, events), Request(now, false)).1 <==>
              times != [] && now - times[|times| - 1] <= cfg.window && Chain(times, cfg.window) >= cfg.limit
  {
    SpentOfRun(cfg, events);
  }

  // What the Redis counter decides, when EXPIRE follows the first count.

  /** The events of requests that Redis answers. */
  function Handled(cfg: Config, times: seq<real>): seq<Event> {
    if times == [] then []
    else
      var counted := Handled(cfg, times[..|times| - 1]) + [Request(times[|times| - 1], true)];
      if Run(cfg, counted).counter.count == 1 then counted + [Expire(times[|times| - 1])] else counted
  }

  /** When a window opened, and how many requests it has seen. */
  datatype Window = Window(start: real, seen: nat)

  /** A request opens a window if there is none or the last one is over. */
  function Entered(before: Option<Window>, now: real, w: real): Window {
    if before == None || now >= before.value.start + w then Window(now, 1)
    else Window(before.value.start, before.value.seen + 1)
  }

  /** The last window that requests at these times have opened. */
  function LastWindow(times: seq<real>, w: real): Option<Window> {
    if times == [] then None else Some(Entered(LastWindow(times[..|times| - 1], w), times[|times| - 1], w))
  }

  lemma HandledOneMore(cfg: Config, times: seq<real>, last: real)
    ensures var before := Handled(cfg, times);
            var counted := before + [Request(last, true)];
            && Handled(cfg, times + [last])
               == (if Run(cfg, counted).counter.count == 1 then counted + [Expire(last)] else counted)
            && Run(cfg, counted) == Next(cfg, Run(cfg, before), Request(last, true)).0
            && Run(cfg, counted + [Expire(last)]) == Next(cfg, Run(cfg, counted), Expire(last)).0
            && LastWindow(times + [last], cfg.window) == Some(Entered(LastWindow(times, cfg.window), last, cfg.window))
  {
    assert (times + [last])[..|times + [last]| - 1] == times;
    RunAppend(cfg, Handled(cfg, times), Request(last, true));
    RunAppend(cfg, Handled(cfg, times) + [Request(last, true)], Expire(last));
  }

  /** The counter is that of the last window. */
  ghost predicate Counts(c: Counter, w: real, window: Option<Window>) {
    match window
    case None => c == Counter(0, None)
    case Some(last) => last.seen > 0 && c == Counter(last.seen, Some(last.start + w))
  }

  lemma CountsNext(cfg: Config, e: Entry, window: Option<Window>, now: real)
    requires cfg.window > 0.0 && Counts(e.counter, cfg.window, window)
    ensures var counted := Next(cfg, e, Request(now, true)).0;
            var after := if counted.counter.count == 1 then Next(cfg, counted, Expire(now)).0 else counted;
            Counts(after.counter, cfg.window, Some(Entered(window, now, cfg.window)))
  {
    hide AllowLocal;
  }

  lemma {:induction false} CounterOfHandled(cfg: Config, times: seq<real>)
    requires cfg.window > 0.0
    ensures Counts(Run(cfg, Handled(cfg, times)).counter, cfg.window, LastWindow(times, cfg.window))
  {
    if times != [] {
      var last, rest := times[|times| - 1], times[..|times| - 1];
      assert rest + [last] == times;
      CounterOfHandled(cfg, rest);
      HandledOneMore(cfg, rest, last);
      CountsNext(cfg, Run(cfg, Handled(cfg, rest)), LastWindow(rest, cfg.window), last);
      hide Run, Handled, LastWindow, Next, Counts, Entered;
    }
  }

  /** A request is then refused exactly if the limit is below 1, or the last window is not over and has seen `limit`
      requests. */
  lemma WhenRefusedByRedis(cfg: Config, times: seq<real>, now: real)
    requires cfg.window > 0.0
    ensures var last := LastWindow(times, cfg.window);
            !Next(cfg, Run(cfg, Handled(cfg, times)), Request(now, true)).1 <==>
              || cfg.limit < 1
              || (last.Some? && now < last.value.start + cfg.window && last.value.seen >= cfg.limit)
  {
    CounterOfHandled(cfg, times);
  }

  // Both bounds are met.

  function Burst(n: nat, now: real, redis: bool): seq<Event> {
    seq(n, _ => Request(now, redis))
  }

  /** n requests on a fresh count: the count rises by n, and all are admitted up to the limit. */
  lemma {:induction false} BurstPasses(cfg: Config, events: seq<Event>, n: nat, now: real)
    requires cfg.window > 0.0 && n <= cfg.limit
    requires Live(Run(cfg, events).counter, now).count == 0 || n == 0
    requires Live(Run(cfg, events).counter, now).expiry == None || n == 0
    ensures Admitted(cfg, events + Burst(n, now, true), true) == Admitted(cfg, events, true) + seq(n, _ => now)
    ensures n > 0 ==> Run(cfg, events + Burst(n, now, true)).counter == Counter(n, None)
  {
    hide Run, Admitted;
    if n == 0 {
      assert events + Burst(0, now, true) == events;
      assert seq(n, _ => now) == [];
    } else {
      var before := events + Burst(n - 1, now, true);
      assert events + Burst(n, now, true) == before + [Request(now, true)];
      assert seq(n, _ => now) == seq(n - 1, _ => now) + [now];
      if n == 1 {
        assert before == events;
      }
      BurstPasses(cfg, events, n - 1, now);
      RunAppend(cfg, before, Request(now, true));
    }
  }

  lemma {:induction false} InWindowBurst(times: seq<real>, n: nat, x: real, s: real, w: real)
    requires s <= x <= s + w
    ensures InWindow(times + seq(n, _ => x), s, w) == InWindow(times, s, w) + n
  {
    if n == 0 {
      assert times + seq(n, _ => x) == times;
    } else {
      InWindowBurst(times, n - 1, x, s, w);
      assert times + seq(n, _ => x) == (times + seq(n - 1, _ => x)) + [x];
      InWindowAppend(times + seq(n - 1, _ => x), x, s, w);
    }
  }

  lemma NothingYet(cfg: Config)
    ensures Run(cfg, []) == NO_ENTRY && Admitted(cfg, [], true) == Admitted(cfg, [], false) == []
    ensures InWindow([], 0.0, cfg.window) == 0
  {
  }

  /** A full burst at each end of a window passes the Redis counter: twice the limit. */
  lemma RedisBoundIsMet(cfg: Config) returns (events: seq<Event>)
    requires cfg.window > 0.0 && cfg.limit > 0
    ensures Monotone(events) && InWindow(Admitted(cfg, events, true), 0.0, cfg.window) == 2 * cfg.limit
  {
    NothingYet(cfg);
    hide Run, Admitted, InWindow;
    var first := [] + Burst(cfg.limit, 0.0, true);
    BurstPasses(cfg, [], cfg.limit, 0.0);
    RunAppend(cfg, first, Expire(0.0));
    var second := first + [Expire(0.0)];
    assert Admitted(cfg, first, true) + [] == Admitted(cfg, first, true);
    BurstPasses(cfg, second, cfg.limit, cfg.window);
    events := second + Burst(cfg.limit, cfg.window, true);
    InWindowBurst([], cfg.limit, 0.0, 0.0, cfg.window);
    InWindowBurst(Admitted(cfg, second, true), cfg.limit, cfg.window, 0.0, cfg.window);
  }

  lemma {:induction false} LocalBurstPasses(cfg: Config, n: nat, now: real)
    requires cfg.window > 0.0 && n <= LocalBound(cfg)
    ensures Admitted(cfg, Burst(n, now, false), false) == seq(n, _ => now)
    ensures Run(cfg, Burst(n, now, false)).bucket == if n == 0 then None else Some(Bucket(cfg.limit - n, now))
  {
    hide Run, Admitted;
    if n == 0 {
      NothingYet(cfg);
      assert Burst(0, now, false) == [] && seq(0, _ => now) == [];
    } else {
      LocalBurstPasses(cfg, n - 1, now);
      assert Burst(n, now, false) == Burst(n - 1, now, false) + [Request(now, false)];
      assert seq(n, _ => now) == seq(n - 1, _ => now) + [now];
      RunAppend(cfg, Burst(n - 1, now, false), Request(now, false));
    }
  }

  /** So many requests at once pass the local bucket. */
  lemma LocalBoundIsMet(cfg: Config) returns (events: seq<Event>)
    requires cfg.window > 0.0
    ensures Monotone(events) && InWindow(Admitted(cfg, events, false), 0.0, cfg.window) == LocalBound(cfg)
  {
    events := Burst(LocalBound(cfg), 0.0, false);
    LocalBurstPasses(cfg, LocalBound(cfg), 0.0);
    NothingYet(cfg);
    InWindowBurst([], LocalBound(cfg), 0.0, 0.0, cfg.window);
    assert [] + seq(LocalBound(cfg), _ => 0.0) == seq(LocalBound(cfg), _ => 0.0);
  }

  /** The limiter object's local part; Redis is reached through the count that INCR returned, if it answered. */
  class RedisRateLimiter {
    const cfg: Config
    var local: map<string, Bucket>

    constructor (cfg: Config)
      ensures this.cfg == cfg && local == map[]
    {
      this.cfg := cfg;
      local := map[];
    }

    function BucketOf(key: string): (b: Option<Bucket>)
      reads this
      ensures b == None <==> key !in local
      ensures b.Some? ==> b.value == local[key]
    {
      if key in local then Some(local[key]) else None
    }

    method AllowLocally(key: string, now: real) returns (ok: bool)
      modifies this
      ensures key in local && (local[key], ok) == AllowLocal(cfg, old(BucketOf(key)), now)
      ensures forall k :: k != key ==> BucketOf(k) == old(BucketOf(k))
    {
      if key !in local || now - local[key].lastCheck > cfg.window {
        local := local[key := Bucket(cfg.limit - 1, now)];
        return true;
      }
      var bucket := local[key];
      if bucket.tokens <= 0 {
        return false;
      }
      local := local[key := Bucket(bucket.tokens - 1, now)];
      return true;
    }

    /** With Redis answering, the verdict and the EXPIRE on a first count; without, the local bucket's step. */
    method Allow(key: string, now: real, count: Option<nat>, ghost e: Entry) returns (ok: bool, expire: bool)
      requires e.bucket == BucketOf(key)
      requires count.Some? ==> count.value == Next(cfg, e, Request(now, true)).0.counter.count
      modifies this
      ensures ok == Next(cfg, e, Request(now, count.Some?)).1
      ensures BucketOf(key) == Next(cfg, e, Request(now, count.Some?)).0.bucket
      ensures forall k :: k != key ==> BucketOf(k) == old(BucketOf(k))
      ensures expire <==> count == Some(1)
    {
      if count.Some? {
        return count.value <= cfg.limit, count.value == 1;
      }
      ok := AllowLocally(key, now);
      expire := false;
    }
  }
}
