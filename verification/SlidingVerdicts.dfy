/** What the sliding-window limiter decides about a single request, from the requests admitted before it. */
module SlidingVerdicts {
  import opened Options
  import opened Sets
  import opened SlidingWindow

  /** What has been admitted in the window that ends just before a request. */
  function Recent(cfg: Config, s: State, now: real): set<real> {
    set x | x in s.admitted && now - cfg.window < x < now
  }

  /** The request that is counted at a state a run has led to is let in exactly if fewer than the limit are recent. */
  ghost predicate ExactAt(cfg: Config, s: State, steps: seq<Step>, s': State, w: nat) {
    Initial(cfg, s) && IsRun(cfg, s, steps, s') && Enabled(cfg, s', Count(w)) ==>
      (Next(cfg, s', Count(w)).workers[w].Counted? <==> |Recent(cfg, s', s'.workers[w].now)| < cfg.max)
  }

  ghost predicate DecidesExactly(cfg: Config) {
    forall s, steps, s', w :: ExactAt(cfg, s, steps, s', w)
  }

  // A single worker.

  /** The time of the request in progress, if there is one. */
  function Time(s: State): real
    requires s.workers != []
  {
    if s.workers[0].Idle? then s.clock else s.workers[0].now
  }

  predicate Undecided(x: Worker) {
    x.Stamped? || x.Trimmed? || x.Counted?
  }

  /** What has been admitted lies before the request in progress, and is kept until it is a window older. */
  ghost predicate SoleInv(cfg: Config, s: State) {
    && |s.workers| == 1 && KeyInv(cfg, s) && s.zset <= s.admitted
    && (forall x :: x in s.admitted ==> if Undecided(s.workers[0]) then x < Time(s) else x <= Time(s))
    && (forall x :: x in s.admitted ==> x in s.zset || x <= Time(s) - cfg.window)
    && (s.workers[0].Trimmed? ==> forall x :: x in s.zset ==> x > s.workers[0].now - cfg.window)
  }

  lemma TimeIsPast(cfg: Config, s: State)
    requires KeyInv(cfg, s) && s.workers != []
    ensures s.clock - cfg.lag <= Time(s) <= s.clock || s.workers[0].Idle?
    ensures Time(s) <= s.clock
    ensures forall x :: x in s.zset ==> x > 0.0
  {
  }

  lemma SoleExpire(cfg: Config, s: State)
    requires cfg.window > 0.0 && 0.0 <= cfg.lag <= 1.0 && SoleInv(cfg, s) && Enabled(cfg, s, Expire)
    ensures SoleInv(cfg, Next(cfg, s, Expire))
  {
    KeyInvNext(cfg, s, Expire);
    ExpiresStale(cfg, s);
    TimeIsPast(cfg, s);
    hide KeyInv;
  }

  lemma SoleTrim(cfg: Config, s: State, w: nat)
    requires cfg.window > 0.0 && 0.0 <= cfg.lag <= 1.0 && SoleInv(cfg, s) && Enabled(cfg, s, Trim(w))
    ensures SoleInv(cfg, Next(cfg, s, Trim(w)))
  {
    KeyInvNext(cfg, s, Trim(w));
    TimeIsPast(cfg, s);
    hide KeyInv;
  }

  lemma SoleNext(cfg: Config, s: State, step: Step)
    requires cfg.window > 0.0 && 0.0 <= cfg.lag <= 1.0 && SoleInv(cfg, s) && Enabled(cfg, s, step)
    ensures SoleInv(cfg, Next(cfg, s, step))
  {
    match step
    case Expire => SoleExpire(cfg, s);
    case Trim(w) => SoleTrim(cfg, s, w);
    case _ =>
      KeyInvNext(cfg, s, step);
      TimeIsPast(cfg, s);
      hide KeyInv;
  }

  lemma {:induction false} SoleOfRun(cfg: Config, s: State, steps: seq<Step>, s': State)
    requires cfg.window > 0.0 && 0.0 <= cfg.lag <= 1.0 && SoleInv(cfg, s) && IsRun(cfg, s, steps, s')
    ensures SoleInv(cfg, s')
    decreases |steps|
  {
    if steps != [] {
      SoleNext(cfg, s, steps[0]);
      SoleOfRun(cfg, Next(cfg, s, steps[0]), steps[1..], s');
    }
  }

  /** Once trimmed, the set holds just the recent requests. */
  lemma SetIsRecent(cfg: Config, s: State)
    requires SoleInv(cfg, s) && s.workers[0].Trimmed?
    ensures s.zset == Recent(cfg, s, s.workers[0].now)
  {
    hide KeyInv;
  }

  lemma ExactAlone(cfg: Config, s: State, steps: seq<Step>, s': State, w: nat)
    requires cfg.window > 0.0 && 0.0 <= cfg.lag <= 1.0 && cfg.workers == 1
    ensures ExactAt(cfg, s, steps, s', w)
  {
    if Initial(cfg, s) && IsRun(cfg, s, steps, s') && Enabled(cfg, s', Count(w)) {
      SoleOfRun(cfg, s, steps, s');
      SetIsRecent(cfg, s');
    }
  }

  // Where it decides otherwise.

  lemma NothingCounted(cfg: Config, s: State, steps: seq<Step>, s': State, w: nat)
    requires cfg.max == 0
    ensures ExactAt(cfg, s, steps, s', w)
  {
  }

  /** A request that is counted on an emptied set although the limit has just been used up. */
  lemma WronglyIn(cfg: Config, at: int -> real, m: State, w: nat)
    requires IsLadder(cfg, at) && Progress(cfg, m, at, Burst(cfg), Burst(cfg)) && m.zset == {} && w < cfg.workers
    requires m.workers[w].Stamped? && at(Burst(cfg)) < m.workers[w].now <= cfg.window
    ensures !DecidesExactly(cfg)
  {
    var now := m.workers[w].now;
    var s' := Next(cfg, m, Trim(w));
    ReachesStep(cfg, Start(cfg), m, Trim(w));
    var steps :| IsRun(cfg, Start(cfg), steps, s');
    assert Recent(cfg, s', now) == m.admitted;
    assert !ExactAt(cfg, Start(cfg), steps, s', w);
  }

  lemma WrongWhenLate(cfg: Config)
    requires cfg.window > 0.0 && cfg.lag > 1.0 && cfg.workers > 0 && cfg.max > 0
    ensures !DecidesExactly(cfg)
  {
    hide DecidesExactly;
    var at := SomeLadder(cfg, cfg.lag - 1.0);
    var m := LoseKey(cfg, at);
    assert at(Burst(cfg)) <= at(Worst(cfg)) < cfg.window;
    WronglyIn(cfg, at, m, 0);
  }

  lemma WrongTogether(cfg: Config)
    requires cfg.window > 0.0 && cfg.lag > 0.0 && cfg.workers > 1 && cfg.max > 0
    ensures !DecidesExactly(cfg)
  {
    hide DecidesExactly;
    var at := SomeLadder(cfg, 1.0);
    var m := TrimAll(cfg, at);
    assert m.workers[1] == Stamped(at(Burst(cfg) + 1));
    LadderAt(cfg, at, Burst(cfg) + 1);
    WronglyIn(cfg, at, m, 1);
  }

  /** Requests are let in exactly while fewer than the limit have been admitted in the window before them, in every run,
      if and only if there is a single worker whose requests take no longer than a second, or nothing is allowed. */
  lemma WhenDecidesExactly(cfg: Config)
    requires cfg.window > 0.0 && cfg.lag > 0.0 && cfg.workers > 0
    ensures DecidesExactly(cfg) <==> cfg.max == 0 || (cfg.workers == 1 && cfg.lag <= 1.0)
  {
    hide ExactAt;
    if cfg.max == 0 || (cfg.workers == 1 && cfg.lag <= 1.0) {
      forall s, steps, s', w
        ensures ExactAt(cfg, s, steps, s', w)
      {
        if cfg.max == 0 {
          NothingCounted(cfg, s, steps, s', w);
        } else {
          ExactAlone(cfg, s, steps, s', w);
        }
      }
    } else if cfg.lag > 1.0 {
      WrongWhenLate(cfg);
    } else {
      WrongTogether(cfg);
    }
  }

  // Refusals, with any number of workers.

  /** What is kept has been admitted, and a trimmed request finds nothing older than its window. */
  ghost predicate KeptInv(cfg: Config, s: State) {
    && KeyInv(cfg, s) && s.zset <= s.admitted
    && forall w :: 0 <= w < |s.workers| && s.workers[w].Trimmed? ==> AllAfter(s.zset, s.workers[w].now - cfg.window)
  }

  ghost predicate AllAfter(zset: set<real>, time: real) {
    forall x :: x in zset ==> x > time
  }

  lemma KeptNext(cfg: Config, s: State, step: Step)
    requires cfg.window > cfg.lag >= 0.0 && KeptInv(cfg, s) && Enabled(cfg, s, step)
    ensures KeptInv(cfg, Next(cfg, s, step))
  {
    KeyInvNext(cfg, s, step);
    var s' := Next(cfg, s, step);
    forall w | 0 <= w < |s'.workers| && s'.workers[w].Trimmed?
      ensures AllAfter(s'.zset, s'.workers[w].now - cfg.window)
    {
      assert s.workers[w].Trimmed? ==> AllAfter(s.zset, s.workers[w].now - cfg.window);
    }
  }

  lemma {:induction false} KeptOfRun(cfg: Config, s: State, steps: seq<Step>, s': State)
    requires cfg.window > cfg.lag >= 0.0 && KeptInv(cfg, s) && IsRun(cfg, s, steps, s')
    ensures KeptInv(cfg, s')
    decreases |steps|
  {
    if steps != [] {
      KeptNext(cfg, s, steps[0]);
      KeptOfRun(cfg, Next(cfg, s, steps[0]), steps[1..], s');
    }
  }

  /** No request is refused without cause: whatever the number of workers, if requests take less than a window, a
      refusal means that the limit has been admitted from a window before the request until its verdict. */
  lemma RefusalIsDue(cfg: Config, s: State, steps: seq<Step>, s': State, w: nat)
    requires cfg.window > cfg.lag >= 0.0 && Initial(cfg, s) && IsRun(cfg, s, steps, s')
    requires Enabled(cfg, s', Count(w)) && Next(cfg, s', Count(w)).workers[w].Idle?
    ensures var now := s'.workers[w].now;
            |set x | x in s'.admitted && now - cfg.window < x <= now + cfg.lag| >= cfg.max
  {
    KeptOfRun(cfg, s, steps, s');
    var now := s'.workers[w].now;
    assert AllAfter(s'.zset, now - cfg.window);
    SubsetSize(s'.zset, set x | x in s'.admitted && now - cfg.window < x <= now + cfg.lag);
  }
}
