/** The gateway's circuit breaker, and the law its state changes follow over every trace of calls. */
module CircuitBreaker {

  datatype Mode = Closed | Open | HalfOpen

  datatype Config = Config(threshold: int, resetTimeout: real, halfOpenMax: int)

  datatype Breaker = Breaker(mode: Mode, failures: int, lastFailure: real, successes: int)

  const FRESH := Breaker(Closed, 0, 0.0, 0)

  /** The calls of the breaker; failures and admission checks read the clock. */
  datatype Call = Check(now: real) | Success | Failure(now: real)

  predicate Allows(cfg: Config, b: Breaker, now: real) {
    match b.mode
    case Closed => true
    case Open => now - b.lastFailure > cfg.resetTimeout
    case HalfOpen => b.successes < cfg.halfOpenMax
  }

  function Next(cfg: Config, b: Breaker, call: Call): Breaker {
    match call
    case Check(now) =>
      if b.mode == Open && Allows(cfg, b, now) then b.(mode := HalfOpen, successes := 0) else b
    case Success =>
      if b.mode == HalfOpen then
        var b' := b.(successes := b.successes + 1);
        if b'.successes >= cfg.halfOpenMax then b'.(mode := Closed, failures := 0) else b'
      else if b.mode == Closed then b.(failures := 0)
      else b
    case Failure(now) =>
      var b' := b.(failures := b.failures + 1, lastFailure := now);
      if b.mode == HalfOpen || b'.failures >= cfg.threshold then b'.(mode := Open) else b'
  }

  function Run(cfg: Config, calls: seq<Call>): Breaker {
    if calls == [] then FRESH else Next(cfg, Run(cfg, calls[..|calls| - 1]), calls[|calls| - 1])
  }

  /** The failures at the end of a trace, admission checks aside. */
  function Streak(calls: seq<Call>): nat {
    if calls == [] then 0
    else
      var rest := calls[..|calls| - 1];
      match calls[|calls| - 1]
      case Check(_) => Streak(rest)
      case Success => 0
      case Failure(_) => Streak(rest) + 1
  }

  /** The time of the last failure in a trace. */
  function LastFailure(calls: seq<Call>): real {
    if calls == [] then 0.0
    else match calls[|calls| - 1]
      case Failure(now) => now
      case _ => LastFailure(calls[..|calls| - 1])
  }

  function Successes(calls: seq<Call>): nat {
    if calls == [] then 0 else Successes(calls[..|calls| - 1]) + if calls[|calls| - 1].Success? then 1 else 0
  }

  predicate NoFailure(calls: seq<Call>) {
    forall k :: 0 <= k < |calls| ==> !calls[k].Failure?
  }

  /** At position m an open breaker was probed late enough; since then it has seen no failure and n successes. */
  ghost predicate ProbedAt(cfg: Config, calls: seq<Call>, m: nat, n: int) {
    && m < |calls| && calls[m].Check?
    && Run(cfg, calls[..m]).mode == Open
    && calls[m].now - LastFailure(calls[..m]) > cfg.resetTimeout
    && NoFailure(calls[m + 1..]) && Successes(calls[m + 1..]) == n
  }

  ghost predicate Probed(cfg: Config, calls: seq<Call>, n: int) {
    exists m: nat :: ProbedAt(cfg, calls, m, n)
  }

  /** Every state of the breaker, read off the trace. */
  ghost predicate Law(cfg: Config, calls: seq<Call>) {
    var b := Run(cfg, calls);
    && b.lastFailure == LastFailure(calls)
    && match b.mode
       case Closed => b.failures == Streak(calls) && (b.failures < cfg.threshold || b.failures == 0)
       case Open => true
       case HalfOpen => 0 <= b.successes < cfg.halfOpenMax && Probed(cfg, calls, b.successes)
  }

  lemma ProbedExtends(cfg: Config, calls: seq<Call>, call: Call, n: int)
    requires Probed(cfg, calls, n) && !call.Failure?
    ensures Probed(cfg, calls + [call], if call.Success? then n + 1 else n)
  {
    var m: nat :| ProbedAt(cfg, calls, m, n);
    var calls' := calls + [call];
    assert calls'[..m] == calls[..m];
    assert calls'[m + 1..] == calls[m + 1..] + [call];
    assert (calls[m + 1..] + [call])[..|calls[m + 1..]|] == calls[m + 1..];
    assert ProbedAt(cfg, calls', m, if call.Success? then n + 1 else n);
  }

  lemma RunAppend(cfg: Config, calls: seq<Call>, call: Call)
    ensures Run(cfg, calls + [call]) == Next(cfg, Run(cfg, calls), call)
    ensures LastFailure(calls + [call]) == if call.Failure? then call.now else LastFailure(calls)
    ensures Streak(calls + [call])
         == if call.Failure? then Streak(calls) + 1 else if call.Success? then 0 else Streak(calls)
  {
    assert (calls + [call])[..|calls + [call]| - 1] == calls;
  }

  lemma LawNext(cfg: Config, calls: seq<Call>, call: Call)
    requires cfg.halfOpenMax > 0 && Law(cfg, calls)
    ensures Law(cfg, calls + [call])
  {
    RunAppend(cfg, calls, call);
    var b := Run(cfg, calls);
    if b.mode == HalfOpen && !call.Failure? {
      ProbedExtends(cfg, calls, call, b.successes);
    }
    if b.mode == Open && call.Check? {
      var calls' := calls + [call];
      assert calls'[..|calls|] == calls && calls'[|calls| + 1..] == [];
      assert calls'[|calls|] == call;
      if Allows(cfg, b, call.now) {
        assert ProbedAt(cfg, calls', |calls|, 0);
      }
    }
  }

  lemma {:induction false} LawHolds(cfg: Config, calls: seq<Call>)
    requires cfg.halfOpenMax > 0
    ensures Law(cfg, calls)
  {
    if calls != [] {
      var rest := calls[..|calls| - 1];
      LawHolds(cfg, rest);
      LawNext(cfg, rest, calls[|calls| - 1]);
      assert rest + [calls[|calls| - 1]] == calls;
    }
  }

  /** A closed breaker opens exactly on the failure that completes a streak of `threshold`, never before. */
  lemma OpensOnStreak(cfg: Config, calls: seq<Call>, call: Call)
    requires cfg.halfOpenMax > 0 && Run(cfg, calls).mode == Closed
    ensures Run(cfg, calls + [call]).mode == Open <==> call.Failure? && Streak(calls + [call]) >= cfg.threshold
    ensures Run(cfg, calls + [call]).mode == Open && cfg.threshold > 0 ==> Streak(calls + [call]) == cfg.threshold
  {
    LawHolds(cfg, calls);
    RunAppend(cfg, calls, call);
  }

  /** Without a failure a breaker does not open. */
  lemma {:induction false} StaysNotOpen(cfg: Config, calls: seq<Call>, m: nat, k: nat)
    requires m < k <= |calls| && NoFailure(calls[m + 1..])
    requires calls[m].Check? && Run(cfg, calls[..m]).mode == Open && Allows(cfg, Run(cfg, calls[..m]), calls[m].now)
    ensures Run(cfg, calls[..k]).mode != Open
  {
    assert calls[..k][..k - 1] == calls[..k - 1];
    if k > m + 1 {
      StaysNotOpen(cfg, calls, m, k - 1);
      assert calls[m + 1..][k - 1 - (m + 1)] == calls[k - 1];
    }
  }

  /** A trace has at most one probe that no failure follows, so it counts its successes one way only. */
  lemma ProbesAgree(cfg: Config, calls: seq<Call>, n: int, n': int)
    requires cfg.halfOpenMax > 0 && Probed(cfg, calls, n) && Probed(cfg, calls, n')
    ensures n == n'
  {
    var m: nat :| ProbedAt(cfg, calls, m, n);
    var m': nat :| ProbedAt(cfg, calls, m', n');
    LawHolds(cfg, calls[..m]);
    LawHolds(cfg, calls[..m']);
    if m < m' {
      StaysNotOpen(cfg, calls, m, m');
    }
    if m' < m {
      StaysNotOpen(cfg, calls, m', m);
    }
  }

  /** A breaker that is not closed closes exactly on the success that completes `halfOpenMax` of them since a
      probe, which came more than the reset timeout after the last failure, with no failure since. */
  lemma ClosesAfterProbe(cfg: Config, calls: seq<Call>, call: Call)
    requires cfg.halfOpenMax > 0 && Run(cfg, calls).mode != Closed
    ensures Run(cfg, calls + [call]).mode == Closed <==>
      Run(cfg, calls).mode == HalfOpen && call.Success? && Probed(cfg, calls + [call], cfg.halfOpenMax)
  {
    LawHolds(cfg, calls);
    RunAppend(cfg, calls, call);
    var b := Run(cfg, calls);
    if b.mode == HalfOpen && call.Success? {
      ProbedExtends(cfg, calls, call, b.successes);
      if Probed(cfg, calls + [call], cfg.halfOpenMax) {
        ProbesAgree(cfg, calls + [call], b.successes + 1, cfg.halfOpenMax);
      }
    }
  }

  /** An open breaker stays open until a check comes more than the reset timeout after the last failure, which makes it
      half open; and a half-open one opens again exactly on a failure. */
  lemma LeavesOpen(cfg: Config, calls: seq<Call>, call: Call)
    requires cfg.halfOpenMax > 0 && Run(cfg, calls).mode != Closed
    ensures Run(cfg, calls).mode == Open ==>
      (Run(cfg, calls + [call]).mode == HalfOpen <==>
         call.Check? && call.now - LastFailure(calls) > cfg.resetTimeout)
      && (Run(cfg, calls + [call]).mode != HalfOpen ==> Run(cfg, calls + [call]).mode == Open)
      && (call.Success? ==> Run(cfg, calls + [call]) == Run(cfg, calls))
    ensures Run(cfg, calls).mode == HalfOpen ==> (Run(cfg, calls + [call]).mode == Open <==> call.Failure?)
  {
    LawHolds(cfg, calls);
    RunAppend(cfg, calls, call);
  }

  /** After every trace a request is refused exactly by an open breaker within the reset timeout of the last failure. */
  lemma WhenRefused(cfg: Config, calls: seq<Call>, now: real)
    requires cfg.halfOpenMax > 0
    ensures !Allows(cfg, Run(cfg, calls), now) <==>
      Run(cfg, calls).mode == Open && now - LastFailure(calls) <= cfg.resetTimeout
  {
    LawHolds(cfg, calls);
  }

  /** While half open, the breaker lets any number of checks through: only successes count against the limit. */
  lemma {:induction false} HalfOpenAdmitsAll(cfg: Config, calls: seq<Call>, checks: seq<Call>, now: real)
    requires cfg.halfOpenMax > 0 && Run(cfg, calls).mode == HalfOpen
    requires forall k :: 0 <= k < |checks| ==> checks[k].Check?
    ensures Run(cfg, calls + checks) == Run(cfg, calls) && Allows(cfg, Run(cfg, calls + checks), now)
  {
    if checks == [] {
      assert calls + checks == calls;
      LawHolds(cfg, calls);
    } else {
      var rest := checks[..|checks| - 1];
      HalfOpenAdmitsAll(cfg, calls, rest, now);
      assert calls + checks == (calls + rest) + [checks[|checks| - 1]];
      RunAppend(cfg, calls + rest, checks[|checks| - 1]);
    }
  }

  /** The breaker object; every method runs under its mutex. */
  class Guard {
    const cfg: Config
    var mode: Mode
    var failures: int
    var lastFailure: real
    var successes: int

    function View(): Breaker
      reads this
    {
      Breaker(mode, failures, lastFailure, successes)
    }

    constructor (threshold: int, resetTimeout: real)
      ensures View() == FRESH && cfg == Config(threshold, resetTimeout, 3)
    {
      cfg := Config(threshold, resetTimeout, 3);
      mode, failures, lastFailure, successes := Closed, 0, 0.0, 0;
    }

    method Allow(now: real) returns (allowed: bool)
      modifies this
      ensures allowed == Allows(cfg, old(View()), now)
      ensures View() == Next(cfg, old(View()), Check(now))
    {
      match mode
      case Closed => return true;
      case Open =>
        if now - lastFailure > cfg.resetTimeout {
          mode := HalfOpen;
          successes := 0;
          return true;
        }
        return false;
      case HalfOpen => return successes < cfg.halfOpenMax;
    }

    method RecordSuccess()
      modifies this
      ensures View() == Next(cfg, old(View()), Success)
    {
      if mode == HalfOpen {
        successes := successes + 1;
        if successes >= cfg.halfOpenMax {
          mode := Closed;
          failures := 0;
        }
      } else if mode == Closed {
        failures := 0;
      }
    }

    method RecordFailure(now: real)
      modifies this
      ensures View() == Next(cfg, old(View()), Failure(now))
    {
      failures := failures + 1;
      lastFailure := now;
      if mode == HalfOpen {
        mode := Open;
        return;
      }
      if failures >= cfg.threshold {
        mode := Open;
      }
    }
  }
}
