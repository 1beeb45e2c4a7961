/** The orchestrator's control state and the trading loops it gates, as atomic steps between awaits. */
module OrchestratorEngine {
  import opened EquityCurve

  datatype Mode = Stopped | Starting | Running | Paused | Stopping | Error | Degraded | CircuitBreaker

  datatype Level = NoDegradation | ReducePositions | WidenStops | HaltNewOrders | FullHalt

  const INITIAL_CAPITAL := 100000.0

  datatype Config = Config(degradationEnabled: bool, maxDrawdown: real, maxDailyDrawdown: real)

  /** Mode, degradation level, the risk engine's kill flag, the recorded equities and the last equity seen. */
  datatype Control = Control(mode: Mode, level: Level, kill: bool, history: seq<real>, lastEquity: real)

  /** The current equity of the tracker: its last record. */
  function Equity(c: Control): real {
    if c.history == [] then INITIAL_CAPITAL else c.history[|c.history| - 1]
  }

  function PnlPct(c: Control): real {
    (Equity(c) - INITIAL_CAPITAL) / INITIAL_CAPITAL
  }

  function Degrade(c: Control, level: Level): Control {
    c.(level := level, mode := if level == FullHalt then Paused else c.mode)
  }

  function Trip(cfg: Config, c: Control): Control {
    var c' := c.(mode := CircuitBreaker);
    if cfg.degradationEnabled then Degrade(c', HaltNewOrders) else c'
  }

  /** The checks before an order: whether it may go ahead, and whether the circuit breaker trips. */
  datatype Verdict = Allowed | Rejected | Trips

  function CheckRisk(cfg: Config, c: Control): Verdict {
    if c.kill then Rejected
    else if MaxDrawdown(c.history) > cfg.maxDrawdown then Trips
    else if PnlPct(c) < -cfg.maxDailyDrawdown then Trips
    else Allowed
  }

  function TriggerKill(c: Control): Control {
    Degrade(c.(kill := true, mode := Paused), FullHalt)
  }

  function ResetKill(c: Control): Control {
    c.(kill := false, level := NoDegradation,
       mode := if c.mode == Paused || c.mode == CircuitBreaker then Running else c.mode)
  }

  /** A zero or negative total leaves the last equity in place. */
  function UpdateEquity(c: Control, total: real): Control {
    var equity := if total > 0.0 then total else c.lastEquity;
    c.(lastEquity := equity, history := c.history + [equity])
  }

  /** A loop task: at the top of its loop, awaiting candles, awaiting the balance, going through the
      strategies, or finished. */
  datatype Task = Top | Fetching | Balancing | Strategies(left: nat) | Finished

  datatype Event = Placed | Tripped | Killed | Reset

  datatype State = State(c: Control, tasks: seq<Task>, current: int, log: seq<Event>)

  /** What the environment gives a loop task at its next step. */
  datatype Input = Input(total: real, strategies: nat, offers: bool, sized: bool, fails: bool)

  datatype Step =
    | Start(ok: bool) | Stop | StopDone | Pause | Resume
    | Trigger | ExternalTrigger | ResetKillSwitch
    | Loop(task: nat, input: Input)

  /** One strategy's turn in a trading cycle. */
  function StrategyTurn(cfg: Config, s: State, task: nat, input: Input): State
    requires task < |s.tasks| && s.tasks[task].Strategies? && s.tasks[task].left > 0
  {
    var s' := s.(tasks := s.tasks[task := Strategies(s.tasks[task].left - 1)]);
    if !input.offers || s.c.level == HaltNewOrders then s'
    else
      match CheckRisk(cfg, s.c)
      case Rejected => s'
      case Trips => s'.(c := Trip(cfg, s.c), log := s.log + [Tripped])
      case Allowed => if input.sized then s'.(log := s.log + [Placed]) else s'
  }

  /** What a loop task does between two awaits. */
  function LoopStep(cfg: Config, s: State, task: nat, input: Input): State
    requires task < |s.tasks|
  {
    match s.tasks[task]
    case Top =>
      if s.c.mode in {Running, Degraded} then s.(tasks := s.tasks[task := Fetching])
      else if s.c.mode in {Paused, CircuitBreaker} then s
      else s.(tasks := s.tasks[task := Finished])
    case Fetching =>
      s.(tasks := s.tasks[task := if s.c.mode == CircuitBreaker then Top else Balancing])
    case Balancing =>
      s.(c := UpdateEquity(s.c, input.total), tasks := s.tasks[task := Strategies(input.strategies)])
    case Strategies(left) =>
      if left == 0 || input.fails then s.(tasks := s.tasks[task := Top]) else StrategyTurn(cfg, s, task, input)
    case Finished => s
  }

  function Next(cfg: Config, s: State, step: Step): State {
    match step
    case Start(ok) =>
      if s.c.mode == Running then s
      else if !ok then s.(c := s.c.(mode := Error))
      else s.(c := s.c.(mode := Running), tasks := s.tasks + [Top], current := |s.tasks|)
    case Stop =>
      s.(c := s.c.(mode := Stopping),
         tasks := if 0 <= s.current < |s.tasks| then s.tasks[s.current := Finished] else s.tasks)
    // A stop that was begun may finish at any time, over whatever mode has been set meanwhile.
    case StopDone => s.(c := s.c.(mode := Stopped))
    case Pause => s.(c := s.c.(mode := Paused))
    case Resume => if s.c.mode == Paused then s.(c := s.c.(mode := Running)) else s
    case Trigger => s.(c := TriggerKill(s.c), log := s.log + [Killed])
    case ExternalTrigger => s.(c := s.c.(kill := true), log := s.log + [Killed])
    case ResetKillSwitch => s.(c := ResetKill(s.c), log := s.log + [Reset])
    case Loop(task, input) => if task < |s.tasks| then LoopStep(cfg, s, task, input) else s
  }

  const INITIAL := State(Control(Stopped, NoDegradation, false, [], INITIAL_CAPITAL), [], -1, [])

  function Run(cfg: Config, s: State, steps: seq<Step>): State {
    if steps == [] then s else Next(cfg, Run(cfg, s, steps[..|steps| - 1]), steps[|steps| - 1])
  }

  /** Since the last reset, event e has happened. */
  predicate Since(log: seq<Event>, e: Event) {
    log != [] && log[|log| - 1] != Reset && (log[|log| - 1] == e || Since(log[..|log| - 1], e))
  }

  /** Between e and any later order there is a reset. */
  ghost predicate NoOrderAfter(log: seq<Event>, e: Event) {
    forall i, j :: 0 <= i < j < |log| && log[i] == e && log[j] == Placed ==>
      exists k :: i < k < j && log[k] == Reset
  }

  lemma {:induction false} SinceMeans(log: seq<Event>, e: Event)
    requires e != Reset
    ensures Since(log, e) <==>
      exists i :: 0 <= i < |log| && log[i] == e && forall k :: i < k < |log| ==> log[k] != Reset
  {
    if log != [] {
      var n := |log| - 1;
      SinceMeans(log[..n], e);
      if Since(log, e) && log[n] != e {
        var i :| 0 <= i < n && log[..n][i] == e && forall k :: i < k < n ==> log[..n][k] != Reset;
        assert forall k :: i < k < n ==> log[k] == log[..n][k];
        assert log[i] == e;
      }
      if i :| 0 <= i <= n && log[i] == e && forall k :: i < k <= n ==> log[k] != Reset {
        if i < n {
          assert log[..n][i] == e && forall k :: i < k < n ==> log[..n][k] != Reset;
        }
      }
    }
  }

  lemma NoOrderAppend(log: seq<Event>, e: Event, x: Event)
    requires NoOrderAfter(log, e) && e != Reset && (x == Placed ==> !Since(log, e))
    ensures NoOrderAfter(log + [x], e)
  {
    SinceMeans(log, e);
    var log' := log + [x];
    forall i, j | 0 <= i < j < |log'| && log'[i] == e && log'[j] == Placed
      ensures exists k :: i < k < j && log'[k] == Reset
    {
      if j < |log| {
        var k :| i < k < j && log[k] == Reset;
        assert log'[k] == Reset;
      } else {
        assert log[i] == e;
        var k :| i < k < |log| && log[k] == Reset;
        assert log'[k] == Reset;
      }
    }
  }

  predicate Halted(c: Control) {
    c.level == HaltNewOrders || (c.level == FullHalt && c.kill)
  }

  /** What keeps orders out: the kill flag is up since a kill, and since a trip new orders are halted, unless
      a kill has put a full halt in its place. */
  ghost predicate Inv(cfg: Config, s: State) {
    && (Since(s.log, Killed) ==> s.c.kill)
    && (cfg.degradationEnabled && Since(s.log, Tripped) ==> Halted(s.c))
    && NoOrderAfter(s.log, Killed)
    && (cfg.degradationEnabled ==> NoOrderAfter(s.log, Tripped))
  }

  lemma SinceAppend(log: seq<Event>, e: Event, x: Event)
    ensures Since(log + [x], e) <==> x != Reset && (x == e || Since(log, e))
  {
    assert (log + [x])[..|log + [x]| - 1] == log;
  }

  lemma LogGrows(cfg: Config, s: State, step: Step)
    ensures var log := Next(cfg, s, step).log;
            log == s.log || log == s.log + [log[|log| - 1]]
  {
  }

  /** Without a reset, flag and halt stay; a kill raises the one and a trip the other; an order finds both down. */
  lemma StepKeepsGuards(cfg: Config, s: State, step: Step)
    ensures var s' := Next(cfg, s, step);
            if s'.log == s.log then (s.c.kill ==> s'.c.kill) && (Halted(s.c) ==> Halted(s'.c))
            else
              |s'.log| == |s.log| + 1 &&
              match s'.log[|s.log|]
              case Reset => true
              case Killed => s'.c.kill && (Halted(s.c) ==> Halted(s'.c))
              case Tripped => (s.c.kill ==> s'.c.kill) && (cfg.degradationEnabled ==> Halted(s'.c))
              case Placed => !s.c.kill && !Halted(s.c) && s'.c == s.c
  {
    hide MaxDrawdown;
  }

  lemma InvNext(cfg: Config, s: State, step: Step)
    requires Inv(cfg, s)
    ensures Inv(cfg, Next(cfg, s, step))
  {
    StepKeepsGuards(cfg, s, step);
    LogGrows(cfg, s, step);
    hide Next, NoOrderAfter, Halted, Since;
    var s' := Next(cfg, s, step);
    if s'.log != s.log {
      var x := s'.log[|s.log|];
      assert s'.log == s.log + [x];
      SinceAppend(s.log, Killed, x);
      SinceAppend(s.log, Tripped, x);
      NoOrderAppend(s.log, Killed, x);
      if cfg.degradationEnabled {
        NoOrderAppend(s.log, Tripped, x);
      }
    }
  }

  lemma {:induction false} InvOfRun(cfg: Config, steps: seq<Step>)
    ensures Inv(cfg, Run(cfg, INITIAL, steps))
  {
    if steps != [] {
      InvOfRun(cfg, steps[..|steps| - 1]);
      InvNext(cfg, Run(cfg, INITIAL, steps[..|steps| - 1]), steps[|steps| - 1]);
    }
  }

  /** Over every run, with any number of loops and any interleaving, no order is placed between a kill
      and the next reset. */
  lemma NoOrderWhileKilled(cfg: Config, steps: seq<Step>)
    ensures NoOrderAfter(Run(cfg, INITIAL, steps).log, Killed)
  {
    InvOfRun(cfg, steps);
  }

  ghost predicate PositiveEquity(c: Control) {
    c.lastEquity > 0.0 && Positive(c.history)
  }

  lemma EquityStaysPositive(cfg: Config, s: State, step: Step)
    requires PositiveEquity(s.c)
    ensures PositiveEquity(Next(cfg, s, step).c)
    ensures MaxDrawdown(Next(cfg, s, step).c.history) >= MaxDrawdown(s.c.history) >= 0.0
  {
    hide MaxDrawdown;
    MaxDrawdownGrows(s.c.history, s.c.lastEquity);
    if step.Loop? && step.input.total > 0.0 {
      MaxDrawdownGrows(s.c.history, step.input.total);
    }
  }

  /** An order is placed only with the kill flag down, new orders not halted and both loss limits kept. */
  lemma GateOfOrders(cfg: Config, s: State, step: Step)
    requires Next(cfg, s, step).log != s.log && Next(cfg, s, step).log[|s.log|] == Placed
    ensures !s.c.kill && s.c.level != HaltNewOrders
    ensures MaxDrawdown(s.c.history) <= cfg.maxDrawdown && PnlPct(s.c) >= -cfg.maxDailyDrawdown
  {
    assert step.Loop?;
    assert step.task < |s.tasks|;
    assert s.tasks[step.task].Strategies?;
  }

  /** Once the recorded drawdown is over its limit no order is ever placed again, whatever is paused, resumed,
      stopped, started, killed or reset. */
  lemma {:induction false} DrawdownLatch(cfg: Config, s: State, steps: seq<Step>)
    requires PositiveEquity(s.c) && MaxDrawdown(s.c.history) > cfg.maxDrawdown
    ensures s.log <= Run(cfg, s, steps).log
    ensures Placed !in Run(cfg, s, steps).log[|s.log|..]
    ensures PositiveEquity(Run(cfg, s, steps).c) && MaxDrawdown(Run(cfg, s, steps).c.history) > cfg.maxDrawdown
  {
    if steps != [] {
      var rest, step := steps[..|steps| - 1], steps[|steps| - 1];
      DrawdownLatch(cfg, s, rest);
      var m := Run(cfg, s, rest);
      EquityStaysPositive(cfg, m, step);
      LogGrows(cfg, m, step);
      if Next(cfg, m, step).log != m.log && Next(cfg, m, step).log[|m.log|] == Placed {
        GateOfOrders(cfg, m, step);
      }
    }
  }

  lemma {:induction false} EquityOfRun(cfg: Config, steps: seq<Step>)
    ensures PositiveEquity(Run(cfg, INITIAL, steps).c)
  {
    if steps != [] {
      EquityOfRun(cfg, steps[..|steps| - 1]);
      EquityStaysPositive(cfg, Run(cfg, INITIAL, steps[..|steps| - 1]), steps[|steps| - 1]);
    }
  }

  lemma {:induction false} RunConcat(cfg: Config, s: State, a: seq<Step>, b: seq<Step>)
    ensures Run(cfg, s, a + b) == Run(cfg, Run(cfg, s, a), b)
  {
    if b == [] {
      assert a + b == a;
    } else {
      RunConcat(cfg, s, a, b[..|b| - 1]);
      assert (a + b)[..|a + b| - 1] == a + b[..|b| - 1];
    }
  }

  /** In every run from the start, the drawdown latch is for good: what follows an excessive drawdown holds no order. */
  lemma DrawdownLatchOfRun(cfg: Config, before: seq<Step>, after: seq<Step>)
    requires MaxDrawdown(Run(cfg, INITIAL, before).c.history) > cfg.maxDrawdown
    ensures Run(cfg, INITIAL, before).log <= Run(cfg, INITIAL, before + after).log
    ensures Placed !in Run(cfg, INITIAL, before + after).log[|Run(cfg, INITIAL, before).log|..]
  {
    EquityOfRun(cfg, before);
    RunConcat(cfg, INITIAL, before, after);
    DrawdownLatch(cfg, Run(cfg, INITIAL, before), after);
  }

  /** A trip holds off orders until the next reset, in every run. */
  ghost predicate TripsHold(cfg: Config) {
    forall steps {:trigger Run(cfg, INITIAL, steps)} :: NoOrderAfter(Run(cfg, INITIAL, steps).log, Tripped)
  }

  /** Without degradation, a trip that can only come from the drawdown stays in force through the latch. */
  ghost predicate TripInv(cfg: Config, s: State) {
    && PositiveEquity(s.c)
    && (Tripped in s.log ==> MaxDrawdown(s.c.history) > cfg.maxDrawdown)
    && NoOrderAfter(s.log, Tripped)
  }

  lemma TripInvNext(cfg: Config, s: State, step: Step)
    requires TripInv(cfg, s) && (cfg.maxDrawdown < 0.0 || cfg.maxDailyDrawdown >= 1.0)
    ensures TripInv(cfg, Next(cfg, s, step))
  {
    EquityStaysPositive(cfg, s, step);
    var s' := Next(cfg, s, step);
    LogGrows(cfg, s, step);
    if s'.log != s.log {
      var x := s'.log[|s.log|];
      if x == Placed {
        GateOfOrders(cfg, s, step);
        SinceOccurs(s.log, Tripped);
      }
      NoOrderAppend(s.log, Tripped, x);
      if x == Tripped {
        assert Equity(s.c) > 0.0;
        assert PnlPct(s.c) > -1.0;
      }
    }
  }

  lemma {:induction false} SinceOccurs(log: seq<Event>, e: Event)
    ensures Since(log, e) ==> e in log
  {
    if log != [] {
      SinceOccurs(log[..|log| - 1], e);
    }
  }

  lemma {:induction false} TripInvOfRun(cfg: Config, steps: seq<Step>)
    requires cfg.maxDrawdown < 0.0 || cfg.maxDailyDrawdown >= 1.0
    ensures TripInv(cfg, Run(cfg, INITIAL, steps))
  {
    if steps != [] {
      TripInvOfRun(cfg, steps[..|steps| - 1]);
      TripInvNext(cfg, Run(cfg, INITIAL, steps[..|steps| - 1]), steps[|steps| - 1]);
    }
  }

  lemma RunOneMore(cfg: Config, s: State, steps: seq<Step>, step: Step)
    ensures Run(cfg, s, steps + [step]) == Next(cfg, Run(cfg, s, steps), step)
  {
    assert (steps + [step])[..|steps + [step]| - 1] == steps;
  }

  function Turn(total: real): Input {
    Input(total, 1, true, true, false)
  }

  /** The steps of one loop from the top of a cycle to its only strategy's turn. */
  lemma CycleToTurn(cfg: Config, steps: seq<Step>, total: real) returns (steps': seq<Step>)
    requires Run(cfg, INITIAL, steps).tasks == [Top] && Run(cfg, INITIAL, steps).c.mode == Running
    ensures Run(cfg, INITIAL, steps')
         == Run(cfg, INITIAL, steps).(c := UpdateEquity(Run(cfg, INITIAL, steps).c, total), tasks := [Strategies(1)])
  {
    var loop := Loop(0, Turn(total));
    RunOneMore(cfg, INITIAL, steps, loop);
    RunOneMore(cfg, INITIAL, steps + [loop], loop);
    RunOneMore(cfg, INITIAL, steps + [loop] + [loop], loop);
    steps' := steps + [loop] + [loop] + [loop];
  }

  /** A turn that trips the breaker, the end of the cycle, a pause and a resume. */
  lemma TurnTrips(cfg: Config, s: State, low: real)
    requires !cfg.degradationEnabled && cfg.maxDrawdown >= 0.0 && low > 0.0
    requires (low - INITIAL_CAPITAL) / INITIAL_CAPITAL < -cfg.maxDailyDrawdown
    requires s == State(Control(Running, NoDegradation, false, [low], low), [Strategies(1)], 0, [])
    ensures Next(cfg, Next(cfg, Next(cfg, Next(cfg, s, Loop(0, Turn(low))), Loop(0, Turn(low))), Pause), Resume)
         == State(Control(Running, NoDegradation, false, [low], low), [Top], 0, [Tripped])
  {
    assert CheckRisk(cfg, s.c) == Trips;
    var turn := Loop(0, Turn(low));
    var tripped := Control(CircuitBreaker, NoDegradation, false, [low], low);
    assert Next(cfg, s, turn) == State(tripped, [Strategies(0)], 0, [Tripped]);
    assert Next(cfg, State(tripped, [Strategies(0)], 0, [Tripped]), turn) == State(tripped, [Top], 0, [Tripped]);
  }

  /** A daily loss trips the breaker in a loop that is then left idle, and paused and resumed. */
  lemma TripAndResume(cfg: Config, low: real) returns (steps: seq<Step>)
    requires !cfg.degradationEnabled && cfg.maxDrawdown >= 0.0 && low > 0.0
    requires (low - INITIAL_CAPITAL) / INITIAL_CAPITAL < -cfg.maxDailyDrawdown
    ensures Run(cfg, INITIAL, steps) == State(Control(Running, NoDegradation, false, [low], low), [Top], 0, [Tripped])
  {
    RunOneMore(cfg, INITIAL, [], Start(true));
    steps := CycleToTurn(cfg, [] + [Start(true)], low);
    TurnTrips(cfg, Run(cfg, INITIAL, steps), low);
    hide Run, Next;
    var turn := Loop(0, Turn(low));
    RunOneMore(cfg, INITIAL, steps, turn);
    RunOneMore(cfg, INITIAL, steps + [turn], turn);
    RunOneMore(cfg, INITIAL, steps + [turn] + [turn], Pause);
    RunOneMore(cfg, INITIAL, steps + [turn] + [turn] + [Pause], Resume);
    steps := steps + [turn] + [turn] + [Pause] + [Resume];
  }

  /** With degradation off, a daily loss can trip the breaker and, after pause and resume and a recovery,
      an order goes out without a reset. */
  lemma TripForgotten(cfg: Config) returns (steps: seq<Step>)
    requires !cfg.degradationEnabled && cfg.maxDrawdown >= 0.0 && cfg.maxDailyDrawdown < 1.0
    ensures !NoOrderAfter(Run(cfg, INITIAL, steps).log, Tripped)
  {
    hide Run;
    var low := INITIAL_CAPITAL * (1.0 - cfg.maxDailyDrawdown) / 2.0;
    var high := INITIAL_CAPITAL * (2.0 - cfg.maxDailyDrawdown);
    steps := TripAndResume(cfg, low);
    steps := CycleToTurn(cfg, steps, high);
    var b := Run(cfg, INITIAL, steps);
    assert b.c.history == [low, high];
    NoDropWhenRising(low, high);
    var turn := Loop(0, Turn(high));
    RunOneMore(cfg, INITIAL, steps, turn);
    steps := steps + [turn];
    var log := Run(cfg, INITIAL, steps).log;
    assert log == [Tripped, Placed];
    assert log[0] == Tripped && log[1] == Placed;
  }

  lemma NoDropWhenRising(low: real, high: real)
    requires 0.0 < low <= high
    ensures MaxDrawdown([low, high]) == 0.0
  {
    var h := [low, high];
    assert h[..|h| - 1] == [low];
    assert Peak([low]) == low && Peak(h) == high;
    assert Drawdown([low]) == 0.0 && Drawdown(h) == 0.0;
    assert WorstDrawdown([low]) == 0.0;
  }

  /** Exactly when trips hold: with degradation enabled, or when a daily loss cannot trip while orders could
      still pass the drawdown check. */
  lemma WhenTripsHold(cfg: Config)
    ensures TripsHold(cfg) <==> cfg.degradationEnabled || cfg.maxDrawdown < 0.0 || cfg.maxDailyDrawdown >= 1.0
  {
    if cfg.degradationEnabled {
      forall steps {:trigger Run(cfg, INITIAL, steps)} ensures NoOrderAfter(Run(cfg, INITIAL, steps).log, Tripped) {
        InvOfRun(cfg, steps);
      }
    } else if cfg.maxDrawdown < 0.0 || cfg.maxDailyDrawdown >= 1.0 {
      forall steps {:trigger Run(cfg, INITIAL, steps)} ensures NoOrderAfter(Run(cfg, INITIAL, steps).log, Tripped) {
        TripInvOfRun(cfg, steps);
      }
    } else {
      var steps := TripForgotten(cfg);
    }
  }

  // What a pause is good for.

  /** Steps that nobody takes to get trading going again. */
  predicate Unattended(steps: seq<Step>) {
    forall k :: 0 <= k < |steps| ==> !steps[k].Start? && !steps[k].Resume? && !steps[k].ResetKillSwitch?
  }

  /** A cycle is under way that the checks may still let through: one in the middle of its strategies, if the daily
      loss is within its limit too, or one that has yet to record the equity. */
  ghost predicate CycleUnderWay(cfg: Config, s: State) {
    && !s.c.kill && s.c.level != HaltNewOrders && MaxDrawdown(s.c.history) <= cfg.maxDrawdown
    && exists i :: 0 <= i < |s.tasks| && MayPlace(cfg, s.c, s.tasks[i])
  }

  predicate MayPlace(cfg: Config, c: Control, task: Task) {
    || task.Fetching? || task.Balancing?
    || (task.Strategies? && task.left > 0 && PnlPct(c) >= -cfg.maxDailyDrawdown)
  }

  /** Whatever happens short of a start, a resume or a reset, no order goes out. */
  ghost predicate OrdersHeld(cfg: Config, s: State) {
    forall steps {:trigger Run(cfg, s, steps)} :: Unattended(steps) ==>
      s.log <= Run(cfg, s, steps).log && Placed !in Run(cfg, s, steps).log[|s.log|..]
  }

  ghost predicate AtRest(cfg: Config, s: State) {
    PositiveEquity(s.c) && s.c.mode != Running && s.c.mode != Degraded && !CycleUnderWay(cfg, s)
  }

  lemma RestNext(cfg: Config, s: State, step: Step)
    requires AtRest(cfg, s) && Unattended([step])
    ensures AtRest(cfg, Next(cfg, s, step))
    ensures Next(cfg, s, step).log == s.log || Next(cfg, s, step).log[|s.log|] != Placed
  {
    assert [step][0] == step;
    hide MaxDrawdown;
    EquityStaysPositive(cfg, s, step);
    var s' := Next(cfg, s, step);
    if i :| 0 <= i < |s'.tasks| && MayPlace(cfg, s'.c, s'.tasks[i]) {
      assert i < |s.tasks|;
      if !s.c.kill && s.c.level != HaltNewOrders && MaxDrawdown(s.c.history) <= cfg.maxDrawdown {
        assert !MayPlace(cfg, s.c, s.tasks[i]);
        assert step.Loop? ==> step.task < |s.tasks| ==> !MayPlace(cfg, s.c, s.tasks[step.task]);
      }
    }
  }

  lemma {:induction false} RestOfRun(cfg: Config, s: State, steps: seq<Step>)
    requires AtRest(cfg, s) && Unattended(steps)
    ensures AtRest(cfg, Run(cfg, s, steps))
    ensures s.log <= Run(cfg, s, steps).log && Placed !in Run(cfg, s, steps).log[|s.log|..]
  {
    hide AtRest;
    if steps != [] {
      var rest, step := steps[..|steps| - 1], steps[|steps| - 1];
      assert forall k :: 0 <= k < |rest| ==> rest[k] == steps[k];
      RestOfRun(cfg, s, rest);
      assert Unattended([step]);
      RestNext(cfg, Run(cfg, s, rest), step);
      LogGrows(cfg, Run(cfg, s, rest), step);
    }
  }

  function Larger(a: real, b: real): real {
    if a >= b then a else b
  }

  /** A balance that is no loss against the history or the initial capital. */
  function Recovered(cfg: Config, c: Control): real {
    Larger(INITIAL_CAPITAL * Larger(1.0, 1.0 - cfg.maxDailyDrawdown), if c.history == [] then 0.0 else Peak(c.history))
  }

  lemma RecoveredPasses(cfg: Config, c: Control)
    requires PositiveEquity(c) && !c.kill && MaxDrawdown(c.history) <= cfg.maxDrawdown
    ensures CheckRisk(cfg, UpdateEquity(c, Recovered(cfg, c))) == Allowed
  {
    NewPeakKeepsMaxDrawdown(c.history, Recovered(cfg, c));
  }

  lemma StepThenRun(cfg: Config, s: State, step: Step, rest: seq<Step>)
    ensures Run(cfg, s, [step] + rest) == Run(cfg, Next(cfg, s, step), rest)
  {
    RunConcat(cfg, s, [step], rest);
    RunOneMore(cfg, s, [], step);
    assert [] + [step] == [step];
  }

  lemma TurnPlaces(cfg: Config, s: State, task: nat) returns (steps: seq<Step>)
    requires CheckRisk(cfg, s.c) == Allowed && s.c.level != HaltNewOrders
    requires task < |s.tasks| && s.tasks[task].Strategies? && s.tasks[task].left > 0
    ensures forall k :: 0 <= k < |steps| ==> steps[k].Loop?
    ensures Run(cfg, s, steps).log == s.log + [Placed]
  {
    var loop := Loop(task, Turn(INITIAL_CAPITAL));
    RunOneMore(cfg, s, [], loop);
    steps := [] + [loop];
  }

  /** A cycle whose equity is still to be recorded, with the balance it will read, can place an order. */
  lemma BalancingPlaces(cfg: Config, s: State, task: nat) returns (steps: seq<Step>)
    requires PositiveEquity(s.c) && !s.c.kill && s.c.level != HaltNewOrders
    requires MaxDrawdown(s.c.history) <= cfg.maxDrawdown
    requires task < |s.tasks| && s.tasks[task].Balancing?
    ensures forall k :: 0 <= k < |steps| ==> steps[k].Loop?
    ensures Run(cfg, s, steps).log == s.log + [Placed]
  {
    hide Run, MaxDrawdown;
    var loop := Loop(task, Turn(Recovered(cfg, s.c)));
    RecoveredPasses(cfg, s.c);
    var rest := TurnPlaces(cfg, Next(cfg, s, loop), task);
    StepThenRun(cfg, s, loop, rest);
    steps := [loop] + rest;
  }

  lemma FetchingPlaces(cfg: Config, s: State, task: nat) returns (steps: seq<Step>)
    requires PositiveEquity(s.c) && !s.c.kill && s.c.level != HaltNewOrders
    requires MaxDrawdown(s.c.history) <= cfg.maxDrawdown
    requires task < |s.tasks| && s.tasks[task].Fetching? && s.c.mode != CircuitBreaker
    ensures forall k :: 0 <= k < |steps| ==> steps[k].Loop?
    ensures Run(cfg, s, steps).log == s.log + [Placed]
  {
    hide Run, MaxDrawdown;
    var loop := Loop(task, Turn(INITIAL_CAPITAL));
    var rest := BalancingPlaces(cfg, Next(cfg, s, loop), task);
    StepThenRun(cfg, s, loop, rest);
    steps := [loop] + rest;
  }

  /** The loops run on, after a pause where the breaker has tripped. */
  predicate LoopsRunOn(c: Control, steps: seq<Step>) {
    forall k :: 0 <= k < |steps| ==> steps[k].Loop? || (steps[k] == Pause && c.mode == CircuitBreaker)
  }

  /** A cycle under way can still place an order, with no step but those of the loops and, where the breaker has
      tripped, a pause. */
  lemma CyclePlaces(cfg: Config, s: State) returns (steps: seq<Step>)
    requires PositiveEquity(s.c) && CycleUnderWay(cfg, s)
    ensures LoopsRunOn(s.c, steps) && Run(cfg, s, steps).log == s.log + [Placed]
  {
    hide Run, MaxDrawdown;
    var i: nat :| i < |s.tasks| && MayPlace(cfg, s.c, s.tasks[i]);
    match s.tasks[i]
    case Balancing =>
      steps := BalancingPlaces(cfg, s, i);
    case Strategies(_) =>
      steps := TurnPlaces(cfg, s, i);
    case Fetching =>
      if s.c.mode == CircuitBreaker {
        var rest := FetchingPlaces(cfg, Next(cfg, s, Pause), i);
        StepThenRun(cfg, s, Pause, rest);
        steps := [Pause] + rest;
      } else {
        steps := FetchingPlaces(cfg, s, i);
      }
  }

  /** Exactly when orders stay out of loops that nobody sets going again: with no cycle under way that may place one. */
  lemma WhenOrdersAreHeld(cfg: Config, s: State)
    requires PositiveEquity(s.c) && s.c.mode != Running && s.c.mode != Degraded
    ensures OrdersHeld(cfg, s) <==> !CycleUnderWay(cfg, s)
  {
    hide Run, CycleUnderWay;
    if CycleUnderWay(cfg, s) {
      var steps := CyclePlaces(cfg, s);
      assert Run(cfg, s, steps).log[|s.log|..][0] == Placed;
    } else {
      forall steps {:trigger Run(cfg, s, steps)} | Unattended(steps)
        ensures s.log <= Run(cfg, s, steps).log && Placed !in Run(cfg, s, steps).log[|s.log|..]
      {
        RestOfRun(cfg, s, steps);
      }
    }
  }

  /** After any run, a pause keeps all orders out until trading is set going again if and only if no cycle is under
      way when it is called. */
  lemma WhenPauseHolds(cfg: Config, steps: seq<Step>)
    ensures var s := Run(cfg, INITIAL, steps);
            OrdersHeld(cfg, Next(cfg, s, Pause)) <==> !CycleUnderWay(cfg, s)
  {
    EquityOfRun(cfg, steps);
    WhenOrdersAreHeld(cfg, Next(cfg, Run(cfg, INITIAL, steps), Pause));
  }

  /** No step places an order while the mode is paused. */
  ghost predicate NoOrderWhilePaused(cfg: Config) {
    forall steps, step {:trigger Next(cfg, Run(cfg, INITIAL, steps), step)} ::
      Run(cfg, INITIAL, steps).c.mode == Paused ==>
      Next(cfg, Run(cfg, INITIAL, steps), step).log != Run(cfg, INITIAL, steps).log + [Placed]
  }

  /** A pause while the first cycle awaits the balance. */
  lemma PausedAtBalancing(cfg: Config) returns (steps: seq<Step>)
    ensures Run(cfg, INITIAL, steps) == State(INITIAL.c.(mode := Paused), [Balancing], 0, [])
  {
    var loop := Loop(0, Turn(INITIAL_CAPITAL));
    RunOneMore(cfg, INITIAL, [], Start(true));
    RunOneMore(cfg, INITIAL, [] + [Start(true)], loop);
    RunOneMore(cfg, INITIAL, [] + [Start(true)] + [loop], loop);
    RunOneMore(cfg, INITIAL, [] + [Start(true)] + [loop] + [loop], Pause);
    steps := [] + [Start(true)] + [loop] + [loop] + [Pause];
  }

  /** Pausing does not stop a cycle that has begun: its order goes out while paused. */
  lemma OrderWhilePaused(cfg: Config) returns (steps: seq<Step>, step: Step)
    requires cfg.maxDrawdown >= 0.0
    ensures Run(cfg, INITIAL, steps).c.mode == Paused && Run(cfg, INITIAL, steps).log == []
    ensures Next(cfg, Run(cfg, INITIAL, steps), step).log == [Placed]
  {
    var total := Recovered(cfg, INITIAL.c);
    var paused := INITIAL.c.(mode := Paused);
    RecoveredPasses(cfg, paused);
    steps := PausedAtBalancing(cfg);
    hide Run, MaxDrawdown;
    step := Loop(0, Turn(total));
    RunOneMore(cfg, INITIAL, steps, step);
    steps := steps + [step];
  }

  /** Orders are kept out of paused runs for certain only by a drawdown limit that admits no order at all. */
  lemma WhenNoOrderWhilePaused(cfg: Config)
    ensures NoOrderWhilePaused(cfg) <==> cfg.maxDrawdown < 0.0
  {
    hide Run;
    if cfg.maxDrawdown < 0.0 {
      forall steps, step {:trigger Next(cfg, Run(cfg, INITIAL, steps), step)}
        ensures Next(cfg, Run(cfg, INITIAL, steps), step).log != Run(cfg, INITIAL, steps).log + [Placed]
      {
        var s := Run(cfg, INITIAL, steps);
        EquityOfRun(cfg, steps);
        EquityStaysPositive(cfg, s, step);
        if Next(cfg, s, step).log == s.log + [Placed] {
          assert (s.log + [Placed])[|s.log|] == Placed;
          GateOfOrders(cfg, s, step);
        }
      }
    } else {
      var steps, step := OrderWhilePaused(cfg);
    }
  }

  /** The orchestrator object: its control fields and its equity tracker. */
  class Orchestrator {
    const cfg: Config
    const tracker: EquityCurveTracker
    var mode: Mode
    var level: Level
    var kill: bool
    var lastEquity: real

    function View(): Control
      reads this, tracker
    {
      Control(mode, level, kill, tracker.History(), lastEquity)
    }

    ghost predicate Valid()
      reads this, tracker
    {
      tracker.initialCapital == INITIAL_CAPITAL && tracker.currentEquity == Equity(View())
    }

    constructor (cfg: Config)
      ensures Valid() && View() == INITIAL.c && this.cfg == cfg && fresh(tracker)
    {
      this.cfg := cfg;
      tracker := new EquityCurveTracker(INITIAL_CAPITAL);
      mode, level, kill, lastEquity := Stopped, NoDegradation, false, INITIAL_CAPITAL;
    }

    method PauseTrading()
      requires Valid()
      modifies this
      ensures Valid() && View() == old(View()).(mode := Paused)
    {
      mode := Paused;
    }

    method ResumeTrading()
      requires Valid()
      modifies this
      ensures Valid() && View() == old(View()).(mode := if old(mode) == Paused then Running else old(mode))
    {
      if mode == Paused {
        mode := Running;
      }
    }

    method ApplyDegradation(level: Level)
      requires Valid()
      modifies this
      ensures Valid() && View() == Degrade(old(View()), level)
      ensures this.level == level && mode == if level == FullHalt then Paused else old(mode)
    {
      this.level := level;
      if level == FullHalt {
        mode := Paused;
      }
    }

    method ActivateCircuitBreaker()
      requires Valid()
      modifies this
      ensures Valid() && View() == Trip(cfg, old(View()))
      ensures mode == CircuitBreaker && level == if cfg.degradationEnabled then HaltNewOrders else old(level)
    {
      mode := CircuitBreaker;
      if cfg.degradationEnabled {
        ApplyDegradation(HaltNewOrders);
      }
    }

    method TriggerKillSwitch()
      requires Valid()
      modifies this
      ensures Valid() && View() == TriggerKill(old(View()))
      ensures kill && mode == Paused && level == FullHalt
    {
      kill := true;
      mode := Paused;
      ApplyDegradation(FullHalt);
    }

    method ResetKillSwitch()
      requires Valid()
      modifies this
      ensures Valid() && View() == ResetKill(old(View()))
      ensures !kill && level == NoDegradation
      ensures mode == if old(mode) == Paused || old(mode) == CircuitBreaker then Running else old(mode)
    {
      kill := false;
      level := NoDegradation;
      if mode == Paused || mode == CircuitBreaker {
        mode := Running;
      }
    }

    /** A total of 0 or less stands for a balance that the exchange failed to give. */
    method RecordEquity(total: real, timestamp: string)
      requires Valid()
      modifies this, tracker
      ensures Valid() && View() == UpdateEquity(old(View()), total)
    {
      if total > 0.0 {
        lastEquity := total;
      }
      tracker.Update(lastEquity, timestamp);
    }

    method PassesRisk() returns (ok: bool)
      requires Valid()
      modifies this
      ensures Valid() && ok == (CheckRisk(cfg, old(View())) == Allowed)
      ensures View() == if CheckRisk(cfg, old(View())) == Trips then Trip(cfg, old(View())) else old(View())
      ensures ok <==> !kill && MaxDrawdown(View().history) <= cfg.maxDrawdown && PnlPct(View()) >= -cfg.maxDailyDrawdown
      ensures !ok && !kill ==> mode == CircuitBreaker
      ensures !ok && !kill && cfg.degradationEnabled ==> level == HaltNewOrders
      ensures ok || kill ==> View() == old(View())
    {
      if kill {
        return false;
      }
      if MaxDrawdown(tracker.History()) > cfg.maxDrawdown {
        ActivateCircuitBreaker();
        return false;
      }
      if tracker.CurrentPnlPct() < -cfg.maxDailyDrawdown {
        ActivateCircuitBreaker();
        return false;
      }
      return true;
    }

    /** A strategy's turn: what it does to the control state, and whether it places an order, is the step of
        the loop task that runs it. */
    method TakeTurn(input: Input, ghost s: State, ghost task: nat) returns (placed: bool)
      requires Valid() && s.c == View()
      requires task < |s.tasks| && s.tasks[task].Strategies? && s.tasks[task].left > 0
      modifies this
      ensures Valid() && View() == StrategyTurn(cfg, s, task, input).c
      ensures placed <==> StrategyTurn(cfg, s, task, input).log == s.log + [Placed]
    {
      placed := false;
      assert (s.log + [Placed])[|s.log|] == Placed && (s.log + [Tripped])[|s.log|] == Tripped;
      if input.offers && level != HaltNewOrders {
        var ok := PassesRisk();
        placed := ok && input.sized;
      }
    }
  }
}
