/** What the orchestrator's controls and checks do to trading: every order and every trip of a run from the limits
    alone, and when the loops can still place an order after each control. */
module ControlPlane {
  import opened EquityCurve
  import opened OrchestratorEngine

  // Every event of a run.

  /** The step is the turn of a strategy that offers a signal. */
  predicate OffersSignal(s: State, step: Step) {
    && step.Loop? && step.task < |s.tasks| && s.tasks[step.task].Strategies? && s.tasks[step.task].left > 0
    && step.input.offers && !step.input.fails
  }

  function LastRecorded(c: Control): real {
    if c.history == [] then 100000.0 else c.history[|c.history| - 1]
  }

  /** The recorded drawdown, or the loss against the initial capital, is over its limit. */
  predicate LossOverLimit(cfg: Config, c: Control) {
    || MaxDrawdown(c.history) > cfg.maxDrawdown
    || LastRecorded(c) < 100000.0 * (1.0 - cfg.maxDailyDrawdown)
  }

  /** What a step adds to the log. */
  function EventsOf(cfg: Config, s: State, step: Step): seq<Event> {
    if step.Trigger? || step.ExternalTrigger? then [Killed]
    else if step.ResetKillSwitch? then [Reset]
    else if !OffersSignal(s, step) || s.c.kill || s.c.level == HaltNewOrders then []
    else if LossOverLimit(cfg, s.c) then [Tripped]
    else if step.input.sized then [Placed]
    else []
  }

  lemma EventsOfStep(cfg: Config, s: State, step: Step)
    ensures Next(cfg, s, step).log == s.log + EventsOf(cfg, s, step)
  {
    hide MaxDrawdown;
    assert s.log + [] == s.log;
  }

  function EventsOfRun(cfg: Config, steps: seq<Step>): seq<Event> {
    if steps == [] then []
    else
      var rest := steps[..|steps| - 1];
      EventsOfRun(cfg, rest) + EventsOf(cfg, Run(cfg, INITIAL, rest), steps[|steps| - 1])
  }

  /** Over every run, the breaker trips and orders go out exactly at the turns that the two loss limits say. */
  lemma {:induction false} LogOfRun(cfg: Config, steps: seq<Step>)
    ensures Run(cfg, INITIAL, steps).log == EventsOfRun(cfg, steps)
  {
    hide EventsOf, Next;
    if steps != [] {
      LogOfRun(cfg, steps[..|steps| - 1]);
      EventsOfStep(cfg, Run(cfg, INITIAL, steps[..|steps| - 1]), steps[|steps| - 1]);
    }
  }

  /** A loss over its limit at a turn trips the breaker, and halts new orders where degradation is enabled. */
  lemma TripTakesEffect(cfg: Config, s: State, step: Step)
    requires OffersSignal(s, step) && !s.c.kill && s.c.level != HaltNewOrders && LossOverLimit(cfg, s.c)
    ensures var c := Next(cfg, s, step).c;
            && c.mode == CircuitBreaker && c.level == (if cfg.degradationEnabled then HaltNewOrders else s.c.level)
            && !c.kill && c.history == s.c.history && c.lastEquity == s.c.lastEquity
  {
    hide MaxDrawdown;
  }

  /** No other turn changes the control state. */
  lemma QuietTurn(cfg: Config, s: State, step: Step)
    requires OffersSignal(s, step) && (s.c.kill || s.c.level == HaltNewOrders || !LossOverLimit(cfg, s.c))
    ensures Next(cfg, s, step).c == s.c
  {
    hide MaxDrawdown;
  }

  // The recorded equities.

  /** The balances read so far. */
  function Totals(cfg: Config, steps: seq<Step>): seq<real> {
    if steps == [] then []
    else
      var rest, step := steps[..|steps| - 1], steps[|steps| - 1];
      var tasks := Run(cfg, INITIAL, rest).tasks;
      Totals(cfg, rest)
      + if step.Loop? && step.task < |tasks| && tasks[step.task].Balancing? then [step.input.total] else []
  }

  /** The last positive balance, or the initial capital. */
  function LastPositive(totals: seq<real>): real {
    if totals == [] then 100000.0
    else if totals[|totals| - 1] > 0.0 then totals[|totals| - 1]
    else LastPositive(totals[..|totals| - 1])
  }

  function Upto(totals: seq<real>, k: nat): seq<real>
    requires k < |totals|
  {
    totals[..k + 1]
  }

  lemma LastOfTotals(totals: seq<real>, total: real)
    ensures LastPositive(totals + [total]) == if total > 0.0 then total else LastPositive(totals)
    ensures Upto(totals + [total], |totals|) == totals + [total]
    ensures forall k :: 0 <= k < |totals| ==> Upto(totals + [total], k) == Upto(totals, k)
  {
    assert (totals + [total])[..|totals|] == totals;
  }

  lemma RecordsOneMore(cfg: Config, s: State, step: Step)
    ensures var c := Next(cfg, s, step).c;
            if step.Loop? && step.task < |s.tasks| && s.tasks[step.task].Balancing?
            then c.lastEquity == (if step.input.total > 0.0 then step.input.total else s.c.lastEquity)
              && c.history == s.c.history + [c.lastEquity]
            else c.lastEquity == s.c.lastEquity && c.history == s.c.history
  {
    hide MaxDrawdown;
  }

  /** Over every run, each reading records the last positive balance so far. */
  lemma {:induction false} HistoryOfRun(cfg: Config, steps: seq<Step>)
    ensures var c, totals := Run(cfg, INITIAL, steps).c, Totals(cfg, steps);
            && c.lastEquity == LastPositive(totals) && |c.history| == |totals|
            && forall k :: 0 <= k < |totals| ==> c.history[k] == LastPositive(Upto(totals, k))
  {
    if steps != [] {
      var rest, step := steps[..|steps| - 1], steps[|steps| - 1];
      HistoryOfRun(cfg, rest);
      hide Run, Next;
      var s, totals, totals' := Run(cfg, INITIAL, rest), Totals(cfg, rest), Totals(cfg, steps);
      RunOneMore(cfg, INITIAL, rest, step);
      assert rest + [step] == steps;
      RecordsOneMore(cfg, s, step);
      assert totals' == totals || totals' == totals + [step.input.total];
      hide Totals;
      if totals' != totals {
        LastOfTotals(totals, step.input.total);
      }
    }
  }

  // When the loops can place an order.

  predicate LoopsOnly(steps: seq<Step>) {
    forall k :: 0 <= k < |steps| ==> steps[k].Loop?
  }

  /** The loops, left to themselves, can place an order. */
  ghost predicate CanPlace(cfg: Config, s: State) {
    exists steps :: LoopsOnly(steps) && PlacesIn(cfg, s, steps)
  }

  ghost predicate PlacesIn(cfg: Config, s: State, steps: seq<Step>) {
    s.log <= Run(cfg, s, steps).log && Placed in Run(cfg, s, steps).log[|s.log|..]
  }

  /** Kill flag down, new orders not halted, recorded drawdown within its limit. */
  predicate GatesOpen(cfg: Config, c: Control) {
    !c.kill && c.level != HaltNewOrders && MaxDrawdown(c.history) <= cfg.maxDrawdown
  }

  /** A cycle has begun that no change of mode stops any more: its equity is still to be recorded, or no loss limit
      bars its strategies. */
  predicate Committed(cfg: Config, c: Control, task: Task) {
    || task.Balancing?
    || (task.Strategies? && task.left > 0 && LastRecorded(c) >= 100000.0 * (1.0 - cfg.maxDailyDrawdown))
  }

  predicate Trades(mode: Mode) {
    mode == Running || mode == Degraded
  }

  /** The loop can get to a turn that places. */
  predicate Leads(cfg: Config, c: Control, task: Task) {
    || Committed(cfg, c, task)
    || (task.Fetching? && c.mode != CircuitBreaker)
    || (Trades(c.mode) && !task.Finished?)
  }

  ghost predicate SomeLeads(cfg: Config, s: State) {
    exists i :: 0 <= i < |s.tasks| && Leads(cfg, s.c, s.tasks[i])
  }

  lemma LogPlaced(cfg: Config, s: State, steps: seq<Step>)
    requires LoopsOnly(steps) && Run(cfg, s, steps).log == s.log + [Placed]
    ensures CanPlace(cfg, s)
  {
    assert Run(cfg, s, steps).log[|s.log|..] == [Placed];
    assert PlacesIn(cfg, s, steps);
  }

  lemma TopPlaces(cfg: Config, s: State, task: nat) returns (steps: seq<Step>)
    requires PositiveEquity(s.c) && GatesOpen(cfg, s.c) && Trades(s.c.mode)
    requires task < |s.tasks| && s.tasks[task].Top?
    ensures LoopsOnly(steps) && Run(cfg, s, steps).log == s.log + [Placed]
  {
    hide Run, MaxDrawdown;
    var loop := Loop(task, Turn(INITIAL_CAPITAL));
    var rest := FetchingPlaces(cfg, Next(cfg, s, loop), task);
    StepThenRun(cfg, s, loop, rest);
    steps := [loop] + rest;
  }

  /** A cycle that fails is over, and its loop starts the next one. */
  lemma CycleRestarts(cfg: Config, s: State, task: nat) returns (steps: seq<Step>)
    requires PositiveEquity(s.c) && GatesOpen(cfg, s.c) && Trades(s.c.mode)
    requires task < |s.tasks| && s.tasks[task].Strategies?
    ensures LoopsOnly(steps) && Run(cfg, s, steps).log == s.log + [Placed]
  {
    hide Run, MaxDrawdown;
    var loop := Loop(task, Turn(INITIAL_CAPITAL).(fails := true));
    var rest := TopPlaces(cfg, Next(cfg, s, loop), task);
    StepThenRun(cfg, s, loop, rest);
    steps := [loop] + rest;
  }

  lemma LeadingPlaces(cfg: Config, s: State, task: nat)
    requires PositiveEquity(s.c) && GatesOpen(cfg, s.c) && task < |s.tasks| && Leads(cfg, s.c, s.tasks[task])
    ensures CanPlace(cfg, s)
  {
    hide Run, MaxDrawdown, CanPlace, PositiveEquity;
    var steps;
    match s.tasks[task] {
      case Top => steps := TopPlaces(cfg, s, task);
      case Fetching => steps := FetchingPlaces(cfg, s, task);
      case Balancing => steps := BalancingPlaces(cfg, s, task);
      case Strategies(_) =>
        if Trades(s.c.mode) {
          steps := CycleRestarts(cfg, s, task);
        } else {
          steps := TurnPlaces(cfg, s, task);
        }
    }
    LogPlaced(cfg, s, steps);
  }

  ghost predicate DeadEnd(cfg: Config, s: State) {
    PositiveEquity(s.c) && !(GatesOpen(cfg, s.c) && SomeLeads(cfg, s))
  }

  lemma DeadEndNext(cfg: Config, s: State, step: Step)
    requires DeadEnd(cfg, s) && step.Loop?
    ensures DeadEnd(cfg, Next(cfg, s, step))
    ensures Next(cfg, s, step).log == s.log || Next(cfg, s, step).log == s.log + [Tripped]
  {
    EventsOfStep(cfg, s, step);
    EquityStaysPositive(cfg, s, step);
    hide MaxDrawdown;
    if GatesOpen(cfg, s.c) && step.task < |s.tasks| {
      assert !Leads(cfg, s.c, s.tasks[step.task]);
      var s' := Next(cfg, s, step);
      forall i | 0 <= i < |s'.tasks|
        ensures !Leads(cfg, s'.c, s'.tasks[i])
      {
        assert !Leads(cfg, s.c, s.tasks[i]);
      }
    }
  }

  lemma {:induction false} DeadEndOfRun(cfg: Config, s: State, steps: seq<Step>)
    requires DeadEnd(cfg, s) && LoopsOnly(steps)
    ensures DeadEnd(cfg, Run(cfg, s, steps)) && !PlacesIn(cfg, s, steps)
    ensures s.log <= Run(cfg, s, steps).log
  {
    hide DeadEnd, Next;
    if steps != [] {
      DeadEndOfRun(cfg, s, steps[..|steps| - 1]);
      DeadEndNext(cfg, Run(cfg, s, steps[..|steps| - 1]), steps[|steps| - 1]);
    }
  }

  /** Exactly when the loops can place an order by themselves. */
  lemma WhenLoopsPlace(cfg: Config, s: State)
    requires PositiveEquity(s.c)
    ensures CanPlace(cfg, s) <==> GatesOpen(cfg, s.c) && SomeLeads(cfg, s)
  {
    hide PlacesIn, Leads, GatesOpen, PositiveEquity;
    if GatesOpen(cfg, s.c) && SomeLeads(cfg, s) {
      var i: nat :| i < |s.tasks| && Leads(cfg, s.c, s.tasks[i]);
      LeadingPlaces(cfg, s, i);
    } else if steps :| LoopsOnly(steps) && PlacesIn(cfg, s, steps) {
      DeadEndOfRun(cfg, s, steps);
    }
  }

  // After each control, in every run.

  predicate SomeLoop(s: State) {
    exists i :: 0 <= i < |s.tasks| && !s.tasks[i].Finished?
  }

  /** A reset lowers the flag, ends the degradation, and sets a paused or tripped orchestrator running. */
  lemma ResetTakesEffect(cfg: Config, s: State)
    ensures var s' := Next(cfg, s, ResetKillSwitch);
            && !s'.c.kill && s'.c.level == NoDegradation
            && s'.c.mode == (if s.c.mode == Paused || s.c.mode == CircuitBreaker then Running else s.c.mode)
            && s'.c.history == s.c.history && s'.c.lastEquity == s.c.lastEquity && s'.tasks == s.tasks
  {
  }

  /** After a reset the loops can place an order again exactly if the recorded drawdown is within its limit and a loop
      is left, unless trading was not on hold but stopped. */
  lemma WhenResetReopens(cfg: Config, steps: seq<Step>)
    requires Run(cfg, INITIAL, steps).c.mode in {Running, Degraded, Paused, CircuitBreaker}
    ensures var s := Run(cfg, INITIAL, steps);
            CanPlace(cfg, Next(cfg, s, ResetKillSwitch))
            <==> MaxDrawdown(s.c.history) <= cfg.maxDrawdown && SomeLoop(s)
  {
    EquityOfRun(cfg, steps);
    var s := Run(cfg, INITIAL, steps);
    hide Run, CanPlace, MaxDrawdown;
    var s' := Next(cfg, s, ResetKillSwitch);
    WhenLoopsPlace(cfg, s');
    RunningLeads(cfg, s');
  }

  lemma RunningLeads(cfg: Config, s: State)
    requires Trades(s.c.mode)
    ensures SomeLeads(cfg, s) <==> SomeLoop(s)
  {
    if i :| 0 <= i < |s.tasks| && !s.tasks[i].Finished? {
      assert Leads(cfg, s.c, s.tasks[i]);
    }
  }

  /** A kill holds whatever was going on, and a reset right after it lets the loops place again. */
  lemma KillThenReset(cfg: Config, steps: seq<Step>)
    ensures var s := Run(cfg, INITIAL, steps);
            var killed := Next(cfg, s, Trigger);
            && killed.c.kill && killed.c.mode == Paused && killed.c.level == FullHalt && !CanPlace(cfg, killed)
            && (CanPlace(cfg, Next(cfg, killed, ResetKillSwitch))
                <==> MaxDrawdown(s.c.history) <= cfg.maxDrawdown && SomeLoop(s))
  {
    EquityOfRun(cfg, steps);
    RunOneMore(cfg, INITIAL, steps, Trigger);
    var s := Run(cfg, INITIAL, steps);
    hide Run, CanPlace, MaxDrawdown;
    WhenLoopsPlace(cfg, Next(cfg, s, Trigger));
    WhenResetReopens(cfg, steps + [Trigger]);
  }

  /** A start of an orchestrator that is not running makes a loop that can place an order, unless a gate is closed. */
  lemma WhenStartTrades(cfg: Config, steps: seq<Step>)
    requires Run(cfg, INITIAL, steps).c.mode != Running
    ensures var s := Run(cfg, INITIAL, steps);
            CanPlace(cfg, Next(cfg, s, Start(true))) <==> GatesOpen(cfg, s.c)
  {
    EquityOfRun(cfg, steps);
    var s := Run(cfg, INITIAL, steps);
    hide Run, CanPlace, MaxDrawdown;
    var s' := Next(cfg, s, Start(true));
    WhenLoopsPlace(cfg, s');
    assert s'.tasks[|s.tasks|] == Top;
    RunningLeads(cfg, s');
  }

  /** Resuming from a pause lets the loops that are left place orders, unless a gate is closed. */
  lemma WhenResumeTrades(cfg: Config, steps: seq<Step>)
    requires Run(cfg, INITIAL, steps).c.mode == Paused
    ensures var s := Run(cfg, INITIAL, steps);
            CanPlace(cfg, Next(cfg, s, Resume)) <==> GatesOpen(cfg, s.c) && SomeLoop(s)
  {
    EquityOfRun(cfg, steps);
    var s := Run(cfg, INITIAL, steps);
    hide Run, CanPlace, MaxDrawdown;
    WhenLoopsPlace(cfg, Next(cfg, s, Resume));
    RunningLeads(cfg, Next(cfg, s, Resume));
  }

  /** A cycle under way in a loop other than `but`. */
  predicate CycleElsewhere(cfg: Config, s: State, but: int) {
    exists i :: 0 <= i < |s.tasks| && i != but && (s.tasks[i].Fetching? || Committed(cfg, s.c, s.tasks[i]))
  }

  /** A stop ends the loop it knows of at once; only a cycle under way in another loop can still place an order. The
      same holds when the stop completes, of every loop. */
  lemma WhenStopHolds(cfg: Config, steps: seq<Step>)
    ensures var s := Run(cfg, INITIAL, steps);
            && (CanPlace(cfg, Next(cfg, s, Stop)) <==> GatesOpen(cfg, s.c) && CycleElsewhere(cfg, s, s.current))
            && (CanPlace(cfg, Next(cfg, s, StopDone)) <==> GatesOpen(cfg, s.c) && CycleElsewhere(cfg, s, -1))
  {
    EquityOfRun(cfg, steps);
    var s := Run(cfg, INITIAL, steps);
    hide Run, CanPlace, MaxDrawdown;
    var a, b := Next(cfg, s, Stop), Next(cfg, s, StopDone);
    WhenLoopsPlace(cfg, a);
    WhenLoopsPlace(cfg, b);
    if i :| 0 <= i < |s.tasks| && i != s.current && (s.tasks[i].Fetching? || Committed(cfg, s.c, s.tasks[i])) {
      assert Leads(cfg, a.c, a.tasks[i]);
    }
    if i :| 0 <= i < |s.tasks| && i != -1 && (s.tasks[i].Fetching? || Committed(cfg, s.c, s.tasks[i])) {
      assert Leads(cfg, b.c, b.tasks[i]);
    }
  }

  /** So for a start that fails. */
  lemma WhenFailedStartHolds(cfg: Config, steps: seq<Step>)
    requires Run(cfg, INITIAL, steps).c.mode != Running
    ensures var s := Run(cfg, INITIAL, steps);
            CanPlace(cfg, Next(cfg, s, Start(false))) <==> GatesOpen(cfg, s.c) && CycleElsewhere(cfg, s, -1)
  {
    EquityOfRun(cfg, steps);
    var s := Run(cfg, INITIAL, steps);
    hide Run, CanPlace, MaxDrawdown;
    var a := Next(cfg, s, Start(false));
    WhenLoopsPlace(cfg, a);
    if i :| 0 <= i < |s.tasks| && i != -1 && (s.tasks[i].Fetching? || Committed(cfg, s.c, s.tasks[i])) {
      assert Leads(cfg, a.c, a.tasks[i]);
    }
  }

  /** Resuming does not clear a tripped breaker, nor anything but a pause. */
  lemma ResumeClearsNoTrip(cfg: Config, steps: seq<Step>)
    requires Run(cfg, INITIAL, steps).c.mode != Paused
    ensures var s := Run(cfg, INITIAL, steps);
            Next(cfg, s, Resume) == s
    ensures var s := Run(cfg, INITIAL, steps);
            s.c.mode == CircuitBreaker ==>
              (CanPlace(cfg, Next(cfg, s, Resume))
               <==> GatesOpen(cfg, s.c) && exists i :: 0 <= i < |s.tasks| && Committed(cfg, s.c, s.tasks[i]))
  {
    EquityOfRun(cfg, steps);
    var s := Run(cfg, INITIAL, steps);
    hide Run, CanPlace, MaxDrawdown;
    WhenLoopsPlace(cfg, s);
    if i :| 0 <= i < |s.tasks| && Committed(cfg, s.c, s.tasks[i]) {
      assert Leads(cfg, s.c, s.tasks[i]);
    }
  }

  // How loops end, and how many there are.

  /** A loop ends exactly when a stop cancels it, or at the top of a cycle in a mode that neither trades nor holds; and
      it never comes back. */
  lemma WhenLoopEnds(cfg: Config, s: State, step: Step, i: nat)
    requires i < |s.tasks|
    ensures i < |Next(cfg, s, step).tasks|
    ensures Next(cfg, s, step).tasks[i].Finished? <==>
      || s.tasks[i].Finished?
      || (step.Stop? && s.current == i)
      || (step.Loop? && step.task == i && s.tasks[i].Top? && s.c.mode in {Stopped, Starting, Stopping, Error})
  {
    hide MaxDrawdown;
    if step.Loop? && step.task == i {
      ModesDivide(s.c.mode);
    }
  }

  lemma ModesDivide(mode: Mode)
    ensures mode in {Running, Degraded, Paused, CircuitBreaker} <==> mode !in {Stopped, Starting, Stopping, Error}
  {
    match mode
    case Stopped =>
    case Starting =>
    case Running =>
    case Paused =>
    case Stopping =>
    case Error =>
    case Degraded =>
    case CircuitBreaker =>
  }

  lemma {:induction false} LoopsOutlastHold(cfg: Config, s: State, steps: seq<Step>, i: nat)
    requires s.c.mode in {Running, Degraded, Paused, CircuitBreaker} && LoopsOnly(steps) && i < |s.tasks|
    ensures var s' := Run(cfg, s, steps);
            && (s'.c.mode == s.c.mode || s'.c.mode == CircuitBreaker) && |s'.tasks| == |s.tasks|
            && (s'.tasks[i].Finished? <==> s.tasks[i].Finished?)
  {
    if steps != [] {
      var rest, step := steps[..|steps| - 1], steps[|steps| - 1];
      LoopsOutlastHold(cfg, s, rest, i);
      hide Run, MaxDrawdown;
      WhenLoopEnds(cfg, Run(cfg, s, rest), step, i);
    }
  }

  /** However long the loops have run on after a pause, resuming lets those that there were place orders again, unless a
      gate is closed by then or the breaker has tripped. */
  lemma PauseThenResume(cfg: Config, before: seq<Step>, meanwhile: seq<Step>)
    requires Run(cfg, INITIAL, before).c.mode in {Running, Degraded, Paused} && LoopsOnly(meanwhile)
    ensures var s := Run(cfg, INITIAL, before);
            var held := Run(cfg, Next(cfg, s, Pause), meanwhile);
            held.c.mode == Paused ==>
              (CanPlace(cfg, Next(cfg, held, Resume)) <==> GatesOpen(cfg, held.c) && SomeLoop(s))
  {
    var s := Run(cfg, INITIAL, before);
    var paused := Next(cfg, s, Pause);
    var held := Run(cfg, paused, meanwhile);
    RunOneMore(cfg, INITIAL, before, Pause);
    RunConcat(cfg, INITIAL, before + [Pause], meanwhile);
    if held.c.mode == Paused {
      WhenResumeTrades(cfg, before + [Pause] + meanwhile);
      LoopsLeft(cfg, paused, meanwhile);
    }
  }

  lemma LoopsLeft(cfg: Config, s: State, steps: seq<Step>)
    requires s.c.mode in {Running, Degraded, Paused, CircuitBreaker} && LoopsOnly(steps)
    ensures SomeLoop(Run(cfg, s, steps)) <==> SomeLoop(s)
  {
    var s' := Run(cfg, s, steps);
    forall i: nat | i < |s.tasks|
      ensures i < |s'.tasks| && (s'.tasks[i].Finished? <==> s.tasks[i].Finished?)
    {
      LoopsOutlastHold(cfg, s, steps, i);
    }
    NoNewLoops(cfg, s, steps);
    hide Run;
    if i :| 0 <= i < |s.tasks| && !s.tasks[i].Finished? {
      assert !s'.tasks[i].Finished?;
    }
  }

  lemma {:induction false} NoNewLoops(cfg: Config, s: State, steps: seq<Step>)
    requires LoopsOnly(steps)
    ensures |Run(cfg, s, steps).tasks| == |s.tasks|
  {
    hide MaxDrawdown;
    if steps != [] {
      NoNewLoops(cfg, s, steps[..|steps| - 1]);
    }
  }

  ghost predicate OneLoop(s: State) {
    forall i, j :: 0 <= i < j < |s.tasks| ==> s.tasks[i].Finished? || s.tasks[j].Finished?
  }

  /** No start finds the orchestrator in another mode than running with a loop left over. */
  ghost predicate OrderlyStarts(cfg: Config, steps: seq<Step>) {
    steps == [] ||
    var rest, step := steps[..|steps| - 1], steps[|steps| - 1];
    && OrderlyStarts(cfg, rest)
    && (step.Start? ==> Run(cfg, INITIAL, rest).c.mode == Running || !SomeLoop(Run(cfg, INITIAL, rest)))
  }

  lemma OneLoopNext(cfg: Config, s: State, step: Step)
    requires OneLoop(s) && (step.Start? ==> s.c.mode == Running || !SomeLoop(s))
    ensures OneLoop(Next(cfg, s, step))
  {
    hide MaxDrawdown;
    var s' := Next(cfg, s, step);
    forall i, j | 0 <= i < j < |s'.tasks|
      ensures s'.tasks[i].Finished? || s'.tasks[j].Finished?
    {
      if j < |s.tasks| {
        assert s.tasks[i].Finished? || s.tasks[j].Finished?;
      }
    }
  }

  /** Then there is never more than one loop; starting twice while running is harmless. */
  lemma {:induction false} NeverTwoLoops(cfg: Config, steps: seq<Step>)
    requires OrderlyStarts(cfg, steps)
    ensures OneLoop(Run(cfg, INITIAL, steps))
  {
    if steps != [] {
      NeverTwoLoops(cfg, steps[..|steps| - 1]);
      OneLoopNext(cfg, Run(cfg, INITIAL, steps[..|steps| - 1]), steps[|steps| - 1]);
    }
  }

  /** A start while paused, with a loop left over, makes a second one, whatever the configuration. */
  lemma SecondLoop(cfg: Config, steps: seq<Step>)
    requires Run(cfg, INITIAL, steps).c.mode != Running && SomeLoop(Run(cfg, INITIAL, steps))
    ensures !OneLoop(Next(cfg, Run(cfg, INITIAL, steps), Start(true)))
  {
    var s := Run(cfg, INITIAL, steps);
    var s' := Next(cfg, s, Start(true));
    var i :| 0 <= i < |s.tasks| && !s.tasks[i].Finished?;
    assert !s'.tasks[i].Finished? && s'.tasks[|s.tasks|] == Top;
  }
}
