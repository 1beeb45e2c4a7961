/** The sliding-window limiter of the API: workers that interleave trim, count and add on one
    shared sorted set of request times. */
module SlidingWindow {
  import opened Options
  import opened Sets

  /** A request between two awaits: stamped with its time, after the trim, admitted by the count, or added but
      still to set the key's expiry. */
  datatype Worker = Idle | Stamped(now: real) | Trimmed(now: real) | Counted(now: real) | Added(now: real)

  /** `lag` is the longest time from a request's stamp to the end of its last command. */
  datatype Config = Config(max: nat, workers: nat, window: real, lag: real)

  /** The clock, the sorted set (its scores are its members) with the time at which its key expires, the workers, and
      every time admitted so far. */
  datatype State = State(clock: real, zset: set<real>, expiry: Option<real>, workers: seq<Worker>, admitted: set<real>)

  datatype Step =
    | Stamp(w: nat, now: real) | Trim(w: nat) | Count(w: nat) | Add(w: nat) | Touch(w: nat)
    | Tick(now: real) | Expire

  ghost predicate Initial(cfg: Config, s: State) {
    && s.clock >= 0.0 && s.zset == {} && s.expiry == None && s.admitted == {}
    && |s.workers| == cfg.workers && forall w :: 0 <= w < |s.workers| ==> s.workers[w] == Idle
  }

  predicate Expired(s: State) {
    s.expiry.Some? && s.clock >= s.expiry.value
  }

  /** At that time no request in progress is older than the lag. */
  predicate InTime(cfg: Config, ws: seq<Worker>, now: real) {
    forall w :: 0 <= w < |ws| ==> ws[w].Idle? || now <= ws[w].now + cfg.lag
  }

  /** Times are read from one clock and are distinct; a key that has expired is gone before anything else happens. */
  predicate Enabled(cfg: Config, s: State, step: Step) {
    match step
    case Stamp(w, now) =>
      !Expired(s) && w < |s.workers| && s.workers[w].Idle? && now > s.clock && InTime(cfg, s.workers, now)
    case Trim(w) => !Expired(s) && w < |s.workers| && s.workers[w].Stamped?
    case Count(w) => !Expired(s) && w < |s.workers| && s.workers[w].Trimmed?
    case Add(w) => !Expired(s) && w < |s.workers| && s.workers[w].Counted?
    case Touch(w) => !Expired(s) && w < |s.workers| && s.workers[w].Added?
    case Tick(now) => !Expired(s) && now >= s.clock && InTime(cfg, s.workers, now)
    case Expire => Expired(s)
  }

  /** A key that holds nothing is gone, its expiry with it. */
  function ExpiryOf(zset: set<real>, expiry: Option<real>): Option<real> {
    if zset == {} then None else expiry
  }

  function Kept(cfg: Config, zset: set<real>, now: real): set<real> {
    set x | x in zset && !(0.0 <= x <= now - cfg.window)
  }

  function Next(cfg: Config, s: State, step: Step): State
    requires Enabled(cfg, s, step)
  {
    match step
    case Stamp(w, now) =>
      s.(clock := now, workers := s.workers[w := Stamped(now)])
    case Trim(w) =>
      var now := s.workers[w].now;
      var zset := Kept(cfg, s.zset, now);
      s.(zset := zset, expiry := ExpiryOf(zset, s.expiry), workers := s.workers[w := Trimmed(now)])
    case Count(w) =>
      s.(workers := s.workers[w := if |s.zset| >= cfg.max then Idle else Counted(s.workers[w].now)])
    case Add(w) =>
      var now := s.workers[w].now;
      s.(zset := s.zset + {now}, admitted := s.admitted + {now}, workers := s.workers[w := Added(now)])
    case Touch(w) =>
      s.(expiry := ExpiryOf(s.zset, Some(s.clock + cfg.window + 1.0)), workers := s.workers[w := Idle])
    case Tick(now) => s.(clock := now)
    case Expire => s.(zset := {}, expiry := None)
  }

  /** The steps lead from s to s'. */
  ghost predicate IsRun(cfg: Config, s: State, steps: seq<Step>, s': State)
    decreases |steps|
  {
    if steps == [] then s == s'
    else Enabled(cfg, s, steps[0]) && IsRun(cfg, Next(cfg, s, steps[0]), steps[1..], s')
  }

  /** The admitted times in the window that starts after t. */
  function Admitted(cfg: Config, s: State, t: real): set<real> {
    set x | x in s.admitted && t < x <= t + cfg.window
  }

  function CountIf(ws: seq<Worker>, p: Worker -> bool): nat {
    if ws == [] then 0 else CountIf(ws[..|ws| - 1], p) + if p(ws[|ws| - 1]) then 1 else 0
  }

  lemma {:induction false} CountIfUpdate(ws: seq<Worker>, p: Worker -> bool, w: nat, x: Worker)
    requires w < |ws|
    ensures CountIf(ws[w := x], p) - (if p(x) then 1 else 0) == CountIf(ws, p) - (if p(ws[w]) then 1 else 0)
  {
    var n := |ws| - 1;
    if w < n {
      CountIfUpdate(ws[..n], p, w, x);
      assert ws[w := x][..n] == ws[..n][w := x];
    } else {
      assert ws[w := x][..n] == ws[..n];
    }
  }

  /** Of two exclusive kinds of workers there are no more than there are workers. */
  lemma {:induction false} CountIfBound(ws: seq<Worker>, p: Worker -> bool, q: Worker -> bool)
    requires forall x :: !(p(x) && q(x))
    ensures CountIf(ws, p) + CountIf(ws, q) <= |ws|
  {
    if ws != [] {
      CountIfBound(ws[..|ws| - 1], p, q);
    }
  }

  lemma {:induction false} CountIfNone(ws: seq<Worker>, p: Worker -> bool)
    requires forall w :: 0 <= w < |ws| ==> !p(ws[w])
    ensures CountIf(ws, p) == 0
  {
    if ws != [] {
      CountIfNone(ws[..|ws| - 1], p);
    }
  }

  /** Admitted but not yet added, with a time in the window after t. */
  function Due(cfg: Config, t: real): Worker -> bool {
    (x: Worker) => x.Counted? && t < x.now <= t + cfg.window
  }

  /** Not yet counted, with a time in the window after t. */
  function Open(cfg: Config, t: real): Worker -> bool {
    (x: Worker) => (x.Stamped? || x.Trimmed?) && t < x.now <= t + cfg.window
  }

  predicate PastTrim(x: Worker) {
    x.Trimmed? || x.Counted? || x.Added?
  }

  /** A request has been added at time x, and the key's expiry not yet been set for it. */
  ghost predicate Pending(ws: seq<Worker>, x: real) {
    exists w :: 0 <= w < |ws| && ws[w] == Added(x)
  }

  ghost predicate SomePendingBefore(ws: seq<Worker>, time: real) {
    exists w :: 0 <= w < |ws| && ws[w].Added? && ws[w].now < time
  }

  ghost predicate NonePastTrimFrom(ws: seq<Worker>, time: real) {
    forall w :: 0 <= w < |ws| && PastTrim(ws[w]) ==> ws[w].now < time
  }

  /** Requests in progress are recent. If the key expires at a time, all it holds is a window and a second older, or
      still pending; and a request that is trimmed within the last second before finds another pending since longer. */
  ghost predicate KeyInv(cfg: Config, s: State) {
    && (forall w :: 0 <= w < |s.workers| ==> s.workers[w].Idle? || s.workers[w].now <= s.clock)
    && InTime(cfg, s.workers, s.clock) && s.clock >= 0.0
    && (forall w :: 0 <= w < |s.workers| ==> s.workers[w].Idle? || s.workers[w].now > 0.0)
    && (forall x :: x in s.zset ==> 0.0 < x <= s.clock)
    && (s.zset == {} ==> s.expiry == None)
    && (s.expiry.Some? ==> ExpiryInv(cfg, s, s.expiry.value))
  }

  ghost predicate ExpiryInv(cfg: Config, s: State, expiry: real) {
    && (forall x :: x in s.zset ==> x <= expiry - cfg.window - 1.0 || Pending(s.workers, x))
    && (NonePastTrimFrom(s.workers, expiry - 1.0) || SomePendingBefore(s.workers, expiry - 1.0))
  }

  /** Where a recent request trims and something stays, that is pending, or something pending since longer. */
  lemma TrimLeavesPending(cfg: Config, s: State, w: nat)
    requires cfg.window > 0.0 && KeyInv(cfg, s) && Enabled(cfg, s, Trim(w)) && s.expiry.Some?
    requires s.workers[w].now >= s.expiry.value - 1.0 && Kept(cfg, s.zset, s.workers[w].now) != {}
    ensures SomePendingBefore(s.workers, s.expiry.value - 1.0)
  {
    var y := SomeElement(Kept(cfg, s.zset, s.workers[w].now));
    assert y > s.expiry.value - cfg.window - 1.0;
    var v :| 0 <= v < |s.workers| && s.workers[v] == Added(y);
    assert PastTrim(s.workers[v]);
  }

  lemma KeyInvTrim(cfg: Config, s: State, w: nat)
    requires cfg.window > 0.0 && cfg.lag >= 0.0 && KeyInv(cfg, s) && Enabled(cfg, s, Trim(w))
    ensures KeyInv(cfg, Next(cfg, s, Trim(w)))
  {
    var s' := Next(cfg, s, Trim(w));
    if s'.expiry.Some? {
      PendingKept(s.workers, s'.workers);
      if s.workers[w].now >= s.expiry.value - 1.0 {
        TrimLeavesPending(cfg, s, w);
      }
    }
  }

  /** What is pending stays so, unless its own request goes on. */
  lemma PendingKept(ws: seq<Worker>, ws': seq<Worker>)
    requires |ws| == |ws'| && forall v :: 0 <= v < |ws| && ws[v].Added? ==> ws'[v] == ws[v]
    ensures forall x :: Pending(ws, x) ==> Pending(ws', x)
    ensures forall time :: SomePendingBefore(ws, time) ==> SomePendingBefore(ws', time)
  {
    forall x | Pending(ws, x)
      ensures Pending(ws', x)
    {
      var v :| 0 <= v < |ws| && ws[v] == Added(x);
      assert ws'[v] == Added(x);
    }
    forall time | SomePendingBefore(ws, time)
      ensures SomePendingBefore(ws', time)
    {
      var v :| 0 <= v < |ws| && ws[v].Added? && ws[v].now < time;
      assert ws'[v] == ws[v];
    }
  }

  lemma KeyInvAdd(cfg: Config, s: State, w: nat)
    requires cfg.window > 0.0 && cfg.lag >= 0.0 && KeyInv(cfg, s) && Enabled(cfg, s, Add(w))
    ensures KeyInv(cfg, Next(cfg, s, Add(w)))
  {
    var s' := Next(cfg, s, Add(w));
    assert s'.workers[w] == Added(s.workers[w].now) && s.workers[w].now in s'.zset;
    PendingKept(s.workers, s'.workers);
  }

  /** Steps that neither trim nor add keep what is pending, or set the expiry anew. */
  lemma KeyInvOther(cfg: Config, s: State, step: Step)
    requires cfg.window > 0.0 && cfg.lag >= 0.0 && KeyInv(cfg, s) && Enabled(cfg, s, step) && !step.Trim? && !step.Add?
    ensures KeyInv(cfg, Next(cfg, s, step))
  {
    if !step.Touch? {
      PendingKept(s.workers, Next(cfg, s, step).workers);
    }
  }

  lemma KeyInvNext(cfg: Config, s: State, step: Step)
    requires cfg.window > 0.0 && cfg.lag >= 0.0 && KeyInv(cfg, s) && Enabled(cfg, s, step)
    ensures KeyInv(cfg, Next(cfg, s, step))
  {
    hide KeyInv;
    match step
    case Trim(w) => KeyInvTrim(cfg, s, w);
    case Add(w) => KeyInvAdd(cfg, s, w);
    case _ => KeyInvOther(cfg, s, step);
  }

  lemma PendingIsRecent(cfg: Config, s: State, x: real, time: real)
    requires KeyInv(cfg, s) && Pending(s.workers, x)
    ensures s.clock <= x + cfg.lag && (NonePastTrimFrom(s.workers, time) ==> x < time)
  {
    var v :| 0 <= v < |s.workers| && s.workers[v] == Added(x);
    assert NonePastTrimFrom(s.workers, time) ==> PastTrim(s.workers[v]) && s.workers[v].now < time;
  }

  /** With a lag of at most a second, all that an expiring key holds is a window and a second old: the second by which
      the expiry exceeds the window is enough. */
  lemma ExpiresStale(cfg: Config, s: State)
    requires cfg.window > 0.0 && cfg.lag <= 1.0 && KeyInv(cfg, s) && Expired(s)
    ensures forall x :: x in s.zset ==> x <= s.clock - cfg.window - 1.0
  {
    var expiry := s.expiry.value;
    assert forall v :: 0 <= v < |s.workers| && s.workers[v].Added? ==> s.workers[v].now >= expiry - 1.0;
    assert !SomePendingBefore(s.workers, expiry - 1.0);
    forall x | x in s.zset
      ensures x <= s.clock - cfg.window - 1.0
    {
      if Pending(s.workers, x) {
        PendingIsRecent(cfg, s, x, expiry - 1.0);
      }
    }
  }

  /** No request has a time beyond the window after t, and nothing in the window has been lost. */
  ghost predicate Filling(cfg: Config, s: State, t: real) {
    && (forall w :: 0 <= w < |s.workers| ==> s.workers[w].Idle? || s.workers[w].now <= t + cfg.window)
    && Admitted(cfg, s, t) <= s.zset
    && |Admitted(cfg, s, t)| + CountIf(s.workers, Due(cfg, t)) <= cfg.max + cfg.workers - 1
  }

  /** The window after t has passed: no request can join it. */
  ghost predicate Closed(cfg: Config, s: State, t: real) {
    && s.clock > t + cfg.window
    && |Admitted(cfg, s, t)| + CountIf(s.workers, Due(cfg, t)) + CountIf(s.workers, Open(cfg, t))
       <= cfg.max + 2 * (cfg.workers - 1)
  }

  ghost predicate Inv(cfg: Config, s: State, t: real) {
    && |s.workers| == cfg.workers > 0 && KeyInv(cfg, s)
    && (Filling(cfg, s, t) || Closed(cfg, s, t))
  }

  /** Only adding changes what has been admitted. */
  lemma AdmittedKept(cfg: Config, s: State, t: real, step: Step)
    requires Enabled(cfg, s, step) && !step.Add?
    ensures Admitted(cfg, Next(cfg, s, step), t) == Admitted(cfg, s, t)
  {
  }

  lemma AdmittedAdd(cfg: Config, s: State, t: real, w: nat)
    requires Enabled(cfg, s, Add(w))
    ensures var now := s.workers[w].now;
            Admitted(cfg, Next(cfg, s, Add(w)), t)
            == Admitted(cfg, s, t) + if t < now <= t + cfg.window then {now} else {}
  {
  }

  lemma InvStamp(cfg: Config, s: State, t: real, w: nat, now: real)
    requires Inv(cfg, s, t) && Enabled(cfg, s, Stamp(w, now))
    ensures var s' := Next(cfg, s, Stamp(w, now)); Filling(cfg, s', t) || Closed(cfg, s', t)
  {
    AdmittedKept(cfg, s, t, Stamp(w, now));
    hide KeyInv, Admitted;
    CountIfUpdate(s.workers, Due(cfg, t), w, Stamped(now));
    CountIfUpdate(s.workers, Open(cfg, t), w, Stamped(now));
    IdleLeavesRoom(s.workers, Due(cfg, t), Open(cfg, t), w);
  }

  lemma InvTrim(cfg: Config, s: State, t: real, w: nat)
    requires Inv(cfg, s, t) && Enabled(cfg, s, Trim(w))
    ensures var s' := Next(cfg, s, Trim(w)); Filling(cfg, s', t) || Closed(cfg, s', t)
  {
    var s' := Next(cfg, s, Trim(w));
    AdmittedKept(cfg, s, t, Trim(w));
    hide KeyInv;
    CountIfUpdate(s.workers, Due(cfg, t), w, s'.workers[w]);
    CountIfUpdate(s.workers, Open(cfg, t), w, s'.workers[w]);
  }

  lemma InvCount(cfg: Config, s: State, t: real, w: nat)
    requires Inv(cfg, s, t) && Enabled(cfg, s, Count(w))
    ensures var s' := Next(cfg, s, Count(w)); Filling(cfg, s', t) || Closed(cfg, s', t)
  {
    var s' := Next(cfg, s, Count(w));
    AdmittedKept(cfg, s, t, Count(w));
    hide KeyInv, Admitted;
    CountIfUpdate(s.workers, Due(cfg, t), w, s'.workers[w]);
    CountIfUpdate(s.workers, Open(cfg, t), w, s'.workers[w]);
    IdleLeavesRoom(s.workers, Due(cfg, t), x => false, w);
    if Filling(cfg, s, t) {
      SubsetSize(Admitted(cfg, s, t), s.zset);
    }
  }

  lemma InvAdd(cfg: Config, s: State, t: real, w: nat)
    requires Inv(cfg, s, t) && Enabled(cfg, s, Add(w))
    ensures var s' := Next(cfg, s, Add(w)); Filling(cfg, s', t) || Closed(cfg, s', t)
  {
    var now := s.workers[w].now;
    AdmittedAdd(cfg, s, t, w);
    hide KeyInv, Admitted;
    CountIfUpdate(s.workers, Due(cfg, t), w, Added(now));
    CountIfUpdate(s.workers, Open(cfg, t), w, Added(now));
  }

  lemma InvTouch(cfg: Config, s: State, t: real, w: nat)
    requires Inv(cfg, s, t) && Enabled(cfg, s, Touch(w))
    ensures var s' := Next(cfg, s, Touch(w)); Filling(cfg, s', t) || Closed(cfg, s', t)
  {
    AdmittedKept(cfg, s, t, Touch(w));
    hide KeyInv, Admitted;
    CountIfUpdate(s.workers, Due(cfg, t), w, Idle);
    CountIfUpdate(s.workers, Open(cfg, t), w, Idle);
  }

  lemma InvTick(cfg: Config, s: State, t: real, now: real)
    requires Inv(cfg, s, t) && Enabled(cfg, s, Tick(now))
    ensures var s' := Next(cfg, s, Tick(now)); Filling(cfg, s', t) || Closed(cfg, s', t)
  {
    AdmittedKept(cfg, s, t, Tick(now));
  }

  /** When the key expires with something of the window in it, the window has passed by more than the lag. */
  lemma InvExpire(cfg: Config, s: State, t: real)
    requires cfg.window > 0.0 && cfg.lag <= 1.0 && Inv(cfg, s, t) && Enabled(cfg, s, Expire)
    ensures var s' := Next(cfg, s, Expire); Filling(cfg, s', t) || Closed(cfg, s', t)
  {
    AdmittedKept(cfg, s, t, Expire);
    ExpiresStale(cfg, s);
    if Filling(cfg, s, t) && Admitted(cfg, s, t) != {} {
      var x := SomeElement(Admitted(cfg, s, t));
      assert x in s.zset;
      assert s.clock > t + cfg.window + 1.0;
      CountIfNone(s.workers, Due(cfg, t));
      CountIfNone(s.workers, Open(cfg, t));
    }
  }

  lemma InvNext(cfg: Config, s: State, t: real, step: Step)
    requires cfg.window > 0.0 && 0.0 <= cfg.lag <= 1.0 && Inv(cfg, s, t) && Enabled(cfg, s, step)
    ensures Inv(cfg, Next(cfg, s, step), t)
  {
    KeyInvNext(cfg, s, step);
    hide KeyInv, Filling, Closed;
    match step
    case Stamp(w, now) => InvStamp(cfg, s, t, w, now);
    case Trim(w) => InvTrim(cfg, s, t, w);
    case Count(w) => InvCount(cfg, s, t, w);
    case Add(w) => InvAdd(cfg, s, t, w);
    case Touch(w) => InvTouch(cfg, s, t, w);
    case Tick(now) => InvTick(cfg, s, t, now);
    case Expire => InvExpire(cfg, s, t);
  }

  /** A worker of neither kind leaves at most the others. */
  lemma IdleLeavesRoom(ws: seq<Worker>, p: Worker -> bool, q: Worker -> bool, w: nat)
    requires w < |ws| && !p(ws[w]) && !q(ws[w])
    requires forall x :: !(p(x) && q(x))
    ensures CountIf(ws, p) + CountIf(ws, q) <= |ws| - 1
  {
    var rest := ws[..w] + ws[w + 1..];
    CountIfBound(rest, p, q);
    CountIfRemove(ws, p, w);
    CountIfRemove(ws, q, w);
  }

  lemma {:induction false} CountIfRemove(ws: seq<Worker>, p: Worker -> bool, w: nat)
    requires w < |ws| && !p(ws[w])
    ensures CountIf(ws[..w] + ws[w + 1..], p) == CountIf(ws, p)
  {
    var n := |ws| - 1;
    var rest := ws[..w] + ws[w + 1..];
    if w < n {
      CountIfRemove(ws[..n], p, w);
      assert rest[..|rest| - 1] == ws[..n][..w] + ws[..n][w + 1..];
    } else {
      assert rest == ws[..n];
    }
  }

  lemma {:induction false} InvOfRun(cfg: Config, s: State, t: real, steps: seq<Step>, s': State)
    requires cfg.window > 0.0 && 0.0 <= cfg.lag <= 1.0 && Inv(cfg, s, t) && IsRun(cfg, s, steps, s')
    ensures Inv(cfg, s', t)
    decreases |steps|
  {
    if steps != [] {
      InvNext(cfg, s, t, steps[0]);
      InvOfRun(cfg, Next(cfg, s, steps[0]), t, steps[1..], s');
    }
  }

  /** With a limit of 0 nothing is counted in. */
  ghost predicate NothingIn(s: State) {
    s.admitted == {} && forall w :: 0 <= w < |s.workers| ==> !s.workers[w].Counted?
  }

  lemma {:induction false} NothingInOfRun(cfg: Config, s: State, steps: seq<Step>, s': State)
    requires cfg.max == 0 && NothingIn(s) && IsRun(cfg, s, steps, s')
    ensures NothingIn(s')
    decreases |steps|
  {
    if steps != [] {
      NothingInOfRun(cfg, Next(cfg, s, steps[0]), steps[1..], s');
    }
  }

  /** What a window can admit. */
  function Most(cfg: Config): int {
    if cfg.max == 0 then 0 else cfg.max + 2 * (cfg.workers - 1)
  }

  /** Whatever the interleaving, no window of the configured length admits more than max + 2 (workers - 1), or anything
      with a limit of 0, if no request takes longer than the second by which the key outlives the window. */
  lemma WindowBound(cfg: Config, s: State, steps: seq<Step>, s': State, t: real)
    requires cfg.window > 0.0 && cfg.lag >= 0.0 && cfg.workers > 0 && (cfg.lag <= 1.0 || cfg.max == 0)
    requires Initial(cfg, s) && IsRun(cfg, s, steps, s')
    ensures |Admitted(cfg, s', t)| <= Most(cfg)
  {
    if cfg.max == 0 {
      NothingInOfRun(cfg, s, steps, s');
    } else {
      CountIfNone(s.workers, Due(cfg, t));
      CountIfNone(s.workers, Open(cfg, t));
      assert Admitted(cfg, s, t) == {};
      InvOfRun(cfg, s, t, steps, s');
    }
  }

  // The bound is met: a run that admits max + 2 (workers - 1) requests in one window.

  ghost predicate Reaches(cfg: Config, s: State, s': State) {
    exists steps :: IsRun(cfg, s, steps, s')
  }

  lemma {:induction false} RunTrans(cfg: Config, s: State, a: seq<Step>, m: State, b: seq<Step>, s': State)
    requires IsRun(cfg, s, a, m) && IsRun(cfg, m, b, s')
    ensures IsRun(cfg, s, a + b, s')
    decreases |a|
  {
    if a == [] {
      assert a + b == b;
    } else {
      RunTrans(cfg, Next(cfg, s, a[0]), a[1..], m, b, s');
      assert (a + b)[1..] == a[1..] + b;
    }
  }

  lemma ReachesTrans(cfg: Config, s: State, m: State, s': State)
    requires Reaches(cfg, s, m) && Reaches(cfg, m, s')
    ensures Reaches(cfg, s, s')
  {
    var a :| IsRun(cfg, s, a, m);
    var b :| IsRun(cfg, m, b, s');
    RunTrans(cfg, s, a, m, b, s');
  }

  lemma ReachesStep(cfg: Config, s: State, m: State, step: Step)
    requires Reaches(cfg, s, m) && Enabled(cfg, m, step)
    ensures Reaches(cfg, s, Next(cfg, m, step))
  {
    assert IsRun(cfg, Next(cfg, m, step), [], Next(cfg, m, step));
    assert IsRun(cfg, m, [step], Next(cfg, m, step));
    ReachesTrans(cfg, s, m, Next(cfg, m, step));
  }

  /** The key, if it is there, has not expired, nor does it before a window and a second have passed. */
  ghost predicate Calm(cfg: Config, s: State) {
    && (s.expiry.Some? ==> s.expiry.value > s.clock && s.expiry.value > cfg.window + 1.0)
    && (s.zset == {} ==> s.expiry == None)
  }

  /** Worker w takes a stamp, trims nothing and is counted in. */
  lemma CountIn(cfg: Config, s: State, m: State, w: nat, now: real) returns (s': State)
    requires Reaches(cfg, s, m) && Calm(cfg, m) && w < |m.workers| && m.workers[w].Idle?
    requires m.clock < now <= cfg.window && InTime(cfg, m.workers, now)
    requires |m.zset| < cfg.max && forall x :: x in m.zset ==> x > 0.0
    ensures Reaches(cfg, s, s') && Calm(cfg, s')
    ensures s' == m.(clock := now, workers := m.workers[w := Counted(now)])
  {
    var a := Next(cfg, m, Stamp(w, now));
    ReachesStep(cfg, s, m, Stamp(w, now));
    s' := TrimAndCount(cfg, s, a, w);
    assert s'.workers == m.workers[w := Counted(now)];
  }

  lemma TrimAndCount(cfg: Config, s: State, m: State, w: nat) returns (s': State)
    requires Reaches(cfg, s, m) && Calm(cfg, m) && w < |m.workers| && m.workers[w].Stamped?
    requires m.workers[w].now <= cfg.window && |m.zset| < cfg.max && forall x :: x in m.zset ==> x > 0.0
    ensures Reaches(cfg, s, s') && Calm(cfg, s')
    ensures s' == m.(workers := m.workers[w := Counted(m.workers[w].now)])
  {
    var b := Next(cfg, m, Trim(w));
    ReachesStep(cfg, s, m, Trim(w));
    assert b.zset == m.zset;
    s' := Next(cfg, b, Count(w));
    ReachesStep(cfg, s, b, Count(w));
    assert s'.workers == m.workers[w := Counted(m.workers[w].now)];
  }

  function Worst(cfg: Config): int {
    cfg.max + 2 * (cfg.workers - 1)
  }

  /** The size of the first burst. */
  function Burst(cfg: Config): int {
    cfg.max - 1 + cfg.workers
  }

  /** Increasing request times, all inside the window that starts after 0: a burst just after its start, and the rest
      just before its end. */
  ghost predicate IsLadder(cfg: Config, at: int -> real) {
    && cfg.max > 0 && cfg.workers > 0
    && at(0) == 0.0
    && (forall i, j :: 0 <= i < j <= Worst(cfg) ==> at(i) < at(j))
    && at(Worst(cfg)) < cfg.window
    && at(Burst(cfg)) <= 1.0 && at(Burst(cfg)) <= cfg.lag
    && (forall i :: Burst(cfg) < i <= Worst(cfg) ==> at(i) >= cfg.window + at(Burst(cfg)) - cfg.lag)
  }

  function Start(cfg: Config): State {
    State(0.0, {}, None, seq(cfg.workers, _ => Idle), {})
  }

  /** n requests have been admitted, and they and the whole set lie at or before time at(last). */
  ghost predicate Progress(cfg: Config, s: State, at: int -> real, n: nat, last: nat) {
    && last <= Worst(cfg) && |s.workers| == cfg.workers && Reaches(cfg, Start(cfg), s) && Calm(cfg, s)
    && |s.admitted| == n
    && (forall x :: x in s.admitted ==> 0.0 < x <= at(last))
    && (forall x :: x in s.zset ==> 0.0 < x <= at(last))
  }

  ghost predicate AllIdle(s: State, from: nat) {
    forall j :: from <= j < |s.workers| ==> s.workers[j].Idle?
  }

  ghost predicate AllCounted(s: State, at: int -> real, from: nat, upto: nat, shift: nat) {
    forall j :: from <= j < upto <= |s.workers| ==> s.workers[j] == Counted(at(shift + j))
  }

  /** A counted worker adds its request and sets the expiry. */
  lemma AddOne(cfg: Config, m: State, at: int -> real, w: nat, n: nat, last: nat, k: nat) returns (s': State)
    requires IsLadder(cfg, at) && Progress(cfg, m, at, n, last) && last < k <= Worst(cfg)
    requires w < cfg.workers && m.workers[w] == Counted(at(k)) && m.clock > 0.0
    ensures s' == m.(zset := m.zset + {at(k)}, admitted := m.admitted + {at(k)}, workers := m.workers[w := Idle],
                     expiry := Some(m.clock + cfg.window + 1.0))
    ensures Progress(cfg, s', at, n + 1, k)
  {
    var a := Next(cfg, m, Add(w));
    ReachesStep(cfg, Start(cfg), m, Add(w));
    assert at(k) in a.zset;
    s' := Next(cfg, a, Touch(w));
    ReachesStep(cfg, Start(cfg), a, Touch(w));
    assert at(0) < at(k) && at(last) < at(k);
    assert s'.workers == m.workers[w := Idle];
  }

  /** One worker alone fills the set up to max - 1. */
  lemma {:induction false} FillAlone(cfg: Config, at: int -> real, i: nat) returns (s': State)
    requires IsLadder(cfg, at) && i < cfg.max
    ensures Progress(cfg, s', at, i, i) && AllIdle(s', 0) && s'.zset == s'.admitted && s'.clock == at(i)
  {
    if i == 0 {
      s' := Start(cfg);
      assert at(0) <= at(Worst(cfg));
      assert IsRun(cfg, s', [], s');
    } else {
      var m := FillAlone(cfg, at, i - 1);
      assert at(0) < at(i) <= at(Worst(cfg));
      var c := CountIn(cfg, Start(cfg), m, 0, at(i));
      s' := AddOne(cfg, c, at, 0, i - 1, i - 1, i);
    }
  }

  lemma FirstInTime(cfg: Config, m: State, at: int -> real, k: nat, now: real)
    requires IsLadder(cfg, at) && |m.workers| == cfg.workers && k <= cfg.workers
    requires AllCounted(m, at, 0, k, cfg.max) && AllIdle(m, k) && now <= cfg.lag
    ensures InTime(cfg, m.workers, now)
  {
    forall j | 0 <= j < |m.workers|
      ensures m.workers[j].Idle? || now <= m.workers[j].now + cfg.lag
    {
      if j < k {
        assert m.workers[j] == Counted(at(cfg.max + j)) && at(0) < at(cfg.max + j);
      }
    }
  }

  lemma EarlyAt(cfg: Config, at: int -> real, i: int)
    requires IsLadder(cfg, at) && 0 < i <= Burst(cfg)
    ensures at(i - 1) < at(i) <= cfg.window && at(i) <= cfg.lag
  {
    assert i < Burst(cfg) ==> at(i) < at(Burst(cfg));
    assert Burst(cfg) < Worst(cfg) ==> at(Burst(cfg)) < at(Worst(cfg));
  }

  /** Then all workers are counted in before any of them adds. */
  lemma {:induction false} CountAllIn(cfg: Config, at: int -> real, k: nat) returns (s': State)
    requires IsLadder(cfg, at) && k <= cfg.workers
    ensures Progress(cfg, s', at, cfg.max - 1, cfg.max - 1) && |s'.zset| == cfg.max - 1
    ensures AllCounted(s', at, 0, k, cfg.max) && AllIdle(s', k) && s'.clock == at(cfg.max - 1 + k)
  {
    if k == 0 {
      s' := FillAlone(cfg, at, cfg.max - 1);
    } else {
      var m := CountAllIn(cfg, at, k - 1);
      EarlyAt(cfg, at, cfg.max - 1 + k);
      hide IsLadder;
      FirstInTime(cfg, m, at, k - 1, at(cfg.max + (k - 1)));
      s' := CountIn(cfg, Start(cfg), m, k - 1, at(cfg.max + (k - 1)));
    }
  }

  /** Counted workers add their requests in turn. */
  lemma {:induction false} AddRange(cfg: Config, m: State, at: int -> real, from: nat, upto: nat, shift: nat,
                                    n: nat, last: nat) returns (s': State)
    requires IsLadder(cfg, at) && Progress(cfg, m, at, n, last) && m.clock > 0.0
    requires from <= upto <= cfg.workers && last < shift + from && shift + cfg.workers - 1 <= Worst(cfg)
    requires AllCounted(m, at, from, cfg.workers, shift)
    ensures Progress(cfg, s', at, n + (upto - from), if upto == from then last else shift + upto - 1)
    ensures AllCounted(s', at, upto, cfg.workers, shift) && s'.clock == m.clock
    ensures forall j :: from <= j < upto ==> s'.workers[j].Idle?
    ensures forall j :: 0 <= j < from ==> s'.workers[j] == m.workers[j]
    ensures from < upto ==> s'.expiry == Some(m.clock + cfg.window + 1.0)
    decreases upto - from
  {
    assert |m.workers| == cfg.workers;
    hide IsLadder, Progress;
    if upto == from {
      s' := m;
    } else {
      var a := AddRange(cfg, m, at, from, upto - 1, shift, n, last);
      var last' := if upto - 1 == from then last else shift + upto - 2;
      s' := AddOne(cfg, a, at, upto - 1, n + (upto - 1 - from), last', shift + (upto - 1));
    }
  }

  /** The first burst: max - 1 + workers requests. */
  lemma FirstBurst(cfg: Config, at: int -> real) returns (s': State)
    requires IsLadder(cfg, at)
    ensures Progress(cfg, s', at, cfg.max - 1 + cfg.workers, cfg.max - 1 + cfg.workers)
    ensures AllIdle(s', 0) && s'.clock == at(cfg.max - 1 + cfg.workers)
    ensures s'.expiry == Some(s'.clock + cfg.window + 1.0)
  {
    var m := CountAllIn(cfg, at, cfg.workers);
    assert at(0) < at(cfg.max - 1 + cfg.workers);
    s' := AddRange(cfg, m, at, 0, cfg.workers, cfg.max, cfg.max - 1, cfg.max - 1);
  }

  ghost predicate AllStamped(s: State, at: int -> real, from: nat, upto: nat, shift: nat) {
    forall j :: from <= j < upto <= |s.workers| ==> s.workers[j] == Stamped(at(shift + j))
  }

  /** All workers but one stamp requests that are still in the window, and stall. */
  lemma {:induction false} StampStale(cfg: Config, at: int -> real, k: nat) returns (s': State)
    requires IsLadder(cfg, at) && 1 <= k <= cfg.workers
    ensures var n := Burst(cfg);
            && Progress(cfg, s', at, n, n)
            && AllStamped(s', at, 1, k, n) && AllIdle(s', k) && s'.workers[0].Idle? && s'.clock == at(n + k - 1)
            && s'.expiry == Some(at(n) + cfg.window + 1.0)
  {
    var n := Burst(cfg);
    if k == 1 {
      s' := FirstBurst(cfg, at);
    } else {
      var m := StampStale(cfg, at, k - 1);
      hide IsLadder;
      LadderAt(cfg, at, n + (k - 1));
      StaleInTime(cfg, m, at, k - 1, at(n + (k - 1)));
      s' := StampOne(cfg, m, at, k - 1, n, at(n + (k - 1)));
    }
  }

  lemma LadderAt(cfg: Config, at: int -> real, i: int)
    requires IsLadder(cfg, at) && Burst(cfg) < i <= Worst(cfg)
    ensures 0.0 < at(Burst(cfg)) && at(i - 1) < at(i) <= cfg.window
  {
    assert at(0) < at(Burst(cfg));
    assert i < Worst(cfg) ==> at(i) < at(Worst(cfg));
  }

  /** The stalled requests are recent at the end of the window, and a burst later. */
  lemma StaleInTime(cfg: Config, m: State, at: int -> real, k: nat, now: real)
    requires IsLadder(cfg, at) && |m.workers| == cfg.workers && 1 <= k <= cfg.workers
    requires AllStamped(m, at, 1, k, Burst(cfg)) && AllIdle(m, k) && m.workers[0].Idle?
    requires now <= cfg.window + at(Burst(cfg))
    ensures InTime(cfg, m.workers, now)
  {
    forall j | 0 <= j < |m.workers|
      ensures m.workers[j].Idle? || now <= m.workers[j].now + cfg.lag
    {
      if 1 <= j < k {
        assert m.workers[j] == Stamped(at(Burst(cfg) + j));
      }
    }
  }

  /** An idle worker stamps a request. */
  lemma StampOne(cfg: Config, m: State, at: int -> real, w: nat, n: nat, now: real) returns (s': State)
    requires Progress(cfg, m, at, n, n) && w < cfg.workers && m.workers[w].Idle?
    requires m.clock < now <= cfg.window + 1.0 && InTime(cfg, m.workers, now)
    ensures s' == m.(clock := now, workers := m.workers[w := Stamped(now)])
    ensures Progress(cfg, s', at, n, n)
  {
    s' := Next(cfg, m, Stamp(w, now));
    ReachesStep(cfg, Start(cfg), m, Stamp(w, now));
  }

  /** The last worker stamps a request a window after the first burst and trims everything away. */
  lemma TrimAll(cfg: Config, at: int -> real) returns (s': State)
    requires IsLadder(cfg, at)
    ensures var n := Burst(cfg);
            && Progress(cfg, s', at, n, n) && s'.zset == {} && s'.clock > 0.0
            && AllStamped(s', at, 1, cfg.workers, n)
  {
    var n := Burst(cfg);
    var m := StampStale(cfg, at, cfg.workers);
    var late := cfg.window + at(n);
    assert at(0) < at(n) && at(n + cfg.workers - 1) == at(Worst(cfg));
    StaleInTime(cfg, m, at, cfg.workers, late);
    var a := StampOne(cfg, m, at, 0, n, late);
    s' := Next(cfg, a, Trim(0));
    ReachesStep(cfg, Start(cfg), a, Trim(0));
    assert s'.zset == {};
  }

  /** The stalled workers are all counted in, against an empty set. */
  lemma {:induction false} CountStale(cfg: Config, at: int -> real, m: State, k: nat) returns (s': State)
    requires IsLadder(cfg, at) && 1 <= k <= cfg.workers && Progress(cfg, m, at, Burst(cfg), Burst(cfg))
    requires m.zset == {} && AllStamped(m, at, 1, cfg.workers, Burst(cfg))
    ensures var n := Burst(cfg);
            && Progress(cfg, s', at, n, n) && s'.zset == {} && s'.clock == m.clock && s'.workers[0] == m.workers[0]
            && AllCounted(s', at, 1, k, n) && AllStamped(s', at, k, cfg.workers, n)
  {
    if k == 1 {
      s' := m;
    } else {
      var c := CountStale(cfg, at, m, k - 1);
      var i := Burst(cfg) + (k - 1);
      assert i < Worst(cfg) ==> at(i) < at(Worst(cfg));
      s' := TrimAndCount(cfg, Start(cfg), c, k - 1);
    }
  }

  /** They are admitted on top of the burst. */
  lemma AdmitStale(cfg: Config, at: int -> real, m: State) returns (s': State)
    requires IsLadder(cfg, at) && Progress(cfg, m, at, Burst(cfg), Burst(cfg)) && m.clock > 0.0
    requires m.zset == {} && AllStamped(m, at, 1, cfg.workers, Burst(cfg))
    ensures Progress(cfg, s', at, Worst(cfg), Worst(cfg)) && s'.workers[0] == m.workers[0]
  {
    var n := Burst(cfg);
    var c := CountStale(cfg, at, m, cfg.workers);
    s' := AddRange(cfg, c, at, 1, cfg.workers, n, n, n);
  }

  /** Times a unit apart, the burst counted from the start of the window and the rest from its end. */
  function Rung(cfg: Config, unit: real, i: int): real {
    if i <= Burst(cfg) then i as real * unit else cfg.window - (Worst(cfg) + 1 - i) as real * unit
  }

  lemma LadderExists(cfg: Config, unit: real, span: real, at: int -> real)
    requires cfg.window > 0.0 && cfg.workers > 0 && cfg.max > 0 && unit > 0.0
    requires span == Worst(cfg) as real * unit && span < cfg.window && span <= cfg.lag && span <= 1.0
    requires forall i :: at(i) == Rung(cfg, unit, i)
    ensures IsLadder(cfg, at) && at(Burst(cfg)) <= span
    ensures forall i :: Burst(cfg) < i <= Worst(cfg) ==> at(i) >= cfg.window + at(Burst(cfg)) - span
  {
    hide Rung;
    forall i, j | 0 <= i < j <= Worst(cfg)
      ensures at(i) < at(j)
    {
      RungsRise(cfg, unit, i, j);
    }
    EndsOfLadder(cfg, unit, span);
    forall i | Burst(cfg) < i <= Worst(cfg)
      ensures at(i) >= cfg.window + at(Burst(cfg)) - span
    {
      LateRung(cfg, unit, span, i);
    }
  }

  lemma EndsOfLadder(cfg: Config, unit: real, span: real)
    requires cfg.workers > 0 && cfg.max > 0 && unit > 0.0
    requires span == Worst(cfg) as real * unit && span < cfg.window
    ensures Rung(cfg, unit, 0) == 0.0 && Rung(cfg, unit, Worst(cfg)) < cfg.window
    ensures Rung(cfg, unit, Burst(cfg)) <= span
  {
    MulMonotone(Burst(cfg) as real, Worst(cfg) as real, unit);
  }

  lemma LateRung(cfg: Config, unit: real, span: real, i: int)
    requires cfg.workers > 0 && cfg.max > 0 && unit > 0.0 && Burst(cfg) < i <= Worst(cfg)
    requires span == Worst(cfg) as real * unit
    ensures Rung(cfg, unit, i) >= cfg.window + Rung(cfg, unit, Burst(cfg)) - span
  {
    SumOfMultiples(Burst(cfg) as real, (Worst(cfg) + 1 - i) as real, unit);
    MulMonotone(Burst(cfg) as real + (Worst(cfg) + 1 - i) as real, Worst(cfg) as real, unit);
  }

  lemma RungsRise(cfg: Config, unit: real, i: int, j: int)
    requires cfg.workers > 0 && cfg.max > 0 && unit > 0.0 && Worst(cfg) as real * unit < cfg.window
    requires 0 <= i < j <= Worst(cfg)
    ensures Rung(cfg, unit, i) < Rung(cfg, unit, j)
  {
    if j <= Burst(cfg) {
      MulIncreasing(i as real, j as real, unit);
    } else if i <= Burst(cfg) {
      EarlyBeforeLate(cfg, unit, i, j);
    } else {
      MulIncreasing((Worst(cfg) + 1 - j) as real, (Worst(cfg) + 1 - i) as real, unit);
    }
  }

  lemma EarlyBeforeLate(cfg: Config, unit: real, i: int, j: int)
    requires cfg.workers > 0 && cfg.max > 0 && unit > 0.0 && Worst(cfg) as real * unit < cfg.window
    requires 0 <= i <= Burst(cfg) < j <= Worst(cfg)
    ensures Rung(cfg, unit, i) < Rung(cfg, unit, j)
  {
    SumOfMultiples(i as real, (Worst(cfg) + 1 - j) as real, unit);
    MulMonotone(i as real + (Worst(cfg) + 1 - j) as real, Worst(cfg) as real, unit);
  }

  lemma MulIncreasing(x: real, y: real, z: real)
    requires x < y && z > 0.0
    ensures x * z < y * z
  {
  }

  lemma MulMonotone(x: real, y: real, z: real)
    requires x <= y && z > 0.0
    ensures x * z <= y * z
  {
  }

  lemma SumOfMultiples(x: real, y: real, z: real)
    ensures x * z + y * z == (x + y) * z
  {
  }

  function Smaller(a: real, b: real): real {
    if a < b then a else b
  }

  /** The burst and the rest can be as close to the two ends of the window as one likes. */
  lemma SomeLadder(cfg: Config, within: real) returns (at: int -> real)
    requires cfg.window > 0.0 && cfg.lag > 0.0 && cfg.workers > 0 && cfg.max > 0 && within > 0.0
    ensures IsLadder(cfg, at) && at(Burst(cfg)) <= within
    ensures forall i :: Burst(cfg) < i <= Worst(cfg) ==> at(i) >= cfg.window + at(Burst(cfg)) - within
  {
    var span := Smaller(Smaller(cfg.window, cfg.lag), Smaller(within, 1.0)) / 2.0;
    var unit := span / Worst(cfg) as real;
    assert Worst(cfg) as real * unit == span;
    at := (i: int) => Rung(cfg, unit, i);
    LadderExists(cfg, unit, span, at);
  }

  /** The bound of WindowBound is attained, for every positive limit, number of workers and window length, and however
      short the lag. */
  lemma WindowBoundIsMet(cfg: Config) returns (steps: seq<Step>, s': State)
    requires cfg.window > 0.0 && cfg.lag > 0.0 && cfg.workers > 0 && cfg.max > 0
    ensures Initial(cfg, Start(cfg)) && IsRun(cfg, Start(cfg), steps, s')
    ensures |Admitted(cfg, s', 0.0)| == cfg.max + 2 * (cfg.workers - 1)
  {
    var at := SomeLadder(cfg, 1.0);
    var m := TrimAll(cfg, at);
    s' := AdmitStale(cfg, at, m);
    steps :| IsRun(cfg, Start(cfg), steps, s');
    assert Admitted(cfg, s', 0.0) == s'.admitted;
  }

  // With a lag of more than a second it is exceeded: the key can expire under requests still in the window.

  /** All workers stall with requests still in the window, until the key expires. */
  lemma LoseKey(cfg: Config, at: int -> real) returns (s': State)
    requires IsLadder(cfg, at) && at(Burst(cfg)) <= cfg.lag - 1.0
    requires forall i :: Burst(cfg) < i <= Worst(cfg) ==> at(i) >= cfg.window + at(Burst(cfg)) + 1.0 - cfg.lag
    ensures Progress(cfg, s', at, Burst(cfg), Burst(cfg)) && s'.zset == {} && s'.clock > 0.0
    ensures s'.workers[0] == Stamped(cfg.window) && AllStamped(s', at, 1, cfg.workers, Burst(cfg))
  {
    var n := Burst(cfg);
    var m := StampStale(cfg, at, cfg.workers);
    assert at(0) < at(n) && at(n + cfg.workers - 1) == at(Worst(cfg));
    StaleInTime(cfg, m, at, cfg.workers, cfg.window);
    var a := StampOne(cfg, m, at, 0, n, cfg.window);
    var due := at(n) + cfg.window + 1.0;
    StaleUntilDue(cfg, a, at, due);
    var b := Next(cfg, a, Tick(due));
    ReachesStep(cfg, Start(cfg), a, Tick(due));
    s' := Next(cfg, b, Expire);
    ReachesStep(cfg, Start(cfg), b, Expire);
  }

  lemma StaleUntilDue(cfg: Config, m: State, at: int -> real, due: real)
    requires IsLadder(cfg, at) && at(Burst(cfg)) <= cfg.lag - 1.0 && |m.workers| == cfg.workers
    requires forall i :: Burst(cfg) < i <= Worst(cfg) ==> at(i) >= cfg.window + at(Burst(cfg)) + 1.0 - cfg.lag
    requires m.workers[0] == Stamped(cfg.window) && AllStamped(m, at, 1, cfg.workers, Burst(cfg))
    requires due == at(Burst(cfg)) + cfg.window + 1.0
    ensures InTime(cfg, m.workers, due)
  {
    forall j | 0 <= j < |m.workers|
      ensures m.workers[j].Idle? || due <= m.workers[j].now + cfg.lag
    {
      if j > 0 {
        assert m.workers[j] == Stamped(at(Burst(cfg) + j));
      }
    }
  }

  /** They are all admitted on top of the burst. */
  lemma WindowBoundExceeded(cfg: Config) returns (steps: seq<Step>, s': State)
    requires cfg.window > 0.0 && cfg.lag > 1.0 && cfg.workers > 0 && cfg.max > 0
    ensures Initial(cfg, Start(cfg)) && IsRun(cfg, Start(cfg), steps, s')
    ensures |Admitted(cfg, s', 0.0)| == cfg.max + 2 * cfg.workers - 1
  {
    var at := SomeLadder(cfg, cfg.lag - 1.0);
    var m := LoseKey(cfg, at);
    var c := TrimAndCount(cfg, Start(cfg), m, 0);
    var d := AdmitStale(cfg, at, c);
    s' := Next(cfg, d, Add(0));
    ReachesStep(cfg, Start(cfg), d, Add(0));
    steps :| IsRun(cfg, Start(cfg), steps, s');
    assert cfg.window !in d.admitted;
    assert Admitted(cfg, s', 0.0) == s'.admitted;
  }

  ghost predicate StaysWithin(cfg: Config, bound: int, s: State, steps: seq<Step>, s': State, t: real) {
    Initial(cfg, s) && IsRun(cfg, s, steps, s') ==> |Admitted(cfg, s', t)| <= bound
  }

  ghost predicate NeverExceeds(cfg: Config, bound: int) {
    forall s, steps, s', t :: StaysWithin(cfg, bound, s, steps, s', t)
  }

  /** The least bound on what a window admits. */
  lemma LeastBound(cfg: Config, bound: int)
    requires cfg.window > 0.0 && cfg.lag > 0.0 && cfg.workers > 0 && (cfg.lag <= 1.0 || cfg.max == 0)
    ensures NeverExceeds(cfg, bound) <==> bound >= Most(cfg)
  {
    hide IsRun, Admitted;
    if bound >= Most(cfg) {
      forall s, steps, s', t
        ensures StaysWithin(cfg, bound, s, steps, s', t)
      {
        if Initial(cfg, s) && IsRun(cfg, s, steps, s') {
          WindowBound(cfg, s, steps, s', t);
        }
      }
    } else if cfg.max > 0 {
      var steps, s' := WindowBoundIsMet(cfg);
      assert !StaysWithin(cfg, bound, Start(cfg), steps, s', 0.0);
    } else {
      EmptyRun(cfg, Start(cfg));
      assert !StaysWithin(cfg, bound, Start(cfg), [], Start(cfg), 0.0);
    }
  }

  lemma EmptyRun(cfg: Config, s: State)
    ensures IsRun(cfg, s, [], s)
  {
  }

  /** It holds for certain exactly when no request takes longer than a second, or nothing is allowed. */
  lemma BoundHoldsInTime(cfg: Config)
    requires cfg.window > 0.0 && cfg.lag > 0.0 && cfg.workers > 0
    ensures NeverExceeds(cfg, Most(cfg)) <==> cfg.lag <= 1.0 || cfg.max == 0
  {
    if cfg.lag <= 1.0 || cfg.max == 0 {
      LeastBound(cfg, Most(cfg));
    } else {
      ExceedsWhenLate(cfg, Most(cfg));
    }
  }

  lemma ExceedsWhenLate(cfg: Config, bound: int)
    requires cfg.window > 0.0 && cfg.lag > 1.0 && cfg.workers > 0 && cfg.max > 0
    requires bound < cfg.max + 2 * cfg.workers - 1
    ensures !NeverExceeds(cfg, bound)
  {
    hide IsRun, Admitted;
    var steps, s' := WindowBoundExceeded(cfg);
    assert !StaysWithin(cfg, bound, Start(cfg), steps, s', 0.0);
  }

  /** The configured limit is kept for certain exactly when there is a single worker whose requests take no longer than
      a second, or nothing is allowed; so is the limit plus the number of the other workers. */
  lemma LimitKeptOnlyAlone(cfg: Config)
    requires cfg.window > 0.0 && cfg.lag > 0.0 && cfg.workers > 0
    ensures NeverExceeds(cfg, cfg.max) <==> cfg.max == 0 || (cfg.workers == 1 && cfg.lag <= 1.0)
    ensures NeverExceeds(cfg, cfg.max + cfg.workers - 1) <==> cfg.max == 0 || (cfg.workers == 1 && cfg.lag <= 1.0)
  {
    hide NeverExceeds;
    if cfg.lag <= 1.0 || cfg.max == 0 {
      LeastBound(cfg, cfg.max);
      LeastBound(cfg, cfg.max + cfg.workers - 1);
    } else {
      ExceedsWhenLate(cfg, cfg.max);
      ExceedsWhenLate(cfg, cfg.max + cfg.workers - 1);
    }
  }
}
