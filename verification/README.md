# Verified models of the ACMS trading platform

These Dafny files model the self-contained algorithms and state machines of the ACMS trading platform and prove what
each of them is for. Floating-point numbers are modelled as reals.

- **Hidden Markov inference** (`Viterbi`, `PathSums`, `PathPosterior`, `ScaledPasses`, `Restarts`,
  `ForwardBackward`, `MostProbable`). Log scores and densities are given as tables. Viterbi decoding is proved to return
  the best of all N^T state paths, and exactly one of them when several tie: the one that is smaller wherever it last
  differs from a competitor. Its score is the logarithm of the path's probability in the chain that the other pass sums
  over. The scaled forward-backward pass is proved against sums over all N^T paths. The two recurrences are shown to be
  those sums, and the scaled tables to be the recurrences divided by the constants that the program multiplies into the
  likelihood. For observations that no path can produce, the program restarts alpha from a uniform row; gamma then sums
  to 1 from the last restart on and is zero before it, and the rows of xi still add up to gamma.
- **The trimmed order book** (`OrderBook`) against the book that is never trimmed, which holds the last accepted change
  to every price. Removals can bring levels to the top that were trimmed away earlier, so the two agree only on the best
  `max_depth - d` levels after `d` removals. That bound is proved for every run, and the best price can be relied on
  exactly while d < max_depth.
- **The orchestrator** (`EquityCurve`, `OrchestratorEngine`, `ControlPlane`). Control methods and trading loops are
  interleaved at the awaits. `start` while paused creates a second loop, so any number of loops is allowed. Every order
  and every trip of a run is read off the kill flag, the level and the two loss limits. No order goes out while the kill
  switch is active, and none ever again once the recorded drawdown is over its limit. A pause does not stop a cycle that
  has begun: it keeps orders out exactly if no cycle that the checks may still let through is under way. After a breaker
  trip, orders wait for a reset exactly if degradation is enabled or a daily loss cannot be what tripped. For each
  control it is proved exactly when the loops, left to themselves, can place an order after it.
- **Hierarchical risk parity** (`QuasiDiag`, `Bisection`, `RiskBalance`, `SampleCovariance`, `RiskParity`). The
  flattening of the dendrogram ends, because the largest id falls in every pass, with an order in which every cluster
  stands together, its first part first. The bisection conserves capital. Its weights are the only ones that sum to 1
  and at every split give the halves capital in inverse proportion to their variances. The sample covariance of any
  returns is positive semidefinite, so no weight is negative or above 1. `RiskParity` composes these from linkage and
  returns to weights.
- **Rate limiters and the breaker** (`SlidingWindow`, `SlidingVerdicts`, `GatewayLimiter`, `TokenBucket`,
  `CircuitBreaker`). For each it is proved over every run what is admitted at most and when a request is refused. The
  sliding window of the API is documented as accurate across workers (`python/acms/api/dependencies.py:97-101`). It is
  not: with W concurrent requests it admits up to `max_requests + 2 (W - 1)` in one window. A first round of requests
  can be counted before any of it is added, and a second round that was stamped early can be trimmed late, after the
  window it belongs to. That bound is proved and, for every positive limit, met by a run, however short its requests. It
  needs requests that take no longer than the second by which the key outlives the window: otherwise the key can expire
  under requests that still count. So a positive limit is kept exactly if W is 1 and no request takes longer than a
  second, and the same condition decides whether every single verdict is the documented one.
- **Numeric algorithms** (`KMeans`, `Haar`, `Resampler`, `VolumeProfile`) and the **paper-trading ledger**
  (`PaperLedger`). Lloyd's rounds only lower the inertia and go on until the centroids are near the means; the Haar
  transform can be undone; resampling in two steps is resampling in one exactly when the floored ratios multiply; the
  value area is the narrowest possible on a profile with one peak; the books of the paper account balance exactly as
  long as every order is clean, and every position's profit is its value less what has been paid for it.

`Sums`, `Reals`, `Sets` and `Options` hold finite sums, facts about products and set sizes, and optional values. Classes
stand for the program's objects and are proved against a function of their old state; the lemmas then speak about that
function over whole runs.

## Model

| member | source | states |
|---|---|---|
| Viterbi.Argmax | python/acms/math_stats/hmm.py:154 | numpy's argmax: the first index of the maximum |
| Viterbi.FillRow | python/acms/math_stats/hmm.py:152-155 | one row of V and backpointer: each entry takes the first best predecessor and its score |
| Viterbi.FillTables | python/acms/math_stats/hmm.py:147-155 | all rows follow from one another, starting with initial and emission scores |
| Viterbi.TableBoundsPaths | python/acms/math_stats/hmm.py:151-155 | no state path scores higher than the entry of V for its length and last state |
| Viterbi.CommonTail | python/acms/math_stats/hmm.py:157-161 | paths that share the tail of a backpointer path gain exactly what the table gains over that tail |
| Viterbi.TiesAreAbove | python/acms/math_stats/hmm.py:154-160 | a path that ties with the backpointer path exceeds it at their last difference |
| Viterbi.FollowingIsDecoding | python/acms/math_stats/hmm.py:157-161 | the path along the backpointers has the best entry of V[T-1] as its score and beats or precedes all N^T paths |
| Viterbi.DecodingIsUnique | python/acms/math_stats/hmm.py:129-161 | optimality with the tie rule determines the returned path completely |
| Viterbi.Decode | python/acms/math_stats/hmm.py:129-161 | the returned states are that decoding, for every N, T >= 1 and all score tables |
| MostProbable.ScoreIsLog | python/acms/math_stats/hmm.py:145-155 | with any logarithm, the score of a path is that of its probability, the guard added to every factor |
| MostProbable.DecodingIsMostProbable | python/acms/math_stats/hmm.py:129-161 | so no path is more probable than the decoded one, and the tie rule is the one above |
| PathPosterior.ForwardSumsPaths | python/acms/math_stats/hmm.py:98-100 | the unscaled forward recurrence is the summed probability of all paths ending in a state |
| PathPosterior.ThroughIsProduct | python/acms/math_stats/hmm.py:116 | forward times backward is the summed probability of the paths through a state at a time |
| PathPosterior.ThroughBothIsProduct | python/acms/math_stats/hmm.py:119-123 | forward, move and backward multiply to the summed probability of the paths making that move |
| PathPosterior.LikelihoodByState | python/acms/math_stats/hmm.py:116-117 | at every time step the products of forward and backward sum to the likelihood |
| ScaledPasses.Normalise | python/acms/math_stats/hmm.py:91-96 | a row is divided by its total, or replaced by the uniform row with constant 1 if the total is zero; it sums to 1 |
| ScaledPasses.NextRow | python/acms/math_stats/hmm.py:98-106 | one scaled forward row from the one before, with its scale multiplied by the new constant |
| ScaledPasses.ForwardPass | python/acms/math_stats/hmm.py:87-106 | every alpha row is computed from the one before and normalised and, times the constants up to it, is the path sum as long as the observations so far are possible |
| ScaledPasses.ForwardRefinesPathSum | python/acms/math_stats/hmm.py:87-106 | c[0] * ... * c[t] * alpha[t, j] equals the summed joint probability of all paths ending in j, as long as the observations so far are possible |
| ScaledPasses.ConstantsMultiplyToLikelihood | python/acms/math_stats/hmm.py:92-106 | the constants multiply to the likelihood if and only if the observations are possible at all |
| ScaledPasses.BackwardPass | python/acms/math_stats/hmm.py:108-114 | every beta row is computed from the one after and, times the constants after it, is the sum over continuations |
| Restarts.Carry | python/acms/math_stats/hmm.py:98-114 | going back one step the sum of alpha * beta stays as it is, or vanishes if the later row of alpha was replaced |
| Restarts.RestartForgets | python/acms/math_stats/hmm.py:91-106 | where no state is possible any more, all states become equally likely and the constant is 1 |
| Restarts.DotOfPasses | python/acms/math_stats/hmm.py:87-116 | for all observations the sum of alpha * beta is 1 at every time from the last restart on and 0 before |
| Restarts.GammaOfPasses | python/acms/math_stats/hmm.py:116-117 | so dividing by that sum leaves gamma as alpha * beta |
| Restarts.XiOfPasses | python/acms/math_stats/hmm.py:119-124 | a table of moves over its total is the moves over c[t+1], or all zeros, and its rows sum to alpha * beta |
| ForwardBackward.GammaRow | python/acms/math_stats/hmm.py:116-117 | alpha * beta sums to 1 at every time step even before it is normalised |
| ForwardBackward.Gammas | python/acms/math_stats/hmm.py:116-117 | for all observations gamma is alpha * beta and sums to 1, or to 0 before the last restart; if the observations are possible, gamma[t, i] is the share of the likelihood whose paths visit state i at time t |
| ForwardBackward.XiRow | python/acms/math_stats/hmm.py:120-124 | a normalised xi row holds the shares of the likelihood that make each move |
| ForwardBackward.Xis | python/acms/math_stats/hmm.py:119-124 | for all observations c[t+1] * xi[t, i, j] is alpha * transition * density * beta and the rows sum to alpha * beta; if the observations are possible, xi holds the shares of the likelihood that make each move |
| ForwardBackward.XiSumsToGamma | python/acms/math_stats/hmm.py:116-124 | the sum of xi[t, i, j] over j is gamma[t, i], for all observations |
| ForwardBackward.Infer | python/acms/math_stats/hmm.py:76-127 | the whole pass: all of the above about the returned tables and constants |
| OrderBook.LocalOrderBook.Update | python/acms/exchanges/order_book.py:22-48 | a stale id changes nothing; otherwise level changes are applied in order, the id is stored and both sides keep their best levels |
| OrderBook.LocalOrderBook.TrimDepth | python/acms/exchanges/order_book.py:50-57 | each side keeps exactly the levels with fewer than max_depth better ones |
| OrderBook.PrefixIsTop | python/acms/exchanges/order_book.py:52-57 | the first max_depth entries of the sorted side are those best levels |
| OrderBook.SizeOfTop | python/acms/exchanges/order_book.py:50-57 | a side is trimmed to max_depth levels, and not touched below that |
| OrderBook.FullBookIsLastChanges | python/acms/exchanges/order_book.py:31-46 | after any run the untrimmed book holds a level exactly if the last change to its price, in a message without id or with one above the highest so far, set that quantity, above 0 |
| OrderBook.Sort | python/acms/exchanges/order_book.py:89-90 | all prices of a side, each once, best first |
| OrderBook.LocalOrderBook.GetBest | python/acms/exchanges/order_book.py:59-65 | None exactly on an empty side, otherwise the highest bid or the lowest ask |
| OrderBook.LocalOrderBook.Snapshot | python/acms/exchanges/order_book.py:83-95 | the list holds exactly the levels of the side, best first |
| OrderBook.RunAgrees | python/acms/exchanges/order_book.py:22-57 | after any run with d removals seen on a side, that side is part of the full one and has its best max_depth - d levels |
| OrderBook.BestPriceIsExact | python/acms/exchanges/order_book.py:59-65 | while d < max_depth the best price is that of the full book |
| OrderBook.RemovalsCanEmptyTheBook | python/acms/exchanges/order_book.py:34-57 | for every depth and every d >= max_depth a run with d removals leaves a side empty while the full book still has a level |
| OrderBook.WhenBestIsExact | python/acms/exchanges/order_book.py:34-65 | the best price is that of the full book in every run with d removals if and only if d < max_depth |
| OrderBook.RedeliveryIgnored | python/acms/exchanges/order_book.py:31-32 | a redelivered message is ignored if and only if its id is not above the highest since the last message without id |
| OrderBook.IgnoredMessage | python/acms/exchanges/order_book.py:31-32 | an ignored message changes neither book |
| OrderBook.ResetAcceptsAgain | python/acms/exchanges/order_book.py:31-46 | a message without id makes the book accept any earlier message again |
| EquityCurve.EquityCurveTracker.Update | python/acms/orchestrator/performance.py:74-82 | one record with timestamp, equity, profit and relative profit is appended, and the equity becomes the current one |
| EquityCurve.DrawdownIsWorstDrop | python/acms/orchestrator/performance.py:107-108 | the drop from the running peak is the worst drop from any earlier entry |
| EquityCurve.MaxDrawdownIsWorstDrop | python/acms/orchestrator/performance.py:102-109 | the maximum drawdown is the maximum over all i <= j of (e_i - e_j) / e_i |
| EquityCurve.MaxDrawdownGrows | python/acms/orchestrator/performance.py:102-109 | more history never lowers it |
| OrchestratorEngine.Orchestrator.PauseTrading | python/acms/orchestrator/engine.py:108-111 | the mode becomes paused, nothing else changes |
| OrchestratorEngine.Orchestrator.ResumeTrading | python/acms/orchestrator/engine.py:113-117 | paused becomes running, any other mode stays |
| OrchestratorEngine.Orchestrator.ActivateCircuitBreaker | python/acms/orchestrator/engine.py:220-225 | mode circuit breaker and, with degradation enabled, new orders halted |
| OrchestratorEngine.Orchestrator.ApplyDegradation | python/acms/orchestrator/engine.py:227-238 | the level is set; a full halt pauses, no other level changes the mode |
| OrchestratorEngine.Orchestrator.TriggerKillSwitch | python/acms/orchestrator/engine.py:327-332 | kill flag up, paused, full halt |
| OrchestratorEngine.Orchestrator.ResetKillSwitch | python/acms/orchestrator/engine.py:334-340 | flag down, degradation cleared, paused or tripped becomes running |
| OrchestratorEngine.Orchestrator.RecordEquity | python/acms/orchestrator/engine.py:181-191 | a positive total becomes the last equity, which is recorded either way |
| OrchestratorEngine.Orchestrator.PassesRisk | python/acms/orchestrator/engine.py:193-212 | the risk check passes exactly with the flag down and both losses within limits; a loss over its limit sets the mode to circuit breaker and, with degradation enabled, halts new orders |
| OrchestratorEngine.Orchestrator.TakeTurn | python/acms/orchestrator/engine.py:142-165 | a strategy's turn on the object is the step of the state machine, and it places an order exactly when that step does |
| OrchestratorEngine.GateOfOrders | python/acms/orchestrator/engine.py:150-165 | any step that places an order finds the flag down, new orders not halted and both losses within limits |
| OrchestratorEngine.InvNext | python/acms/orchestrator/engine.py:69-340 | every step keeps the invariant that ties flag and degradation level to the kills, trips and resets so far |
| OrchestratorEngine.NoOrderWhileKilled | python/acms/orchestrator/engine.py:193-197 | in every run, with any interleaving of loops and controls, no order is placed between a kill and the next reset |
| OrchestratorEngine.DrawdownLatch | python/acms/orchestrator/engine.py:199-204 | once the recorded drawdown exceeds its limit, no later run places an order, whatever is paused, resumed, restarted, killed or reset |
| OrchestratorEngine.DrawdownLatchOfRun | python/acms/orchestrator/engine.py:199-204 | the same for every run from the start, with nothing assumed of the equities |
| OrchestratorEngine.WhenTripsHold | python/acms/orchestrator/engine.py:199-238 | trips hold off orders until a reset in every run if and only if degradation is enabled, or no drawdown passes the check, or a daily loss cannot trip |
| OrchestratorEngine.TripForgotten | python/acms/orchestrator/engine.py:108-131 | the run that shows it otherwise: trip on a daily loss, pause, resume, recover, order |
| OrchestratorEngine.OrderWhilePaused | python/acms/orchestrator/engine.py:108-167 | for every drawdown limit of at least 0, a cycle that has begun places its order while paused |
| OrchestratorEngine.WhenNoOrderWhilePaused | python/acms/orchestrator/engine.py:108-167 | no run places an order while paused if and only if the drawdown limit is negative |
| OrchestratorEngine.CyclePlaces | python/acms/orchestrator/engine.py:133-165 | a cycle under way that the checks may still let through can place an order by steps of the loops alone, with a pause first where the breaker has tripped |
| OrchestratorEngine.WhenOrdersAreHeld | python/acms/orchestrator/engine.py:108-167 | in any mode but running and degraded, no order goes out short of a start, resume or reset if and only if no such cycle is under way |
| OrchestratorEngine.WhenPauseHolds | python/acms/orchestrator/engine.py:108-111 | after any run, a pause keeps all orders out until start, resume or reset if and only if no such cycle is under way when it is called |
| ControlPlane.LogOfRun | python/acms/orchestrator/engine.py:140-212 | over every run, kills, resets, trips and orders are exactly those that the controls called, the signals offered, the kill flag, the level and the two loss limits say |
| ControlPlane.TripTakesEffect | python/acms/orchestrator/engine.py:199-225 | a signal that meets a loss over its limit, with the flag down and new orders not halted, ends in mode circuit breaker and, with degradation enabled, halts new orders |
| ControlPlane.HistoryOfRun | python/acms/orchestrator/engine.py:181-191 | over every run, each reading of the balance records the last positive one so far, or 100000 before any |
| ControlPlane.WhenLoopsPlace | python/acms/orchestrator/engine.py:119-167 | the loops, left to themselves, can place an order if and only if flag, level and recorded drawdown allow it and some loop leads to a turn |
| ControlPlane.ResetTakesEffect | python/acms/orchestrator/engine.py:334-340 | a reset lowers the flag, ends the degradation, turns paused or tripped into running, and leaves all else |
| ControlPlane.WhenResetReopens | python/acms/orchestrator/engine.py:334-340 | after any run that has not stopped, the loops can place an order after a reset if and only if the recorded drawdown is within its limit and a loop is left |
| ControlPlane.KillThenReset | python/acms/orchestrator/engine.py:327-340 | after a kill no order can be placed; after a reset of it, under just that condition |
| ControlPlane.WhenStartTrades | python/acms/orchestrator/engine.py:69-98 | after a start from any mode but running, orders can be placed if and only if flag, level and recorded drawdown allow it |
| ControlPlane.WhenFailedStartHolds | python/acms/orchestrator/engine.py:91-94 | after a start that fails, only by a cycle already under way |
| ControlPlane.WhenResumeTrades | python/acms/orchestrator/engine.py:113-117 | after resuming from a pause, if and only if those gates are open and a loop is left |
| ControlPlane.ResumeClearsNoTrip | python/acms/orchestrator/engine.py:113-117 | in any other mode resuming changes nothing, so a tripped breaker still lets through only cycles past their check of it |
| ControlPlane.PauseThenResume | python/acms/orchestrator/engine.py:108-131 | however long the loops have run on in between, none of them has ended |
| ControlPlane.WhenStopHolds | python/acms/orchestrator/engine.py:96-106 | a stop leaves only cycles under way in other loops than the one it cancels, and completing it those in any |
| ControlPlane.WhenLoopEnds | python/acms/orchestrator/engine.py:96-131 | a loop ends exactly when a stop cancels it or it meets a stopped, starting, stopping or failed mode at the top of a cycle, and never comes back |
| ControlPlane.NeverTwoLoops | python/acms/orchestrator/engine.py:69-90 | if every start finds the mode running or no loop left, there is never more than one loop |
| ControlPlane.SecondLoop | python/acms/orchestrator/engine.py:69-90 | any other start makes a second one |
| QuasiDiag.LeavesArePermutation | python/acms/portfolio/hrp.py:43-65 | the leaves below the root of a valid linkage are 0..n-1, each once |
| QuasiDiag.OccursOnce | python/acms/portfolio/hrp.py:43-65 | every node occurs exactly once in the tree |
| QuasiDiag.ExpandAll | python/acms/portfolio/hrp.py:51-62 | one pass keeps the left-to-right leaves and lowers the largest id |
| QuasiDiag.Flatten | python/acms/portfolio/hrp.py:43-65 | the passes end with the left-to-right leaves, a permutation of 0..n-1 |
| QuasiDiag.OrderFollowsTree | python/acms/portfolio/hrp.py:43-65 | in that order the items of every cluster stand together, those of its first part before those of its second |
| QuasiDiag.ChainIsValid | python/acms/portfolio/hrp.py:36-40 | there are valid linkages for every number of items from 2 on |
| Bisection.WeightsSumToOne | python/acms/portfolio/hrp.py:67-108 | products of split fractions over a cluster sum to 1, whatever the fractions |
| Bisection.FractionInUnit | python/acms/portfolio/hrp.py:83-95 | with a positive semidefinite covariance the left fraction lies in [0, 1] |
| Bisection.WeightInUnit | python/acms/portfolio/hrp.py:97-100 | with fractions in [0, 1] every weight lies in [0, 1] |
| Bisection.SplitOne | python/acms/portfolio/hrp.py:76-105 | splitting one pending cluster keeps every weight equal to its share once the rest of its path is multiplied in |
| Bisection.SplitCluster | python/acms/portfolio/hrp.py:79-100 | the in-place update of the weights is such a split |
| Bisection.Bisect | python/acms/portfolio/hrp.py:67-108 | position k holds the product of the fractions on the path to asset order[k], and the weights sum to 1 |
| RiskBalance.SharesInverseToVariance | python/acms/portfolio/hrp.py:83-86 | inside a cluster the shares sum to 1, and share times guarded variance is the same for every asset |
| RiskBalance.VarianceIs | python/acms/portfolio/hrp.py:83-93 | only one assignment of shares does that, so the variance of a cluster is determined |
| RiskBalance.LessRiskGetsMore | python/acms/portfolio/hrp.py:95 | the left half gets at least half of the capital if and only if its variance is not the larger one |
| RiskBalance.AllocationWhenBalanced | python/acms/portfolio/hrp.py:67-108 | weights are those of the bisection if and only if they sum to 1 and at every split the capital of a half times its variance is the same for both halves (the capital itself, if neither varies) |
| Bisection.AllocationInUnit | python/acms/portfolio/hrp.py:67-108 | with a positive semidefinite covariance no weight is negative or above 1 |
| SampleCovariance.QuadraticIsVariance | python/acms/portfolio/hrp.py:25 | the quadratic form of a covariance is the scaled sum of squares of the combined centred returns |
| SampleCovariance.CovarianceIsPsd | python/acms/portfolio/hrp.py:25 | the sample covariance of any returns over at least two periods is positive semidefinite |
| SampleCovariance.CovarianceByPairs | python/acms/portfolio/hrp.py:25 | 2 n (n - 1) times the covariance of two assets is the sum over all pairs of periods of the products of their differences |
| SampleCovariance.AllocationOfReturnsInUnit | python/acms/portfolio/hrp.py:24-41 | for every such returns matrix no weight of the allocation is negative or above 1 |
| RiskParity.PermutationIsUnique | python/acms/portfolio/hrp.py:37-40 | the order from the dendrogram repeats no asset, as the bisection needs |
| RiskParity.Optimize | python/acms/portfolio/hrp.py:37-41 | from any valid linkage and any returns over at least two periods: one weight per leaf, in the order of the leaves, balanced so at every split, none negative or above 1, together 1 |
| SlidingWindow.KeyInvNext | python/acms/api/dependencies.py:132-144 | every step keeps the tie between the key's expiry, what it holds and the requests whose EXPIRE is still to come |
| SlidingWindow.ExpiresStale | python/acms/api/dependencies.py:143-144 | if no request takes longer than a second, an expiring key holds nothing that is still in a window |
| SlidingWindow.InvNext | python/acms/api/dependencies.py:118-149 | every worker step keeps the count of admitted, due and open requests of every window within its bound |
| SlidingWindow.WindowBound | python/acms/api/dependencies.py:118-149 | whatever the interleaving of W workers whose requests take at most a second, no window admits more than max_requests + 2 (W - 1), or anything if max_requests is 0 |
| SlidingWindow.WindowBoundIsMet | python/acms/api/dependencies.py:132-146 | for every positive limit, every W, window length and lag, however short, a run admits exactly that many |
| SlidingWindow.LeastBound | python/acms/api/dependencies.py:118-149 | if requests take at most a second, a number bounds what any window can admit, in every run, if and only if it is at least max_requests + 2 (W - 1), or at least 0 if max_requests is 0 |
| SlidingWindow.LimitKeptOnlyAlone | python/acms/api/dependencies.py:97-101 | max_requests is never exceeded, nor is max_requests + W - 1, if and only if W is 1 and requests take at most a second, or max_requests is 0 |
| SlidingWindow.WindowBoundExceeded | python/acms/api/dependencies.py:132-146 | if requests may take longer than a second, a run admits max_requests + 2 W - 1 in one window, for every positive limit and every W |
| SlidingWindow.BoundHoldsInTime | python/acms/api/dependencies.py:118-149 | the bound above holds in every run if and only if requests take at most a second, or max_requests is 0 |
| SlidingVerdicts.WhenDecidesExactly | python/acms/api/dependencies.py:118-149 | in every run a request is let in exactly if fewer than max_requests have been admitted in the window before it, if and only if W is 1 and requests take at most a second, or max_requests is 0 |
| SlidingVerdicts.RefusalIsDue | python/acms/api/dependencies.py:118-149 | for every W, if requests take less than a window: a refusal means that max_requests have been admitted from a window before the request until its verdict |
| CircuitBreaker.Guard.Allow | go/internal/middleware/middleware.go:437-458 | the verdict in each state, and the move to half open after the timeout |
| CircuitBreaker.Guard.RecordSuccess | go/internal/middleware/middleware.go:460-475 | the new state after a success |
| CircuitBreaker.Guard.RecordFailure | go/internal/middleware/middleware.go:477-498 | the new state after a failure |
| CircuitBreaker.LawHolds | go/internal/middleware/middleware.go:413-498 | after every trace a closed breaker counts the running streak of failures, a half-open one the successes since a late enough probe |
| CircuitBreaker.OpensOnStreak | go/internal/middleware/middleware.go:477-498 | a closed breaker opens exactly on the failure that completes failureThreshold in a row |
| CircuitBreaker.ClosesAfterProbe | go/internal/middleware/middleware.go:446-470 | it closes again exactly on the halfOpenMax-th success since a probe later than resetTimeout after the last failure, with no failure since |
| CircuitBreaker.LeavesOpen | go/internal/middleware/middleware.go:437-498 | an open breaker becomes half open exactly on a check later than resetTimeout after the last failure, and a half-open one opens exactly on a failure |
| CircuitBreaker.WhenRefused | go/internal/middleware/middleware.go:437-458 | after every trace a request is refused exactly by an open breaker within resetTimeout of the last failure |
| CircuitBreaker.HalfOpenAdmitsAll | go/internal/middleware/middleware.go:453-454 | while half open any number of checks is let through, since only successes count |
| GatewayLimiter.RedisRateLimiter.AllowLocally | go/internal/middleware/middleware.go:161-180 | the bucket of the key is renewed, used or left empty; other keys are untouched |
| GatewayLimiter.RedisRateLimiter.Allow | go/internal/middleware/middleware.go:139-159 | the verdict from the count if Redis answers, with EXPIRE on the first; the local bucket otherwise |
| GatewayLimiter.WindowBounds | go/internal/middleware/middleware.go:139-180 | in every closed interval of the window's length the fallback admits at most limit (one if limit < 1) and the counter at most twice the limit |
| GatewayLimiter.WhenRefusedLocally | go/internal/middleware/middleware.go:161-180 | after every run the fallback refuses a request exactly if it comes within a window of the last admission and at least limit requests have been admitted without a longer gap up to that one |
| GatewayLimiter.WhenRefusedByRedis | go/internal/middleware/middleware.go:139-159 | with EXPIRE right after each first count, Redis refuses a request exactly if the limit is below 1, or the window opened last is not over and has seen limit requests |
| GatewayLimiter.LocalBoundIsMet | go/internal/middleware/middleware.go:161-180 | a burst of limit requests (of one if limit < 1) passes the fallback |
| GatewayLimiter.RedisBoundIsMet | go/internal/middleware/middleware.go:146-155 | two full bursts a window apart admit twice the limit |
| TokenBucket.RateLimiter.constructor | python/acms/exchanges/rate_limiter.py:15-22 | a full bucket; burst 0 stands for max_requests |
| TokenBucket.RateLimiter.RefillTokens | python/acms/exchanges/rate_limiter.py:34-40 | tokens grow with the time elapsed, up to the burst |
| TokenBucket.RateLimiter.BeginAcquire | python/acms/exchanges/rate_limiter.py:26-32 | takes a token if one is there, else goes to sleep until it will be |
| TokenBucket.RateLimiter.EndAcquire | python/acms/exchanges/rate_limiter.py:30-32 | after the sleep, refills and takes the token |
| TokenBucket.RateLimiter.AvailableTokens | python/acms/exchanges/rate_limiter.py:42-46 | a look refills, even while an acquisition sleeps |
| TokenBucket.InvStep | python/acms/exchanges/rate_limiter.py:24-46 | every step keeps tokens in range and all grants covered by burst and inflow |
| TokenBucket.TokensInRange | python/acms/exchanges/rate_limiter.py:24-40 | in every run tokens stay in [0, burst] |
| TokenBucket.GrantBound | python/acms/exchanges/rate_limiter.py:24-40 | between any two grants, inclusive, there are at most burst + (max_requests / window) * (t - s) |
| TokenBucket.GrantsInWindow | python/acms/exchanges/rate_limiter.py:15-40 | no window holds more than burst + max_requests grants |
| TokenBucket.WhenGranted | python/acms/exchanges/rate_limiter.py:24-40 | in every run a request is granted at once if and only if that bound leaves room for it since every earlier grant |
| TokenBucket.SleepIsShortest | python/acms/exchanges/rate_limiter.py:26-32 | otherwise it sleeps until the first time at which there is room |
| KMeans.Nearest | python/acms/math_stats/clustering.py:37-38 | the label of a point is the first of its nearest centroids |
| KMeans.AssignIsBest | python/acms/math_stats/clustering.py:37-38 | for given centroids no labelling has a lower inertia than the assignment |
| KMeans.RecentreIsBest | python/acms/math_stats/clustering.py:39-42 | for a given labelling no centroids have a lower inertia than the recentred ones, empty clusters included |
| KMeans.InertiaByCluster | python/acms/math_stats/clustering.py:47 | the inertia summed cluster by cluster is the total squared distance of the points to their centroids |
| KMeans.RoundDescends | python/acms/math_stats/clustering.py:36-45 | recentring and the next assignment each never raise the inertia |
| KMeans.LloydDescends | python/acms/math_stats/clustering.py:34-47 | a restart ends no worse than its first assignment |
| KMeans.LloydEnds | python/acms/math_stats/clustering.py:34-45 | a restart either ends with every coordinate within 1e-8 + 1e-5 times the mean of the mean of its cluster (an empty one stays where it is), or after max_iter rounds, each of which moved a coordinate by more than that |
| KMeans.Restart | python/acms/math_stats/clustering.py:34-45 | the loop of one restart ends in that way |
| KMeans.DrawnLieOnPoints | python/acms/math_stats/clustering.py:31-32 | the first centroids lie on the points drawn |
| KMeans.FitAll | python/acms/math_stats/clustering.py:28-54 | the result is the first restart of least inertia, ended in that way, with its own inertia, and no worse than any restart's first assignment; none without restarts |
| Haar.NextPow2 | python/acms/math_stats/wavelet.py:30 | a power of two in [n, 2n) |
| Haar.NextPow2IsLeast | python/acms/math_stats/wavelet.py:30 | and the least one |
| Haar.MergeUndoes | python/acms/math_stats/wavelet.py:44-46 | the inverse step rebuilds the level it came from |
| Haar.EnergySplits | python/acms/math_stats/wavelet.py:44-46 | approximation and detail share the energy of the level |
| Haar.EqualPairsHaveNoDetail | python/acms/math_stats/wavelet.py:44-46 | two equal neighbours have no detail, all their energy is in the approximation |
| Haar.Split | python/acms/math_stats/wavelet.py:40-46 | the two arrays filled in place for one level |
| Haar.LevelIsLossless | python/acms/math_stats/wavelet.py:39-51 | one more level keeps the padded input rebuildable and the energy accounted for |
| Haar.RebuildsSignal | python/acms/math_stats/wavelet.py:30-34 | what is rebuilt starts with the signal and is zero from there on |
| Haar.Transform | python/acms/math_stats/wavelet.py:26-53 | every level follows from the one before uncut; the details with the last approximation rebuild the zero-padded input and hold its energy; signals shorter than 4 come back as they are |
| Resampler.ResampleCandles | python/acms/pipeline/resampler.py:29-66 | the returned list, with every early return |
| Resampler.InBatches | python/acms/pipeline/resampler.py:48-64 | the loop merges consecutive batches, the last possibly short |
| Resampler.MergeSpans | python/acms/pipeline/resampler.py:54-64 | a merged candle reaches exactly as high and as low as its batch |
| Resampler.MergeAddsUp | python/acms/pipeline/resampler.py:54-64 | it opens with the first, closes with the last and adds up volumes and trades |
| Resampler.BatchFillsTarget | python/acms/pipeline/resampler.py:36-46 | the ratio is the largest number of candles that fit into the target timeframe |
| Resampler.BatchesCompose | python/acms/pipeline/resampler.py:48-64 | batching by r and then q is batching by q * r, for every list |
| Resampler.ComposesWhenRatiosMultiply | python/acms/pipeline/resampler.py:36-66 | for any three timeframes, two steps agree with one on every list if and only if the ratios multiply |
| Resampler.MultiplesCompose | python/acms/pipeline/resampler.py:44-66 | they do when each timeframe is a proper multiple of the one before |
| Resampler.TotalsKept | python/acms/pipeline/resampler.py:54-64 | total volumes and trades, overall high and low, first open and last close are kept |
| PaperLedger.PaperTradingAdapter.PlaceOrder | python/acms/exchanges/paper.py:57-88 | a market order fills at the slipped price and is recorded as filled; any other only as submitted |
| PaperLedger.PaperTradingAdapter.UpdateBalanceAndPosition | python/acms/exchanges/paper.py:90-118 | cash, position, average entry price and realized profit after a fill, and the removal of a position left at or below 1e-10 |
| PaperLedger.PaperTradingAdapter.GetPositions | python/acms/exchanges/paper.py:132-137 | marks and unrealized profits are refreshed from the last prices |
| PaperLedger.PaperTradingAdapter.UpdatePrice | python/acms/exchanges/paper.py:148-155 | the last price of a symbol |
| PaperLedger.LedgerHolds | python/acms/exchanges/paper.py:57-118 | over every run of positive orders: cash follows the trades, cash = initial + realized - commissions - cost of holdings + what went unbooked, and holdings are positive |
| PaperLedger.CleanOrdersKeepTheBooks | python/acms/exchanges/paper.py:110-118 | the identity without the unbooked part survives an order if and only if it is no sale of something not held, nor one leaving a remainder up to 1e-10 other than 0, at a price |
| PaperLedger.BooksBalanceOnCleanRuns | python/acms/exchanges/paper.py:57-118 | over every run of positive orders, balance = initial + realized - commissions - cost of holdings holds after every step if and only if every order is clean in the account it meets |
| PaperLedger.EquityIdentity | python/acms/exchanges/paper.py:132-140 | cash plus holdings at market = initial + realized + unrealized - commissions + unbooked |
| PaperLedger.QuotedIsLastSeen | python/acms/exchanges/paper.py:57-66 | over every run an order is quoted the last price seen for its symbol, its own only before any, and 0 without either |
| PaperLedger.OrderCost | python/acms/exchanges/paper.py:57-118 | a market order moves its notional at that price and costs the slippage on it and the commission on both |
| PaperLedger.RoundTripCost | python/acms/exchanges/paper.py:57-118 | buying and selling again at an unmoved price costs slippage and commission on the notional, twice |
| PaperLedger.PositionsFollowTrades | python/acms/exchanges/paper.py:90-118 | over every run of positive orders the quantity and the cost less realized profit of a position are those of the trades since it was opened |
| PaperLedger.ProfitOfPosition | python/acms/exchanges/paper.py:90-140 | after a refresh its realized and unrealized profit are its quantity at the last price seen, or that of its last trade, less what has been paid for it |
| VolumeProfile.BinHoldsPrice | python/acms/indicators/volume.py:95-101 | a price in the range lies between the edges of its bin |
| VolumeProfile.CandleInItsBin | python/acms/indicators/volume.py:98-101 | so does the typical price of every candle that closes between its low and its high |
| VolumeProfile.VolumeBetweenEdges | python/acms/indicators/volume.py:95-102 | the volume of a bin is that of just the candles whose typical price lies between its edges, the highest in the last bin |
| VolumeProfile.EdgesAreEven | python/acms/indicators/volume.py:92 | the edges run from the lowest low to the highest high in equal steps |
| VolumeProfile.PriceOfBin | python/acms/indicators/volume.py:93 | the price given for a bin lies halfway between its edges, and in it |
| VolumeProfile.TypicalBalances | python/acms/indicators/volume.py:98 | high, low and close balance around the typical price |
| VolumeProfile.BinsHoldAllVolume | python/acms/indicators/volume.py:99-102 | the bin volumes sum to the input volume |
| VolumeProfile.FillBins | python/acms/indicators/volume.py:96-102 | each bin holds the volume of exactly the candles that fall into it |
| VolumeProfile.ArgMax | python/acms/indicators/volume.py:103 | the point of control is the first of the largest bins |
| VolumeProfile.GrowValueArea | python/acms/indicators/volume.py:105-123 | the loop ends with the greedy value area around the point of control |
| VolumeProfile.AreaIsTight | python/acms/indicators/volume.py:110-123 | unless all bins are taken the target is reached, and without the bin added last it was not; that bin held no less than its rival above, or more than its rival below |
| VolumeProfile.AreaHoldsItsShare | python/acms/indicators/volume.py:105-123 | without negative volumes it holds at least 70% of the total, and without the bin added last less |
| VolumeProfile.DominantHoldsMost | python/acms/indicators/volume.py:111-118 | a range of bins larger than all others holds the most of all ranges of its width |
| VolumeProfile.NarrowestOnOnePeak | python/acms/indicators/volume.py:110-123 | on a profile with one peak no range of fewer bins reaches the target |
| VolumeProfile.Compute | python/acms/indicators/volume.py:78-130 | the returned prices, volumes, point of control and value-area edges, with both early returns |

## Left out

- Floating-point rounding, overflow and NaN. The `1e-300` guards of the HMM code are dropped: rows whose total is zero stay zero where the guard would leave them so.
- HMM fitting. The M-step (`python/acms/math_stats/hmm.py:55-67`) divides sums of T - 1 moves by sums of T states, so its transition rows do not sum to 1; Gaussian densities and logarithms enter as tables, and the log-likelihood as the product of the constants.
- SlidingWindow.WindowBound: requests that take at most a second from their stamp to the end of their EXPIRE; `BoundHoldsInTime` shows that the bound fails for every positive limit if they may take longer; how far longer requests can exceed it is shown up to `WindowBoundExceeded`. One clock with distinct stamps and one key are assumed, and a worker stands for one request in progress. The branches that allow a request without Redis or on its errors are not modelled.
- SlidingVerdicts.RefusalIsDue: requests that take less than a window; a slower one can add an entry that is already older.
- OrderBook: a non-negative `max_depth`; symbol, timestamps, spread and mid price are not modelled.
- MostProbable.DecodingIsMostProbable: the logarithm enters as any function that turns products into sums and is increasing.
- OrchestratorEngine.Orchestrator.TakeTurn: a strategy's turn, from its checks to handing the order to the exchange, is one step, since no other task runs in between. Which strategies are active, their signals and the order size are inputs.
- OrchestratorEngine: loops and controls may also interleave after a balance has arrived and between turns that place nothing, where the program lets no other task run, so every safety theorem covers more runs than there are; `stop` cancels the loop it knows of and may set its final mode at any later time; the failing branch of `start` leaves no task. The risk engine is a kill flag that may also be raised from outside but is lowered only by `reset_kill_switch`; the initial capital is the default of 100000.
- Performance monitoring, auto-disabling of strategies, allocation and position sizing.
- QuasiDiag.Flatten: scipy's linkage enters as its guarantee, clusters joining earlier ones and each used once; correlation, distances and clustering are not modelled, nor are the early returns of `optimize`.
- SampleCovariance.CovarianceIsPsd: at least two periods, since `numpy.cov` divides by one less.
- Bisection.Bisect: an order without repetitions, which `RiskParity.Optimize` derives from the linkage; division by a zero variance sum is given the value 0. The returned weights follow the positions in the order, not the asset numbers, as in the program.
- CircuitBreaker: the breaker object only. The wrapper around it (`go/internal/middleware/middleware.go:507-577`) and the gateway's own proxying, which after a transport error records a failure and then a success, are not modelled. `halfOpenMax` is positive, as the constructor sets it to 3.
- GatewayLimiter.WindowBounds: monotone time, and INCR either takes effect and answers or does neither.
- GatewayLimiter.WhenRefusedByRedis: EXPIRE takes effect at the time of the first count; `WindowBounds` also covers a late one.
- TokenBucket.GrantBound: a monotone clock, and sleeps that last at least as long as asked.
- KMeans.FitAll: the random draws of first centroids are inputs, at least one centroid and one round are assumed, and distances are compared squared.
- Haar.Transform: the square root of two is a real r with r * r = 2, and the next power of two is exact.
- Resampler.ResampleCandles: timeframes are given in minutes, with 0 or less for one that does not parse, and candles are complete records.
- PaperLedger.PaperTradingAdapter.PlaceOrder: orders are kept by their status; ids of trades, timestamps, and the sharing of order and position objects with callers are not modelled, and a purchase that brings a position to exactly zero is excluded because the program divides by it. `cancel_order` is left out.
- VolumeProfile.Compute: at least one bin and arrays of equal length; the NaN result for short input is the value NoProfile.
- The backtest engine, whose bar equity does not follow a mark-to-market identity; authentication, tokens and encryption; the other indicators, wavelets, copulas and optimisers; databases, message queues, HTTP handlers, logging and command line.
