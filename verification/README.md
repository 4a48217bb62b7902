# A verified model of the resile resilience engine

resile wraps calls in retries, hedging, circuit breaking, rate limiting, bulkheads and adaptive limits. This project
models the parts that keep state across calls and proves what they guarantee over every run, under every interleaving of
callers. `dafny verify dfyconfig.toml` checks everything.

How the model is built:

- An object the Go code updates in place is a class with the same fields (`Breaker`, `RateLimiter`, `AdaptiveBucket`,
  `AdaptiveLimiter`, `Bulkhead`, `PriorityBulkhead`, `PolicyConfig`, `StateMachine`), and its methods are proved equal to
  functions on values. Properties over runs are proved of those functions.
- A protocol whose steps interleave (the two locked sections of a breaker call, the hedged loop beside its attempts,
  callers of a limiter or bulkhead) is a state machine; a run is any list of its steps, in any order.
- Time is an integer clock handed to each step. What the engine does not decide (outcomes of actions, answers of other
  components, random draws, cancellations) is a parameter that may be anything.
- Errors are trees: `Is`, `IsFatal` and the pushback search follow `errors.Is` and `errors.As`, the latter in pre-order.

| file | content |
|---|---|
| Errors, Outcomes, Sets | error trees and the retry condition; sequences of outcomes; sizes of sets |
| TimeWindow, TimeWindowHistory | the ten-bucket window; its sums against the full history of records |
| Circuit, Breaker | the breaker on values; the breaker object with ring, buckets and counters |
| BreakerProtocol, BreakerClock, BreakerIsolation, BreakerWindows, BreakerSequential | any number of overlapping callers; when the timeout runs and who may start; when probes cross episodes; their window; calls that do not overlap |
| Hedging, HedgingTheorems | the hedged executor, its invariant, its theorems and its loop |
| Backoff, Pipeline, PipelineTheorems, RetryLoop, Persistence | backoff, onion of layers, the retry loop, and that it goes on |
| Engine, BreakerInPipeline | options and composition; an Open breaker inside the default pipeline |
| RetryBudget, BudgetWindows | the token bucket shared by all retry loops and hedged runs, and what its counter stands for |
| RateLimiter, AdaptiveLimiter, Bulkhead | admission control |
| StateMachine, GrpcTimeout | all-or-nothing transitions; deadline propagation |

Several promises hold only under a condition that the code does not enforce. Each comes with a condition that can be
checked beforehand, an equivalence wherever the text says so, and a concrete run or state that breaks it:

- Half-Open isolation: an episode can be credited with a late probe if and only if a probe of an earlier episode is still
  running (`LateCreditIff`, `LateProbeCountsInNextEpisode`), and an Open breaker can become Closed with neither Reset nor
  Half-Open in between if and only if the probes still running could complete the count below the threshold
  (`OpenClosesDirectlyIff`, `LateProbeClosesOpenBreaker`).
- The time window loses no call younger than nine buckets if and only if it has at least 10ns and the clock starts no
  earlier than the epoch (`RemembersIff`, `TinyWindowLoses`, `PreEpochClockLoses`). For every window and every run from
  the epoch on, its sums are exact throughout if and only if no step overlooks a recorded call (`CleanRunIsExact`,
  `AdvanceSumsIff`, `QuickCrossingOvercounts`).
- A Closed breaker is healthy as its window was last read; as of now it is so too while a reading would empty nothing
  (`ClosedIsHealthyNow`, `HealthGoesStale`).
- A priority threshold can be exceeded if and only if two callers can be between check and slot, the threshold lets anyone
  pass, and there is a slot beyond it (`ThresholdExceededIff`, `TwoAtOnceOvershoot`).
- The smoothed round trip is at least the baseline after an update if and only if that update meets a condition on the
  state before it, whatever came earlier (`OrderedIff`, `OrderedExactly`, `DecayInverts`).
- For every limit and every nonzero interval the limiter's counter is the tightest past window if and only if the two do
  not differ in sign or no time has passed (`TokensAreTheTightestWindow`, `NegativeIntervalIgnoresRoom`).
- Without fallback layers nil means success if and only if `MaxAttempts` is at least 1 or no layer retries
  (`NilMeansSuccessIff`); with 0 nothing is called, the answer is nil, and a state machine is overwritten with zero values
  (`ZeroAttemptsErase`).

## Model

| member | source | states |
|---|---|---|
| Errors.JoinStops | policy.go:58-89 | a joined error is fatal, cancelled, timed out or circuit-open exactly when one of its parts is |
| Errors.FatalIsFinal | policy.go:29-40 | an error marked fatal is not retried under any policy, alone or joined between any others |
| Errors.StoppingEnds | retry.go:463-472 | no policy makes a loop go on after a stopping error |
| Errors.FirstRetryAfterJoin | retry.go:486-493 | the pushback obeyed is that of the earliest joined part that carries one |
| Errors.IsInTree | policy.go:58-89 | an error is a sentinel exactly when some node of its tree, read in pre-order, is |
| Errors.FatalInTree | policy.go:37-40 | it is fatal exactly when some node carries the mark |
| Errors.PushbackIsFirst | retry.go:486-493 | the pushback found is that of the first node in pre-order that carries one |
| Errors.RetriedIff | policy.go:58-89 | exactly these errors are retried: no node forbids it, and the policy is empty, its target is in the tree, or its function accepts |
| Outcomes.LastNStep | circuit/breaker.go:326-345 | keeping the last n outcomes one at a time keeps the last n of the whole history |
| TimeWindowHistory.ArcIs | circuit/breaker.go:367-376 | the circular clearing walk empties exactly the buckets whose newest slot is later than the last record, one turn short if more than a turn has passed |
| TimeWindowHistory.ExecHolds | circuit/breaker.go:347-377 | over any records, reads and clears each bucket holds at least the calls of its newest slot |
| TimeWindowHistory.NeverLosesRecent | circuit/breaker.go:347-385 | with a window of 10ns or more, no call younger than nine buckets is ever missing from the sums |
| TimeWindowHistory.TinyWindowLoses | circuit/breaker.go:140-144 | below 10ns two calls 10ns apart are never counted together |
| TimeWindowHistory.PreEpochClockLoses | circuit/breaker.go:379-383 | with any start before the epoch two calls one bucket apart are never counted together |
| TimeWindowHistory.RemembersIff | circuit/breaker.go:347-385 | no run loses a call younger than nine buckets if and only if the window has 10ns or more and the clock starts at the epoch or later |
| TimeWindowHistory.AdvanceExactIff | circuit/breaker.go:358-377 | for every window, an advance keeps every bucket exact if and only if no recorded call lies in an overlooked slot |
| TimeWindowHistory.AdvanceSumsIff | circuit/breaker.go:358-377 | for every window, an advance keeps the two sums exact under the same condition, and no other |
| TimeWindowHistory.SumsTellBuckets | circuit/breaker.go:411-415 | when the buckets err to one side only, the sums are exact if and only if every bucket is |
| TimeWindowHistory.CleanRunIsExact | circuit/breaker.go:347-385 | for every window and every run from the epoch on, the sums are those of the last ten absolute buckets of the full history at every point if and only if no step overlooks a recorded call |
| TimeWindowHistory.GoodGapsAreClean | circuit/breaker.go:366-367 | it suffices that each gap stays in one bucket or is at least a bucket long, for a window divisible by ten |
| TimeWindowHistory.QuickCrossingOvercounts | circuit/breaker.go:366-367 | a boundary crossed in less than a bucket's length keeps a call from a full window ago |
| BreakerObject.RingStep | circuit/breaker.go:326-345 | overwriting one ring cell and stepping on equals keeping the last outcomes in order |
| BreakerObject.RingCounts | circuit/breaker.go:326-345 | the running total and failure count stay those of the ring, and the decrement never goes below zero |
| BreakerObject.Breaker.constructor | circuit/breaker.go:114-151 | a new breaker is Closed and empty with every unset or illegal field defaulted |
| Circuit.DefaultsFillGaps | circuit/breaker.go:114-133 | each legal field is kept and each other one gets its own default |
| Circuit.UnhealthyIff | circuit/breaker.go:392-400 | a window trips exactly when it has enough calls and the failed share of a hundred reaches the threshold |
| Circuit.AtTheThreshold | circuit/breaker.go:397-400 | one failure in two calls at 50 percent trips |
| BreakerObject.Breaker.RecordCountBased | circuit/breaker.go:326-345 | the ring read from its oldest entry becomes the last WindowSize outcomes including the new one |
| BreakerObject.Breaker.AdvanceTimeBasedWindow | circuit/breaker.go:358-377 | updates the bucket array in place exactly as the window function whose history theorems are proved |
| BreakerObject.Breaker.ClearWalk | circuit/breaker.go:370-375 | the clearing loop ends within ten turns and empties exactly the buckets on the arc |
| BreakerObject.Breaker.RecordTimeBased | circuit/breaker.go:347-356 | advances, counts the outcome in the current bucket and moves the last update time |
| BreakerObject.Breaker.ClearWindow | circuit/breaker.go:305-316 | leaves the window of a new breaker, of either kind |
| BreakerObject.Breaker.GetStats | circuit/breaker.go:403-417 | returns total and failures of the window as of now |
| BreakerObject.Breaker.TransitionToOpen | circuit/breaker.go:284-289 | Open at the given instant with an empty window and nothing else changed |
| BreakerObject.Breaker.TransitionToHalfOpen | circuit/breaker.go:291-297 | Half-Open with all three probe counters at zero and the window kept |
| BreakerObject.Breaker.TransitionToClosed | circuit/breaker.go:299-303 | Closed with an empty window, probe counters kept |
| BreakerObject.Breaker.CheckRate | circuit/breaker.go:387-401 | trips a Closed breaker exactly when its window is unhealthy |
| BreakerObject.Breaker.HandleFailure | circuit/breaker.go:252-263 | a failure captured in Half-Open reopens in whatever state it finds the breaker; any other is recorded and judged |
| BreakerObject.Breaker.HandleSuccess | circuit/breaker.go:265-282 | a success captured in Half-Open decides the episode once enough probes completed; any other is recorded and judged |
| BreakerObject.Breaker.Enter | circuit/breaker.go:181-200 | the first locked section: who is admitted, and with which captured state |
| BreakerObject.Breaker.Leave | circuit/breaker.go:204-214 | the second locked section: the effect of one report on the whole breaker |
| BreakerObject.Breaker.Execute | circuit/breaker.go:174-215 | a call alone: a done context changes nothing, a refusal runs nothing, an admitted call is reported once |
| BreakerObject.Breaker.CurrentState | circuit/breaker.go:154-171 | reading the state also makes the timed move to Half-Open |
| BreakerObject.Breaker.PeekState | circuit/breaker.go:155-160 | the read alone changes nothing and says whether to look again; others may act before that |
| BreakerObject.Breaker.ConfirmState | circuit/breaker.go:161-167 | the second look judges the state found then, not the one read before |
| BreakerObject.Breaker.Reset | circuit/breaker.go:218-222 | closes the breaker and clears its window |
| BreakerProtocol.Reachable | circuit/breaker.go:154-303 | the invariant linking counters, window, running calls and the log holds after every interleaving |
| BreakerProtocol.OpenIsLeftOnlyLate | circuit/breaker.go:154-200 | nothing starts while Open; Half-Open is entered only from Open and strictly after the reset timeout |
| BreakerProtocol.EpisodesAreBounded | circuit/breaker.go:192-198 | every episode, past or present, admits at most HalfOpenMaxCalls probes, each reported at most once |
| BreakerProtocol.ClosingIsEarned | circuit/breaker.go:265-276 | a breaker becomes Closed, other than by Reset, exactly on a probe success that brings the outcomes credited since Half-Open was last entered to HalfOpenMaxCalls or more at a failure rate below the threshold, and starts with an empty window |
| BreakerProtocol.OpeningHasACause | circuit/breaker.go:252-282 | a breaker becomes Open exactly on a failed probe, a lost decision, or a report that leaves a Closed breaker's window unhealthy |
| BreakerProtocol.VerdictInProducts | circuit/breaker.go:267-276 | a deciding success closes or reopens by the same comparison, at the threshold reopening |
| BreakerClock.OpenedAtIsTheLastOpening | circuit/breaker.go:284-303 | in every reachable state: Closed exactly if the breaker was closed since its last opening report or never opened; otherwise the timeout runs from that report's clock, late probes and lost decisions included, and Half-Open means that it has passed |
| BreakerClock.AdmittedIff | circuit/breaker.go:181-200 | a call is admitted if and only if the breaker was closed since its last opening, or the timeout has passed since then and the episode has a probe slot left |
| BreakerProtocol.HalfOpenIsNeverStuck | circuit/breaker.go:192-214 | in Half-Open a probe slot is free or a probe of this episode is still running |
| BreakerProtocol.EpisodeIsDecided | circuit/breaker.go:252-282 | once all probes an episode may admit have reported, the breaker has left Half-Open |
| BreakerProtocol.CreditIsOwnPlusLate | circuit/breaker.go:252-282 | the counters are the episode's own reports plus those arriving late from earlier episodes |
| BreakerProtocol.ClosedIsHealthy | circuit/breaker.go:387-401 | in every reachable Closed state the window, as last read, has too few calls to judge or a failure rate below the threshold |
| BreakerProtocol.ClosedIsHealthyNow | circuit/breaker.go:387-417 | it is so as of now too while a reading would empty nothing, for a time window at least until a bucket's length has passed since the last record |
| BreakerProtocol.SmallWindowNeverTrips | circuit/breaker.go:387-401 | with MinimumCalls above WindowSize only a late probe can open a Closed breaker |
| BreakerIsolation.LateCreditIff | circuit/breaker.go:200-214 | in every reachable state the current episode can still be credited with a probe of an earlier one if and only if such a probe is running |
| BreakerIsolation.CleanEntriesIsolate | circuit/breaker.go:291-297 | when every episode is entered with no probe running, each is decided by its own probes alone |
| BreakerIsolation.OpenClosesDirectlyIff | circuit/breaker.go:265-276 | an Open breaker can become Closed without Reset or Half-Open if and only if the running probes, all succeeding, would complete the count below the threshold |
| BreakerIsolation.LateProbeClosesOpenBreaker | circuit/breaker.go:200-214 | after the first of two probes fails, the second one closes the Open breaker |
| BreakerIsolation.LateProbeCountsInNextEpisode | circuit/breaker.go:200-214 | or it is counted as a completion of the next episode |
| BreakerWindows.WindowAfter | circuit/breaker.go:252-303 | what each kind of step does to the window: clear, record and read, or nothing |
| BreakerWindows.CountWindowIsHistory | circuit/breaker.go:305-345 | under any interleaving the count window is the last min(WindowSize, n) outcomes reported since the last clear, and its counters are theirs |
| BreakerWindows.TimeWindowIsHistory | circuit/breaker.go:305-385 | under any interleaving the time window is that of its own records, reads and clears in order, with exactly the reported history |
| BreakerWindows.BreakerRemembersRecent | circuit/breaker.go:347-417 | no interleaving makes the breaker forget a report younger than nine buckets |
| BreakerWindows.BreakerCountsExactly | circuit/breaker.go:347-417 | for every window, the breaker's sums are exact at each of its own records, reads and clears if and only if none overlooks a recorded call; good gaps are enough when ten divides the window |
| BreakerWindows.HealthGoesStale | circuit/breaker.go:358-377 | a window that is healthy as last read and unhealthy as of now |
| BreakerSequential.SequentialRefinement | circuit/breaker.go:174-303 | without overlap every sequence of calls, queries and resets gets the textbook three-state machine's answers, one by one, including the state each query reports |
| BreakerSequential.OneStep | circuit/breaker.go:174-303 | without overlap Half-Open has no failures and as many completions as admissions, and each operation refines the textbook's |
| BreakerSequential.ProbesCountUp | circuit/breaker.go:265-282 | exactly the HalfOpenMaxCalls-th consecutive success closes; any failure before it reopens |
| Hedging.Reachable | retry.go:603-735 | the invariant linking loop variables, attempts, channel and captured value holds under every interleaving |
| HedgingTheorems.AttemptsAreCounted | retry.go:641-732 | errors plus in-flight equal the attempts launched, never more than MaxAttempts |
| HedgingTheorems.SendNeverBlocks | retry.go:607 | the result channel has room for every finished attempt, also after the call returned |
| HedgingTheorems.WaitIsNeverStuck | retry.go:675-732 | a waiting loop has a result, a done context, a timer, or an attempt still to deliver |
| HedgingTheorems.ReturnedResult | retry.go:686-734 | the received results belong to different attempts; nil exactly when the last one was nil; else the errors received in order are joined, all but the last retryable, with at most one context error at the end; without one, the last error is final, or all MaxAttempts failed, or a token was refused |
| HedgingTheorems.RefusalWasGiven | retry.go:642-672 | the loop launches fewer than MaxAttempts only after the bucket refused a token it was asked for |
| HedgingTheorems.ContextErrorIsTrue | retry.go:687-691 | a context error in the answer is the reason for which the context was done |
| HedgingTheorems.GoesOnAfterError | retry.go:704-728 | a retryable error received while attempts are left sends the loop back to its top |
| HedgingTheorems.TimerGoesOn | retry.go:729-731 | so does the hedging delay |
| HedgingTheorems.NextTurnLaunches | retry.go:642-684 | from the top, in every reachable state, the next attempt is launched unless none is left or a token is refused, and only with none in flight does the call end |
| HedgingTheorems.UncancelledResult | retry.go:686-734 | a run nobody cancels returns nil or exactly the join of the errors it received |
| HedgingTheorems.NilMeansSuccess | retry.go:139-149 | with MaxAttempts at least 1, nil means a launched attempt succeeded and a value from a successful attempt was captured |
| HedgingTheorems.ZeroAttemptsReturnNil | retry.go:675-677 | with MaxAttempts 0 the call returns nil having launched nothing |
| HedgingTheorems.ValueIsStable | retry.go:139-149 | a captured value never changes, whatever finishes later |
| HedgingTheorems.ResultIsStable | retry.go:686-734 | nor does the result of a returned call |
| HedgingTheorems.RetriesArePaid | retry.go:642-672 | every attempt after the first was granted one token |
| HedgingTheorems.TurnDecreases | retry.go:641-732 | each turn strictly decreases 2*(MaxAttempts - attemptsStarted) + inFlight |
| HedgingTheorems.RunsAreBounded | retry.go:603-735 | loop and attempts together take at most 6*MaxAttempts + 3 steps under any schedule |
| HedgingTheorems.HedgeLoop | retry.go:641-734 | the loop as written ends, with the result of a run made only of what its environment did |
| HedgingTheorems.NilNeedsSuccess | retry.go:696-703 | with MaxAttempts at least 1, nil needs an attempt that succeeds |
| HedgingTheorems.OutcomeWasFinished | retry.go:652-667 | every result handed over is the outcome its attempt finished with |
| HedgingTheorems.ExecuteHedged | retry.go:603-735 | nil only if some attempt may succeed; an error nobody's cancellation caused joins one to MaxAttempts errors, each one an attempt could return, and exactly MaxAttempts when all of them can only fail retryably without a bucket; nil with MaxAttempts 0 |
| Backoff.Next | backoff.go:38-58 | the delay is below min(cap, base*2^attempt), and zero when that is not positive |
| Backoff.PossibleIsDrawn | backoff.go:38-58 | every delay in range is given by some draw and no other is |
| Backoff.TotalBackoff | backoff.go:38-58 | n delays sum to at most min(n*cap, base*(2^n - 1)) |
| Backoff.CapIsReached | backoff.go:41-48 | the bound doubles until it meets the cap and stays there |
| PipelineTheorems.CallBound | retry.go:333-338 | any list of layers with k retry layers calls the action at most MaxAttempts^k times |
| PipelineTheorems.StoppingIsFinal | retry.go:438-505 | with no fallback layer, after the action returns, or a layer such as the breaker refuses with, a fatal, cancelled, timed-out or circuit-open error, there is no further call or refusal at any depth, and the answer says so |
| PipelineTheorems.StoppingIsFinalUnderFallback | policy.go:97-99 | nor is there with fallback layers outside every retry layer, the documented order |
| PipelineTheorems.NilMeansSuccess | retry.go:438-505 | with no fallback layer and MaxAttempts at least 1, nil is answered exactly when the action was called and its last call succeeded, and nothing is called after a success |
| PipelineTheorems.NilMeansSuccessIff | retry.go:438-505 | and it is so in every environment if and only if MaxAttempts is at least 1 or no layer retries |
| PipelineTheorems.ZeroAttemptsAnswerNil | retry.go:443-502 | with MaxAttempts 0 any pipeline with a retry layer and no refusal answers nil without a call |
| PipelineTheorems.CallsAreRecorded | retry.go:68-76 | whatever the layers, every call reaches the action and its answer is its own |
| PipelineTheorems.RefusalsThatStop | retry.go:384-552 | which layers can end the retries by refusing, and with which errors the others refuse |
| Persistence.CallBoundIsReached | retry.go:438-505 | undisturbed, an action that always fails plainly is called exactly MaxAttempts^k times under k retry layers |
| Persistence.PersistsUntilSuccess | retry.go:438-459 | undisturbed, fewer than MaxAttempts plain failures are retried just up to the first success, and the answer is nil |
| Persistence.OthersPassState | retry.go:384-583 | layers other than retry pass on the state they are given |
| Persistence.FallbackAnswers | retry.go:585-600 | a fallback layer lets nil through, answers an error with its handler's answer, and calls nothing itself |
| RetryLoop.RetryLoopMeetsSpec | retry.go:438-505 | attempt i is shown i and error i-1; nil exactly when the last attempt succeeded; else the errors in order plus at most one context error; it gives up early only for a named reason, goes on only after an error that allows it, without a cancelling pushback, and a full pause of the delay the error asks for or the one drawn; the backoff bound |
| RetryLoop.PauseAsks | retry.go:478-499 | which question is asked when, and what each answer leads to |
| RetryLoop.RetryMiddleware | retry.go:438-505 | the loop as written is that specification, on every input |
| RetryLoop.PauseBetween | retry.go:478-499 | token, backoff, pushback and sleep between attempts, in this order |
| Engine.RetriesOfSettings | options.go:47-64 | a policy has exactly one retry layer per retry option |
| Engine.DefaultRetriesOnce | retry.go:343-382 | whatever is configured, the default pipeline has one retry layer and no fallback layer |
| Engine.DefaultIsEveryConfiguredLayer | retry.go:343-382 | the default pipeline is the full list of layers in order, with just the unconfigured components left out |
| Engine.LastRetryOptionWins | options.go:47-64 | the last retry option decides how many attempts there are |
| Engine.FiveAttemptsByDefault | retry.go:287-297 | there are five without one |
| Engine.LastFallbackWins | options.go:30-37 | the last fallback option decides the handler |
| Engine.LastGateOptionWins | options.go:119-252 | a component is configured exactly if the last option for it switches it on |
| Engine.OptionsBecomeLayers | options.go:20-264 | each option of a policy becomes its own layer in its place |
| Engine.KeepsPromises | retry.go:302-339 | call bound, finality of stopping errors and the meaning of nil for any layer list |
| Engine.PolicyConfig.constructor | policy.go:100-107 | options take effect in order, the last of a kind wins, components included, and only a policy's options append layers |
| Engine.PolicyConfig.BuildDefaultPipeline | retry.go:343-382 | admission gates outside the one retry layer, per-attempt layers inside it |
| Engine.PolicyConfig.GetComposedPipeline | retry.go:314-339 | composes once, outermost option first, and returns the same pipeline ever after |
| Engine.PolicyConfig.Execute | retry.go:302-311 | the call bound, the finality of stopping errors and the meaning of nil for every configured call |
| BreakerInPipeline.OpenBreakerStopsCalls | retry.go:343-382 | while the breaker is Open and its reset timeout has not passed, a call through the default pipeline ends after one refusal, with no call of the action and no retry, whatever else is configured |
| BreakerInPipeline.ThroughGates | retry.go:333-338 | a stack of gates either refuses once without calling, or asks one question each and calls on |
| RetryBudget.AdaptiveBucket.AcquireRetryToken | adaptive_retry.go:41-50 | takes the cost exactly when it is there |
| RetryBudget.AdaptiveBucket.AddSuccessToken | adaptive_retry.go:53-61 | adds the refill, clamped to the capacity |
| RetryBudget.LoopIsDisciplined | retry.go:454-481 | in a retry loop every attempt after the first follows a granted token, the bucket sees exactly the attempts made, and success is reported exactly if there was one |
| RetryBudget.HedgeRunIsDisciplined | retry.go:642-703 | so it is in a hedged run under every interleaving |
| RetryBudget.EveryStepHappens | adaptive_retry.go:41-61 | in any interleaving of disciplined runs answered by the bucket every step is possible and each run stands where its own moves put it |
| RetryBudget.GlobalRetryBudget | adaptive_retry.go:41-61 | however retry loops and hedged runs sharing a bucket are interleaved, tokens stay in range and retryCost times the attempts after each first is at most maxCapacity plus successRefill times the successful runs |
| BudgetWindows.TokensAreTheTightest | adaptive_retry.go:41-61 | after any uses the tokens are the least that any earlier moment allows, had the bucket been full then |
| BudgetWindows.GrantedIff | adaptive_retry.go:41-50 | a retry is granted if and only if every earlier moment still has its cost |
| BudgetWindows.SharedBucketIsTracked | adaptive_retry.go:41-61 | the bucket shared by interleaved runs is such a bucket |
| RateLimiting.RateLimiter.constructor | ratelimit.go:28-35 | a new limiter is full as of its creation |
| RateLimiting.RateLimiter.Acquire | ratelimit.go:39-62 | refill by elapsed time, clamp, then take one token if there is one, for every limit and interval |
| RateLimiting.TokensAreTheTightestWindow | ratelimit.go:43-54 | for every limit and nonzero interval the counter is the minimum over all earlier instants of the room that window has left, if and only if limit and interval do not differ in sign or no time has passed |
| RateLimiting.NegativeIntervalIgnoresRoom | ratelimit.go:46-59 | with limit 2 and interval -1ns a call is admitted one instant after creation although the only window has no room |
| RateLimiting.AdmitsExactlyWhenEveryWindowHasRoom | ratelimit.go:39-62 | with a positive interval a call is admitted if and only if the limit and every past window have room for one more |
| RateLimiting.SmallLimitNeverAdmits | ratelimit.go:56-61 | a limit below one admits nothing, ever |
| RateLimiting.IntervalBound | ratelimit.go:39-62 | with a positive interval and a limit of at least zero any interval of length d admits at most limit + limit*d/interval calls |
| RateLimiting.NeverRefills | ratelimit.go:46-54 | when limit and interval differ in sign, or the limit is zero, the tokens are always the limit less everything admitted |
| RateLimiting.NegativeIntervalAdmitsLimitInAll | ratelimit.go:39-62 | with a negative interval a call is admitted if and only if fewer than the limit were admitted in all |
| RateLimiting.ZeroIntervalLimitsEachInstant | ratelimit.go:39-62 | with a zero interval a call is admitted if and only if fewer than the limit were admitted at this very instant |
| AdaptiveLimiting.AdaptiveLimiter.Update | adaptive_concurrency.go:81-122 | baseline, smoothing, threshold and limit move by the rule whose behaviour is proved below |
| AdaptiveLimiting.AdaptiveLimiter.Execute | adaptive_concurrency.go:60-79 | a call alone is admitted exactly below the limit, and the counter always returns to its value |
| AdaptiveLimiting.TruncatedProduct | adaptive_concurrency.go:115-119 | the truncated float product is four fifths rounded down, at least one |
| AdaptiveLimiting.FloatForms | adaptive_concurrency.go:92-105 | the integer forms are the float expressions truncated, a decay is due after more than a minute |
| AdaptiveLimiting.LimitMoves | adaptive_concurrency.go:107-119 | at every limit, below 1.5 times the baseline it rises by exactly one, otherwise it falls to four fifths, at least one |
| AdaptiveLimiting.SteadySpeedOpensTheLimit | adaptive_concurrency.go:81-111 | n updates with a steady round trip at the baseline raise the limit by exactly n |
| AdaptiveLimiting.OrderedIff | adaptive_concurrency.go:92-105 | after an update the smoothed round trip is at least the baseline if and only if a condition on the state before it holds |
| AdaptiveLimiting.OrderedExactly | adaptive_concurrency.go:81-105 | in every reachable state the order holds if and only if there was no update yet or the last one met that condition |
| AdaptiveLimiting.OrderedUntilDecay | adaptive_concurrency.go:92-105 | wherever it holds in a run, it holds until the next decay |
| AdaptiveLimiting.DecayInverts | adaptive_concurrency.go:94-105 | two calls a minute apart leave the smoothed round trip below the baseline |
| AdaptiveLimiting.EwmaRises | adaptive_concurrency.go:105-109 | under a constant round trip of twice the baseline it climbs past 1.5 times the baseline |
| AdaptiveLimiting.LimitFalls | adaptive_concurrency.go:113-119 | from then on each update strictly lowers the limit until it is one |
| AdaptiveLimiting.SteadySlownessClosesTheLimit | adaptive_concurrency.go:81-122 | so the limit is one after a computed number of updates and for ever after |
| AdaptiveLimiting.RunningWithinPeak | adaptive_concurrency.go:60-79 | under every interleaving running actions never exceed the highest limit published, and the limit is at least one |
| AdaptiveLimiting.TicketsCount | adaptive_concurrency.go:62 | in every reachable state a new caller's ticket is one more than the callers present |
| AdaptiveLimiting.CheckedIff | adaptive_concurrency.go:65-68 | a caller is let in exactly if its ticket fits the limit of that moment |
| Bulkheads.Bulkhead.Enter | bulkhead.go:32-41 | a slot, the context's error or a refusal, exactly when each is possible |
| Bulkheads.PriorityBulkhead.Enter | bulkhead.go:79-107 | full, shed or entered in terms of slots in use, capacity and the soft limit |
| Bulkheads.PassMeansBelow | bulkhead.go:86-97 | the comparison of utilizations passes exactly up to ceil(threshold*capacity) - 1 slots in use, below capacity |
| Bulkheads.UnlistedIsNeverShed | bulkhead.go:80-97 | a priority without a threshold passes as long as there is a free slot |
| Bulkheads.SlotsAreConserved | bulkhead.go:99-107 | in every interleaving the active callers hold exactly the slots in use, at most the capacity |
| Bulkheads.SoftLimitPlusCrowd | bulkhead.go:79-108 | with at most k callers of a priority between check and slot, active and pending ones stay within ceil(threshold*capacity) - 1 + k |
| Bulkheads.BoundIsReached | bulkhead.go:79-108 | that bound is tight: while there is room, some run has soft limit plus k active |
| Bulkheads.OneAtATimeIsHard | bulkhead.go:79-108 | so with k = 1 the threshold is never exceeded |
| Bulkheads.ThresholdExceededIff | bulkhead.go:79-108 | the threshold can be exceeded if and only if k is at least 2, it lets anyone pass, and there is a slot beyond it |
| Bulkheads.TwoAtOnceOvershoot | bulkhead.go:79-108 | a smallest such run: capacity 2, threshold one half |
| StateMachines.HandledAllOrNothing | statemachine.go:40-63 | with MaxAttempts at least 1: nil means the last transition tried, from the untouched state before the event, succeeded and is in effect; an error changes nothing; at most MaxAttempts tries |
| StateMachines.ZeroAttemptsErase | statemachine.go:49-60 | with MaxAttempts 0 the answer is nil and the zero values replace state and data |
| StateMachines.StateIsTheFold | statemachine.go:40-63 | after any events, state and data are the fold of exactly the accepted events' successful transitions |
| StateMachines.StateMachine.Handle | statemachine.go:40-63 | runs the event through a freshly configured pipeline and stores all or nothing |
| GrpcTimeout.NeverLongerNeverHalved | propagation.go:40-61 | every positive 64-bit duration encodes to a legal timeout of value v with d/2 < v <= d |
| GrpcTimeout.DecodeFormat | propagation.go:40-61 | the text decodes to the duration rounded down to its unit, in at most seven digits and a unit |
| GrpcTimeout.UnitIsCoarsest | propagation.go:45-60 | the unit is the coarsest one that does not exceed the duration |
| GrpcTimeout.UnitsOfTheGrammar | propagation.go:45-60 | the letters stand for the units of the grammar |
| GrpcTimeout.DecodingIsMonotone | propagation.go:40-61 | more time left is never read as less, across all unit boundaries |
| GrpcTimeout.ForwardingIsStable | propagation.go:40-61 | sending on what was received sends the same text |
| GrpcTimeout.HeaderIsReadable | propagation.go:24-33 | the header is written exactly when the text is a legal timeout: the guard is needed and enough |
| GrpcTimeout.PlainHeaderIsMilliseconds | propagation.go:32-33 | under any other key it is the whole milliseconds left, in decimal |
| GrpcTimeout.DecimalRoundTrip | propagation.go:45-60 | decimal text reads back as the number it was made from |

## Left out

- Telemetry adapters, `Instrumenter` hooks and health channels: output only.
- Floating-point rounding: floats are exact rationals, so `d.Hours()` rounding up near a whole number of hours (beyond
  hundreds of thousands of hours) and the rounding of rates and refills are not modelled.
- Overflow of counters (`uint64`, `int32`), of duration sums and of `MaxAttempts`: unbounded integers instead.
- One clock serves both elapsed time and bucket numbers; a wall clock set back while the monotonic one goes on is not
  modelled. Clock readings never decrease.
- Real timers, goroutine scheduling and context internals: steps chosen freely, and a flag for a done context.
- Chaos injection and the other wrapping layers appear in pipelines as gates: each either refuses with an error it can
  give, which is recorded, or calls on once. Their decisions are free, except for an Open breaker (OpenBreakerStopsCalls);
  that the limiters and bulkheads decide as proved in their own files is not composed into pipelines.
- Panics: an action that panics leaves its breaker probe unreported; actions are assumed to return.
- The typed fallback of `Do` and `DoState` at the top level (a type assertion), and telling fallback types apart inside
  the fallback layer: only the error fallback is modelled.
- Changing `MaxAttempts` of a configuration after its first call: options are applied before.
- `RetryState.Name`, `TotalDuration` and `NextDelay`; the distribution of the jitter; the bypass of sleeps for tests,
  which is one of the sleep's possible answers.
- The context passed to the action: only its own answer shows whether it heeded a cancellation.
- Pipelines of a hedged attempt: an attempt is its outcome, and its value is captured when that outcome is a success.
- BreakerObject.Breaker.CurrentState: nobody acts between the read and the second look; with others between them it is
  PeekState, which changes nothing, and later ConfirmState, the query step of the protocol.
- TimeWindowHistory.GoodGapsAreClean: one direction; the exact condition is that of CleanRunIsExact.
- RateLimiting.TokensAreTheTightestWindow: not for a zero interval, where the room of a window is not a number;
  ZeroIntervalLimitsEachInstant says what happens then.
- RateLimiting.AdmitsExactlyWhenEveryWindowHasRoom: a positive interval; for the others the exact rules are
  NegativeIntervalAdmitsLimitInAll and ZeroIntervalLimitsEachInstant.
- RateLimiting.IntervalBound: a positive interval and a limit of at least zero; the other cases are those two and
  SmallLimitNeverAdmits.
- TimeWindowHistory.CleanRunIsExact: runs that start before the epoch, where every instant counts as the epoch.
- BreakerProtocol.ClosedIsHealthyNow: what a later reading finds depends on what it empties; one direction.
- RetryBudget.GlobalRetryBudget: needs non-negative capacity, cost and refill, and starts from a full bucket as the
  constructor makes it.
- AdaptiveLimiting.SteadySlownessClosesTheLimit: needs a baseline of at least 20ns, as truncation can eat the increase
  below that.
- AdaptiveLimiting.AdaptiveLimiter.Execute: a call no other overlaps; overlapping calls are the steps of
  RunningWithinPeak.
- Bulkheads.SoftLimitPlusCrowd: needs a positive capacity; with zero the check never refuses and nothing ever enters.
- GrpcTimeout.HeaderIsReadable: the header map itself is not modelled.
