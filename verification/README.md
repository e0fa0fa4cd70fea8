# Guarantees of the AI IDE gateway, proved

This project models the five stateful parts of the gateway, and the similarity score of its replay
service, and proves what they guarantee over whole runs.

- **Circuit breaker** (`SlidingWindow.dfy`, `Breaker.dfy`, `BreakerRuns.dfy`). A closed, open and
  half-open machine per key, fed by a ring of one-second buckets. The ring is proved to be a fast form
  of a timed log of events, and the machine's quiet period, probe budget and exits hold in every run.
- **Token bucket limiter** (`Limiter.dfy`, `MultiLimiter.dfy`, `LimiterRuns.dfy`). A bucket that refills
  lazily and may expire is compared with one that does neither, and bounds on what it grants are carried
  through three buckets per request and any interleaving of requests.
- **Quota ledger** (`Quota.dfy`, `QuotaRuns.dfy`, `QuotaFailures.dfy`). Three atomic scripts over three levels
  of counters, and reservation records that expire. Calls interleave between their Redis commands. Where a
  promise fails there is the exact condition, and a run that reaches the failure.
- **Selection and failover** (`Router.dfy`, `Failover.dfy`, `FailoverPlan.dfy`,
  `FailoverKeys.dfy`, `Traffic.dfy`). Weighted and round-robin
  choice of keys, the four-level retry procedure against any breaker and any executor, and many such
  calls at once sharing one breaker.
- **Streaming proxy** (`Sse.dfy`, `SseEdits.dfy`, `SseMeaning.dfy`, `SseKept.dfy`, `SseFailures.dfy`,
  `Metering.dfy`, `Proxy.dfy`, `Connections.dfy`, `ProxySystem.dfy`). The line rewriter against section 9.2.6 of the WHATWG HTML Living Standard ("Interpreting an event
  stream"), the token meter, and the protocol of reader, pipe, copier, caller and sweeper as interleaved
  steps of any number of streams.
- **Similarity** (`Similarity.dfy`). The Jaccard score over rune trigrams is one minus a pseudometric.

`dafny verify dfyconfig.toml` checks everything.

## How the model is built

State that the source updates in place is updated in place here: `Breaker.Window` and
`Breaker.CircuitBreaker`, `MultiLimiter.RateLimiter`, `Quota.QuotaManager`, `Router.RouteManager`,
`Failover.FailoverExecutor`, `Metering.Reader` and `Connections.ConnectionManager` are classes whose methods
have the source's loops and branches. Each method is proved to do what a function on values says, and the
theorems about runs are about those functions. Lua scripts are single steps, as Redis runs them.

The stream theorems speak of *edits* (`SseEdits.Edits`): the lines that a client finds in the upstream and in the
output, side by side. An edit is a line of both, a blank line of the upstream that is lost, a blank line that the
proxy adds, or the end marker, where the output stops. `SseEdits.UpstreamSplits` and `SseEdits.OutputSplits` prove
that the two sides are the standard's lines of the bytes.

What the model takes as given:

- Clock readings are arguments. Where a theorem needs them in order it says so (`Clocked`, `Timed`, `Ordered`,
  `Until`). Seconds are whole, as in the source; times within a component are nanoseconds (breaker) or
  milliseconds (limiter, reservations, connections). None is negative where the theorem is about the breaker.
- Random draws, the breaker's answers inside one failover call, the executor, the JSON decoder and what other
  requests do to the shared round-robin cursors are arbitrary.
- The error threshold is an exact fraction, rates are compared by cross-multiplication, bucket levels are
  reals, and counters are unbounded integers.
- Reservation identifiers are fresh. Routing rules do not change during a failover call.

## Where the code differs from its design document

The proofs follow the code. `.kiro/specs/ai-ide-gateway/design.md` promises more in these places.

- Property 9 (the error rate is that of the window): the rate is over the *visible* events, which
  `SlidingWindow.RingRefinesLog` describes exactly. They are the events of the last n seconds by index, the
  current one included, and at times those of one second more. So an event of the last n seconds of time can
  be lost (`SlidingWindow.TenBucketsForget`, with the shipped ten buckets); `SlidingWindow.CountsWindowIff` says
  exactly when the rate is that of the window. With one bucket even an event of the current second can be lost
  (`SlidingWindow.CoversIffTwoBuckets`).
- Property 12 (a successful probe closes the breaker): it does if and only if failures are then below the
  threshold among the visible events (`BreakerRuns.HalfOpenExit`); with the shipped settings a late failure is
  enough to prevent it (`BreakerRuns.SuccessfulProbeMayNotClose`). A failure never opens a half-open breaker
  again, and the request that turns it half-open is not counted as a probe, so one more than the configured
  number are admitted (`BreakerRuns.ProbeBudget`). With the probes spent, the key can be used again if and only
  if some call that was let in has not failed yet (`Traffic.AdmitsAgainIff`).
- Property 13 (dimensions do not affect each other): a request that the app or the model bucket refuses has
  already been charged to the buckets before it. A refused request leaves all levels alone if and only if the
  user's bucket is the short one (`MultiLimiter.RefusedLeavesLevelsIff`).
- Property 7 (all backup keys are tried): the backup loop starts at index 1, so the key at index 0 can be left
  out. `FailoverKeys.TriesAllIff` says exactly for which rules it cannot. Fallbacks of level 3 are used by both of
  the last two levels.
- Property 22 (no overdraft): deductions do not look at reservations, and settlements are not checked at all.
  `QuotaRuns.OverdraftIsBounded` gives the bound, which use itself reaches (`QuotaFailures.BoundIsReached`), and
  `QuotaFailures.StaysWithinIff` says which runs keep a node within its total.
- Property 21 (settling balances the reservation): a settlement does not look at the record's status. Reserved
  tokens are those of the unsettled reservations if and only if nothing is settled again
  (`QuotaRuns.ReservedIsOpenIff`, `QuotaFailures.SettledTwiceGoesNegative`). A reservation whose record is gone is
  never released, and any other can be (`QuotaFailures.SettlesUnlessStranded`).
- The proxy ends every `data: ` line with a blank line of its own, and its scanner takes a carriage return off
  the end of a line. `SseMeaning.ProxyKeepsMeaningIff` says exactly which streams of bytes keep their meaning; no
  event of several data lines does (`SseFailures.TwoDataLinesAreTorn`), and a second carriage return at the end
  of a line can change the type of a message (`SseFailures.BareReturnIsKeptIff`). A line that the upstream did not finish before it broke off is forwarded
  as if it had (`Proxy.BrokenLineIsForwarded`); `Proxy.PrefixIffCleanCut` says exactly when that harms.
- Property 15 (a disconnected client's upstream is closed): it is, and everything comes to an end
  (`ProxySystem.CancelledStepsAreBounded`, `ProxySystem.CancelledComesToRest`), unless another call takes its
  session while it is registered: `ProxySystem.EveryStreamIsSafe` has that as the exact condition, and
  `ProxySystem.SharedSessionLeavesBodyOpen` a run.
- An hour after its last grant a bucket expires and comes back full. This is invisible exactly when an hour
  refills the bucket (`Limiter.LazyIsEagerIffHourRefills`, `Limiter.IntervalBoundIffHourRefills`).

## Model

| member | source | states |
|---|---|---|
| SlidingWindow.RecordKeeps | internal/breaker/circuit.go:150-168 | a record, whether it restarts its bucket or goes on counting, keeps every bucket truthful about the log: it counts exactly the events of its slot since its stamp, and with two or more buckets those are all of one second |
| SlidingWindow.RingRefinesLog | internal/breaker/circuit.go:150-190 | for any number of buckets and any timed log, the totals that the rate uses are the numbers of successes and of failures among the visible events of the log, no more and no less |
| SlidingWindow.NothingOldIsCounted | internal/breaker/circuit.go:171-190 | for any number of buckets, no event older than the window is counted |
| SlidingWindow.CountedIffVisible | internal/breaker/circuit.go:171-190 | the totals count exactly the counted events, and each single event of the log is counted if and only if it is visible |
| SlidingWindow.CoversIffTwoBuckets | internal/breaker/circuit.go:37-51 | in whole seconds, by index: each event of the current second and the n-1 seconds before it is itself counted in every run, if and only if the ring has at least two buckets |
| SlidingWindow.OneBucketForgets | internal/breaker/circuit.go:157-161 | a run on one bucket whose failure of the current second is not counted |
| SlidingWindow.CountsWindowIff | internal/breaker/circuit.go:150-190 | in time: the successes and the failures that the rate uses are those of the last n seconds, if and only if the window begins in a second none of whose events it holds, or all of them while the current second has none; for one bucket likewise by its last start |
| SlidingWindow.TenBucketsForget | internal/breaker/circuit.go:157-178 | a run on ten buckets in which a failure 9.7 seconds old is not counted, because its bucket has the stamp of an older one |
| Breaker.TotalBuckets | internal/breaker/circuit.go:37-42 | as many buckets as whole seconds fit in the window size, and one for a shorter window |
| Breaker.Window.Record | internal/breaker/circuit.go:150-168 | the array update is the ring update that the log theorems are about, in one bucket and nowhere else |
| Breaker.Window.CalculateErrorRate | internal/breaker/circuit.go:171-190 | the loop's rate is failures over all requests of the buckets inside the window, and zero when there are none |
| Breaker.Window.Ask | internal/breaker/circuit.go:61-82 | the answer and the whole new state under the lock: an open window turns half-open only after the timeout, a half-open one counts its probes |
| Breaker.Window.OnSuccess | internal/breaker/circuit.go:94-108 | the whole new state: the success is recorded before the rate is taken, and closing needs the half-open state and a rate below the threshold |
| Breaker.Window.OnFailure | internal/breaker/circuit.go:116-132 | the whole new state: the failure is recorded before the rate is taken, and opening needs the closed state and a rate above the threshold |
| Breaker.CircuitBreaker.AllowRequest | internal/breaker/circuit.go:54-83 | the table of all keys changes at the asked key only, which gets a closed window if it had none; windows stay of one size and unshared |
| Breaker.CircuitBreaker.RecordSuccess | internal/breaker/circuit.go:86-109 | a key without a window is left without one; otherwise only its window changes |
| Breaker.CircuitBreaker.RecordFailure | internal/breaker/circuit.go:112-133 | a key without a window gets one, and only its window changes |
| Breaker.CircuitBreaker.GetState | internal/breaker/circuit.go:136-147 | the state of the key's window, closed for an unknown key |
| BreakerRuns.KeysAreIndependent | internal/breaker/circuit.go:54-133 | in any run over all keys, a key's state and the answer to its last request are those of the run of its own operations alone |
| BreakerRuns.RingHoldsLog | internal/breaker/circuit.go:86-133 | after any run the key's ring represents the log of the outcomes reported for it |
| BreakerRuns.OpensAboveThreshold | internal/breaker/circuit.go:112-132 | in any run, the last operation, whatever it is, opens the breaker if and only if it is a reported failure, the breaker was closed, and failures are above the threshold among the visible events of the log |
| BreakerRuns.RefusedIff | internal/breaker/circuit.go:61-82 | in any run, a request is refused if and only if the breaker is open and no more than the timeout has passed since the operation that opened it, or it is half-open and its episode has already admitted the configured number of probes besides the request that began it; closed and unseen keys always admit |
| BreakerRuns.TurnsHalfOpenIff | internal/breaker/circuit.go:64-72 | in any run the breaker turns half-open exactly when it is asked, open, more than the timeout after it opened; and an open breaker leaves that state in no other way |
| BreakerRuns.QuietPeriod | internal/breaker/circuit.go:64-72 | after the breaker opens, any later admission, whatever was reported between, is asked for more than the timeout after the opening |
| BreakerRuns.ProbeBudget | internal/breaker/circuit.go:66-79 | a half-open episode has admitted exactly its probe count plus one, and never more than the configured number plus one |
| BreakerRuns.HalfOpenExit | internal/breaker/circuit.go:101-126 | in any run, a half-open breaker leaves that state if and only if the operation is a success after which failures are below the threshold among the visible events of the log; and then it closes |
| BreakerRuns.SuccessfulProbeMayNotClose | internal/breaker/circuit.go:101-108 | with the shipped settings, a run in which a probe is admitted and succeeds and the breaker stays half-open, because a call from before reported its failure meanwhile |
| Limiter.RunSameLevels | internal/breaker/limiter.go:43-65 | if an hour refills the bucket, then after every run, from any later time, the lazy expiring bucket shows the level of the one that is refilled and stored on each call; both decide the last call alike, and levels lie between zero and the capacity |
| Limiter.LazyIsEagerIffHourRefills | internal/breaker/limiter.go:43-65 | lazy and eager bucket agree on every decision of every run, if and only if an hour refills the capacity |
| Limiter.LevelPaysForGrants | internal/breaker/limiter.go:52-61 | grants of an interval plus the level left never exceed the capacity and the refill of the interval |
| Limiter.IntervalBoundIffHourRefills | internal/breaker/limiter.go:43-65 | the grants of every interval of every run are at most capacity plus rate times its length, if and only if an hour refills the capacity |
| Limiter.DrainedTwice | internal/breaker/limiter.go:47-62 | the run behind the other direction: the whole capacity is granted twice, an hour apart |
| MultiLimiter.KeysAreApart | internal/breaker/limiter.go:158-160 | no two dimensions share a Redis key, whatever their identifiers contain |
| MultiLimiter.RateLimiter.AllowRequest | internal/breaker/limiter.go:36-66 | one script run: the decision, and the whole store, which is written only on a grant |
| MultiLimiter.RateLimiter.CheckMultiDimension | internal/breaker/limiter.go:134-155 | by the names of the keys: the user's bucket pays if it has enough, then the app's, then the model's; the request is admitted exactly when all three had enough, else the first short one is refused, and no other bucket changes |
| MultiLimiter.CheckedByName | internal/breaker/limiter.go:134-160 | charging the dimensions ahead of the first short one is that, under the keys ratelimit:user, ratelimit:app and ratelimit:model with the identifiers of the request |
| MultiLimiter.ChargedLevels | internal/breaker/limiter.go:141-152 | at its own check time, the level of each dimension before the short one is lower by the tokens, and each other level is as it was |
| MultiLimiter.RefusedLeavesLevelsIff | internal/breaker/limiter.go:141-152 | a refused request for a positive amount leaves all three levels as they were, if and only if the user's bucket is the short one |
| MultiLimiter.RefusedAndCharged | internal/breaker/limiter.go:141-152 | limits and a request for which the app's bucket refuses and the user's has been charged |
| LimiterRuns.ChargesNest | internal/breaker/limiter.go:134-155 | under any interleaving of checks, users are charged at least what apps are, apps at least what models are, and models exactly what the admitted requests asked for |
| LimiterRuns.BucketIsItsCalls | internal/breaker/limiter.go:43-65 | in any interleaving a bucket's stored state, and each decision on it, are those of the run of its own calls alone |
| LimiterRuns.EachBucketKeepsItsBound | internal/breaker/limiter.go:134-155 | in every interval of every interleaving, a user's, app's or model's bucket grants at most its capacity and the refill of the interval, if an hour refills it |
| Quota.KeysAreApart | internal/quota/manager.go:301-303 | no two nodes of the three levels share a Redis key |
| Quota.IncrPathAt | internal/quota/manager.go:54-56 | every node of the charged path changes by the amounts, and no other node changes |
| Quota.IncrPathTwice | internal/quota/manager.go:113-120 | the six increments of a settlement are one change by both amounts, on the user, app and model node |
| Quota.DeductScriptDeducts | internal/quota/manager.go:24-59 | a refusal names user, app or model exactly when that node lacks unused tokens and those before it do not, and changes nothing; otherwise exactly the user's, the app's and the model's node have the tokens added to their use |
| Quota.ReserveScriptReserves | internal/quota/manager.go:62-100 | the same for tokens neither used nor reserved, which are added to the reservations |
| Quota.SettleScriptSettles | internal/quota/manager.go:103-123 | exactly the user's, the app's and the model's node have the reservation taken off and the actual use added, whatever they hold |
| Quota.QuotaManager.RunDeduct | internal/quota/manager.go:24-59 | all three nodes are charged, or, with the first level lacking unused tokens named, none; reservations are not considered |
| Quota.QuotaManager.RunReserve | internal/quota/manager.go:62-100 | all three nodes are charged, or, with the first level lacking tokens neither used nor reserved named, none |
| Quota.QuotaManager.RunSettle | internal/quota/manager.go:103-123 | the reservation is released and the actual use added on all three nodes, unconditionally |
| Quota.QuotaManager.DeductQuota | internal/quota/manager.go:269-298 | the ledger changes as the script says and the caller learns which level was short |
| Quota.QuotaManager.ReserveQuota | internal/quota/manager.go:169-213 | a success leaves a pending record that names the path and the amount and lives ten minutes; a refusal leaves no record |
| Quota.QuotaManager.SettleQuota | internal/quota/manager.go:216-266 | without a live record nothing changes; else the recorded amount is released and the actual one charged on the three nodes of the record, whatever its status, and the record is kept for another ten minutes as settled |
| QuotaRuns.DoConsistent | internal/quota/manager.go:169-266 | every Redis command of every call keeps all records, stored or in hand, true to the one reservation of their identifier, and every settlement matched to an earlier reservation of the same path and amount |
| QuotaRuns.QuotaIsConserved | internal/quota/manager.go:24-123 | in every run, at every node: the total is unchanged; use is the initial use plus successful deductions and settled amounts; reserved tokens are the initial ones plus those of the unsettled reservations naming the node, expired or not, less what settlements of already settled reservations released |
| QuotaRuns.ReservedIsOpenIff | internal/quota/manager.go:216-236 | for non-negative amounts, the reserved tokens of a node are exactly those of its unsettled reservations, if and only if no reservation of a positive amount naming it is settled again |
| QuotaFailures.SettledTwiceGoesNegative | internal/quota/manager.go:216-236 | a run in which two calls find one reservation pending and both settle it, leaving minus its amount reserved at all three nodes |
| QuotaRuns.OverdraftIsBounded | internal/quota/manager.go:42-56 | from a ledger in budget, without negative amounts, every node keeps used plus reserved within twice its total plus the excess of settlements over reservations; within once the total plus that without deductions; and use within the total without settlements |
| QuotaRuns.KeepsWithinIff | internal/quota/manager.go:42-56 | from a node within its total, a permitted entry keeps it there if and only if it is a reservation, a deduction of no more than is neither used nor reserved, or a settlement that exceeds its reservation by no more than that |
| QuotaFailures.StaysWithinIff | internal/quota/manager.go:24-123 | from a node within its total, a run keeps it there at every point, if and only if no deduction in it takes more than is free at that point, and no settlement goes beyond its reservation by more than that |
| QuotaFailures.FactorTwoIsReached | internal/quota/manager.go:43-51 | a reservation and a deduction of the whole total, both granted, reach twice the total at all three nodes |
| QuotaFailures.BoundIsReached | internal/quota/manager.go:103-123 | for every total and every excess, a run in which use alone is twice the total plus the excess of its one settlement, at all three nodes |
| QuotaFailures.BoundWithoutDeductionsIsReached | internal/quota/manager.go:103-123 | the same without deductions: use reaches the total plus the excess |
| QuotaRuns.LevelsMoveTogether | internal/quota/manager.go:54-56 | in every run the sums of used, and of reserved, tokens over all users, over all apps and over all models change by the same amount |
| QuotaFailures.SettlesUnlessStranded | internal/quota/manager.go:200-221 | wherever records are true, a reservation can be settled by some way to go on from now, if and only if it is not stranded: its record is live, or still to be stored, or some call has it in hand |
| QuotaFailures.StrandedForGood | internal/quota/manager.go:218-221 | once a reservation is stranded, no later step of any run settles it |
| QuotaFailures.AbandonedIsStranded | internal/quota/manager.go:200-206 | a run that ends with a stranded reservation, its tokens reserved at all three nodes: one left alone for ten minutes |
| Router.RouteManager.SelectAPIKey | internal/router/manager.go:95-124 | an active key of the model chosen by its balancer, or an error exactly when there is no rule or no active key; only round robin moves a cursor |
| Router.ActiveKeysAt | internal/router/manager.go:102-108 | the keys that are selected among are the active ones, once each and in their order: each stands behind those before it |
| Router.RouteManager.RoundRobinSelect | internal/router/manager.go:127-136 | the key under the model's cursor, which then moves on by one, wrapping round the present keys; other cursors stay |
| Router.RouteManager.WeightedSelect | internal/router/manager.go:139-160 | the first key whose running weight exceeds the draw below the total weight, and a uniformly drawn one when all weights cancel; the return after the loop is never reached |
| Router.DrawFallsToSelected | internal/router/manager.go:110-124 | weighted selection for a model takes the active key that the draw falls to, and leaves the cursors alone |
| Router.EvenDraws | internal/router/manager.go:110-124 | with random selection, or weights that cancel, each active key has exactly one of as many draws as there are active keys; the default takes the first |
| Router.WeightsAreExactIff | internal/router/manager.go:139-160 | out of a positive total, each key is selected by exactly as many draws as its weight, so never at weight zero, if and only if no weight is negative |
| Router.SelectionsWalk | internal/router/manager.go:95-136 | in any run of selections under any rules, whatever is selected for other models between, the keys selected for a round-robin model walk round its active keys from where the cursor stood, even a cursor left by a larger set of keys |
| Router.RoundRobinIsFair | internal/router/manager.go:95-136 | after k selections for a model with n active keys, each key has been taken k/n times rounded down or one more, and exactly k/n times when n divides k |
| Router.EachOnceARound | internal/router/manager.go:95-136 | any n selections in a row for a model with n active keys take, as a multiset, exactly the active keys |
| Failover.FailoverExecutor.TryBackupKeys | internal/router/failover.go:101-128 | the loop over the keys from index 1 on does to the outside what the recursive description of the level says, and stops at the first success |
| Failover.FailoverExecutor.TryFallbacks | internal/router/failover.go:131-201 | the loop over the fallback chain, for both levels that use it: entries of lower levels, models without an active key, refusals and failures pass on to the next entry |
| Failover.FailoverExecutor.ExecuteWithFailover | internal/router/failover.go:40-73 | the four levels in order, each only if the one before failed, and no level without a rule |
| Failover.FailoverTrace | internal/router/failover.go:40-201 | for every breaker, executor, draw and interference: the trace is refusals and admit-execute-record triples on one key with one outcome, the result is success exactly when the last event records a success, no success occurs before that, and executions are at most the keys plus the fallbacks of level two and more plus those of level three |
| FailoverPlan.FailoverFollowsPlan | internal/router/failover.go:40-201 | for every breaker, executor, draw and interference: the keys tried are, in order and level after level, those of a plan read off the rules - an active key of the model, each active key at index 1 or more, an active key for each entry of level two or more, and again for each of level three; a failed call has tried the whole plan, a successful one stops with the try that succeeded |
| FailoverPlan.FailedTriesAre | internal/router/failover.go:40-201 | the exact number of refusals and failed executions of a failed call |
| Failover.FailoverTriesAll | internal/router/failover.go:76-166 | when the call fails, each active key at index 1 or more was refused or failed, under the default balancer every active key was, and so was one that its balancer can choose of the model and of every fallback model that has an active key |
| FailoverKeys.TriesAllIff | internal/router/failover.go:76-201 | every failed call has tried every active key of its model, whatever the breaker, the executor, the draws and other requests do, if and only if the key at index 0 is not active, or another active key has its string, or the balancer of the model or of a fallback model in use can only choose that string |
| FailoverKeys.OnlyChoosesFirstIff | internal/router/manager.go:110-160 | among active keys with different strings, a balancer can only choose the first one, if and only if it is the default one, or there is no other key, or it is the weighted one and the first key has all of a positive total weight |
| Failover.RoundRobinSkipsFirst | internal/router/failover.go:107-108 | with two keys and the cursor on the second, that one is tried twice and the first never |
| Failover.FailoverKeepsToPattern | internal/router/failover.go:76-98 | at no point of a failover call is an outcome reported that was not admitted and executed on that key |
| Traffic.SpentAndFailedIsForever | internal/breaker/circuit.go:73-79 | with many failover calls at once: once a half-open key's probes are spent and none of the calls then in flight on it succeeds, no later step of any run is an admission on that key |
| Traffic.AdmitsAgainIff | internal/router/failover.go:83-97 | for a positive threshold, some way for all calls to go on lets a request in on a spent key, if and only if some call that was let in on it has not failed yet |
| Traffic.SuccessLetsTrafficIn | internal/breaker/circuit.go:101-108 | one in-flight success that brings the rate below the threshold does let the next request in |
| Traffic.PhaseIsOwn | internal/router/failover.go:76-98 | where a call stands in the pattern depends on its own events alone, whatever the other calls do |
| Metering.Reader.Count | internal/proxy/stream.go:133-149 | what a decoded chunk does to the counts: a usage report with prompt tokens replaces both, any other chunk adds its contents' estimates |
| Metering.Reader.ForwardLine | internal/proxy/stream.go:104-157 | for every scanned line: the bytes written, the counts, and that the loop ends at the end marker only |
| Metering.Reader.Forward | internal/proxy/stream.go:96-160 | the loop writes the rewritten lines and meters them up to and including the first end marker, and nothing after it |
| Metering.ContentIsWorth | internal/proxy/stream.go:138-149 | without a usage report one content of n runes counts a quarter of n rounded down, but one if n is between one and three, and nothing if it is empty |
| Metering.EstimateIsAQuarter | internal/proxy/stream.go:138-149 | without a usage report the completion count E of R runes in N contents, S of them short, satisfies 4 E <= R + 3 S and R <= 4 E + 3 N |
| Metering.EstimateIsWithinSeven | internal/proxy/stream.go:138-149 | without a usage report the completion count E of R content runes satisfies E <= R <= 7 E however they are cut into chunks, and no prompt tokens are counted |
| Metering.LastUsageCounts | internal/proxy/stream.go:134-137 | otherwise the counts are those of the last usage report plus the estimates of the chunks after it |
| SseMeaning.NoFewerMessages | internal/proxy/stream.go:104-157 | for every upstream, the client is told no fewer events than the upstream tells through its first end marker, but for at most one for each blank line that is lost |
| SseMeaning.LostAreReturns | internal/proxy/stream.go:93-108 | a blank line is lost exactly for each scanned line, through the first end marker, that still ends in a carriage return |
| SseEdits.UpstreamSplits | internal/proxy/stream.go:93-96 | for every upstream, carriage returns of any kind included: the lines of the edits on the upstream side are the standard's lines of its bytes through the event of the first end marker, but for an unterminated last one |
| SseKept.NoBareReturns | internal/proxy/stream.go:93-96 | without a bare carriage return no scanned line has one left |
| SseEdits.OutputSplits | internal/proxy/stream.go:104-157 | for every upstream: a client that splits the written bytes finds the lines of the edits on its side, with a blank line after each data line |
| SseMeaning.ProxyKeepsMeaningIff | internal/proxy/stream.go:96-157 | for every stream of bytes, by the standard's interpretation: the client is told the events of the upstream through its first end marker, if and only if the edits agree: each blank line of one side only finds nothing to dispatch, or its message waits unchanged for the other side's blank line |
| SseKept.BlankAfterDataIsKept | internal/proxy/stream.go:96-157 | so it is for every stream whose data lines are each followed by a blank line and whose other lines do not still end in a carriage return when scanned, bare returns elsewhere included; and for the whole upstream if it has no end marker |
| SseMeaning.KeptIsPrefix | internal/proxy/stream.go:96-157 | where the meaning is kept, the client is told a prefix of the events of the whole upstream |
| SseFailures.TwoDataLinesAreTorn | internal/proxy/stream.go:153-154 | no stream of bytes keeps its meaning when the proxy adds a blank line between two data fields of one upstream event, or ends its output inside such an event, wherever that is and whatever else the stream has |
| SseFailures.TwoLinesAreTorn | internal/proxy/stream.go:153-154 | byte for byte, for every event of two data lines |
| SseFailures.BareReturnIsKeptIff | internal/proxy/stream.go:93-108 | an event whose type line ends in two carriage returns and whose data line is followed by a blank line is told alike if and only if the type is empty or the default one |
| Proxy.DoIsGood | internal/proxy/stream.go:87-212 | every step of reader, pipe, copier, caller and environment keeps the protocol's invariant |
| Proxy.PrefixIffCleanCut | internal/proxy/stream.go:96-160 | the output for a body cut short is a prefix of the output for the whole body, if and only if the cut falls between lines, behind the end marker, or where its line is already whole |
| Proxy.CleanCutHasAll | internal/proxy/stream.go:113-116 | a clean cut after which the end marker has been seen loses neither output nor counts |
| Proxy.ClientHasPrefix | internal/proxy/stream.go:169-191 | at every moment the client holds a prefix of the output for what the upstream delivered, and of the output for the whole upstream unless the body broke uncleanly |
| Proxy.NoErrorMeansAll | internal/proxy/stream.go:193-212 | a return without error means that the client has the whole output and that the token counts are the final ones: for what the upstream delivered, and for the whole upstream unless the body broke uncleanly |
| Proxy.CountsCoverDelivered | internal/proxy/stream.go:193-212 | whatever a call returns with, its counts are those of the lines up to some point and the client holds nothing beyond that point; on success and after cancellation that is where the reader stopped |
| Proxy.ErrorHasCause | internal/proxy/stream.go:195-212 | an error is returned only if the call was cancelled, the body broke, or a write to the client failed, and it is the one that says so |
| Proxy.StreamGetsOn | internal/proxy/stream.go:87-212 | every step of any stream, cancelled or not, other than a cancellation brings down what is left to do |
| Proxy.IdleIsOver | internal/proxy/stream.go:87-212 | a stream of which nobody can make a step is over, or waits for an upstream that neither delivers a line nor stops |
| Proxy.CancelledGetsOn | internal/proxy/stream.go:96-206 | once cancelled, every step of reader, pipe, copier, caller or body, whoever makes it, lowers a rank: none of them can go on for ever |
| Proxy.CancelledIdleIsOver | internal/proxy/stream.go:193-212 | a cancelled stream of which nobody can make a step has returned to its caller, and its copier and reader are done; or the reader is the only one left, waiting for a body that neither delivers a line nor stops |
| Proxy.BrokenLineIsForwarded | internal/proxy/stream.go:96-160 | a body that breaks inside a line makes the client hold bytes that are no prefix of the output for the unbroken body |
| Connections.ConnectionManager.Register | internal/proxy/connection.go:39-45 | the session's entry becomes the given connection, replacing any other without closing it; a fresh open connection keeps the table valid |
| Connections.ConnectionManager.Close | internal/proxy/connection.go:48-66 | exactly the session's entry goes, its body is closed once more, and no other registered body is |
| Connections.ConnectionManager.UpdateActivity | internal/proxy/connection.go:116-123 | the session's time, and only that, becomes the given one; an unknown session changes nothing |
| Connections.ConnectionManager.CleanupStaleConnections | internal/proxy/connection.go:84-104 | in whatever order the sessions are visited, exactly the entries idle for more than five minutes go, and exactly their bodies are closed, once each |
| Connections.ConnectionManager.GetConnectionCount | internal/proxy/connection.go:126-131 | the number of registered sessions |
| ProxySystem.DoIsGood | internal/proxy/connection.go:48-104 | every step of every stream, of the table and of the sweeper keeps all streams' invariants and: a body is open while its stream is registered and has been closed once after |
| ProxySystem.EveryStreamIsSafe | internal/proxy/stream.go:64-213 | in every run of any number of streams, sharing of sessions included: each client holds a prefix of its output; a return without error has delivered everything with the final counts, unless a body broke uncleanly both are about the whole upstream; every return, with an error or without, has metered all that its client holds, and an error only for its cause; no body is closed twice; and a returned call's body has been closed if and only if no other call took its session while it was registered |
| ProxySystem.ExclusiveIsClosedOnce | internal/proxy/stream.go:64-77 | in every run in which no two calls at work share a session, every returned call's body has been closed, exactly once |
| ProxySystem.StepsAreBounded | internal/proxy/stream.go:87-212 | in any run, among the steps of any others, every stream makes at most as many steps as its upstream and its state say |
| ProxySystem.ComesToRest | internal/proxy/stream.go:87-212 | when a stream can make no more steps all of it is over, or it waits for its upstream; and a returned call has its body closed once |
| ProxySystem.CancelledStepsAreBounded | internal/proxy/stream.go:193-212 | in any run, among the steps of any other streams and of the sweeper, a cancelled stream makes at most as many steps as its rank says |
| ProxySystem.CancelledComesToRest | internal/proxy/stream.go:196-206 | when a cancelled stream can make no more steps its body has been closed, exactly once, and all of it is over, but for a reader that waits for the closed body to stop |
| ProxySystem.CanBeClosedIff | internal/proxy/connection.go:48-104 | some way to go on, sharing of sessions allowed, has the manager close a stream's body, if and only if the stream is the one registered under its session |
| ProxySystem.SweepsInactiveOnly | internal/proxy/connection.go:84-123 | after any run the sweeper closes a body exactly when its stream is registered and its session has been inactive for more than five minutes: no call has begun on it and no data line has been forwarded |
| ProxySystem.SharedSessionLeavesBodyOpen | internal/proxy/connection.go:43 | a run of two calls on one session in which the one that gives up first closes the other's body and returns with its own open, which nothing can close any more |
| Similarity.Trigrams | internal/replay/service.go:302-312 | the loop yields the set of all runs of three consecutive runes, empty for shorter strings |
| Similarity.TrigramsAreAll | internal/replay/service.go:302-312 | a string is one of the trigrams if and only if it is three consecutive runes at some index, the last ones included |
| Similarity.ContentSimilarity | internal/replay/service.go:279-300 | the score is the Jaccard index of the two trigram sets, one for two empty strings, zero for one |
| Similarity.ScoreIsShare | internal/replay/service.go:279-300 | two empty strings score one and one of them zero; else the score is the number of common trigrams over the number of all, and one if there are none |
| Similarity.JaccardTriangle | internal/replay/service.go:287-299 | one minus the Jaccard index satisfies the triangle inequality on all finite sets |
| Similarity.OneIffSameProfile | internal/replay/service.go:279-300 | a score of one means the same trigrams, or both strings empty |
| Similarity.Pseudometric | internal/replay/service.go:279-312 | for all strings, one minus the score lies in [0,1], is symmetric, is zero on equal strings and only on those of one profile, and satisfies the triangle inequality |

## Left out

- Redis, Kafka and Postgres clients, publish and subscribe, and rule loading: input and output. A Redis error is not a step of the model.
- GetQuota and SetQuota: they keep JSON strings under the keys that the scripts read as hashes, so totals are a fixed input here.
- Reset and GetTokens of the limiter: they delete or read one bucket.
- HTTP handlers, authentication, headers, metrics, logging, configuration and the protocol adapters: their properties are easy. That a caller settles once (`internal/handler/chat.go:282`) is a hypothesis where it matters.
- JSON decoding: a data line is an opaque optional chunk with contents and usage.
- Floating-point rounding, the number formats of Redis and Lua, and 64-bit overflow of counters: arithmetic is exact and unbounded.
- Saturation of Go durations: a bucket that was never stamped counts as older than every window, and its counts are zero.
- Wall clock against monotonic clock, and clock skew between gateways: each theorem about time has one clock that does not go back.
- Negative total weights: the random number function of the source does not accept them, so weighted selection asks for a total that is not negative.
- String bytes that are not UTF-8: a string of the similarity score is its sequence of runes, and every window of runes is a valid string.
- Lines longer than the scanner's buffer: they end the stream with an error, as a body that breaks there does.
- The Closed flag in `ProxySystem`: the class `Connections.Connection` has it; in the system of all streams a registered connection is always open, which the class's `Valid` proves.
- GetConnection, the ticker of the sweeper, and progress of the environment: what ends after cancellation is proved, but not that an upstream or a client ever answers.
- What a client sees when a failed stream is followed by another attempt on the same response: each stream's output is counted from its own start. The design's Property 16 (an error event for the client) has no code.
- The health probe, replay networking and the other comparison metrics.
