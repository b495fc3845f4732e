# NVIDIA SmartRoute: a verified model of its control logic

SmartRoute is an OpenAI-compatible gateway in front of NVIDIA NIM. This project models the parts of
it that decide things and proves what they promise. Where requests or workers share state and can be
suspended (a round of workers, the key pool, the breaker, a research session), the results are about
every interleaving of their steps; what is not covered is listed at the end.

- **PARKOUR plans** (`Ordering`, `Graphs`, `Planning`): the validation of a plan and its layered
  topological traversal, proved against dependency chains and levels.
- **PARKOUR runs** (`Evaluation`, `Gathering`, `Ledgers`, `Progress`, `Scheduling`, `Engine`): the
  round-based scheduler with its semaphore, skipping, context budgets and limits, proved to compute
  a recursive evaluation of the graph whatever order the workers finish in.
- **Verify and refine** (`Refinement`): the bounded loop, its accounts and the candidate it returns.
- **Rolling windows** (`SlidingWindow`, `KeyPools`, `RateLimits`): the outbound key pool and the
  inbound limiter, with their wait hints.
- **Upstream requests** (`NimClient`, `Circuits`, `Completion`): key rotation, retries and backoff,
  the circuit breaker, and the model fallback chain.
- **Caching, research and ranking** (`Caching`, `Research`, `ResearchRuns`, `Ranking`).

A class of the program is a class here, with its fields and methods; each method is proved equal to a
function of the old state, and the lemmas about whole runs are stated over those functions. Workers,
providers, upstream replies, clocks and scores are arbitrary function parameters. Times, costs and
scores are real numbers. `dafny verify dfyconfig.toml` checks the project.

Where the program differs from its own comments, the model follows the program:

- `CircuitBreaker.allow` announces a single half-open probe but lets every call through once the
  cooldown has passed (`nvidia_smartroute/circuit.py:41-43`): `Circuits.ProbesUnlimited`,
  `Circuits.SecondProbeAdmitted`.
- `KeyPool.acquire` announces when the soonest key frees up, but prunes with a strict comparison, so a
  saturated key is still full at that very instant (`nvidia_smartroute/keypool.py:51`):
  `KeyPools.AtTheHint` says exactly when the hint is enough, `KeyPools.HintTooShort` gives a case in
  which it is not.
- `rate_limit` fails with an IndexError when the configured limit is not positive
  (`nvidia_smartroute/gateway/server.py:390-391`): `RateLimits.CrashIff`.
- A refinement accepted with a margin of zero can return an earlier candidate of the same score
  (`nvidia_smartroute/parkour/refinement.py:195-199`): `Refinement.AcceptedIsBest`,
  `Refinement.TieKeepsEarlier`.
- A research session says parallel workers cannot stampede the provider, but the cache is written only
  after the provider answered (`nvidia_smartroute/parkour/research.py:286-288`):
  `ResearchRuns.DeduplicatedIff` says exactly when a search is answered from the cache,
  `ResearchRuns.Stampede` lets any number of identical searches call the provider.
- Its limits on searches are checked before a progress callback that may suspend, and counted after it
  (`nvidia_smartroute/parkour/research.py:277-283`), so they can be passed: `ResearchRuns.RunLimitReached`
  and `ResearchRuns.NodeLimitReached` pass them, `ResearchRuns.RunLimitPassed` and
  `ResearchRuns.NodeLimitPassed` bound by how much, and `ResearchRuns.LimitsHoldIff` says when they hold.

## Model

| member | source | states |
|---|---|---|
| `Ordering.SortDistinct` | nvidia_smartroute/parkour/planning.py:218 | sorting distinct ids gives the strictly increasing listing of the same ids |
| `Graphs.DoneIffChainsShort` | nvidia_smartroute/parkour/planning.py:199-218 | k levels of the traversal cover a node exactly when no dependency chain ending in it has more than k nodes |
| `Graphs.AcyclicIffExhausted` | nvidia_smartroute/parkour/planning.py:220-221 | the traversal covers the whole graph exactly when the graph has no cycle |
| `Graphs.ExhaustedIffChainsWithin` | nvidia_smartroute/parkour/planning.py:200-205 | k levels suffice exactly when every dependency chain has at most k nodes |
| `Graphs.LevelIsLongestChain` | nvidia_smartroute/parkour/planning.py:195-200 | a node's level is the number of nodes on the longest chain ending in it |
| `Graphs.LevelRecurrence` | nvidia_smartroute/parkour/planning.py:195-200 | a node's level is one more than the largest level of its dependencies |
| `Planning.FirstInvalid` | nvidia_smartroute/parkour/planning.py:159-161 | reports an id outside the id grammar exactly when there is one |
| `Planning.CheckTask` | nvidia_smartroute/parkour/planning.py:165-179 | a task passes exactly when its dependencies are distinct, known and not itself and its prompts fit |
| `Planning.TaskErrors` | nvidia_smartroute/parkour/planning.py:165-179 | which error a failing task gives: a repeated dependency, else a dependency on itself, else the first unknown one, else the length of its prompts |
| `Planning.CheckTasks` | nvidia_smartroute/parkour/planning.py:164-179 | all tasks pass, or the error is that of the first task that fails |
| `Planning.ValidateNodes` | nvidia_smartroute/parkour/planning.py:154-180 | accepts exactly the plans with unique valid ids, sound dependencies and fitting prompts, and returns their ids in order; duplicate ids are reported before anything else |
| `Planning.NodeErrors` | nvidia_smartroute/parkour/planning.py:154-180 | which error a plan gives: duplicate ids, else the first id outside the grammar, else that of the first failing task |
| `Planning.ListingOrderIrrelevant` | nvidia_smartroute/parkour/planning.py:154-193 | permuting the tasks of a plan changes neither its validity nor its graph |
| `Planning.AddEdges` | nvidia_smartroute/parkour/planning.py:191-193 | one task is appended to the children of exactly its dependencies |
| `Planning.BuildChildren` | nvidia_smartroute/parkour/planning.py:189-193 | the children lists hold exactly the reversed dependencies, without repetition |
| `Planning.Roots` | nvidia_smartroute/parkour/planning.py:195 | the ids with no dependency left, each once |
| `Planning.Process` | nvidia_smartroute/parkour/planning.py:212-217 | after one node its dependents are counted down, and exactly those with nothing left join the ready list |
| `Planning.ProcessLevel` | nvidia_smartroute/parkour/planning.py:210-218 | a whole level is appended to the order and the sorted ready list holds exactly the nodes it freed |
| `Planning.NextLevel` | nvidia_smartroute/parkour/planning.py:210-218 | the ready list goes from one level of the graph to the next |
| `Planning.TopologicalAnalysis` | nvidia_smartroute/parkour/planning.py:183-222 | accepts a graph if and only if it is acyclic, its longest chain is within max_depth and every level within max_width; on acceptance reports order, depth and width exactly, on refusal the violated limit |
| `Planning.RefusalUnique` | nvidia_smartroute/parkour/planning.py:202-221 | a refused graph has exactly one error: the first limit violated, or else the cycle |
| `Planning.AnalyzePlan` | nvidia_smartroute/parkour/planning.py:143-151 | accepts exactly the plans within the node limit whose nodes validate and whose graph is within limits; a refusal names the node limit, else the first invalid node, else the limit the graph violates or its cycle |
| `Planning.AnalysisUnique` | nvidia_smartroute/parkour/planning.py:200-222 | order, depth and width are determined by the graph, so no listing order of tasks or dependencies can show |
| `Planning.DependenciesComeFirst` | nvidia_smartroute/parkour/planning.py:210-222 | in the reported order every dependency stands before its dependents |
| `Evaluation.ContextBudget` | nvidia_smartroute/parkour/scheduler.py:232-246 | the retained contexts put together are the first max_context_chars characters of the succeeded dependencies' outputs, and something is flagged truncated exactly when they do not all fit, in which case the budget is used up exactly |
| `Evaluation.ContextNodes` | nvidia_smartroute/parkour/scheduler.py:237-244 | a dependency has a context exactly when it succeeded |
| `Evaluation.ContextList` | nvidia_smartroute/parkour/scheduler.py:232-246 | one context for each succeeded dependency, in their order, cut from the first that does not fit |
| `Evaluation.NodeOutcome` | nvidia_smartroute/parkour/scheduler.py:192-217 | a worker's limit error, or a recursive model choice, is the only way to no result; a node that ran is never marked skipped |
| `Evaluation.EvalStable` | nvidia_smartroute/parkour/scheduler.py:127-163 | the value of a node in the recursive evaluation does not depend on the number of rounds allowed |
| `Evaluation.Settled` | nvidia_smartroute/parkour/scheduler.py:136-163 | the final results satisfy the node equation at every node: each is computed from its dependencies' results |
| `Evaluation.NodeReports` | nvidia_smartroute/parkour/scheduler.py:171-226 | every final result: skipped with nothing spent exactly when a required dependency did not succeed; otherwise failed exactly when its worker failed on its contexts, with that error and nothing spent, and succeeded exactly when it completed, with the first max_output_chars characters of its output and its model, tokens and cost |
| `Evaluation.AbortIff` | nvidia_smartroute/parkour/scheduler.py:192-217 | a node stops the run exactly when nothing it requires is missing and its worker raises the limit error or answers with the recursive model |
| `Evaluation.SkippedIffReached` | nvidia_smartroute/parkour/scheduler.py:136-152 | a node is skipped exactly when a failed node reaches it along a dependency path whose nodes before it are all non-optional |
| `Evaluation.PartialIffFailure` | nvidia_smartroute/parkour/scheduler.py:78-80 | some result is not a success exactly when some node failed |
| `Gathering.EveryScheduleSound` | nvidia_smartroute/parkour/scheduler.py:156-191 | at every point of every interleaving at most max_concurrency workers are active, the counters are exact, and whatever has returned is the node's own outcome |
| `Gathering.PeakIsMost` | nvidia_smartroute/parkour/scheduler.py:180-191 | the recorded peak is the largest number of workers active at any point of the interleaving |
| `Gathering.Confluence` | nvidia_smartroute/parkour/scheduler.py:156-158 | two complete interleavings of a round return the same results |
| `Gathering.NeverStuck` | nvidia_smartroute/parkour/scheduler.py:180-191 | an unfinished round can always take a step |
| `Gathering.NobodyWaits` | nvidia_smartroute/parkour/scheduler.py:180 | in a round no wider than the semaphore no worker ever waits for a permit |
| `Ledgers.ReadyIsLayer` | nvidia_smartroute/parkour/scheduler.py:128-131 | the tasks a round finds ready are the next level of the traversal, in plan order |
| `Progress.TotalsDetermined` | nvidia_smartroute/parkour/scheduler.py:159-163 | tokens, cost and skip count depend on the results alone, not on their order |
| `Progress.RoundAdvances` | nvidia_smartroute/parkour/scheduler.py:127-163 | one round turns the evaluation of r levels into that of r + 1 and keeps the accounts and the order of the results |
| `Progress.CompleteIsPermitted` | nvidia_smartroute/parkour/scheduler.py:157-169 | a run that ends normally met no limit error, and its tokens and cost were within limits after every level |
| `Progress.StuckMeansCycle` | nvidia_smartroute/parkour/scheduler.py:132-133 | a round without ready tasks while tasks are pending means the graph has a cycle |
| `Scheduling.SkipBlocked` | nvidia_smartroute/parkour/scheduler.py:136-154 | records exactly the blocked ready tasks as skipped, takes them off pending and returns the others in order |
| `Scheduling.Record` | nvidia_smartroute/parkour/scheduler.py:159-163 | a batch is added to the results, taken off pending and added to the totals |
| `Scheduling.DagScheduler.Contexts` | nvidia_smartroute/parkour/scheduler.py:232-246 | the loop computes the context list of the specification |
| `Scheduling.DagScheduler.RunNode` | nvidia_smartroute/parkour/scheduler.py:171-226 | a node's outcome is that of the worker on its contexts |
| `Scheduling.DagScheduler.Gather` | nvidia_smartroute/parkour/scheduler.py:156-191 | under any interleaving the batch holds every node's own outcome in submission order, or some node raised the limit error; the peak is the largest number active so far, within max_concurrency and the width of the round |
| `Scheduling.DagScheduler.RunRound` | nvidia_smartroute/parkour/scheduler.py:136-163 | one round of the loop advances the run by one level or stops for a worker's limit error |
| `Scheduling.DagScheduler.ExecuteRounds` | nvidia_smartroute/parkour/scheduler.py:116-169 | the loop ends with the evaluation of the whole graph, or with an exception that names what stopped it first |
| `Scheduling.DagScheduler.Execute` | nvidia_smartroute/parkour/scheduler.py:103-169 | on a validated plan a run succeeds if and only if the graph fits the call limit, no worker raises the limit error and the budgets hold after every level; `became unschedulable` and the in-loop call limit never fire |
| `Scheduling.ErrorUnique` | nvidia_smartroute/parkour/scheduler.py:127-167 | a run that fails can fail with one exception only, decided by the first round that goes wrong and by the order of its checks |
| `Scheduling.RunDetermined` | nvidia_smartroute/parkour/scheduler.py:116-169 | two successful runs of the same tasks, in any interleaving and listing order, have the same results, rounds, calls and totals |
| `Scheduling.RoundsAreDepth` | nvidia_smartroute/parkour/scheduler.py:127-163 | a complete run takes as many rounds as the plan's depth |
| `Scheduling.NoWorkerWaits` | nvidia_smartroute/parkour/planning.py:83-91 | since width and concurrency come from one setting, no worker of a validated plan waits at the semaphore |
| `Scheduling.SettingsBound` | nvidia_smartroute/parkour/planning.py:83-91 | a plan that validates under the settings and is run under them has no more nodes, rounds, active workers or characters in prompts, contexts and outputs than they allow, and spends no more tokens or cost |
| `Scheduling.RunOutcome` | nvidia_smartroute/parkour/scheduler.py:136-169 | calls and skipped nodes add up to the tasks; skipping is reachability from a failure; the run is partial exactly when some node failed |
| `Scheduling.PartialEntries` | nvidia_smartroute/parkour/scheduler.py:78-80 | `partial` over the listed values agrees with the results by id |
| `Engine.Conclude` | nvidia_smartroute/parkour/engine.py:76-95 | a run without a node that succeeded with output is an error, and nothing else is but an exception of a synthesizer that was asked |
| `Engine.AnswerIs` | nvidia_smartroute/parkour/engine.py:76-123 | an answer is the synthesizer's result on exactly the useful results, in order, when synthesis was asked for, else the first of them at no further cost; its tokens and cost are those of the nodes, the synthesis and the conductor together; it is partial exactly when some node did not succeed |
| `Engine.DirectAnswer` | nvidia_smartroute/parkour/engine.py:120-123 | without synthesis the answer is the output of the useful node of least level, earliest in the plan |
| `Engine.AnswerUnique` | nvidia_smartroute/parkour/engine.py:120-123 | that node is unique |
| `Engine.Execute` | nvidia_smartroute/parkour/engine.py:68-95 | the outcome is the conclusion of a complete run exactly when the limits permit one, and otherwise the exception that stopped it |
| `Engine.ExecuteConductorOutput` | nvidia_smartroute/parkour/engine.py:97-112 | the conductor's plan is run exactly when it validates, else the fallback plan, whether an answer or an error comes of it; an answer says which |
| `Refinement.LoopState.Consider` | nvidia_smartroute/parkour/refinement.py:195-199 | only a strictly better score replaces the best candidate |
| `Refinement.LoopState.VerifyStep` | nvidia_smartroute/parkour/refinement.py:213-240 | a verification is accounted and considered, or leaves the accounts alone |
| `Refinement.LoopState.ReviseStep` | nvidia_smartroute/parkour/refinement.py:243-271 | a revision counts as an iteration, and is accounted and made current if it succeeds |
| `Refinement.RunRefinement` | nvidia_smartroute/parkour/refinement.py:275-329 | the loop terminates with the outcome of the first pass that halts |
| `Refinement.EndUnique` | nvidia_smartroute/parkour/refinement.py:291-312 | that pass is unique, so the result is determined by the verifier, the reviser and the clock |
| `Refinement.EndsIff` | nvidia_smartroute/parkour/refinement.py:291-312 | the run ends at the first pass that does not go on: in time, verified, risen by the margin, within the caps, not accepted, with revisions left and a revised text |
| `Refinement.StopReasons` | nvidia_smartroute/parkour/refinement.py:149-167 | each stop reason holds exactly when the time, scores, verdicts, spending and limits say so, in the order of the checks; in particular a run is accepted exactly when its last candidate was verified in time, rose by the margin or was the first, left spending within both caps, and was accepted at or above the threshold |
| `Refinement.ResultCounts` | nvidia_smartroute/parkour/refinement.py:202-240 | the result counts exactly the verifications and revisions made, with their tokens and cost, and one more iteration for a revision that failed |
| `Refinement.CandidateChain` | nvidia_smartroute/parkour/refinement.py:243-271 | the first candidate is the initial text; each later one is the reviser's answer to the one before and the first feedback_chars characters of its feedback |
| `Refinement.CallBounds` | nvidia_smartroute/parkour/refinement.py:202-210 | verifier calls are within their limit and within min(max_iterations, max_revision_calls) + 1; revisions are as many as verifications, or one fewer |
| `Refinement.MarginBound` | nvidia_smartroute/parkour/refinement.py:157-158 | for scores in [0,1], (verifier_calls - 2) times min_improvement is at most 1 |
| `Refinement.SpendingBound` | nvidia_smartroute/parkour/refinement.py:159-160 | added tokens and cost exceed their caps by at most the last revision and the last verification |
| `Refinement.ReturnsBest` | nvidia_smartroute/parkour/refinement.py:195-199 | the output is the earliest candidate of maximal score, or the initial text if nothing was scored |
| `Refinement.ScoresRise` | nvidia_smartroute/parkour/refinement.py:157-158 | each score is at least the one before plus the margin, except the last of a run that stopped for want of improvement, which is not |
| `Refinement.AcceptedIsBest` | nvidia_smartroute/parkour/refinement.py:161-162 | an accepted run's best score is the accepted one and meets the threshold; the output is the accepted candidate exactly when it beat its predecessor, always so for a positive margin |
| `Refinement.TieKeepsEarlier` | nvidia_smartroute/parkour/refinement.py:195-199 | a run with margin zero that accepts one candidate and returns an earlier one |
| `SlidingWindow.PruneHead` | nvidia_smartroute/keypool.py:48-52 | the loop drops the leading entries older than the cutoff |
| `SlidingWindow.PruneDrops` | nvidia_smartroute/keypool.py:48-52 | what is dropped is a prefix of too old entries, and the rest starts with one that is not |
| `SlidingWindow.WindowSafe` | nvidia_smartroute/keypool.py:48-52 | if any limit + 1 consecutive admissions span more than the window, no closed interval of that length holds more than the limit |
| `SlidingWindow.FullUntil` | nvidia_smartroute/keypool.py:51-52 | a full queue has room at an instant exactly when its oldest entry is more than a window old |
| `KeyPools.KeyPool.AcquireKey` | nvidia_smartroute/keypool.py:55-88 | the selection loop computes the specified grant and pool |
| `KeyPools.KeyPool.RecordCooldown` | nvidia_smartroute/keypool.py:91-97 | a cooldown is only ever extended, and an unknown key is ignored |
| `KeyPools.BestIsFirstAndFullest` | nvidia_smartroute/keypool.py:78-81 | the granted key has the most budget left, the first such in the list, and there is none exactly when every key is cooling or saturated |
| `KeyPools.KeyWindowSafe` | nvidia_smartroute/keypool.py:48-88 | over every run, each closed interval of the window's length holds at most per_key_limit grants of a key |
| `KeyPools.PoolWindowSafe` | nvidia_smartroute/keypool.py:55-88 | and at most keys times limit grants of the pool |
| `KeyPools.CooldownRespected` | nvidia_smartroute/keypool.py:72-75 | no key is granted before the end of a cooldown recorded earlier in the run |
| `KeyPools.CooldownIs` | nvidia_smartroute/keypool.py:91-97 | a key's cooldown after a run is the latest end recorded for that very key, or the one before the run |
| `KeyPools.RefusalBlocks` | nvidia_smartroute/keypool.py:63-88 | a refusal means every key is cooling or saturated, and its wait reaches exactly to the first instant one of them is due |
| `KeyPools.NoGrantBeforeHint` | nvidia_smartroute/keypool.py:63-88 | whatever is tried before now + wait, no acquire succeeds |
| `KeyPools.AtTheHint` | nvidia_smartroute/keypool.py:82-88 | at now + wait an acquire succeeds exactly when a cooldown ends at that instant on a key with room |
| `KeyPools.HintTooShort` | nvidia_smartroute/keypool.py:51 | a run after which a saturated key is still full at now + wait |
| `KeyPools.RoomAfterHint` | nvidia_smartroute/keypool.py:82-88 | when the hint comes from a saturated key, every later instant is enough |
| `RateLimits.RateLimiter.Check` | nvidia_smartroute/gateway/server.py:383-403 | one request is decided and its client's window updated as specified |
| `RateLimits.ClientWindowSafe` | nvidia_smartroute/gateway/server.py:386-403 | by its own requests a client is admitted at most rate_limit_requests times in any closed interval of the window's length |
| `RateLimits.ClientsApart` | nvidia_smartroute/gateway/server.py:386-403 | in a run of all clients, each client's window and admissions are those of its own requests alone |
| `RateLimits.ServerWindowSafe` | nvidia_smartroute/gateway/server.py:386-403 | in a run of all clients, each is admitted at most rate_limit_requests times in any closed interval of the window's length |
| `RateLimits.RetryAfterExact` | nvidia_smartroute/gateway/server.py:390-391 | with nothing else admitted, a denied client is denied up to the instant its oldest request is one window old and admitted ever after; Retry-After reaches past that instant, by at most a second |
| `RateLimits.AdmittedIff` | nvidia_smartroute/gateway/server.py:386-403 | over every run, a request is admitted exactly when fewer than the limit were admitted in the window that ends with it |
| `RateLimits.CrashIff` | nvidia_smartroute/gateway/server.py:390-391 | reading the head of the empty window fails exactly when the configured limit is not positive |
| `Caching.ResponseCache.Fetch` | nvidia_smartroute/cache.py:37-53 | a look-up returns and refreshes a live entry, drops an expired one, and counts a hit or a miss |
| `Caching.ResponseCache.Put` | nvidia_smartroute/cache.py:55-62 | an entry is stored as most recent and the least recent ones beyond the cap are evicted |
| `Caching.PlaySound` | nvidia_smartroute/cache.py:37-62 | on any trace the cache holds at most max_entries entries, with distinct keys |
| `Caching.BoundedIsSubmap` | nvidia_smartroute/cache.py:37-62 | on any trace the bounded cache is a submap of the unbounded TTL map |
| `Caching.HitsAgree` | nvidia_smartroute/cache.py:37-53 | so every hit is the answer the unbounded map gives |
| `Caching.GetMeans` | nvidia_smartroute/cache.py:37-53 | a look-up answers with the live entry of the key exactly when there is one, which becomes the most recent; otherwise only an expired entry of the key is gone |
| `Caching.SetMeans` | nvidia_smartroute/cache.py:55-62 | storing puts the entry last after all others in their order and drops the oldest beyond the cap |
| `Caching.CapacityInclusion` | nvidia_smartroute/cache.py:37-62 | on any trace the cache of capacity n is that of capacity n + 1 but for at most one key |
| `Caching.Survives` | nvidia_smartroute/cache.py:51-62 | an entry survives every trace that sets or hits fewer than max_entries other keys since its last use |
| `Caching.UsedIsLast` | nvidia_smartroute/cache.py:51-62 | an entry that is set or hit is then the most recent one |
| `Caching.ServedWhileLive` | nvidia_smartroute/cache.py:37-62 | an entry set or hit is served until it expires while fewer than max_entries other keys were set or hit since, and it is what the unbounded map answers |
| `Circuits.CircuitBreaker.IsAllowed` | nvidia_smartroute/circuit.py:29-44 | the decision and the half-open mark are as specified |
| `Circuits.CircuitBreaker.RecordSuccess` | nvidia_smartroute/circuit.py:47-51 | a success closes the circuit of its model alone |
| `Circuits.CircuitBreaker.RecordFailure` | nvidia_smartroute/circuit.py:54-64 | a failure is counted, and opens or re-opens the circuit, of its model alone |
| `Circuits.CircuitBreaker.CurrentState` | nvidia_smartroute/circuit.py:66-75 | the reported state is the specified one |
| `Circuits.AlwaysCoherent` | nvidia_smartroute/circuit.py:29-64 | over every trace: failures have reached the threshold exactly when the opening is on record, and a half-open model has tripped and sat out its cooldown |
| `Circuits.HalfOpenIffProbed` | nvidia_smartroute/circuit.py:29-64 | over every trace a model is half-open exactly when a call was let through after its cooldown and no outcome of it was recorded since |
| `Circuits.OpeningIs` | nvidia_smartroute/circuit.py:54-64 | over every trace an opening is on record exactly when the failures since the last success have reached the threshold, and it is the time of the failure that reached it or, later, of a failed probe |
| `Circuits.OpenIffDenied` | nvidia_smartroute/circuit.py:66-75 | over every trace the state is open exactly when a call would be denied |
| `Circuits.StateIs` | nvidia_smartroute/circuit.py:66-75 | over every trace: closed exactly below the threshold of failures since the last success, half-open exactly when tripped and probed or past its cooldown |
| `Circuits.ReopeningsApart` | nvidia_smartroute/circuit.py:54-64 | until a success, the opening instant stays or moves on by at least reset_seconds |
| `Circuits.ProbesUnlimited` | nvidia_smartroute/circuit.py:41-43 | once a call to a tripped model is let through, every later call is, until an outcome is recorded |
| `Circuits.ProbesEndIff` | nvidia_smartroute/circuit.py:41-64 | after that, and while no success is recorded, a call is denied exactly when a failure was recorded and the cooldown, which runs from one of those failures, is not over |
| `Circuits.DeniedIff` | nvidia_smartroute/circuit.py:29-64 | over every trace a model is denied exactly when its failures since its last success have reached the threshold and its cooldown is not over |
| `Circuits.SecondProbeAdmitted` | nvidia_smartroute/circuit.py:41-43 | a run after which a half-open model lets two calls in a row through |
| `Completion.CompleteWithFallback` | nvidia_smartroute/gateway/completion.py:40-107 | candidates are built, filtered by the breaker and tried in order; the chain ends as specified, with the breaker changed by it and by the other requests that use it during the upstream calls |
| `Completion.FilterHealthy` | nvidia_smartroute/gateway/completion.py:65-68 | asks the breaker about each candidate in turn |
| `Completion.RunChain` | nvidia_smartroute/gateway/completion.py:70-107 | the first model not to fail hard decides the answer; all before it failed with 404, 5xx or transport errors and were recorded, between whatever other requests recorded |
| `Completion.CandidatesNonempty` | nvidia_smartroute/gateway/completion.py:54-60 | the candidates start with the primary, are distinct and at most 1 + max_model_fallbacks |
| `Completion.CandidatesExact` | nvidia_smartroute/gateway/completion.py:53-60 | with fallback enabled the candidates are the primary and every other ranked model once, in rank order, cut at 1 + max_model_fallbacks; a ranked model is missing only from a full list |
| `Completion.ChainIsBounded` | nvidia_smartroute/gateway/completion.py:54-68 | so are the models tried, and all are candidates; never none |
| `Completion.HealthyIffAllowed` | nvidia_smartroute/gateway/completion.py:65-68 | a candidate is kept exactly when the breaker would allow it on its own |
| `Completion.ChosenExact` | nvidia_smartroute/gateway/completion.py:62-68 | a candidate is tried exactly when the breaker lets it through, or lets none through, or is off |
| `Completion.HealthyInOrder` | nvidia_smartroute/gateway/completion.py:65-68 | the models kept stay in the order of the candidates |
| `Completion.FailureTriedAll` | nvidia_smartroute/gateway/completion.py:70-107 | a request that ends in a hard failure has tried every candidate the breaker let through, and each of them failed hard |
| `Completion.ChainRecords` | nvidia_smartroute/gateway/completion.py:87-95 | whatever other requests record meanwhile, the chain records exactly one failure for each model before the last, one for the last if it failed hard, and no other |
| `Completion.ServedIsReset` | nvidia_smartroute/gateway/completion.py:87-88 | the model that served ends with no failures and no opening on record, whatever others recorded about it |
| `Completion.ChainCounts` | nvidia_smartroute/gateway/completion.py:87-95 | for a model other requests leave alone: tried before the last, its count goes up by one or to the threshold; served, to zero; after any other 4xx, or not tried, it stays |
| `Completion.ChainEndUnique` | nvidia_smartroute/gateway/completion.py:70-107 | where the chain ends, its answer and the breaker it leaves are determined |
| `NimClient.NIMClient.AcquireKey` | nvidia_smartroute/gateway/nim_client.py:34-49 | the wait loop for a key, each wait capped, as specified, with other requests using the pool during every wait |
| `NimClient.NIMClient.PostWithRetries` | nvidia_smartroute/gateway/nim_client.py:52-103 | the retry loop as specified: what is retried, what sleeps, which key is cooled for how long |
| `NimClient.RequestBound` | nvidia_smartroute/gateway/nim_client.py:34-103 | at most R + 1 posts, and at most base * (2^R - 1) + 5 * R * (R + 1) seconds asleep plus R times the largest Retry-After; the request always ends with an answer or a reported error |
| `NimClient.RequestMeans` | nvidia_smartroute/gateway/nim_client.py:52-103 | every request: each post before the last answered 429 or 5xx; the answer is the last reply's body exactly when its status is below 400, its status exactly for another 4xx or after R + 1 posts, a broken connection, or that no key was left; one backoff sleep of exactly its length for each 5xx with attempts left, none after a 429 |
| `NimClient.SeizeMeans` | nvidia_smartroute/gateway/nim_client.py:34-49 | every try for a key that is refused is followed by one wait as long as its hint, at most five seconds, until a key is granted; the keys are exhausted exactly after R + 1 refusals in a row |
| `NimClient.RequestTold` | nvidia_smartroute/gateway/nim_client.py:34-103 | every post uses a key the pool granted since the reply before, every 429 records the rest of its key, every wait follows a refusal and lasts as long as it says |
| `NimClient.RestExact` | nvidia_smartroute/gateway/nim_client.py:75-82 | a rejected key rests for the Retry-After seconds, else for the exponential backoff, and for the pool's window when that is zero |
| `NimClient.RejectedKeyRests` | nvidia_smartroute/gateway/nim_client.py:79-82 | whatever other requests do to the pool, a key that answered 429 is not posted with again before its rest is over; the pool's history includes every event of the request |
| `Research.CheckIffRoom` | nvidia_smartroute/parkour/research.py:350-362 | a search passes the checks exactly when its query is valid and not cached, time is left, and the session with it counted is still within the run and node limits |
| `Research.ResearchSession.Begin` | nvidia_smartroute/parkour/research.py:270-277 | up to its first suspension a search is refused, answered from the cache or passes, and changes nothing else |
| `Research.ResearchSession.Proceed` | nvidia_smartroute/parkour/research.py:282-288 | then it is counted and paid for, and goes to the provider exactly when the cost limit is kept |
| `Research.ResearchSession.Complete` | nvidia_smartroute/parkour/research.py:290-303 | then it fails, or its shaped answer is cached and returned |
| `Research.ResearchSession.SearchOnce` | nvidia_smartroute/parkour/research.py:261-310 | a whole search, with other searches taking any steps while the progress callback runs and while the provider is asked |
| `Research.SearchIsRun` | nvidia_smartroute/parkour/research.py:261-310 | a search adds its own steps to the run and no others, so what holds of all runs holds with it |
| `Research.SearchAnswers` | nvidia_smartroute/parkour/research.py:261-310 | each error and the cached answer are given exactly under their conditions, in the order of the checks, whatever other searches do meanwhile |
| `Research.SearchDelivers` | nvidia_smartroute/parkour/research.py:290-303 | otherwise the answer cites the provider's reply within the bytes left by then, is counted, and is cached under its key |
| `Research.ResearchSession.ShapeResults` | nvidia_smartroute/parkour/research.py:364-393 | the shaping loop computes the specified citations, flag and bytes |
| `Research.ShapeKeeps` | nvidia_smartroute/parkour/research.py:364-393 | every citation is an allowed result within the size limits, bytes are counted exactly, and neither the result limit nor the byte budget is exceeded |
| `Research.CitesInOrder` | nvidia_smartroute/parkour/research.py:364-393 | the citations are the first of the allowed results in the provider's order, each masked and clipped to size and to the bytes that remain; as many as there are, unless the results or the bytes are used up |
| `Research.TruncatedExactly` | nvidia_smartroute/parkour/research.py:364-393 | an answer is marked truncated exactly when some result was refused, shortened, left out or did not fit below the byte budget; otherwise it has every result, whole and in order |
| `ResearchRuns.BudgetsHold` | nvidia_smartroute/parkour/research.py:269-303 | in every run, however searches overlap: the node counts add up to the searches, the cost is searches times unit cost, provider calls times unit cost stay within the cost limit, and the bytes retained stay within theirs and are those delivered |
| `ResearchRuns.RunLimitPassed` | nvidia_smartroute/parkour/research.py:277-283 | if at most K searches are ever between their checks and their counting, searches counted and waiting exceed the run limit by at most K - 1 |
| `ResearchRuns.NodeLimitPassed` | nvidia_smartroute/parkour/research.py:277-283 | likewise for the searches of each node and its limit |
| `ResearchRuns.RunLimitReached` | nvidia_smartroute/parkour/research.py:277-283 | for every K a run that passes the run limit by exactly K - 1 |
| `ResearchRuns.NodeLimitReached` | nvidia_smartroute/parkour/research.py:277-283 | for every K a run that passes a node limit by exactly K - 1 |
| `ResearchRuns.LimitsHoldIff` | nvidia_smartroute/parkour/research.py:277-283 | the run and node limits hold in every run with at most K such searches exactly when K is 1 |
| `ResearchRuns.SerialCacheBytes` | nvidia_smartroute/parkour/research.py:269-303 | when searches do not overlap, the limits hold, no lookup is delivered twice, and the bytes retained are those of the cached answers, each counted once |
| `ResearchRuns.DeduplicatedIff` | nvidia_smartroute/parkour/research.py:271-277 | in every run a valid search is answered from the cache exactly when its lookup was delivered before, and otherwise goes on exactly when the limits leave room, whatever is in flight |
| `ResearchRuns.Stampede` | nvidia_smartroute/parkour/research.py:269-290 | a run with n identical searches at the provider at once, for every n the limits on searches and cost allow |
| `Ranking.Supporting` | nvidia_smartroute/routing/router.py:478-481 | the models supporting the task, and no others |
| `Ranking.SuitableIs` | nvidia_smartroute/routing/router.py:476-490 | selection and ranking are over the models that support the task, else the Chat models, else all, in registry order |
| `Ranking.RankingExact` | nvidia_smartroute/routing/router.py:501-513 | the ranking is a descending permutation of the suitable models that keeps the order of equal scores, and the only one |
| `Ranking.BestIsFirst` | nvidia_smartroute/routing/router.py:498 | the selected model is the first of largest score |
| `Ranking.SelectionIs` | nvidia_smartroute/routing/router.py:465-498 | the selected model is one of these, none of them scores higher, and there is none only for an empty registry |
| `Ranking.SelectionHeadsRanking` | nvidia_smartroute/routing/router.py:465-513 | the head of the ranking is the selected model |
| `Ranking.RecommendAll` | nvidia_smartroute/recommend.py:40-76 | for every task: the model routing selects if some model supports the task, with the next two of its ranking and their confidence, else none |
| `Ranking.ConfidenceScale` | nvidia_smartroute/recommend.py:91-97 | confidence lies in [0,1], grows with the margin, is full from five thresholds on, and a margin below the threshold gives at most a fifth |
| `Ranking.ConfidenceIs` | nvidia_smartroute/recommend.py:80-97 | the margin is the difference of the two best scores, low means exactly a margin below the threshold, and the confidence is, to the nearest thousandth, the margin's share of five thresholds, one at most |

## Left out

- Scheduling.DagScheduler.Execute: the wall-clock deadline of `execute` is not modelled; a run is stopped by its plan, its workers and its budgets only.
- Scheduling.DagScheduler.Gather: when a node raises the limit error its siblings go on running in the program; here the run ends, and nothing is claimed about the counters afterwards.
- Completion.RunChain: metrics, cost records and adaptive-routing feedback of a call are not modelled; a call has one outcome.
- Research.ResearchSession.SearchOnce: an exception of the progress callback that reports a finished or failed search is not modelled.
- NimClient.NIMClient.PostWithRetries: the header counts as digits or not at all; what Python's `isdigit` and `float` do with other digit characters is not modelled.
- Ranking.ConfidenceScale: scores and margins are real numbers; floating-point rounding is not modelled here or elsewhere.
- Progress events, telemetry, Prometheus text, logging and snapshots: only counters.
- Decoding of plans and verdicts (JSON, fenced blocks, Pydantic), and the citation, role and task-type fields of a node: a plan starts parsed.
- The gateway worker, ensembles, panels and the model calls behind verification and revision: replaced by arbitrary functions.
- Locks and threads: every method of a pool, cache or breaker runs undivided under its lock.
- `guard_url`, secret masking and query stripping: arbitrary functions of the research model.
- The routing score itself, capability inference and task classification: the score is an arbitrary function.
- `ConcurrencyGate`, `BudgetTracker`, `SessionAffinity` and the bandit: small, or resting on library internals.
- HTTP, streaming, the command line, dashboards and authentication: input and output.
- `clear` and `reset` of the cache, the pool and the breaker: they would add only easy members.
