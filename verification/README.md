# Agent runtime: verified models of its stateful core

This project models the pieces of the agent runtime that carry algorithmic state and proves what
they keep over whole runs. The language model, the tool executor, the middlewares, the operator,
the LLM backends, the servers and the clock are parameters: functions or inputs that may answer
anything, so every theorem holds for every behaviour of theirs. Time is `int` (nanoseconds) in the
scheduler and the backend pool and `real` (seconds) in the rate limiter; vectors and scores are
`real`. `dafny verify dfyconfig.toml` checks everything.

| files | part of the runtime |
|---|---|
| `Orchestrator`, `OrchestratorSafety`, `OrchestratorFidelity`, `OrchestratorLimits`, `OrchestratorStop`, `OrchestratorOrder`, `OrchestratorOutcome`, `OrchestratorVerdicts`, `OrchestratorObedience` | the tool loop: an outer loop and recursive call processing that share one round counter |
| `BackendPool`, `BackendPoolHistory` | fallback over LLM backends behind two layers of circuit breakers |
| `Schedule`, `CronScheduler`, `CronHistory` | next-fire arithmetic and the job scheduler |
| `ToolCache`, `ToolCacheLru` | the session's tool cache |
| `ToolCatalog`, `ToolCatalogNames` | merging offers of several tool providers |
| `StableSort`, `ToolSearch`, `ToolSearchAgreement` | the two searches of the tool registry |
| `Similarity`, `Router` | cosine similarity and the semantic router |
| `Text`, `Fingerprint`, `FingerprintCanonical` | task fingerprints |
| `Evaluation` | replay evaluation of compiled candidates |
| `Pagination` | cursor-paginated discovery |
| `TokenBucket`, `TokenBucketRuns` | the gateway's rate limiter |

How the models are built. An object that the program updates in place is a class with those
fields, and a loop is a loop; each such method is proved against a function of its inputs and of
the old state. Whole runs are folds of these functions: a trace of events for the tool loop, the
history of attempts for the pool, a log of ticks and commands for the scheduler, a sequence of
operations for the cache and of requests for the limiter. In the classes a ghost log records the
run, and `Valid()` says that the fields are the fold of the log; the theorems are about the fold.

In the tool loop everything that the outside world decides is a function of the trace so far. The
trace determines the prompts, so they do not appear. `Step` is a flat state machine with the
measure `Fuel`, which spans the outer loop and the follow-ups; `ProcessToolCalls` and `RunLoop` are
the program with its recursion, and they are proved to end where the machine ends.

## What the proofs found

- The marker `CONTINUE_LOOP` is meant to stay inside the tool loop. It reaches the caller exactly
  when the model, asked by the outer loop, answers with the marker itself and the loop takes it for
  an answer: no repair, no tool name in it, no obligation due (`OrchestratorLimits.SentinelEscapes`;
  `SentinelDoesEscape` gives a run for every limit). As the answer to a follow-up it is swallowed
  and the loop goes on.
- The loop with dynamic tools obeys the emergency stop within one batch and one decision
  (`DynamicStopIsPrompt`). The generic loop looks at the flag in its outer loop only. Once the flag
  is up, whatever still happens belongs to the chain of follow-ups under way and takes at most the
  rounds that are left (`OrchestratorStop.StopEndsWithTheChain`), which can be all of them
  (`GenericStopMayBeLate`). Generic loops with limit `n` all stop within one batch iff `n <= 1`
  (`GenericStopCondition`).
- A name collision search gives up after 999 aliases and falls back to a name that it does not
  check. One merge keeps names distinct iff the offered name or the alias needed is free
  (`MergeOneCondition`, `AliasCollides`); all catalogs of `n` offers have distinct names iff
  `n <= 1001` (`BoundIsSharp`).
- The two registry searches disagree when no model profile is given and some schema is invalid,
  and only then (`AgreementCondition`).
- A cache with context cap 0 behaves like one with cap 1. Inclusion between cache sizes holds on
  runs of inserts (`SmallerCacheIsSuffix`). With lookups it holds all through a run iff every lookup
  hits the smaller cache or misses the larger one (`InclusionCondition`); a three-step run breaks it
  (`InclusionFailsWithLookups`).
- `EverySeconds` casts an unsigned 64-bit number to a signed one: the period is what it says
  exactly up to 9223372036854775 seconds; beyond that it is a day or even negative
  (`PeriodIsFaithful`). Adding a period to the current time fails long before, see below.
- A Wasm candidate can pass its evaluation and still give no dataset to compile
  (`PassWithoutDataset`); the exact conditions are `WasmPassCondition` and
  `DatasetNeedsDeterminism`.
- A successful collection fetches no cursor twice iff requests with the same cursor are told the
  same next cursor (`DistinctCondition`); a server that answers by cursor alone is a special case
  (`NoPageTwice`), and one that changes its mind can have a page collected twice (`PageCanRepeat`).
- The doc comment of the dynamic entry point (aria-intelligence/src/orchestrator.rs:927-928)
  promises that `search_tool_registry` hot-swaps tools. The code only reports what it finds and
  leaves the cache alone; the model follows the code.
- A steering channel without senders aborts a parallel batch, but a serial batch goes on
  (aria-intelligence/src/orchestrator.rs:305-323, 325-343); the model does the same.

## Model

| member | source | states |
|---|---|---|
| Orchestrator.ToolLoopProgress.AdvanceRound | aria-intelligence/src/orchestrator.rs:85-95 | the shared counter grows by one even when the limit is exceeded, and only a round within the limit starts |
| Orchestrator.ToolLoopProgress.ExecuteToolCalls | aria-intelligence/src/orchestrator.rs:278-345 | the loops over a batch (parallel, discarded, serial with a look at the steering channel before each call) refine `Execute` |
| Orchestrator.ToolLoopProgress.ScreenGenericCalls | aria-intelligence/src/orchestrator.rs:602-689 | the screening loop of the generic path refines `ScreenGeneric` |
| Orchestrator.ToolLoopProgress.ScreenDynamicCalls | aria-intelligence/src/orchestrator.rs:1276-1325 | the screening loop of the dynamic path refines `ScreenDynamic` |
| Orchestrator.ToolLoopProgress.AbsorbResults | aria-intelligence/src/orchestrator.rs:708-741 | the loop over results (approval demands, failures turned into text, after-middlewares) refines `Absorb` |
| Orchestrator.ToolLoopProgress.RunBatch | aria-intelligence/src/orchestrator.rs:691-874 | execution, absorption and follow-up decision together make one `StepBatch` |
| Orchestrator.ToolLoopProgress.GenericRound | aria-intelligence/src/orchestrator.rs:590-875 | one round of the generic routine is one step of the machine |
| Orchestrator.ToolLoopProgress.DynamicRound | aria-intelligence/src/orchestrator.rs:1255-1511 | one round of the dynamic routine is one step of the machine |
| Orchestrator.ToolLoopProgress.ProcessToolCalls | aria-intelligence/src/orchestrator.rs:832-874 | the self-calling routine, read as the outer loop reads it, ends where the machine ends; coming back to the outer loop has cost a round |
| Orchestrator.ToolLoopProgress.TakeText | aria-intelligence/src/orchestrator.rs:456-546 | the arm for text answers: repair, corrective rounds, obligation to use a tool, or the answer |
| Orchestrator.ToolLoopProgress.OuterTurn | aria-intelligence/src/orchestrator.rs:386-455 | one turn of the outer loop up to the model's decision is one step of the machine |
| Orchestrator.ToolLoopProgress.RunLoop | aria-intelligence/src/orchestrator.rs:373-588 | the whole program terminates with the state in which the machine stops |
| Orchestrator.RoundBounds | aria-intelligence/src/orchestrator.rs:85-95 | a step that goes on has not overrun the limit and going back to the model costs a round; the marker never ends the processing of calls |
| OrchestratorSafety.ScreenGenericShape | aria-intelligence/src/orchestrator.rs:602-689 | a cleared batch is the whole request: every call unobjectionable, and admitted by the middlewares during this screening unless it is the registry search |
| OrchestratorSafety.ScreenDynamicShape | aria-intelligence/src/orchestrator.rs:1276-1325 | a cleared batch is the request without registry searches, in order, no call human-gated, all admitted during this screening |
| OrchestratorSafety.ExecuteShape | aria-intelligence/src/orchestrator.rs:278-345 | a batch runs a prefix of its calls in order, and all of them when results come back |
| OrchestratorSafety.AbsorbShape | aria-intelligence/src/orchestrator.rs:708-737 | absorbing results runs nothing and asks nobody |
| OrchestratorSafety.RunBudget | aria-intelligence/src/orchestrator.rs:386-588 | every run makes at most `maxToolRounds` batches and at most twice that plus one decisions, whatever the model answers |
| OrchestratorSafety.BudgetHolds | aria-intelligence/src/orchestrator.rs:999-1253 | the budget invariant carries from any state to the end of the run, across outer turns and follow-ups |
| OrchestratorSafety.RoundShape | aria-intelligence/src/orchestrator.rs:590-875 | in one round a prefix of the executable calls runs in order, nothing runs unless the whole batch is unobjectionable, and the follow-up decision comes only after all calls ran |
| OrchestratorSafety.GateIsAllOrNothing | aria-intelligence/src/orchestrator.rs:679-689 | one objectionable call, and no call of the batch reaches the executor |
| OrchestratorSafety.HandedOnIsAsked | aria-intelligence/src/orchestrator.rs:832-869 | whatever is handed on for processing stems from the decision just taken |
| OrchestratorSafety.RunIsSafe | aria-intelligence/src/orchestrator.rs:590-875 | in every run, each call that reaches the executor was requested by the model before and passes the screening; none is human-gated |
| OrchestratorSafety.NothingDestructiveRuns | aria-intelligence/src/orchestrator.rs:606-612 | no run hands `run_shell` or `write_file` to the executor, whatever the model asks for |
| OrchestratorFidelity.RunIsFaithful | aria-intelligence/src/orchestrator.rs:278-453 | every decision, execution and middleware verdict of a run is what the environment answers at that point; no outer query past the stop flag or an abort; a call executed is the next one of the batch just started, which is parallel and uninterrupted, or serial with no command pending; a batch starts only in a round that has only been screened |
| OrchestratorFidelity.StepAskFaithful | aria-intelligence/src/orchestrator.rs:386-455 | the outer loop asks only after it found the stop flag down and no abort pending |
| OrchestratorFidelity.RunIsAdmitted | aria-intelligence/src/orchestrator.rs:219-235 | nothing but a registry search reaches the executor unless the before-middlewares admitted it in the same round |
| OrchestratorOutcome.RunIsAccountedFor | aria-intelligence/src/orchestrator.rs:590-875 | a completed run returns the model's last words, or exactly the joined outputs of a complete last batch of scheduling tools only, or nothing after a pivot or an empty request; an approval names a call the model requested that is human-gated or whose executor demanded approval; a failed run has one of six causes: stop flag, abort or interruption, all rounds used up, the failure of the last decision, an execution failed otherwise than by a tool error, a veto on a requested or executed call, a search of the empty registry |
| OrchestratorOutcome.ResultsHappened | aria-intelligence/src/orchestrator.rs:278-345 | the results of a batch are, call by call and in order, the executions recorded behind its start, all of them; no results means a pivot |
| OrchestratorOutcome.AbsorbOutcome | aria-intelligence/src/orchestrator.rs:708-741 | absorbed results are recorded in order and yield their outputs, failures as text; success stops the absorption only for a demand for approval among them |
| OrchestratorVerdicts.SchemaRefusals | aria-intelligence/src/orchestrator.rs:614-662 | a call fails the schema check iff its tool is unknown, or the first tool of that name has an invalid schema, or the arguments are not JSON or violate the schema |
| OrchestratorVerdicts.ScreenGenericVerdict | aria-intelligence/src/orchestrator.rs:602-689 | the first human-gated or vetoed call decides the generic screening, whichever comes first; without one, an unfit call rejects the request and a fit request is cleared as it stands; the calls before it that pass the schema are admitted |
| OrchestratorVerdicts.ScreenDynamicVerdict | aria-intelligence/src/orchestrator.rs:1276-1325 | the first registry search with an empty registry, human-gated call or veto decides the dynamic screening; without one, the request is cleared without its registry searches |
| OrchestratorVerdicts.ParallelCondition | aria-intelligence/src/orchestrator.rs:278-345 | a batch runs in parallel iff that is allowed, no call is on the list of serial tools, and no known tool among them is marked unsafe |
| OrchestratorVerdicts.ExecuteVerdict | aria-intelligence/src/orchestrator.rs:278-345 | a serial batch runs until the first pending command, which fails it or drops its results; a parallel batch gives all results, or an interruption discards what has started and fails it unless it is a pivot |
| OrchestratorVerdicts.AbsorbIsVerdict | aria-intelligence/src/orchestrator.rs:708-741 | the first result that demands approval, is a hard failure or is vetoed decides the absorption; without one, all outputs are passed on |
| OrchestratorVerdicts.OutputsTell | aria-intelligence/src/orchestrator.rs:708-741 | what is passed on is each tool's text, or its failure in words |
| OrchestratorVerdicts.FinalWords | aria-intelligence/src/orchestrator.rs:1522-1548 | the final words exist iff the batch is not empty and holds scheduling tools only; they are the trimmed outputs in order, one a line, empty ones left out, or a fixed sentence when nothing is left |
| OrchestratorObedience.DecisionsAreObeyed | aria-intelligence/src/orchestrator.rs:386-588 | on the record of any run, every decision leads where it should: an answer that is no call in disguise ends the run with that text, unless the outer loop has to correct it or it is the marker; a request starts a round, and its screening, execution, absorption and follow-up come next; an error is passed on; corrections and empty follow-up requests lead to the next turn of the outer loop |
| OrchestratorObedience.AnswerEndsTheRun | aria-intelligence/src/orchestrator.rs:841-854 | a plain text answer is the last event of its run and what the run returns |
| OrchestratorOrder.RunIsInOrder | aria-intelligence/src/orchestrator.rs:590-875 | all that a run hands to the executor is, in order, a prefix of the executable calls of each decision processed; no decision is served twice and a round with an objectionable call runs nothing |
| OrchestratorLimits.SentinelEscapes | aria-intelligence/src/orchestrator.rs:580-584 | a run completes with `CONTINUE_LOOP` iff it ends right after an outer decision that says just that and that the loop takes for an answer |
| OrchestratorLimits.SentinelDoesEscape | aria-intelligence/src/orchestrator.rs:543-545 | for every limit some run returns `CONTINUE_LOOP` |
| OrchestratorLimits.DynamicStopIsPrompt | aria-intelligence/src/orchestrator.rs:1261-1265 | with dynamic tools, at most one batch and one decision happen after a latched stop flag is up |
| OrchestratorLimits.GenericStopMayBeLate | aria-intelligence/src/orchestrator.rs:387-393 | for every limit there is a generic run whose batches all come after the stop flag is up |
| OrchestratorStop.StopEndsWithTheChain | aria-intelligence/src/orchestrator.rs:386-393 | once a latched stop flag is up the outer loop takes no further decision, and at most the rounds left still run a batch, in either loop |
| OrchestratorStop.GenericStopCondition | aria-intelligence/src/orchestrator.rs:386-393 | generic loops with limit `n` all run at most one batch after a latched flag is up iff `n <= 1` |
| OrchestratorStop.RoundsWithin | aria-intelligence/src/orchestrator.rs:85-95 | no run starts more rounds than the limit |
| OrchestratorLimits.BudgetIsSharp | aria-intelligence/src/orchestrator.rs:386-588 | for every limit some run uses the whole budget and still answers |
| BackendPool.LlmBackendPool.constructor | aria-intelligence/src/runtime.rs:248-271 | an empty history; a threshold of zero becomes one |
| BackendPool.LlmBackendPool.RecordFailureOfProvider | aria-intelligence/src/runtime.rs:342-375 | counts, stores the error, and opens the circuit at the threshold |
| BackendPool.LlmBackendPool.RecordSuccessOf | aria-intelligence/src/runtime.rs:377-399 | success resets the backend's count and clears all three entries of its provider |
| BackendPool.LlmBackendPool.RecordFailureOf | aria-intelligence/src/runtime.rs:553-568 | failure counts for the backend, cools it down at three, and counts for the provider if it trips |
| BackendPool.LlmBackendPool.TryBackend | aria-intelligence/src/runtime.rs:513-570 | a backend held back leaves everything alone; otherwise exactly this attempt is recorded and the maps stay the replay of the history; `HeldBackUnlessFree` says by the history alone which of the two happens |
| BackendPool.LlmBackendPool.QueryWithFallback | aria-intelligence/src/runtime.rs:502-575 | the loop keeps the maps equal to the replay of a legal history and appends the attempts of `Scan` |
| BackendPool.LlmBackendPool.GroupByProvider | aria-intelligence/src/runtime.rs:444-469 | groups the registered backends by provider in fallback order |
| BackendPool.LlmBackendPool.ProviderCircuitStates | aria-intelligence/src/runtime.rs:430-480 | reports exactly the providers of registered backends that have failures or an open circuit |
| BackendPoolHistory.BackendCounters | aria-intelligence/src/runtime.rs:482-499 | a backend's count is its trailing run of failures; its cooldown dates from the last failure at the limit |
| BackendPoolHistory.ProviderCounters | aria-intelligence/src/runtime.rs:342-399 | a provider's count is its tripping failures since its last success; an error is stored iff the count is positive and is the newest one; the cooldown entry exists iff the threshold is reached |
| BackendPoolHistory.CoolingDownHasFailed | aria-intelligence/src/runtime.rs:310-321 | a backend that cools down in a legal run has failed at least three times in a row |
| BackendPoolHistory.HeldBackUnlessFree | aria-intelligence/src/runtime.rs:310-340 | by the history alone, a backend is tried iff it is registered, the cooldown after its last failure at the limit has passed, and its provider has fewer tripping failures than the threshold or the circuit cooldown after the newest one has passed |
| BackendPoolHistory.TrippingErrors | aria-intelligence/src/runtime.rs:401-428 | an overload trips the circuit; a model error does iff its message holds one of the needles in any letter case; no other error does |
| BackendPoolHistory.SiblingsInOrder | aria-intelligence/src/runtime.rs:444-469 | the report names each registered backend of a provider, position by position of the fallback order |
| BackendPoolHistory.BackendSpacing | aria-intelligence/src/runtime.rs:513-556 | after a failure at the limit the next attempt on that backend starts at least the cooldown later |
| BackendPoolHistory.ProviderSpacing | aria-intelligence/src/runtime.rs:526-567 | after a tripping failure at the threshold no sibling is queried within the circuit cooldown |
| BackendPoolHistory.BackendRate | aria-intelligence/src/runtime.rs:513-571 | `n` failing attempts at the limit take at least `n - 1` cooldowns |
| BackendPoolHistory.ProviderRate | aria-intelligence/src/runtime.rs:513-571 | `n` tripping failures at the threshold take at least `n - 1` circuit cooldowns, over all siblings |
| BackendPoolHistory.QueryTriesInOrder | aria-intelligence/src/runtime.rs:513-571 | a query goes through the backends in fallback order, tries each one that is free by the history up to that moment and no other, and stops early at a success only |
| BackendPoolHistory.QueryAnswer | aria-intelligence/src/runtime.rs:535-575 | the answer is the reply of the last backend tried, all before it failed; with none tried, the fixed error |
| BackendPoolHistory.ReportTellsHistory | aria-intelligence/src/runtime.rs:430-480 | the health report lists a provider iff it has tripping failures since its last success, with their number, the newest error, and whether its cooldown still runs |
| Schedule.PeriodIsFaithful | aria-intelligence/src/scheduler.rs:191-193 | among 64-bit numbers the period is the number of seconds iff it fits a duration, and when it is negative |
| Schedule.NextDailyFire | aria-intelligence/src/scheduler.rs:241-262 | the imperative rule computes `NextDaily` |
| Schedule.DailyIsEarliest | aria-intelligence/src/scheduler.rs:241-262 | the result is the earliest instant strictly after `now` at that local time, at most a day away |
| Schedule.DailyStep | aria-intelligence/src/scheduler.rs:241-262 | fed with its own result the rule moves on by exactly 24 hours |
| Schedule.AdvanceWeeks | aria-intelligence/src/scheduler.rs:289-299 | the search loop terminates for every interval and lands on the first week in step |
| Schedule.NextWeeklyFire | aria-intelligence/src/scheduler.rs:264-309 | the imperative rule with its loop computes `NextWeekly` |
| Schedule.InStepIsFirst | aria-intelligence/src/scheduler.rs:287-300 | the day found keeps the weekday, is in step with the interval, and no earlier such day from the start on is |
| Schedule.WeeklyIsEarliest | aria-intelligence/src/scheduler.rs:264-309 | the result is the earliest instant strictly after `now` with the weekday, the time, and a week index from Monday 1970-01-05 divisible by the interval |
| Schedule.WeeklyStep | aria-intelligence/src/scheduler.rs:264-309 | fed with its own result the rule moves on by exactly the interval |
| Schedule.ComputeNextFire | aria-intelligence/src/scheduler.rs:189-213 | the dispatch over kinds of schedules computes `NextFire` |
| Schedule.CalendarSchedulesAdvance | aria-intelligence/src/scheduler.rs:189-213 | daily and weekly schedules always answer with a later time |
| Schedule.DailyWallClock | aria-intelligence/src/scheduler.rs:241-262 | the daily rule fires when the local clock shows the hour and the minute of the schedule and zero seconds; a time that no clock shows means midnight |
| Schedule.WeeklyWallClock | aria-intelligence/src/scheduler.rs:264-309 | the weekly rule does, on a day that counting the weekdays from Thursday 1970-01-01 gives the weekday of the schedule |
| Schedule.CalendarIsRight | aria-intelligence/src/scheduler.rs:276-300 | weekday numbers agree with counting days from Thursday 1970-01-01, and the week index starts at Monday 1970-01-05 and moves on with every Monday |
| Schedule.CronFires | aria-intelligence/src/scheduler.rs:194-199 | a cron expression gives its next time, or 365 days from now when it has none |
| CronScheduler.CronScheduler.AddJob | aria-intelligence/src/hardware.rs:61-84 | the job is scheduled, its next fire forgotten, and all other jobs untouched |
| CronScheduler.CronScheduler.RemoveJob | aria-intelligence/src/hardware.rs:218-222 | job and next fire disappear, all other jobs untouched |
| CronScheduler.CronScheduler.UpdateJobStatus | aria-intelligence/src/hardware.rs:148-177 | status, error and audit log of that job change, nothing else; an unknown id changes nothing |
| CronScheduler.CronScheduler.DueEvent | aria-intelligence/src/hardware.rs:90-143 | one job of a tick becomes `TickSlot` of itself, an event goes out iff the job is due, and no other slot changes |
| CronScheduler.CronScheduler.DueEventsNow | aria-intelligence/src/hardware.rs:86-146 | a tick emits one event for each job that is due, and no other, in whatever order the table is walked |
| CronScheduler.FiresWhenDue | aria-intelligence/src/hardware.rs:91-136 | a tick fires a job iff it exists, is neither in flight nor waiting for approval, is `Scheduled` if it is a one-shot, and its booked time (or the time computed now, when nothing is booked) has come |
| CronHistory.DispatchCondition | aria-intelligence/src/hardware.rs:86-146 | a tick adds a dispatch to the history of a job iff the job is due, and it is for the booked time |
| CronHistory.ServedInTime | aria-intelligence/src/hardware.rs:86-146 | a booked job that is free to run and left alone is dispatched at the first tick at or after its time |
| CronHistory.ServedOnceReleased | aria-intelligence/src/hardware.rs:91-143 | so is a booked job that a command sets free later |
| CronHistory.RecurringIsServed | aria-intelligence/src/hardware.rs:86-177 | a recurring job that was dispatched and then set to `Completed`, `Failed` or `Scheduled` is dispatched again at the first tick at or after the fire time that follows its last dispatch |
| CronHistory.EverySecondsIsServed | aria-intelligence/src/hardware.rs:86-177 | an every-`s`-seconds job is dispatched again at the first tick at least `s` seconds after the last one |
| CronHistory.OnceIsServed | aria-intelligence/src/hardware.rs:61-146 | a one-shot that is added is dispatched at the first tick at or after its time |
| CronHistory.JobTellsHistory | aria-intelligence/src/hardware.rs:61-177 | status, last run and last error of a job are what the commands and dispatches since it was added left |
| CronHistory.AuditTellsHistory | aria-intelligence/src/hardware.rs:61-177 | the audit log of a job holds one entry for its being added (unless it brings a log), one for each status set and one for each dispatch, in order, with their times and details |
| CronHistory.AuditGrows | aria-intelligence/src/hardware.rs:137-177 | nothing is struck from the audit log of a job short of removing or re-adding it |
| CronHistory.EverySecondsSpacing | aria-intelligence/src/hardware.rs:86-146 | dispatches of an every-`s`-seconds job are `s` seconds apart through any ticks, updates, removals and re-additions |
| CronHistory.EverySecondsRate | aria-intelligence/src/hardware.rs:86-146 | `n` dispatches take at least `(n - 1) * s` seconds |
| CronHistory.NoSlotTwice | aria-intelligence/src/hardware.rs:105-142 | the fire times served by a job whose schedule moves on strictly increase |
| CronHistory.CalendarDispatches | aria-intelligence/src/hardware.rs:105-142 | every dispatch of a daily or weekly job serves a true slot of its schedule |
| CronHistory.CalendarSlotsIncrease | aria-intelligence/src/hardware.rs:105-142 | a later dispatch of such a job serves a later slot |
| CronHistory.LazyTableIsExact | aria-intelligence/src/hardware.rs:105-142 | after every tick a daily or weekly job in line is booked for the earliest slot after that tick, however long its entry lay idle |
| CronHistory.OneDispatchPerRelease | aria-intelligence/src/hardware.rs:91-104 | a dispatched job is not dispatched again before a command releases it; a one-shot only by adding it anew or setting it back to `Scheduled` |
| CronHistory.HeldStaysHeld | aria-intelligence/src/hardware.rs:91-104 | without a releasing command a passed-over job stays passed over |
| CronHistory.OnceIsNeverEarly | aria-intelligence/src/hardware.rs:115-136 | a one-shot job is never dispatched before its time |
| ToolCache.DynamicToolCache.Insert | aria-intelligence/src/tools.rs:462-490 | promotes, refuses, evicts or appends, as the fold of the operations says |
| ToolCache.DynamicToolCache.Get | aria-intelligence/src/tools.rs:493-501 | a hit moves the tool to the end, a miss changes nothing |
| ToolCacheLru.RefinesLru | aria-intelligence/src/tools.rs:462-501 | after any run the active tools are the last `max(cap, 1)` entries of the uses, each name where it was used last |
| ToolCacheLru.ReachableIsConsistent | aria-intelligence/src/tools.rs:462-501 | in every reachable state names are distinct, active tools have been let in, and ceiling and cap hold |
| ToolCacheLru.CeilingDecision | aria-intelligence/src/tools.rs:470-479 | refusal depends on the names seen alone; a refused insert changes nothing |
| ToolCacheLru.EvictsTheOldestWhenFull | aria-intelligence/src/tools.rs:481-489 | eviction happens iff a tool that is not active enters a full cache, takes the one unused for longest, and keeps all others |
| ToolCacheLru.CapDoesNotMatter | aria-intelligence/src/tools.rs:462-490 | caps and evictions never influence which names are let in |
| ToolCacheLru.SmallerCacheIsSuffix | aria-intelligence/src/tools.rs:462-490 | on runs of inserts a smaller cache holds the end of what a larger one holds |
| ToolCacheLru.InclusionCondition | aria-intelligence/src/tools.rs:462-501 | the smaller cache is a suffix of the larger one all through a run iff every lookup of the run hits the smaller cache or misses the larger one |
| ToolCacheLru.InclusionFailsWithLookups | aria-intelligence/src/tools.rs:493-501 | a three-step run with a lookup after which the smaller cache is no suffix |
| ToolCacheLru.HoldsLatest | aria-intelligence/src/tools.rs:462-501 | what the cache holds under a name is the definition inserted last |
| ToolCacheLru.LookupAnswersLatest | aria-intelligence/src/tools.rs:493-501 | a lookup answers iff the name is active, then with the definition inserted last, which it moves behind the others in their order |
| ToolCatalog.CollisionAlias | aria-intelligence/src/tools.rs:622-647 | the loop over suffixes finds the first free candidate, else the fallback |
| ToolCatalog.ToolProviderCatalog.MergeTools | aria-intelligence/src/tools.rs:582-610 | the loop over offers computes the fold `Merge` |
| ToolCatalogNames.DecimalIsInjective | aria-intelligence/src/tools.rs:637-644 | different suffixes print differently |
| ToolCatalogNames.AliasIsFresh | aria-intelligence/src/tools.rs:622-647 | an alias is free as long as the catalog has fewer than 1001 entries |
| ToolCatalogNames.NamesStayDistinct | aria-intelligence/src/tools.rs:582-610 | public names stay pairwise distinct under any merges up to 1001 entries |
| ToolCatalogNames.BoundIsSharp | aria-intelligence/src/tools.rs:582-610 | catalogs merged from `n` offers all have distinct names iff `n <= 1001` |
| ToolCatalogNames.AliasCollides | aria-intelligence/src/tools.rs:622-647 | an alias collides iff the 999 candidates and the fallback are all taken |
| ToolCatalogNames.MergeOneCondition | aria-intelligence/src/tools.rs:583-608 | one merge keeps distinct names distinct iff the offered name is free or the alias of the entry to rename is |
| ToolCatalogNames.MergeConserves | aria-intelligence/src/tools.rs:582-610 | merging keeps every offer in order and changes public names only; the multiset of tool ids is conserved |
| ToolCatalogNames.StrongestOfferHolds | aria-intelligence/src/tools.rs:582-620 | every name ever offered stays held by an entry at least as strong as every offer made under it |
| ToolCatalogNames.TheHolderBeatsAllOffers | aria-intelligence/src/tools.rs:582-620 | within the bound the one holder of a name is at least as strong as all offers at once |
| ToolCatalogNames.StrongerTakesTheName | aria-intelligence/src/tools.rs:583-620 | native beats Wasm skill beats MCP beats external beats remote: an offer of a stronger kind takes the name and its holder is renamed, otherwise the offer is renamed; nothing else changes |
| ToolCatalogNames.AliasIsTheFirstFree | aria-intelligence/src/tools.rs:622-647 | the alias is the first of the 999 candidates that is free, and the fallback when none is |
| ToolCatalogNames.CandidateIsSpelled | aria-intelligence/src/tools.rs:623-641 | a candidate is the word of the kind, two bars and the name; from the second on, two more bars and digits that read back as its number |
| StableSort.SortSorts | aria-intelligence/src/tools.rs:744-745 | the sort gives a sorted permutation |
| StableSort.SortFilter | aria-intelligence/src/tools.rs:786-794 | stability: sorting commutes with filtering |
| ToolSearchAgreement.EntryOrder | aria-intelligence/src/tools.rs:786-793 | the comparison of search entries is a strict weak order, so sorting by it is well defined |
| ToolSearchAgreement.VisibilityAgrees | aria-intelligence/src/tools.rs:350-421 | explanation and compatibility filter are one rule with a profile and differ exactly on invalid schemas without one |
| ToolSearchAgreement.ReasonIsTheFirstUnmet | aria-intelligence/src/tools.rs:350-421 | the reason names the first requirement the tool fails, in the order: tool schemas at all, strict schemas, images, audio, the schema of the tool itself; it is `Available` iff it fails none |
| ToolSearchAgreement.ExplainedInOrder | aria-intelligence/src/tools.rs:761-796 | the explaining search shows available tools first by descending score and then hidden ones by name, loses none up to the number asked for, and leaves out none that should come before one shown |
| ToolSearchAgreement.HitsInOrder | aria-intelligence/src/tools.rs:715-747 | the plain search shows compatible tools by descending score and leaves out none that scores more than one shown |
| Text.StringLessMeans | aria-intelligence/src/tools.rs:792 | the order of names is decided by the first difference, and a proper prefix comes first |
| ToolSearchAgreement.SearchesAgree | aria-intelligence/src/tools.rs:715-796 | the available entries of the explaining search are the hits of the plain search, in the same order, for every number of hits |
| ToolSearchAgreement.AgreementCondition | aria-intelligence/src/tools.rs:715-796 | the searches agree for every number of hits iff a profile is given or all schemas are valid |
| Similarity.CosineSimilarity | aria-intelligence/src/router.rs:9-31 | the accumulating loop computes the quotient of dot product and norms |
| Similarity.CauchySchwarz | aria-intelligence/src/router.rs:9-31 | the Cauchy-Schwarz inequality for vectors of any length |
| Similarity.CosineBounded | aria-intelligence/src/router.rs:9-31 | the similarity lies in [-1, 1], also for different lengths and vanishing norms |
| Similarity.CosineSymmetric | aria-intelligence/src/router.rs:9-31 | the order of the arguments does not matter |
| Similarity.CosineOfItself | aria-intelligence/src/router.rs:9-31 | a vector has similarity 1 with itself unless its squared norm is below the threshold |
| Similarity.DotOfOne | aria-intelligence/src/router.rs:17-23 | for vectors of one coordinate the accumulated sum is the product |
| Similarity.DotJoins | aria-intelligence/src/router.rs:17-23 | the accumulated sum of products is additive over joined vectors |
| Similarity.DotIsTheSum | aria-intelligence/src/router.rs:17-23 | any sum that gives the product of single coordinates and adds up over joined vectors is the accumulated one |
| Similarity.CosineMeans | aria-intelligence/src/router.rs:9-31 | similarity times the root of the product of the sums of squares is the sum of the products; it is 0 when that root is below the threshold or the lengths differ |
| Similarity.CosineNegated | aria-intelligence/src/router.rs:24-30 | negating one vector negates the similarity |
| Similarity.CosineOrthogonal | aria-intelligence/src/router.rs:24-30 | orthogonal vectors have similarity 0 |
| Router.SemanticRouter.RegisterAgent | aria-intelligence/src/router.rs:386-403 | the first embedding fixes the dimension; another dimension is refused and changes nothing |
| Router.SemanticRouter.Route | aria-intelligence/src/router.rs:418-444 | the running best is the first of the best scores; no agents or a wrong dimension give their errors |
| Router.SemanticRouter.IndexAgrees | aria-intelligence/src/router.rs:533-604 | the prebuilt index answers every query as the router it was built from, errors included |
| Router.SemanticRouter.ConfidentMeansClear | aria-intelligence/src/router.rs:451-474 | a decision is confident iff direct routing's answer meets the threshold and leads every other agent by the tie gap, and then it is that answer |
| Router.SemanticRouter.FallbackOffersAll | aria-intelligence/src/router.rs:505-530 | otherwise all agents are offered, best first |
| Router.SemanticRouter.RefusedWhen | aria-intelligence/src/router.rs:418-430 | routing fails iff there are no agents, or the query has not the length that all embeddings have; the error gives both lengths |
| Fingerprint.ComputeNormalizedText | aria-learning/src/lib.rs:939-952 | the normalising loop computes `NormalizeText` |
| Fingerprint.ParseTaskFingerprint | aria-learning/src/lib.rs:56-84 | the parsing loop computes `Parse` |
| FingerprintCanonical.NormalTextIsWords | aria-learning/src/lib.rs:939-952 | the normal form of a text is its lower-case words joined by single blanks |
| FingerprintCanonical.NormalTokenIsWords | aria-learning/src/lib.rs:935-937 | the normal form of a token is the same words joined by underscores |
| FingerprintCanonical.SameNormalForm | aria-learning/src/lib.rs:935-952 | normal forms are equal iff the words are equal |
| FingerprintCanonical.NormalisersAreIdempotent | aria-learning/src/lib.rs:935-952 | both normalisers are idempotent, and the text normaliser undoes the token normaliser |
| FingerprintCanonical.CaseIsIgnored | aria-learning/src/lib.rs:942 | texts that differ in the case of ASCII letters only have the same normal form |
| FingerprintCanonical.KeyReadsBack | aria-learning/src/lib.rs:30-84 | parsing a printed key gives exactly the normalised agent, mode and text and the sorted distinct tools |
| FingerprintCanonical.KeyFormat | aria-learning/src/lib.rs:30-54 | the key spelled out: version, agent and mode as tokens, the text as words, and the increasing list of the distinct tokens of the tools, empty ones left out |
| FingerprintCanonical.EqualKeys | aria-learning/src/lib.rs:30-54 | keys are equal iff agent, mode and text have the same words and the tools the same set of normal forms |
| FingerprintCanonical.MatchesSameWords | aria-learning/src/lib.rs:86-98 | a key matches a request iff agent, mode and text have the same words |
| Evaluation.AcceptedAdds | aria-learning/src/lib.rs:455-463 | the samples that count are found sample by sample and in order; `AcceptedOfOne` says which ones count |
| Evaluation.AcceptedOfOne | aria-learning/src/lib.rs:457-461 | a sample counts iff it succeeded with a positive reward and used some tool |
| Evaluation.DeterministicMeansOneSequence | aria-learning/src/lib.rs:455-465 | the fold says yes iff some sample counts and any two samples that succeeded with a positive reward and some tool used the same tools in the same order |
| Evaluation.ScoreMeans | aria-learning/src/lib.rs:467-497 | the score is the full percentage of successes, ten times the rewards, and 20 for samples that suit the kind of candidate, else -20, or -40 for a Wasm candidate |
| Evaluation.CountsAdd | aria-learning/src/lib.rs:445-450 | successes and rewards add up sample by sample |
| Evaluation.PromptPassCondition | aria-learning/src/lib.rs:473-506 | a prompt passes iff there are three samples and 50 percent of them succeed, 90 when some of them used tools, ten less for each unit of reward |
| Evaluation.MacroPassCondition | aria-learning/src/lib.rs:480-506 | a macro passes on the same terms, with tools and their absence the other way round |
| Evaluation.WasmPassCondition | aria-learning/src/lib.rs:467-508 | a Wasm candidate passes iff there are five samples, all succeeded, the accepted ones agree, and rewards sum to at least -3 |
| Evaluation.DatasetNeedsDeterminism | aria-learning/src/lib.rs:855-902 | the dataset exists iff five samples are accepted and the fold says yes; it records agent and mode of the first, the sequence of all, the inputs of the first five, and number and rewards of all |
| Evaluation.PassedAndCompilable | aria-learning/src/lib.rs:498-508 | a candidate that passes gives a dataset iff five of its samples are accepted |
| Evaluation.PassWithoutDataset | aria-learning/src/lib.rs:855-869 | samples that pass and give none |
| Evaluation.CompilableFailsOnlyOnOutcomes | aria-learning/src/lib.rs:498-508 | with a dataset, the evaluation fails only for a failed sample or negative rewards |
| Pagination.CollectPaginated | aria-mcp/src/lib.rs:1272-1313 | both loops compute `Collect` |
| Pagination.CollectsFetched | aria-mcp/src/lib.rs:1272-1313 | success returns the parsed entries of the fetched pages in order, at most 32 pages, the last one announcing no other; the page limit is reported iff the 32nd page announces one; any other error is that of the last request or of the first bad entry of its page |
| Pagination.PageMeans | aria-mcp/src/lib.rs:1287-1308 | a page adds the parse of each of its entries, all of them in order; it leads on iff all can be parsed and it announces a cursor other than its own, under `nextCursor` or else `cursor`, that is not blank |
| Pagination.ParseMeans | aria-mcp/src/lib.rs:1293-1295 | parsing a list gives each entry parsed, or the error of the first bad one |
| Pagination.FetchedFollowsCursors | aria-mcp/src/lib.rs:1300-1310 | each page fetched is the one its predecessor announced, from the first page on |
| Pagination.DistinctCondition | aria-mcp/src/lib.rs:1272-1313 | the cursors of a successful collection are pairwise distinct iff requests with the same cursor were told the same next cursor |
| Pagination.NoPageTwice | aria-mcp/src/lib.rs:1272-1313 | if replies depend on the cursor alone, the cursors of a successful collection are pairwise distinct |
| Pagination.PageCanRepeat | aria-mcp/src/lib.rs:1272-1313 | a server that changes its mind has a page collected twice |
| TokenBucket.RateLimiter.Check | aria-gateway/src/auth.rs:49-72 | one check, with its lazy refill and clamp, decides and updates as the fold of requests says, also for a window of zero |
| TokenBucket.AuthManager.Validate | aria-gateway/src/auth.rs:20-26 | a wrong token does not reach the limiter |
| TokenBucketRuns.RunsAreSound | aria-gateway/src/auth.rs:49-72 | tokens stay between 0 and the capacity |
| TokenBucketRuns.RefillsCompose | aria-gateway/src/auth.rs:56-60 | clamped refills compose: a look at the bucket does not change what is there later |
| TokenBucketRuns.TokensAccountedFor | aria-gateway/src/auth.rs:49-72 | checks accepted since some time plus tokens left never exceed capacity plus refill |
| TokenBucketRuns.WindowBound | aria-gateway/src/auth.rs:49-72 | with a window above zero, in any stretch `t` of any interleaved run a key gets at most `capacity + capacity * t / window` accepted checks |
| TokenBucketRuns.PatienceIsServed | aria-gateway/src/auth.rs:49-72 | a key that has been quiet for `window / capacity` is accepted, whatever happened before, also for a window of zero |
| TokenBucketRuns.BurstIsServed | aria-gateway/src/auth.rs:49-72 | a key that is new or was quiet for a whole window gets exactly `capacity` checks accepted at one instant |
| TokenBucketRuns.RejectedLeaveNoTrace | aria-gateway/src/auth.rs:56-71 | deleting any set of rejected requests from a run changes no other decision |
| TokenBucketRuns.KeysAreIndependent | aria-gateway/src/auth.rs:49-55 | the decisions on a key are those it would get alone |

## Left out

- Orchestrator.ToolLoopProgress.ExecuteToolCalls: a parallel batch that is not interrupted answers call by call in order; how the executions interleave, and which calls of an interrupted batch got how far, is not modelled (all of them count as started).
- TokenBucketRuns.WindowBound: says nothing for a window of zero, where every check finds a full bucket and no bound exists.
- Schedule.WeeklyIsEarliest: zones at a constant offset only; in daylight-saving folds and gaps the code takes the earliest or latest reading, or now plus a day or a week, and the claim does not apply. The same holds for Schedule.DailyIsEarliest.
- Schedule.ComputeNextFire: instants are unbounded, while the calendar of the program ends some 260000 years away; there date arithmetic panics. A period of more than about 8.2e12 seconds panics at any time, long before it stops fitting a duration. The same holds for Schedule.DailyStep and Schedule.WeeklyStep.
- BackendPool.LlmBackendPool.QueryWithFallback: queries run one after the other and each recording is atomic; interleavings of concurrent queries are not modelled. The four other query variants are the same loop.
- BackendPool.LlmBackendPool.ProviderCircuitStates: the report is a map from providers; the order in which the code lists them is not modelled, and the stored error is the error value instead of its text.
- CronScheduler.CronScheduler.DueEventsNow: an event carries job id and prompt; the other fields are copied from the job alike.
- Prompt text, streaming, the 60-second stall nudge, the wording of corrections and telemetry: opaque to the loop's control flow.
- JSON parsing, JSON Schema, text repair, embeddings, the cron-expression engine and lower-casing beyond ASCII are parameters; the text that the registry search feeds back is part of the prompt.
- Floating-point rounding, NaN, and overflow of counters, rewards and scores; `usize` and `u32` counters are unbounded.
- Schedule parsing, time-zone databases, the list command, power hooks, channels and persistence of the scheduler.
- `hot_swap_best`, catalog prompts and resources, `score_agent`, text routing and the routing fallback over the language model: easy members.
- Prompt and macro datasets, promotion records, selector models and the notes of an evaluation: straight data.
- Subprocess transports, sessions, provider backends, gateway normalisers and boundary tables: I/O and data.
