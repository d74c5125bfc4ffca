# Ops flow: gate, execution lane, provisioning saga and signup table

A model of the transactional core of the ops-flow service, with proofs about whole runs of it.

| files | what they model |
|---|---|
| `Events.dfy`, `Gate.dfy` | event types; the event gate (allowlist, safe mode, daily budget, per-module caps, debounce cache, budget alert) as a class over its fields |
| `GateHistory.dfy`, `GateBounds.dfy` | runs of gate operations: the debounce cache against the history of calls, the debounce rate, the alert, the overshoot of cost and counts |
| `Service.dfy`, `ServiceRuns.dfy` | the HTTP endpoint, the background queue, the background handler and the AMP router over one gate, and every interleaving of them |
| `Policy.dfy`, `Lane.dfy` | the autonomy policy; the repo execution lane over a writer that may fail at any call |
| `Table.dfy`, `Signup.dfy`, `SignupRuns.dfy` | filter strings, queries and upserts; the pending-signup handler; webhook redelivery, and runs mixing leads, webhooks and resends: uniqueness and the rescue cap |
| `Retry.dfy`, `Provisioning.dfy`, `Saga.dfy`, `SagaRuns.dfy` | capped retry; two-stage provisioning behind the global pause flag; the sales flow (create, link, checkout) and the recovery flow, and any sequence of them over any number of flows |
| `Funnel.dfy` | the status histogram, the conversion rates and the safe-mode recommendation |
| `State.dfy`, `Common.dfy` | the flow state and its enumerations; `Option` and `Result` |

Code that updates state is a class or a method whose postcondition ties the new state to a function of
the old one; the properties are lemmas about those functions and about runs built from them. Clock
readings are integers (microseconds) and money is a real. What comes from outside (the clock, the flow
switch, a handler, helper or writer call that raises, a read or write that fails, a message that is not
delivered, a fresh database id) is a parameter, and every statement is for all values of it.

## Where the code and what is said about it differ

The model follows the code in each case.

- The endpoint comments that the debounce is set again and that duplicates are prevented by the
  idempotency key. Neither happens: the accept stamps the key, and the queued task, which asks the gate
  again, is dropped unless the debounce interval has passed (`AcceptThenRun`). When tasks run promptly,
  no accepted event is ever executed (`PromptEndpointExecutesNothing`).
- A call dropped for safe mode, budget or rate still stamps the debounce cache (`StampSilencesKey`).
- The gate says it raises nothing to callers; recording with a zero budget divides by zero after the
  counters moved (`EventGate.RecordExecution`). The routers cannot reach this.
- The AMP router has no branch for a completed deploy: it counts the event without running the guard
  (`RoutersAgreeOnce`, `RoutersAgree`). The top-level README speaks of eight event types; the code has nine.
- `run_stage1` and `run_stage2` report failure as a value, so the retries around them never retry and
  never reach their cap. The branches behind the cap are in the model, and no run ever takes one: no
  account is marked for manual review and no critical alert is raised (`NothingEscalates`).
- A lookup that raises during the Stage 2 check leaves Stage 1 marked as done and makes the checkout raise
  (`SalesFlow.HandleCheckoutCompleted`, `CheckoutActivates`).
- A webhook redelivered after the signup moved on sets the status back to checkout_completed, from
  terminal statuses too (`DeliveryOverwritesStatus`), which can leave two active signups for one email
  (`DeliveryKeepsUniqueIff`). The handler returns the row as it was before the update.
- A second lead for an email sets its signup back to link_sent, also when the checkout was already
  completed (`LeadRewindsCheckoutIff`).
- A failed read looks like an empty table, so dedupe then inserts a second active signup
  (`LeadKeepsUniqueIff`). The dedupe applies no cooldown window.
- A bare filter value containing a dot is not an equality filter (`BareValueIsEquality`).
- A link that could not be sent makes the sales flow raise, because its alert passes a plain string
  where a severity is expected (`SalesFlow.SendCheckoutLink`).
- An empty change is never patched automatically, which is the one exception to classification being a
  join (`ClassifyIsJoin`).
- One more completed checkout can turn the safe-mode recommendation on and can turn it off
  (`CompletedRowMoves`).
- The stub's made-up funnel data is called healthy; with the shipped threshold for activation failures it
  turns the safe-mode recommendation on (`StubRecommends`).

## Model

| member | source | states |
|---|---|---|
| Events.ParseExactly | src/ringsnap_ops_flow/state.py:228-231 | an inbound value names an event type if and only if it is that type's wire value |
| Events.ValueInjective | src/ringsnap_ops_flow/state.py:52-61 | no two event types share a wire value |
| Gate.EventKeysAgree | src/ringsnap_ops_flow/event_gate.py:226 | two typed events share a debounce key exactly when type and entity agree, where a missing entity, an empty one and "_" count as the same |
| Gate.KeyInjective | src/ringsnap_ops_flow/event_gate.py:226 | for event types without a colon, the key determines type and entity part |
| Gate.EventGate.CheckDebounce | src/ringsnap_ops_flow/event_gate.py:225-234 | stamps the key if and only if the last stamp is at least the interval old; otherwise drops and leaves the cache alone |
| Gate.EventGate.CheckSafeMode | src/ringsnap_ops_flow/event_gate.py:208-211 | drops exactly in safe mode for a non-critical module |
| Gate.EventGate.CheckDailyBudget | src/ringsnap_ops_flow/event_gate.py:213-216 | drops exactly when the daily cost has reached the budget |
| Gate.EventGate.CheckModuleRateLimit | src/ringsnap_ops_flow/event_gate.py:218-223 | drops exactly when the module's count has reached its limit |
| Gate.EventGate.ShouldProcess | src/ringsnap_ops_flow/event_gate.py:70-129 | the verdict is the first failing check on the state before the call; only the cache changes, and it is stamped whatever the verdict |
| Gate.EventGate.RecordExecution | src/ringsnap_ops_flow/event_gate.py:131-159 | count, cost and alert flag after a record; when the alert goes out with which fraction of the budget, and when it raises |
| Gate.EventGate.ResetDailyCounters | src/ringsnap_ops_flow/event_gate.py:191-197 | counters, cost, cache and alert flag are cleared and safe mode is kept |
| GateHistory.CacheHoldsLatestStamp | src/ringsnap_ops_flow/event_gate.py:225-234 | after any run the cache entry of a key is the latest stamp since reset, and is absent when there is none |
| GateHistory.CacheRefinesHistory | src/ringsnap_ops_flow/event_gate.py:80-93 | the stamps are the greedy debounce filter of all enabled calls since reset, dropped ones included, and every accepted call is a stamp |
| GateHistory.GreedyFilterUnique | src/ringsnap_ops_flow/event_gate.py:225-234 | a history has one greedy filter only |
| GateHistory.GreedyFilterIsStamps | src/ringsnap_ops_flow/event_gate.py:225-234 | a set of calls is the greedy filter if and only if it is the gate's stamps |
| GateHistory.StampsAreSpaced | src/ringsnap_ops_flow/event_gate.py:229-233 | stamps of one key in one day are at least the interval apart in call order, with no assumption on the clock |
| GateHistory.StampSilencesKey | src/ringsnap_ops_flow/event_gate.py:85-93 | any stamp, also of a dropped call, keeps the key from being accepted for the interval |
| GateHistory.CountersAreTodaysRecords | src/ringsnap_ops_flow/event_gate.py:139-140 | counts and cost are exactly the records since reset, and safe mode is its last switch |
| GateHistory.AlertOncePerDay | src/ringsnap_ops_flow/event_gate.py:143-159 | since a reset the alert comes due once if some record reached the threshold, and otherwise never |
| GateHistory.AcceptedExactly | src/ringsnap_ops_flow/event_gate.py:70-129 | from history alone: a call is let in if and only if the flow is enabled, the type allowed, the last switch left safe mode off or the module is critical, the cost of the day is below the budget, the module's executions of the day are below its cap, and the call is in the greedy debounce filter |
| GateHistory.DropReasonExactly | src/ringsnap_ops_flow/event_gate.py:80-112 | from history alone: which reason a dropped call is given, and how long ago a debounced one was last stamped |
| GateBounds.RateInvariant | src/ringsnap_ops_flow/event_gate.py:225-234 | what every step keeps: accepted calls of a key against the time passed and the resets seen |
| GateBounds.DebounceRateBound | src/ringsnap_ops_flow/event_gate.py:225-234 | a run from any gate state whose readings span W accepts one key at most floor(W/interval) + 1 + its resets times |
| GateBounds.DebounceRateBoundInWindow | src/ringsnap_ops_flow/event_gate.py:191-197 | in any time window of length W of any run with a clock that never goes back, one key is accepted at most floor(W/interval) + 1 + r times, with r the resets inside the window |
| GateBounds.DebounceRateBoundAnyClock | src/ringsnap_ops_flow/event_gate.py:225-234 | without a reset the bound holds for readings in a window with no assumption on the clock |
| GateBounds.CostInvariant | src/ringsnap_ops_flow/event_gate.py:131-141 | what every step keeps: cost spent plus what the in-flight executions may still add stays below budget + k*c |
| GateBounds.CountInvariant | src/ringsnap_ops_flow/event_gate.py:218-223 | what every step keeps: a module's count plus its in-flight executions |
| GateBounds.NoBudgetNoCost | src/ringsnap_ops_flow/event_gate.py:213-216 | a budget of zero or less admits nothing and nothing is spent |
| GateBounds.OvershootBound | src/ringsnap_ops_flow/event_gate.py:131-140 | with at most k executions in flight costing at most c each, cost < budget + k*c and count <= limit - 1 + k at every point of any interleaving |
| GateBounds.OvershootAttained | src/ringsnap_ops_flow/event_gate.py:218-223 | for every limit and k some run reaches the count bound exactly |
| Service.OpsService.Handle | src/ringsnap_ops_flow/main.py:116-167 | asks the gate, dispatches, and records exactly when the event was let in and its handler returned |
| Service.OpsService.ProcessEvent | src/ringsnap_ops_flow/main.py:111-205 | the background handler as one atomic step |
| Service.OpsService.ReceiveEvent | src/ringsnap_ops_flow/main.py:236-275 | the endpoint: asks the gate and queues a task exactly when accepted |
| Service.OpsService.TriggerDigestNow | src/ringsnap_ops_flow/main.py:281-296 | the cron endpoint queues a digest without asking the gate |
| Service.OpsService.RunQueued | src/ringsnap_ops_flow/main.py:267-271 | a queued task is taken off and handled once |
| Service.OpsService.KickoffEvent | src/ringsnap_ops_flow/main.py:310-328 | the AMP kickoff handles an event without the queue |
| Service.OpsService.RouteEvent | src/ringsnap_ops_flow/flows/amp_router_flow.py:25-123 | the AMP router as one step; the abort flag is set exactly when the event is missing or dropped |
| ServiceRuns.ReachableInvariant | src/ringsnap_ops_flow/main.py:111-205 | in every reachable state: accepts and executions of a key in one day are an interval apart, each module's count is its executions since reset and at most its limit, every ticket is executed at most once, endpoint tasks have their accept |
| ServiceRuns.StepKeeps | src/ringsnap_ops_flow/main.py:111-275 | every single operation keeps that invariant |
| ServiceRuns.CallIsBareCall | src/ringsnap_ops_flow/main.py:114-120 | naming the module an event is mapped to is the same as naming none, and that is the module of the table |
| ServiceRuns.DispatchExactly | src/ringsnap_ops_flow/main.py:130-164 | both routers hand an event to the one handler that is for it, the AMP router not for a completed deploy |
| ServiceRuns.ReceiveExactly | src/ringsnap_ops_flow/main.py:257-278 | the endpoint queues and logs the event if and only if the gate lets it in, and records nothing |
| ServiceRuns.RunTaskExactly | src/ringsnap_ops_flow/main.py:111-205 | a queued task is taken off, and runs and is recorded under the module of the table if and only if the gate lets it in again and its handler returns |
| ServiceRuns.DirectExactly | src/ringsnap_ops_flow/flows/amp_router_flow.py:32-87 | the same for the kickoff and for the AMP router, which counts a completed deploy whatever its guard would do |
| ServiceRuns.TriggerExactly | src/ringsnap_ops_flow/main.py:289-294 | the cron endpoint queues a daily digest and leaves the gate alone |
| ServiceRuns.EndpointTaskNeedsDelay | src/ringsnap_ops_flow/main.py:257-271 | in any run an executed endpoint task ran an interval after its own accept or a reset fell in between |
| ServiceRuns.AcceptThenRun | src/ringsnap_ops_flow/main.py:257-271 | accept followed by that task: executed if and only if the interval has passed and the handler returns |
| ServiceRuns.PromptEndpointExecutesNothing | src/ringsnap_ops_flow/main.py:257-271 | when tasks run promptly, no event accepted by the endpoint is executed within the day |
| ServiceRuns.RoutersAgreeOnce | src/ringsnap_ops_flow/flows/amp_router_flow.py:45-87 | the two routers leave the same gate on an event if and only if it is not an admitted deploy whose guard raises |
| ServiceRuns.RoutersAgree | src/ringsnap_ops_flow/main.py:130-167 | over any sequence both routers leave identical gates after every event if and only if none is a deploy admitted at its own point whose guard raises |
| Policy.BlockedExactly | src/ringsnap_ops_flow/execution/policy.py:79-80 | a path is blocked if and only if it is a blocked prefix followed by anything |
| Policy.LowRiskExactly | src/ringsnap_ops_flow/execution/policy.py:82-85 | a path is low-risk if and only if it is a low-risk prefix followed by anything |
| Policy.ClassifyExactly | src/ringsnap_ops_flow/execution/policy.py:62-77 | the mode in terms of classes and prefixes of the paths |
| Policy.ReasonExactly | src/ringsnap_ops_flow/execution/policy.py:62-77 | the reason names the rule that decided |
| Policy.StrictestPathDecides | src/ringsnap_ops_flow/execution/policy.py:62-77 | a nonempty change is handled exactly as strictly as its strictest path |
| Policy.ClassifyIsJoin | src/ringsnap_ops_flow/execution/policy.py:62-85 | strictness of two changes together is the maximum of both, if and only if it is not the case that exactly one is empty, the class is an automatic one and every path low-risk and not blocked |
| Policy.ClassifyDependsOnSet | src/ringsnap_ops_flow/execution/policy.py:62-85 | order and repetition of paths do not matter |
| Policy.MorePathsNeverLoosen | src/ringsnap_ops_flow/execution/policy.py:66-67 | adding paths to a nonempty change never loosens the decision |
| Policy.TighterPolicyNeverLoosens | src/ringsnap_ops_flow/execution/policy.py:43-49 | adding blocked prefixes or classes, or removing allowances, never loosens a decision |
| Lane.RepoWriter.CreateBranch | src/ringsnap_ops_flow/execution/github_pr_writer.py:54-60 | a new branch copies its base; fails on a missing base or an existing branch |
| Lane.RepoWriter.UpsertFile | src/ringsnap_ops_flow/execution/github_pr_writer.py:71-81 | writes one file of one branch, or fails and changes nothing |
| Lane.RepoWriter.CreatePr | src/ringsnap_ops_flow/execution/github_pr_writer.py:83-95 | appends a draft pull request under the number the service gives it, or fails and changes nothing |
| Lane.RepoExecutionLane.Validate | src/ringsnap_ops_flow/execution/validator.py:26-40 | one result per command of the class, passed when not actually executed |
| Lane.RepoExecutionLane.ApplyPatches | src/ringsnap_ops_flow/execution/workflows.py:67-73 | the branch holds the base overlaid with the patches before the first failing call |
| Lane.RepoExecutionLane.Execute | src/ringsnap_ops_flow/execution/workflows.py:48-101 | repository and outcome of one request, for every plan, policy, approval, validation result and pattern of writer failures |
| Lane.OverlayLastWins | src/ringsnap_ops_flow/execution/workflows.py:67-73 | a path holds its last patch, else what the base held, and no other path appears |
| Lane.PermittedExactly | src/ringsnap_ops_flow/execution/workflows.py:58-62 | the lane may write if and only if neither class nor any path is blocked, and the caller approved or every path is low-risk in an automatic class |
| Lane.ValidationsExactly | src/ringsnap_ops_flow/execution/validator.py:29-40 | one result per command of the class, which fails exactly when the command is executed and does not pass |
| Lane.SoundExactly | src/ringsnap_ops_flow/execution/workflows.py:75-77 | all validations pass if and only if nothing is executed or every command of the class passes |
| Lane.BranchNameExactly | src/ringsnap_ops_flow/execution/workflows.py:103-107 | the branch is named after the class, with dashes for underscores, and the time stamp |
| Lane.WritesOnlyWhenPermitted | src/ringsnap_ops_flow/execution/workflows.py:58-62 | the writer is touched if and only if the lane may write |
| Lane.BranchHoldsPrefix | src/ringsnap_ops_flow/execution/workflows.py:64-73 | existing branches survive; the own branch is new exactly when it could be created, and holds the base overlaid with the patches before the first failing call |
| Lane.PrExactlyWhen | src/ringsnap_ops_flow/execution/workflows.py:75-101 | a pull request is opened if and only if permitted, the branch is new on an existing base, no writer call fails and all validations pass; its head holds all patches |
| Lane.StatusExactly | src/ringsnap_ops_flow/execution/workflows.py:58-101 | which status a request ends with, for every status |
| Lane.ReportExactly | src/ringsnap_ops_flow/execution/workflows.py:58-101 | mode, reason, branch, validations and pull-request number a request reports |
| Lane.LaneRun | src/ringsnap_ops_flow/execution/workflows.py:48-101 | over any run existing branches never change and every new pull request is explained by a permitted, fully validated job whose patches its head still holds |
| Retry.AttemptRetry | src/ringsnap_ops_flow/deterministic/retry_handler.py:44-118 | all attempts but the last fail; the last is the first success, or the cap is reached and its error reported |
| Retry.CapExactly | src/ringsnap_ops_flow/deterministic/retry_handler.py:69 | the override other than zero, else the configured cap, and never fewer than one attempt |
| Retry.ExactIsUnique | src/ringsnap_ops_flow/deterministic/retry_handler.py:69-118 | that description determines outcome and number of calls |
| Retry.CallsUpToFirstSuccess | src/ringsnap_ops_flow/deterministic/retry_handler.py:74-106 | calls are the smaller of the first success and the cap; success exactly when it comes within the cap |
| Retry.NonRaisingRunsOnce | src/ringsnap_ops_flow/deterministic/retry_handler.py:88-96 | a function that never raises is called exactly once, for every cap |
| Provisioning.Provisioner.RunStage1 | src/ringsnap_ops_flow/deterministic/provisioning_handler.py:66-107 | the helpers run up to the first that raises; True exactly when none does |
| Provisioning.Provisioner.ValidateBeforeStage2 | src/ringsnap_ops_flow/deterministic/provisioning_handler.py:113-138 | valid exactly when not paused, paid, Stage 1 complete and numbers available; a set flag hides the other errors; raises exactly when the flag is clear and a lookup raises |
| Provisioning.Provisioner.RunStage2 | src/ringsnap_ops_flow/deterministic/provisioning_handler.py:140-179 | the helpers run up to the first failure or an empty number; True exactly when all succeed |
| Provisioning.Stage1Exactly | src/ringsnap_ops_flow/deterministic/provisioning_handler.py:66-107 | the helpers run in order up to the first that raises; success if and only if all four ran and none raised |
| Provisioning.Stage2Exactly | src/ringsnap_ops_flow/deterministic/provisioning_handler.py:140-179 | the same for three helpers, ended early by an empty number; success if and only if all three ran and none raised |
| Provisioning.ErrorsExactly | src/ringsnap_ops_flow/deterministic/provisioning_handler.py:113-138 | which errors the check reports; a set flag reports itself alone |
| Provisioning.Provisioner.PauseStage2 | src/ringsnap_ops_flow/deterministic/provisioning_handler.py:269-272 | sets the flag |
| Provisioning.Provisioner.ResumeStage2 | src/ringsnap_ops_flow/deterministic/provisioning_handler.py:275-278 | clears the flag |
| Saga.RetryStage1 | src/ringsnap_ops_flow/flows/sales_activation_flow.py:216-225 | the retry makes exactly one run of Stage 1 and takes its value |
| Saga.RetryStage2 | src/ringsnap_ops_flow/flows/sales_activation_flow.py:246-255 | the retry makes exactly one run of Stage 2 and takes its value |
| Saga.SalesFlow.CreateOrReuse | src/ringsnap_ops_flow/flows/sales_activation_flow.py:102-126 | a new signup replaces the flow's own, a duplicate only changes its id; the rows after each |
| Saga.SalesFlow.CreateThenLink | src/ringsnap_ops_flow/flows/sales_activation_flow.py:92-138 | rows and the flow's own signup after create and link, on the fresh and the duplicate path and with every failure |
| Saga.SalesFlow.SendCheckoutLink | src/ringsnap_ops_flow/flows/sales_activation_flow.py:141-195 | the flow notes a sent link; on one that was not sent its alert raises and nothing changes |
| Saga.SalesFlow.StageValue | src/ringsnap_ops_flow/flows/sales_activation_flow.py:222-229 | the value of the retried stage, or a mark for manual review at the cap |
| Saga.SalesFlow.RunStage2IfValid | src/ringsnap_ops_flow/flows/sales_activation_flow.py:233-261 | state, flag and trace of the rest of a checkout once Stage 1 is done; raises exactly when a lookup does |
| Saga.SalesFlow.HandleCheckoutCompleted | src/ringsnap_ops_flow/flows/sales_activation_flow.py:197-275 | rows, flow state, flag and trace after one completed checkout, and when it raises |
| Saga.RecoveryFlow.NoteRetry | src/ringsnap_ops_flow/flows/recovery_flow.py:104-111 | at the cap a mark for manual review and a critical alert, otherwise nothing |
| Saga.RecoveryFlow.ApplySafeAutoFixes | src/ringsnap_ops_flow/flows/recovery_flow.py:64-123 | flow state, flag, alerts and trace after one recovery: the critical alert at the cap is never reached |
| SagaRuns.ReachableInvariant | src/ringsnap_ops_flow/flows/sales_activation_flow.py:213-261 | in every reachable state: stage2_done implies stage1_done, ACTIVATED implies both and onboarding at ACCOUNT_SETUP, every Stage 2 helper follows a full Stage 1 and a valid check of its account with the flag clear |
| SagaRuns.GuardedStage2 | src/ringsnap_ops_flow/deterministic/provisioning_handler.py:140-179 | appending a checkout that reaches Stage 2 keeps every Stage 2 helper guarded |
| SagaRuns.Stage2Latch | src/ringsnap_ops_flow/deterministic/provisioning_handler.py:265-278 | in any run, after the flag is set no Stage 2 helper runs for any account until a resume |
| SagaRuns.CheckoutSetsFlag | src/ringsnap_ops_flow/flows/sales_activation_flow.py:233-244 | a checkout leaves the flag set exactly when it was, or Stage 1 and the lookups went through without a payment method |
| SagaRuns.CheckoutActivates | src/ringsnap_ops_flow/flows/sales_activation_flow.py:257-261 | a checkout activates the flow exactly when every helper of both stages and the check go through; when each stage flag is set; nothing else of the flow changes |
| SagaRuns.CheckoutTrace | src/ringsnap_ops_flow/flows/sales_activation_flow.py:213-261 | exactly what one checkout appends to the trace |
| SagaRuns.CheckoutRaisesExactly | src/ringsnap_ops_flow/flows/sales_activation_flow.py:206-234 | a checkout raises exactly when a handler did before Stage 1 or a lookup does after it |
| SagaRuns.RecoveryTrace | src/ringsnap_ops_flow/flows/recovery_flow.py:82-113 | a recovery runs Stage 1, once, if and only if the crew marked retry_stage1 as safe for a named account |
| SagaRuns.DoneOnlyIfRan | src/ringsnap_ops_flow/deterministic/provisioning_handler.py:66-179 | in every reachable state a flow with a stage done, or activated, has all helpers of that stage in the trace, successful |
| SagaRuns.RecoveryNeverEscalates | src/ringsnap_ops_flow/flows/recovery_flow.py:85-121 | recovery never raises a critical alert or marks a stage done, and sets the flag exactly when the crew asks |
| SagaRuns.NothingEscalates | src/ringsnap_ops_flow/deterministic/retry_handler.py:108-118 | in no run of checkouts and recoveries, whatever fails, is an account marked for manual review or a critical alert raised |
| Table.EqRoundTrip | src/ringsnap_ops_flow/adapters/supabase_adapter.py:49-53 | "eq." + v is parsed as equality with v, for every v |
| Table.OperatorRoundTrip | src/ringsnap_ops_flow/adapters/supabase_adapter.py:49-61 | each known operator with a dot and any value is parsed back as that operator on that value; an unknown one adds no filter |
| Table.ComparisonRoundTrip | src/ringsnap_ops_flow/adapters/supabase_adapter.py:54-59 | "gte.", "lte." and "neq." with any value are parsed back |
| Table.FilterExactly | src/ringsnap_ops_flow/adapters/supabase_adapter.py:52-63 | which texts each filter string keeps |
| Table.NoTextNoMatch | src/ringsnap_ops_flow/adapters/supabase_adapter.py:46-64 | a row without a text in the column is kept by no known filter |
| Table.BareValueIsEquality | src/ringsnap_ops_flow/adapters/supabase_adapter.py:50-63 | a bare value is an equality filter if and only if it has no dot |
| Table.SplitJoin | src/ringsnap_ops_flow/adapters/supabase_adapter.py:60-61 | splitting at commas undoes joining of comma-free values |
| Table.InRoundTrip | src/ringsnap_ops_flow/adapters/supabase_adapter.py:60-61 | "in.(a,b,...)" is parsed back as the list, for every nonempty list of plain values |
| Table.KeepIsConjunction | src/ringsnap_ops_flow/adapters/supabase_adapter.py:46-64 | narrowing a query filter by filter selects by the conjunction |
| Table.DbTable.Query | src/ringsnap_ops_flow/adapters/supabase_adapter.py:35-68 | the rows satisfying every filter in table order; none for a stub or a failed read |
| Table.DbTable.Upsert | src/ringsnap_ops_flow/adapters/supabase_adapter.py:70-85 | merges by id or inserts; a failed write raises and changes nothing |
| Table.UpsertExactly | src/ringsnap_ops_flow/adapters/supabase_adapter.py:70-85 | which row an upsert overwrites, in which columns, or that it appends |
| Signup.SelectFirst | src/ringsnap_ops_flow/deterministic/signup_handler.py:207-217 | the first row an equality query returns is the table's first row with that value |
| Signup.SelectFirstActive | src/ringsnap_ops_flow/deterministic/signup_handler.py:294-304 | the search over the query result finds the table's first non-terminal row of the email, and one is found exactly when one exists |
| Signup.ActiveExactly | src/ringsnap_ops_flow/deterministic/signup_handler.py:296-303 | a signup is active for an email unless its status is activated, expired or failed |
| Signup.SkippedExactly | src/ringsnap_ops_flow/deterministic/signup_handler.py:296-303 | the six statuses the search keeps |
| Signup.InsertedExactly | src/ringsnap_ops_flow/deterministic/signup_handler.py:75-94 | the inserted row, column by column |
| Signup.CreateExactly | src/ringsnap_ops_flow/deterministic/signup_handler.py:68-94 | a lead goes on with the first active signup it finds, else with the one it inserts, else with none |
| Signup.LeadExactly | src/ringsnap_ops_flow/deterministic/signup_handler.py:149-154 | storing the link sets status, link and time of one row, and when it does |
| Signup.CopyExactly | src/ringsnap_ops_flow/flows/sales_activation_flow.py:116-136 | the flow's own signup afterwards, on the fresh, the duplicate and the failed path |
| Signup.DeliveryExactly | src/ringsnap_ops_flow/deterministic/signup_handler.py:206-230 | which row a delivery changes, when, in which columns, and when it raises |
| Signup.ResendExactly | src/ringsnap_ops_flow/deterministic/signup_handler.py:263-291 | when a resend succeeds, raises or sends a message, and the one attempt it adds |
| Signup.ResendOtherwise | src/ringsnap_ops_flow/deterministic/signup_handler.py:264-271 | a resend whose row is not found does nothing; one whose row counts no number raises |
| Signup.SignupHandler.FindActiveByEmail | src/ringsnap_ops_flow/deterministic/signup_handler.py:294-304 | returns that row with a working read, and nothing with a failed one |
| Signup.SignupHandler.CreatePendingSignup | src/ringsnap_ops_flow/deterministic/signup_handler.py:47-122 | reports the duplicate's id, or inserts one qualified row, or raises; rows after each |
| Signup.SignupHandler.HandleCheckoutCompleted | src/ringsnap_ops_flow/deterministic/signup_handler.py:200-243 | only the first matching row may change, and only when not yet completed; returns the row as it was before; raises exactly when the row has no status or a write it needs fails |
| Signup.SignupHandler.ResendCheckoutLink | src/ringsnap_ops_flow/deterministic/signup_handler.py:258-292 | outcome and rows of one resend, raising on a missing column too |
| SignupRuns.LeadKeepsUniqueIff | src/ringsnap_ops_flow/deterministic/signup_handler.py:68-93 | create-then-link keeps one active signup per email if and only if the read works, there is none, or the insert fails |
| SignupRuns.LeadEndsWithOne | src/ringsnap_ops_flow/flows/sales_activation_flow.py:102-136 | with a working read it ends with exactly one active row of the email, the one whose id is in the flow's own signup |
| SignupRuns.LeadRewindsCheckoutIff | src/ringsnap_ops_flow/deterministic/signup_handler.py:149-154 | a lead takes a completed checkout back to link_sent exactly when it finds it as the active signup of its email and the link is stored |
| SignupRuns.RunKeepsUniqueIff | src/ringsnap_ops_flow/deterministic/signup_handler.py:68-93 | any run mixing leads, deliveries and resends keeps at most one active signup per email throughout if and only if no step inserts behind a failed read or reopens a terminal signup beside an active one |
| SignupRuns.LeadRunKeepsUnique | src/ringsnap_ops_flow/flows/sales_activation_flow.py:92-138 | any run of leads with working reads, mixed with resends, keeps at most one active signup per email whatever writes fail |
| SignupRuns.DeliveriesSettle | src/ringsnap_ops_flow/deterministic/signup_handler.py:200-230 | after any deliveries each row is completed by its first working delivery, else untouched |
| SignupRuns.DeliveriesConfluent | src/ringsnap_ops_flow/deterministic/signup_handler.py:200-230 | sequences that deliver the same sessions leave the same table up to completion times |
| SignupRuns.DuplicateIsNoop | src/ringsnap_ops_flow/deterministic/signup_handler.py:218-223 | a repeated delivery with nothing in between changes nothing |
| SignupRuns.DeliveryOverwritesStatus | src/ringsnap_ops_flow/deterministic/signup_handler.py:224-229 | a working delivery completes its row whatever its status was, unless it has none, and touches no other |
| SignupRuns.DeliveryKeepsUniqueIff | src/ringsnap_ops_flow/deterministic/signup_handler.py:200-230 | a delivery breaks uniqueness if and only if it reopens a terminal signup whose email has an active one |
| SignupRuns.RescueConserved | src/ringsnap_ops_flow/deterministic/signup_handler.py:258-291 | over any mix of leads, deliveries and resends, attempts are the initial ones plus the successful resends and never rise past the cap |
| SignupRuns.MessagesBounded | src/ringsnap_ops_flow/deterministic/signup_handler.py:278-290 | messages sent exceed the successful resends by at most the failed writes |
| SignupRuns.RescueMessagesCapped | src/ringsnap_ops_flow/deterministic/signup_handler.py:271-290 | without a failed write the cap bounds the messages sent |
| Funnel.CountStatuses | src/ringsnap_ops_flow/deterministic/funnel_tracker.py:108-110 | the counting loop computes the histogram, whose counts `HistogramCounts` characterises |
| Funnel.GetBreakpoints | src/ringsnap_ops_flow/deterministic/funnel_tracker.py:95-114 | the histogram of the selected rows; an empty one when the read fails |
| Funnel.HistogramCounts | src/ringsnap_ops_flow/deterministic/funnel_tracker.py:108-110 | each count is the number of rows with that status, and a status is a key exactly when it occurs |
| Funnel.BreakpointsExactly | src/ringsnap_ops_flow/deterministic/funnel_tracker.py:100-110 | each count is the number of rows with that status created since the given time |
| Funnel.TotalStarted | src/ringsnap_ops_flow/deterministic/funnel_tracker.py:36-37 | the sum over all keys, in whatever order they are visited |
| Funnel.TotalIsRows | src/ringsnap_ops_flow/deterministic/funnel_tracker.py:36-37 | the total is the number of rows |
| Funnel.HistogramOrderFree | src/ringsnap_ops_flow/deterministic/funnel_tracker.py:108-110 | the histogram does not depend on the order of the rows |
| Funnel.RateInRange | src/ringsnap_ops_flow/deterministic/funnel_tracker.py:39-58 | every rate lies between 0 and 1 |
| Funnel.BelowIsCrossProduct | src/ringsnap_ops_flow/deterministic/funnel_tracker.py:60-67 | a threshold test against p/q is an integer comparison |
| Funnel.SafeModeIsIntegerTest | src/ringsnap_ops_flow/deterministic/funnel_tracker.py:60-74 | the recommendation computed from the rows is an integer test on how many rows have each status |
| Funnel.SafeModeMonotone | src/ringsnap_ops_flow/deterministic/funnel_tracker.py:69-74 | for each status, the directions in which one more row can move the recommendation |
| Funnel.CompletedRowMoves | src/ringsnap_ops_flow/deterministic/funnel_tracker.py:69-74 | for every table, exactly when one more completed checkout turns the recommendation on and when it turns it off |
| Funnel.CompletedRowCutsBothWays | src/ringsnap_ops_flow/deterministic/funnel_tracker.py:39-51 | both turns happen: a table for each |
| Funnel.StubRecommends | src/ringsnap_ops_flow/deterministic/funnel_tracker.py:151-159 | exactly for which thresholds the made-up data of a stub turns the recommendation on |

## Left out

- Contents of the configuration: the allowlist, the routing table, limits, thresholds, policy lists and validation commands are parameters, so every result holds for all of them; Pydantic, YAML and environment loading are not part of this model.
- The flows build their handlers without adapters, so as wired they take the stub branches; the model gives each handler a table that may be a stub, and the results about rows are about a live one.
- Threads: a task, a checkout, a recovery and a handler call are each one atomic step, as they contain no await; other processes writing to the same table or repository are not modelled.
- Crews and language-model output: the recovery crew's answer is an arbitrary value, and the lead score, the telemetry, logging, digest text and pull-request body are not modelled.
- Stripe, the SMS and e-mail clients, the webhook secret and HTTP handling: a call either works or raises, and sending a message is an arbitrary outcome. A writer call that fails is taken to have had no effect on the repository, and what the service itself refuses (a pull request without commits, say) is among the calls that may fail.
- The bodies of the stage helpers are placeholders in the source; each either succeeds or raises, and marking an account for manual review has no effect there and only shows in the trace.
- The database: ids are a primary key, so rows carry distinct nonempty ids and a new row gets an unused one; what it fills in for the columns a record leaves out is arbitrary.
- Row order: the database is taken to keep the order of rows, which "the first matching row" depends on; filters compare text columns only, and how it orders text is a parameter.
- `expire_stale_pending_signups`, `get_stalled_count`, the waste estimate, onboarding stall detection, the execution counters kept in the flow state and the payment handler's trial functions: stubs or single expressions that no property here needs.
- Floating point: rates, costs and thresholds are reals, so rounding is not modelled.
- Waiting between retries, and exceptions that are not ordinary errors.
- Gate.Config: the debounce interval is a natural number.
