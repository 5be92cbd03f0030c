# Simulated chaos engineering, modelled in Dafny

This project models the core of a chaos-engineering simulator written in
Python. The simulator runs a fleet of microservices, and each service owns a
dictionary of instances. A load balancer routes requests to those instances.
A monitoring system raises and resolves alerts, and the resilience patterns
(circuit breaker, bulkhead, retry, rate limiter, timeout, fallback) guard
calls. Chaos experiments (the Chaos Monkey, latency, resource exhaustion,
network partition, zone and region outages, the diagnostic "Doctor") break
things on purpose. Two experiment engines admit, run, stop and reap those
experiments under safety rules. Pure helpers validate and merge
configurations and compute percentiles, retries and truncation, and the
report analysis scores resilience and assesses risk.

The model has one Dafny module per source file, each in its own file:

| module | file | models |
|---|---|---|
| `Wrappers`, `Seqs` | wrappers.dfy, seqs.dfy | `Option`/`Result`, and facts about key lists kept in dictionary order |
| `Services` | services.dfy | core/service.py: instances, their lifecycle and requests; a service's dictionary, scaling and chaos primitives |
| `LoadBalancing` | load_balancing.dfy | core/load_balancer.py |
| `Monitoring` | monitoring.dfy | core/monitoring.py: metric series, alert rules, alert deduplication and resolution, health verdicts |
| `Patterns` | patterns.dfy | core/patterns.py |
| `ChaosMonkeys` | chaos_monkey.dfy | chaos/chaos_monkey.py |
| `Experiments` | experiments.dfy | chaos/experiments.py: the experiment lifecycle and the latency, resource and partition experiments |
| `Outages` | outages.dfy | chaos/experiments.py: the zone (`ChaosGorilla`) and region (`ChaosKong`) outages |
| `Diagnosis` | diagnosis.dfy | chaos/experiments.py: `DoctorMonkey` |
| `Runner` | runner.dfy | chaos/runner.py |
| `ExperimentsCore` | experiments_core.dfy | chaos_experiments_core.py |
| `Helpers` | helpers.dfy | utils/helpers.py: the pure helpers |
| `Reports` | reports.dfy | utils/reports.py: the analysis functions |

The model takes the form of the source:

- **Objects whose methods update fields are classes.** These are services,
  the load balancer, the metric collector and the alert manager, the
  patterns, the monkey, the experiments, the runner and the manager. Their
  methods state the whole new state in `ensures` clauses.
- **Loops are `while` loops with invariants.** Each such method is proved
  against a specification function, and the lemmas beside that function
  state what the source promises.
- **Pure code is functions and lemmas.** This covers the health score,
  the verdicts, the helpers and the report analysis.
- **Instances are values.** A service's instances live in a
  `map<string, Instance>`, and changing an instance in place is replacing
  its entry. Beside the map, the list `order` keeps the keys in Python's
  dictionary order.
- **Exceptions are `Result` values.**
- **Nondeterminism becomes parameters or choices.** Clock readings, the
  weekday and hour, random draws and generated ids are parameters. A random
  choice among eligible items is a parameter bounded by a `requires`, or a
  `:|` choice.
- **Background work becomes single steps.** Each background thread and
  timed loop is one step: `Tick`, `MonitorStep`, `Finish`.

Where the repository's documentation and its code disagree, the model follows
the code:

- `introduce_errors` caps the error probability at 1.0 (core/service.py:206-208).
- Auto-scaling is driven by the healthy count, not by CPU (core/service.py:366-378).
- Scale-down removes idle instances only while the count is above
  `min_instances`, so the count can end at the minimum (core/service.py:369-378).
- `least_connections` picks the most recently served instance (core/load_balancer.py:141-146).
- A resolved alert is never re-opened (core/monitoring.py:160).
- The runner's safety check admits a target with exactly `min_instances`
  healthy instances (chaos/runner.py:258-263).
- The Doctor's scan lists every instance that is not HEALTHY after its
  check as unhealthy, and never fills the degraded list, because that is how
  the code evaluates its conditions (chaos/experiments.py:526-535). The
  intended classification is defined beside it (see Findings).
- Some tests under tests/ expect other behaviour. They expect a default
  termination probability of 0.1, `add_instance` returning an id,
  `instance.recover()`, and `route_request` returning an instance. The model
  follows the code instead.

## Model

| member | source | states |
|---|---|---|
| Services.Clamp100 | core/service.py:140-141 | the CPU and memory samples are kept within [0, 100], and a value already in range is kept as is |
| Services.RecordResponse | core/service.py:125-145 | after a served request CPU and memory stay in [0, 100], the moving-average latency lies between the old average and the new sample, and uptime is measured from the start time |
| Services.RequestRefusedWhenDown | core/service.py:84-89 | an UNHEALTHY or TERMINATED instance raises ServiceException and its failure count and status are unchanged |
| Services.RequestOutcome | core/service.py:91-112 | a serving instance fails exactly when the draw is below its error probability, and then its failure count grows by exactly one; otherwise it answers with its own id and the measured response time |
| Services.HealthCheckTruthful | core/service.py:147-171 | a health check answers true exactly when the instance ends HEALTHY, never revives an UNHEALTHY or TERMINATED instance, and only moves a status to DEGRADED or HEALTHY |
| Services.TerminateIdempotent | core/service.py:187-190 | any status goes to TERMINATED, nothing else changes, and terminating twice equals terminating once |
| Services.RestartOnlyFromTerminated | core/service.py:173-185 | only a TERMINATED instance restarts; it ends HEALTHY with failure count 0 and a fresh start time, and any other instance is unchanged (also lines 192-199) |
| Services.ChaosKnobs | core/service.py:201-209 | added latency accumulates exactly and leaves the status alone; the error probability is capped at 1.0 and otherwise stored as given |
| Services.ServingIds | core/service.py:276-281 | the healthy list holds exactly the listed ids whose instance is HEALTHY or DEGRADED, in dictionary order, without duplicates |
| Services.ServingAfterStop | core/service.py:276-281 | turning one serving instance into a non-serving one removes exactly that id from the healthy list, so the healthy count drops by one (also lines 429-445) |
| Services.ServingUnchanged | core/service.py:276-281 | changing an instance that is not listed leaves the healthy list unchanged |
| Services.AllServing | core/service.py:276-281 | when every instance serves, the healthy list is the whole key list |
| Services.NoneServing | core/service.py:276-281 | when no instance serves, the healthy list is empty (also lines 461-466) |
| Services.ServingAll | core/service.py:276-281 | the healthy list is as long as the key list exactly when every listed instance serves |
| Services.HealthyCount | core/service.py:276-281 | the healthy count never exceeds the instance count, and equals it exactly when every instance serves (also lines 380-403) |
| Services.FirstIdle | core/service.py:369-378 | the chosen instance is listed and idle for more than 300 s; None means no listed instance is idle that long |
| Services.FindIdle | core/service.py:371-376 | the scan over the dictionary returns the first instance idle for more than 300 s |
| Services.UpdateKeepsWellFormed | core/service.py:253-264 | replacing an instance by one with the same identity keeps the dictionary and its key order in step |
| Services.AddKeepsWellFormed | core/service.py:253-264 | storing an instance under its own id appends a new key or keeps the existing position |
| Services.RemoveKeepsWellFormed | core/service.py:265-274 | deleting an id from the dictionary and from the key order keeps them in step |
| Services.InitialInstances | core/service.py:224-251 | the initial dictionary holds one HEALTHY instance per supplied id, in creation order |
| Services.ChangeEach | core/service.py:447-466 | a loop over the instances that changes each one leaves every entry equal to the change applied to its old value, with the same keys |
| Services.Service.constructor | core/service.py:224-251 | `min_instances = max(1, n // 2)`, `max_instances = 3n`, `target_instances = n`, exactly n HEALTHY instances, zero counters, auto-scaling on |
| Services.Service.AddInstance | core/service.py:253-263 | a new HEALTHY instance is stored under its id and the instance count grows by exactly one (a reused id replaces the old entry in place) |
| Services.Service.RemoveInstance | core/service.py:265-274 | returns true iff the id was present; afterwards the id is absent, the count dropped by one and no other instance changed |
| Services.Service.InstanceRequest | core/service.py:75-112 | the instance's request outcome as given by the per-instance model, stored back in the dictionary |
| Services.Service.HandleRequest | core/service.py:287-315 | with no healthy instance the error count grows by one and the call raises; otherwise one healthy instance serves, a success adds one request and its latency, a failure adds one error |
| Services.Service.ChaosTerminateRandomInstance | core/service.py:429-445 | returns None and changes nothing while healthy ≤ `min_instances`; otherwise terminates exactly one healthy instance, keeps it in the dictionary, and the healthy count drops by one |
| Services.Service.ChaosIntroduceLatency | core/service.py:447-452 | every instance's base latency grows by the given amount and nothing else changes |
| Services.Service.Shutdown | core/service.py:461-466 | every instance ends TERMINATED, stays in the dictionary, and no instance is healthy |
| Services.Service.AutoScaleIfNeeded | core/service.py:356-378 | nothing changes when auto-scaling is off; one instance is added iff healthy < min and total < max; otherwise at most one idle instance is removed, only while total > min |
| Services.Service.MetricsMeaning | core/service.py:380-427 | availability is the healthy share in percent, in [0, 100], and 100 exactly when every instance serves; the error rate divides errors by max(1, requests); the average response time times the requests served is the total response time, and 0 with no requests; a service without instances reports zero healthy instances, availability, average response time and error rate |
| Services.Service.AutoRestartInstance | core/service.py:342-354 | a still-present instance is restarted (a no-op unless TERMINATED); an absent id changes nothing |
| LoadBalancing.HealthScore | core/load_balancer.py:180-203 | the health score always lies in [0, 110]; an instance with no penalties scores 100, plus 10 after an hour of uptime |
| LoadBalancing.FailuresLowerScore | core/load_balancer.py:196-203 | each further failure lowers the score by exactly ten, floored at 0, so the score never rises with failures |
| LoadBalancing.FirstArgMax | core/load_balancer.py:148-158 | the chosen index carries a maximal key and every earlier index a strictly smaller one (the first element after a stable descending sort) |
| LoadBalancing.SelectIndex | core/load_balancer.py:108-131 | the selected index is always within the healthy list |
| LoadBalancing.SelectIndexMeaning | core/load_balancer.py:108-158 | round robin takes the cursor modulo the list length; health-based takes an instance with maximal score; least connections takes the most recently served instance; the random strategies take the draw |
| LoadBalancing.LoadBalancer.constructor | core/load_balancer.py:31-56 | a balancer starts with no services, no cursors and zero counters |
| LoadBalancing.LoadBalancer.RegisterService | core/load_balancer.py:58-63 | the service is stored under its name and its round-robin cursor is set to 0 |
| LoadBalancing.LoadBalancer.UnregisterService | core/load_balancer.py:65-71 | the service and its cursor are removed; an unknown name changes nothing |
| LoadBalancing.LoadBalancer.UpdateMetrics | core/load_balancer.py:205-213 | every call counts one request; a success adds its latency and a failure one error |
| LoadBalancing.LoadBalancer.SelectInstance | core/load_balancer.py:108-139 | None when no instance is healthy; otherwise the instance the strategy selects, and round robin stores `(c + 1) mod n` as the new cursor |
| LoadBalancing.LoadBalancer.RouteRequest | core/load_balancer.py:73-106 | an unknown service or one with no healthy instance raises, serves no instance and counts one request and one error; otherwise the instance chosen is the one the strategy selects among the healthy instances, it serves the request, and the success counts one request and its latency and is tagged with the balancer's name, strategy and response time; only a round-robin route advances that service's cursor, by one modulo the healthy count; the error count grows iff the call fails; the service's order, counters and every other service are untouched (also lines 205-213) |
| LoadBalancing.LoadBalancer.Dispatch | core/load_balancer.py:73-101 | the routing step before the metrics: the same errors for an unknown service and for one with no healthy instance; otherwise the strategy's choice among the healthy instances serves the request and its result is returned; only round robin moves the cursor, by one modulo the healthy count |
| LoadBalancing.LoadBalancer.AvailabilityMeaning | core/load_balancer.py:277-288 | every availability lies in [0, 100]; an empty service is at 0, and a non-empty one is at 100 exactly when all its instances serve |
| LoadBalancing.LoadBalancer.ChaosRemoveService | core/load_balancer.py:290-303 | false for an unknown name; otherwise every instance of the service is TERMINATED, the service stays registered, and its order and counters are untouched |
| LoadBalancing.LoadBalancer.ChaosDegradeService | core/load_balancer.py:305-317 | false for an unknown name; otherwise every instance's base latency becomes base × factor, the other instance fields, the service's order and counters and every other service are untouched |
| Monitoring.InWindow | core/monitoring.py:57-67 | the window holds exactly the points stamped at or after the cutoff, in order, and never more points than the series |
| Monitoring.SumWithin | core/monitoring.py:76-82 | a sum of n values that lie within [lo, hi] lies within [n·lo, n·hi] |
| Monitoring.MeanOfWithin | core/monitoring.py:76-82 | the mean of values that lie within [lo, hi] lies within [lo, hi] |
| Monitoring.MetricCollector.constructor | core/monitoring.py:42-45 | a collector starts with no series and the given maximum of points per series |
| Monitoring.MetricCollector.AddMetric | core/monitoring.py:47-55 | the point is appended to its series; a full series drops its oldest point, so no series exceeds the maximum; afterwards the latest value is the one just added |
| Monitoring.MetricCollector.Latest | core/monitoring.py:69-74 | None exactly when the series is empty, otherwise the value of the last point |
| Monitoring.MetricCollector.Average | core/monitoring.py:76-82 | None exactly when no point lies in the time window |
| Monitoring.MetricCollector.AverageWithin | core/monitoring.py:57-82 | the average is the mean of the window's points and lies between any bounds of their values |
| Monitoring.RuleOf | core/monitoring.py:143-150 | a rule is accepted iff name, metric, threshold, operator, severity and message are all present, and it keeps the submitted fields; otherwise ValueError |
| Monitoring.EvaluateMeaning | core/monitoring.py:185-203 | `>=` is `>` or `==`, `<=` is `<` or `==`, `!=` negates `==`, `<` and `>=` never agree, and any other operator never fires |
| Monitoring.AlertIdsDiffer | core/monitoring.py:158 | distinct instances of one service get distinct alert ids for the same rule, and differ from the service-level id |
| Monitoring.CheckRule | core/monitoring.py:152-183 | one rule step keeps the alerts dictionary and its key order in step |
| Monitoring.CheckRules | core/monitoring.py:152-183 | a whole check keeps the alerts dictionary and its key order in step |
| Monitoring.CheckRuleMeaning | core/monitoring.py:152-183 | a rule step creates an alert exactly when the metric matches, the rule fires and the id is new; it resolves exactly when the metric matches, the rule is quiet and the alert is open, stamping the time; nothing else changes |
| Monitoring.CheckRulesKeeps | core/monitoring.py:152-183 | a check never removes an alert, only resolves open ones, and never changes a resolved one |
| Monitoring.ResolvedIsFinal | core/monitoring.py:160 | a resolved alert is neither re-opened nor replaced by a later breach with the same id (also lines 177-183) |
| Monitoring.OpenAlerts | core/monitoring.py:221-223 | the result holds exactly the unresolved alerts of the dictionary, in dictionary order |
| Monitoring.AlertManager.constructor | core/monitoring.py:87-141 | a manager starts with no alerts and the default rules |
| Monitoring.AlertManager.AddAlertRule | core/monitoring.py:143-150 | a complete rule is appended; an incomplete one raises ValueError and leaves the rules unchanged |
| Monitoring.AlertManager.CheckMetric | core/monitoring.py:152-183 | the alerts become those of the rules applied in list order, and the check keeps every alert, resolving only open ones |
| Monitoring.AlertManager.ActiveAlertsMeaning | core/monitoring.py:221-223 | an alert is active exactly when it is stored and unresolved |
| Monitoring.CountCritical | core/monitoring.py:414-415 | the critical count never exceeds the number of alerts and is 0 exactly when no alert is CRITICAL |
| Monitoring.VerdictsAgree | core/monitoring.py:409-431 | the overview and the system status agree: CRITICAL iff some active alert is CRITICAL, HEALTHY iff there is no active alert, DEGRADED only above 5 alerts, WARNING only with 1 to 5 (also lines 585-597) |
| Monitoring.StatusOf | core/monitoring.py:503-527 | a service is HEALTHY iff its availability is above 90, DEGRADED iff it is above 50 and at most 90, else CRITICAL |
| Monitoring.ServiceHealthReport | core/monitoring.py:503-527 | one entry per service, whose status is the verdict on its availability and which carries its availability and its healthy and total instance counts |
| Patterns.OpenBlocks | core/patterns.py:61-71 | an OPEN breaker whose timeout has not passed does not invoke the function; it counts one more request and one more block and changes nothing else (also lines 106-111) |
| Patterns.OpenToHalfOpen | core/patterns.py:106-111 | an OPEN breaker invokes the function iff a failure time is set and the timeout has passed; the call then runs in HALF_OPEN with a fresh success count, a success may close it and an expected failure re-opens it (also lines 119-124) |
| Patterns.Recording | core/patterns.py:73-104 | a success clears the failure count; an expected failure in CLOSED opens the breaker exactly when the count reaches the threshold, and in HALF_OPEN always re-opens it; an unexpected exception records nothing |
| Patterns.HalfOpenCloses | core/patterns.py:83-91 | HALF_OPEN closes after `success_threshold` successes, zeroing both counters; before that it stays HALF_OPEN and counts the success (also lines 126-132) |
| Patterns.CallKeepsAccounted | core/patterns.py:57-104 | successes, recorded failures and blocks together never exceed the total number of requests, and every call keeps this |
| Patterns.CircuitBreaker.constructor | core/patterns.py:37-55 | a breaker starts CLOSED with every counter at 0 and no failure time |
| Patterns.CircuitBreaker.Call | core/patterns.py:57-81 | the breaker's fields, the result and whether the function ran are those of the call model above |
| Patterns.CircuitBreaker.CheckStateTransition | core/patterns.py:106-124 | an OPEN breaker whose timeout has passed goes HALF_OPEN with a zero success count; any other breaker is unchanged |
| Patterns.CircuitBreaker.RecordSuccessOf | core/patterns.py:83-91 | the success is recorded as in the call model |
| Patterns.CircuitBreaker.RecordFailureOf | core/patterns.py:93-104 | the failure is recorded as in the call model |
| Patterns.CircuitBreaker.Reset | core/patterns.py:153-161 | the breaker is CLOSED with zero failure and success counts and no failure time; the request counters are kept |
| Patterns.Bulkhead.constructor | core/patterns.py:169-182 | a bulkhead starts with no calls in progress and zero counters |
| Patterns.Bulkhead.Enter | core/patterns.py:184-200 | every call is counted; it is admitted iff a permit is free, and a rejection adds one to `rejected_calls` |
| Patterns.Bulkhead.Leave | core/patterns.py:202-230 | the outcome is counted as a success or a failure and the permit is released |
| Patterns.Bulkhead.Execute | core/patterns.py:184-230 | a rejected call raises BulkheadFullException and adds one to `rejected_calls`; the function runs iff a permit was free; afterwards `current_calls` is back to its prior value |
| Patterns.Backoff | core/patterns.py:317-320 | the backoff is `base · factor^attempt` or `max_delay`, whichever is smaller |
| Patterns.Delay | core/patterns.py:317-327 | the delay is never negative and without jitter equals the capped backoff |
| Patterns.DelayBounds | core/patterns.py:317-327 | jitter moves a non-negative backoff by at most 10%, so the delay stays within 90% and 110% of it |
| Patterns.JitterBounds | core/patterns.py:322-327 | a value moved by up to ±10% of itself and floored at 0 lies within [0.9d, 1.1d] |
| Patterns.FirstSuccess | core/patterns.py:289-300 | the index found is the first successful attempt; None means every attempt considered failed |
| Patterns.RetryPolicy.constructor | core/patterns.py:270-284 | a policy keeps its settings and starts with zero counters |
| Patterns.RetryPolicy.Execute | core/patterns.py:286-315 | the function is called at most `max_attempts` times; the first success is returned and counts as a successful retry iff it came after the first attempt; otherwise the last exception is raised and one failed retry is counted; there is one delay between consecutive attempts |
| Patterns.TruncToInt | core/patterns.py:347 | Python's `int` truncates toward zero |
| Patterns.BurstSize | core/patterns.py:347 | a given non-zero burst size is kept; otherwise it is `int(rate · 2)` |
| Patterns.Refill | core/patterns.py:378-385 | the refilled bucket never exceeds the burst size and never loses tokens unless it was over the cap |
| Patterns.RateLimiter.constructor | core/patterns.py:344-359 | the bucket starts full at the burst size, with zero counters |
| Patterns.RateLimiter.Acquire | core/patterns.py:361-385 | after the refill, the request is allowed iff the bucket holds enough tokens, which are then taken; tokens stay within [0, burst] and allowed + denied = total |
| Patterns.EffectiveTimeout | core/patterns.py:426 | a missing or zero timeout means the default timeout |
| Patterns.TimeoutPattern.constructor | core/patterns.py:408-418 | a timeout wrapper starts with zero counters |
| Patterns.TimeoutPattern.Execute | core/patterns.py:420-443 | a call in time returns its value or raises its own error; a call past the deadline raises the timeout error; exactly one of the success, timeout and failure counters moves |
| Patterns.FirstFallback | core/patterns.py:500-517 | the fallback chosen is the first whose condition applies and that succeeds; None means every fallback was skipped or failed |
| Patterns.CountApplyingAppend | core/patterns.py:502-504 | the number of fallbacks called grows by one exactly for each fallback whose condition applies |
| Patterns.FallbackPattern.constructor | core/patterns.py:467-477 | a fallback chain starts with no strategies and zero counters |
| Patterns.FallbackPattern.AddFallback | core/patterns.py:479-487 | one more strategy is registered, after the existing ones |
| Patterns.FallbackPattern.Execute | core/patterns.py:489-519 | the primary's value when it succeeds; otherwise the value of the first fallback in registration order whose condition applies and that succeeds; otherwise the primary's exception; each applying fallback tried is counted |
| Patterns.PresentFacts | core/patterns.py:606-645 | keeping the configured layers of an ordered list keeps their order and drops exactly the others |
| Patterns.PositionInFull | core/patterns.py:606-645 | each layer sits at its own position in the fixed nesting |
| Patterns.NestingOrder | core/patterns.py:606-645 | the layers applied are exactly the configured ones, nested as fallback ⊃ retry ⊃ circuit breaker ⊃ timeout ⊃ rate limiter ⊃ bulkhead ⊃ function |
| ChaosMonkeys.ConfigureOnlyPresent | chaos/chaos_monkey.py:87-140 | every key absent from the configuration keeps its previous value, a present excluded-services list becomes a set, an empty configuration changes nothing, and applying the same configuration twice equals applying it once |
| ChaosMonkeys.Lower | chaos/chaos_monkey.py:254-255 | lower-casing keeps the length and folds each ASCII capital letter, leaving every other character as it is |
| ChaosMonkeys.DayAllowed | chaos/chaos_monkey.py:253-257 | today is allowed iff some configured day, lower-cased, equals it |
| ChaosMonkeys.ChaosTimeMeaning | chaos/chaos_monkey.py:236-266 | it is chaos time iff the monkey is enabled, today is an allowed day (case-insensitively), and start ≤ hour < end; a disabled monkey is never in chaos time |
| ChaosMonkeys.Since | chaos/chaos_monkey.py:517-524 | the records kept are exactly the history's records stamped at or after the cutoff |
| ChaosMonkeys.KeepLastAppend | chaos/chaos_monkey.py:402-406 | capping the history after every append equals capping once at the end |
| ChaosMonkeys.OutageStep | chaos/chaos_monkey.py:588-597 | each successful termination of the outage loop takes one more distinct healthy instance, while more than the minimum are healthy |
| ChaosMonkeys.OutageStops | chaos/chaos_monkey.py:588-599 | an outage stopped by a refusal has terminated exactly all healthy instances above the minimum |
| ChaosMonkeys.OutageEnds | chaos/chaos_monkey.py:588-597 | an outage that used all its attempts terminated exactly `min(bound, healthy − min)` instances |
| ChaosMonkeys.TerminateRandom | core/service.py:429-445 | the service terminates one healthy instance exactly when it has more than its minimum healthy; otherwise nothing changes |
| ChaosMonkeys.ChaosMonkey.constructor | chaos/chaos_monkey.py:37-85 | a new monkey is disabled, not running, with weekday 9–17 hours, minimum 1, probability 0.3, no targets, an empty history and zero counters |
| ChaosMonkeys.ChaosMonkey.Configure | chaos/chaos_monkey.py:87-140 | the settings become the configured settings above |
| ChaosMonkeys.ChaosMonkey.RegisterService | chaos/chaos_monkey.py:146-163 | an excluded name is not registered; any other name is registered under that name |
| ChaosMonkeys.ChaosMonkey.UnregisterService | chaos/chaos_monkey.py:165-170 | the name is no longer a target |
| ChaosMonkeys.ChaosMonkey.ExcludeService | chaos/chaos_monkey.py:544-557 | the name joins the excluded set and is removed from the targets; nothing else changes |
| ChaosMonkeys.ChaosMonkey.ReInclude | chaos/chaos_monkey.py:559-562 | the deferred step removes the name from the excluded set |
| ChaosMonkeys.ChaosMonkey.DisableTemporarily | chaos/chaos_monkey.py:526-534 | the monkey is disabled and the previous enabled flag is returned for the deferred re-enable |
| ChaosMonkeys.ChaosMonkey.ReEnable | chaos/chaos_monkey.py:536-539 | the deferred step restores the saved enabled flag |
| ChaosMonkeys.ChaosMonkey.Start | chaos/chaos_monkey.py:172-194 | the monkey runs afterwards iff it was already running or is enabled |
| ChaosMonkeys.ChaosMonkey.Stop | chaos/chaos_monkey.py:196-209 | the monkey is no longer running |
| ChaosMonkeys.ChaosMonkey.AddTerminationCallback | chaos/chaos_monkey.py:483-488 | one more termination callback is registered |
| ChaosMonkeys.ChaosMonkey.SelectTargetService | chaos/chaos_monkey.py:304-339 | None iff no registered service has more healthy instances than `min_healthy_instances`; otherwise such a service |
| ChaosMonkeys.ChaosMonkey.TerminateInstance | chaos/chaos_monkey.py:341-374 | the service terminates one healthy instance or refuses; a success adds one to `successful_terminations`, a refusal one to `blocked_terminations` |
| ChaosMonkeys.ChaosMonkey.RecordTermination | chaos/chaos_monkey.py:376-408 | `total_terminations` grows by one, the time is recorded, and the record is appended to the history, which never exceeds 100 entries, the oldest dropped first |
| ChaosMonkeys.ChaosMonkey.TerminationHistory | chaos/chaos_monkey.py:517-524 | exactly the records stamped at or after now − 3600·hours |
| ChaosMonkeys.ChaosMonkey.Strike | chaos/chaos_monkey.py:285-302 | one termination attempt on a target: a success is counted, recorded and notified to every callback when asked; a refusal is counted as blocked and recorded nowhere else (also lines 450-462) |
| ChaosMonkeys.ChaosMonkey.ForceChaos | chaos/chaos_monkey.py:410-481 | `error` when disabled, when the named service is unregistered, or when no service is eligible, and then nothing changes; `success` when an instance is terminated, which is counted, recorded and notified; `blocked` otherwise; no other service is touched |
| ChaosMonkeys.ChaosMonkey.Tick | chaos/chaos_monkey.py:211-234 | outside chaos time, when the draw exceeds the probability, or with no eligible service the outcome is idle and nothing changes; otherwise an eligible service is struck and every other target is untouched: when it gives up an instance the termination is recorded in the history (the last 100), the success and total counters and the last termination time move and the callbacks are notified; when it refuses (at its minimum) only the blocked counter grows (also lines 236-302) |
| ChaosMonkeys.ChaosMonkey.SimulateOutage | chaos/chaos_monkey.py:568-606 | `error` and no change when disabled, when the named service is not registered, or when none is named and no service is eligible; a named registered service is the one struck, otherwise the random eligible pick `chosen`; in that service at most `min(instance_count, max_instances_to_kill)` distinct healthy instances are terminated, stopping at the first refusal; exactly the returned ids are now TERMINATED, every other instance and every id stays as it was, and every other service is unchanged; each termination is counted and recorded, and the last termination time is `now` when any was taken and as before otherwise; callbacks are not notified |
| ChaosMonkeys.ChaosMonkey.OutageTarget | chaos/chaos_monkey.py:577-583 | the named service if registered; with no name, the random pick `chosen` when it is registered; None otherwise |
| ChaosMonkeys.ChaosMonkey.TerminateUpTo | chaos/chaos_monkey.py:588-597 | the loop terminates `min(bound, healthy − min)` distinct healthy instances; exactly those ids are now TERMINATED and every other instance, id and service is unchanged; each termination is counted and recorded, the last termination time is `now` when any was taken, and one block is counted when it stopped early |
| ChaosMonkeys.ChaosMonkey.OutageRound | chaos/chaos_monkey.py:588-597 | one pass of the outage loop: a success extends the terminated ids by one healthy instance, now TERMINATED, counted and recorded; a refusal happens only at the service's minimum and is counted as a block |
| Experiments.Experiment.constructor | chaos/experiments.py:37-58 | a new experiment is PENDING with no start or end time, no error and no stop request |
| Experiments.Experiment.Start | chaos/experiments.py:60-74 | succeeds iff the experiment was PENDING; it is then RUNNING with its start time set; otherwise nothing changes and the answer is false |
| Experiments.Experiment.Stop | chaos/experiments.py:76-86 | the stop flag is set; a RUNNING experiment becomes CANCELLED with its end time; any other keeps its status and end time |
| Experiments.Experiment.Finish | chaos/experiments.py:88-100 | an exception gives FAILED with its message; a normal return gives COMPLETED unless a stop was requested; the end time is set and `cleanup` runs exactly once on every path |
| Experiments.Experiment.Runtime | chaos/experiments.py:110-116 | the runtime exists iff a start time is set, and is measured to the end time, or to now while there is none |
| Experiments.RuntimeSettles | chaos/experiments.py:110-116 | once an experiment has an end time its runtime no longer depends on the clock |
| Experiments.BaseLatencies | chaos/experiments.py:152-154 | one saved latency per instance of the service |
| Experiments.Jitter | chaos/experiments.py:167-176 | the momentary latency `latency + offset` is never negative, and an offset that keeps it non-negative is used as drawn |
| Experiments.LatencyRoundTrip | chaos/experiments.py:145-198 | whatever the experiment does to an instance's base latency, restoring from the saved values gives the instance back unchanged |
| Experiments.SaveLatencies | chaos/experiments.py:152-154 | the loop saves the base latency of every instance, adding to what was saved before |
| Experiments.LatencyMonkey.constructor | chaos/experiments.py:137-143 | a latency experiment starts with nothing saved and no affected requests |
| Experiments.LatencyMonkey.Execute | chaos/experiments.py:145-161 | an unregistered target raises ValueError; otherwise every instance's original base latency is saved and every instance slows by `latency_ms` |
| Experiments.LatencyMonkey.Tick | chaos/experiments.py:167-181 | one round: a negative variance raises (`randint` with an empty range) and changes nothing; with no healthy instance nothing changes; otherwise one healthy instance gets the clipped offset added and the affected-request count grows by one |
| Experiments.LatencyMonkey.Cleanup | chaos/experiments.py:188-198 | every instance still present whose latency was saved gets that latency back; nothing else changes |
| Experiments.ExhaustionAndRecovery | chaos/experiments.py:236-274 | exhaustion marks the instance DEGRADED exactly when the level is above 0.95 and never lowers a non-negative latency; the recovery then leaves a degraded instance HEALTHY; neither step changes the instance's identity |
| Experiments.RecoverAllEffects | chaos/experiments.py:257-274 | after the recovery loop the keys are the same, unaffected instances are untouched, and each affected one has drawn metrics and latency in range and DEGRADED turned into HEALTHY |
| Experiments.RecoverListed | chaos/experiments.py:262-272 | the loop applies the recovery to each affected id still present |
| Experiments.ResourceExhaustionMonkey.constructor | chaos/experiments.py:205-212 | a resource experiment starts with no affected instance |
| Experiments.ResourceExhaustionMonkey.Execute | chaos/experiments.py:214-227 | an unregistered target, or one with no healthy instance, raises ValueError and records nothing; otherwise one healthy instance is recorded as affected |
| Experiments.ResourceExhaustionMonkey.Tick | chaos/experiments.py:234-248 | one round exhausts the target instance as described above, if it is still present |
| Experiments.ResourceExhaustionMonkey.Cleanup | chaos/experiments.py:257-274 | each affected instance still present recovers as described above |
| Experiments.IsolationCount | chaos/experiments.py:300-307 | a partial partition isolates `max(1, n // 3)` of n healthy instances and a complete one all of them; always between 1 and n when n ≥ 1 |
| Experiments.PartitionRoundTrip | chaos/experiments.py:310-342 | isolation sets error probability 0.8 and adds 10000 ms; reconnection resets the error probability to 0.01 and the latency to the draw; neither touches the status |
| Experiments.ReconnectAllEffects | chaos/experiments.py:330-342 | after the reconnection loop the keys are the same, other instances are untouched, and each isolated instance has error probability 0.01 and a latency in [50, 200] |
| Experiments.ReconnectListed | chaos/experiments.py:335-340 | the loop reconnects each isolated id still present |
| Experiments.NetworkPartitionMonkey.constructor | chaos/experiments.py:281-286 | a partition experiment starts with no isolated instance |
| Experiments.NetworkPartitionMonkey.Execute | chaos/experiments.py:288-315 | an unregistered target, or one with no healthy instance, raises and changes nothing; otherwise exactly `IsolationCount` distinct healthy instances are isolated and recorded, and no other instance changes |
| Experiments.NetworkPartitionMonkey.Cleanup | chaos/experiments.py:330-342 | each isolated instance still present is reconnected as described above |
| Outages.WholeServiceOrNothing | chaos/experiments.py:362-368 | since every instance of a well-formed service sits in the service's region, an outage takes all of a service's instances or none of them |
| Outages.TerminateInRegion | chaos/experiments.py:365-368 | the dictionary keeps its ids; exactly the instances in the failing region are terminated, the rest are untouched, and the ids returned are those terminated, in dictionary order |
| Outages.DownMap | chaos/experiments.py:365-368 | the dictionary after an outage has the same ids as before |
| Outages.DownService | chaos/experiments.py:362-368 | the service stays well-formed with its in-region instances terminated, and the ids returned are all of its ids when it is in the region and none otherwise |
| Outages.HitMeaning | chaos/experiments.py:361-372 | a service is listed as affected iff it is one of the services and had an instance in the region; the list has no repeats |
| Outages.Spawned | chaos/experiments.py:400-410 | the instances added at recovery are keyed by exactly the drawn ids |
| Outages.SpawnedMeaning | chaos/experiments.py:400-410 | with fresh, distinct ids the service gains exactly one instance per terminated one, keeps every old instance as it was, and each new one is the healthy instance built from its draw |
| Outages.SpawnedSize | chaos/experiments.py:406-410 | recovery grows the dictionary by exactly the number of terminated ids |
| Outages.SpawnedAt | chaos/experiments.py:408-410 | every draw's instance is present after recovery and is the instance `add_instance` builds from it |
| Outages.Respawn | chaos/experiments.py:408-410 | calling `add_instance` once per draw leaves the service well-formed and holding its old instances plus exactly the spawned ones |
| Outages.DownAll | chaos/experiments.py:361-372 | every service has its instances in the region terminated; the affected list and the terminated-ids record are those the outage hits, with each service's ids as they were before |
| Outages.Record | chaos/experiments.py:361-372 | the affected list is the services hit, in dictionary order, and the record maps each of them to its terminated ids (also lines 430-440) |
| Outages.RespawnAll | chaos/experiments.py:400-410 | each affected service gains its spawned instances and every other service is left unchanged |
| Outages.RegionFailure.constructor | chaos/experiments.py:350-356 | a new zone or region outage has its target and an empty affected list and record (also lines 420-424) |
| Outages.RegionFailure.Execute | chaos/experiments.py:358-372 | every instance in the target zone or region is terminated, and the affected services and terminated ids are recorded exactly as the outage hit them (also lines 426-440) |
| Outages.RegionFailure.Cleanup | chaos/experiments.py:400-410 | after a zone outage each affected service gains one new instance per terminated one; after a region outage no service changes (also lines 458-461) |
| Diagnosis.DegradedNeverListed | chaos/experiments.py:526-535 | as written, no instance is ever listed as degraded, whatever the health check's draws (see Findings) |
| Diagnosis.DegradedReportedUnhealthy | chaos/experiments.py:526-535 | as written, a DEGRADED instance that neither flaps nor recovers stays DEGRADED yet is listed as unhealthy (see Findings) |
| Diagnosis.EvaluateMeaning | chaos/experiments.py:526-535 | after its health check an instance is counted healthy iff it is HEALTHY and listed degraded iff it is DEGRADED; this agrees with the code as written exactly on the instances that are not DEGRADED |
| Diagnosis.JudgeMatches | chaos/experiments.py:526-535 | the scan's verdict, as the code evaluates it, on an instance's status after its check is the verdict on the check's own answer: counted healthy iff it is HEALTHY, listed unhealthy otherwise |
| Diagnosis.TallyPartition | chaos/experiments.py:514-535 | a service's report counts all its instances, and the healthy count plus the unhealthy and degraded lists add up to the number of instances checked |
| Diagnosis.TallyMembers | chaos/experiments.py:514-535 | as the code evaluates it, an instance is in the unhealthy list iff it was checked and is not HEALTHY, so a DEGRADED one is listed unhealthy, and the degraded list stays empty |
| Diagnosis.NotedMeaning | chaos/experiments.py:529-531 | the doctor's list of unhealthy instances keeps what it held in place, gains exactly the new ids and never holds one twice |
| Diagnosis.NotedConcat | chaos/experiments.py:493-496 | noting the ids of two services one after the other is noting them joined (also lines 529-531) |
| Diagnosis.TallyChecked | chaos/experiments.py:514-549 | the service's report over its checked instances, in dictionary order, is the one `Tally` defines |
| Diagnosis.NoteAll | chaos/experiments.py:529-531 | the doctor's list after noting a service's unhealthy ids is the one `Noted` defines |
| Diagnosis.CheckHealthOf | chaos/experiments.py:522-523 | the service stays valid and each of its instances is as its own health check left it |
| Diagnosis.ScanAll | chaos/experiments.py:498-507 | every service's instances are health-checked with its own draws; the scan has one entry per service in dictionary order, each the report on that service; the doctor's list gains its unhealthy ids (also lines 526-531) |
| Diagnosis.CheckAll | chaos/experiments.py:504-506 | every service's instances are as their health checks left them (also lines 522-523) |
| Diagnosis.Report | chaos/experiments.py:498-507 | the scan's entries are the reports on the checked services, in order, and the doctor's list gains their unhealthy ids |
| Diagnosis.ScanConsistent | chaos/experiments.py:498-535 | in a scan of well-formed services every entry's healthy count and lists add up to the service's instance count |
| Diagnosis.GradeMonotone | chaos/experiments.py:566-571 | more availability never grades the system worse |
| Diagnosis.TotalsPartition | chaos/experiments.py:558-561 | over a consistent scan the total instance count is the healthy plus unhealthy plus degraded counts |
| Diagnosis.SummaryMeaning | chaos/experiments.py:551-578 | a summary exists iff a scan was made; its availability is a percentage, its totals partition the instances, all healthy means 100% and HEALTHY, and none healthy means CRITICAL |
| Diagnosis.LastReports | chaos/experiments.py:489 | the kept reports are the last five, or all when there are fewer, in order |
| Diagnosis.DoctorMonkey.constructor | chaos/experiments.py:469-473 | a new doctor has no reports and no unhealthy instances |
| Diagnosis.DoctorMonkey.RunSingleHealthScan | chaos/experiments.py:493-507 | every service is scanned with its own draws; the scan's report, with its number and time, is appended, and the doctor's list gains exactly the unhealthy ids not yet in it |
| Diagnosis.DoctorMonkey.Results | chaos/experiments.py:486-491 | the results carry the scan count, the number of unique unhealthy instances, the last five reports and a summary present iff a scan was made |
| Runner.SuccessRate | chaos/runner.py:382 | the success rate is a percentage when successes never exceed the total; it is 100 iff every experiment succeeded, and 0 with no success |
| Runner.RatioBelowHundred | chaos/runner.py:382 | a share of successes out of a positive total is between 0 and 100, and exactly 100 iff all succeeded |
| Runner.StopEach | chaos/runner.py:230-238 | every experiment of the set is stopped: its stop flag is raised and a RUNNING one becomes CANCELLED at the current time (also lines 463-468) |
| Runner.ExperimentRunner.constructor | chaos/runner.py:34-66 | a new runner is IDLE with no services, no experiments and no history, safety checks and confirmation on, dry run off, no callbacks for the four event types and all counters at zero |
| Runner.ExperimentRunner.RegisterService | chaos/runner.py:68-72 | the service is registered under its name, replacing any earlier one |
| Runner.ExperimentRunner.SetSafetyMode | chaos/runner.py:74-80 | the three safety settings take the given values |
| Runner.ExperimentRunner.RegisterExperiment | chaos/runner.py:165-172 | the experiment becomes active under its id and is counted once, before any start |
| Runner.ExperimentRunner.CreateExperiment | chaos/runner.py:82-163 | a new PENDING experiment named `name-id`, with the kind's type, target and duration, becomes active under the id and is counted |
| Runner.ExperimentRunner.SafetyRules | chaos/runner.py:240-285 | the safety check refuses with no service registered, with a named target unregistered or below `min_instances` healthy instances, a zone outage while a zone or region outage runs, a region outage while confirmation is required, and admits every other case |
| Runner.ExperimentRunner.StartExperiment | chaos/runner.py:174-215 | the answer is true iff the id is known, passes the safety check when checks are on, fewer than three experiments run and (outside dry run) the experiment was PENDING; a real start makes it RUNNING, starts its monitor and notifies `on_start`; otherwise nothing changes |
| Runner.ExperimentRunner.ForceExperiment | chaos/runner.py:287-302 | the start succeeds under the rules of `start_experiment` without safety checks or confirmation, a real start starts its monitor, and both settings are restored afterwards |
| Runner.ExperimentRunner.StopExperiment | chaos/runner.py:217-228 | the answer is true iff the id is known, and then that experiment is stopped |
| Runner.ExperimentRunner.StopAllExperiments | chaos/runner.py:230-238 | every active experiment is stopped |
| Runner.ExperimentRunner.EmergencyStop | chaos/runner.py:456-471 | every active experiment is stopped and the runner ends IDLE |
| Runner.ExperimentRunner.AddCallback | chaos/runner.py:347-352 | a known event type gains one callback; an unknown one changes nothing |
| Runner.ExperimentRunner.MonitorStep | chaos/runner.py:304-337 | only an experiment whose monitor was started is reaped, and only once it is no longer RUNNING: it leaves the active set, the started set and joins the history, capped at the last 50; COMPLETED counts a success and FAILED a failure, with the matching callbacks notified; a RUNNING, never-started or unknown one changes nothing |
| Runner.ExperimentRunner.ExperimentStatus | chaos/runner.py:354-364 | an active experiment's own status; otherwise the first history record whose name ends with the id, and none exactly when no record's name does |
| Runner.ExperimentRunner.Overview | chaos/runner.py:366-384 | every active experiment's status, the last ten history records in order, and a success rate between 0 and 100 |
| Runner.FirstEndingWith | chaos/runner.py:359-364 | the first record whose name ends with the id, in history order, or none exactly when none does |
| ExperimentsCore.Decimal | chaos_experiments_core.py:339 | the decimal form of a number is a non-empty string of digits |
| ExperimentsCore.DecimalRoundTrip | chaos_experiments_core.py:339 | reading back the decimal digits of a number gives the number |
| ExperimentsCore.IdsDiffer | chaos_experiments_core.py:149 | two ids `name-n` built from the same name are equal iff they are built from the same number (also line 339) |
| ExperimentsCore.MakeResult | chaos_experiments_core.py:58-74 | a result keeps the fields it is given and has a duration iff the end time is set and the start time is non-zero, and then start plus duration is the end |
| ExperimentsCore.GradeMonotone | chaos_experiments_core.py:294-305 | more overall health never gives a worse verdict; CRÍTICO means below 50 and EXCELENTE at least 90 |
| ExperimentsCore.Survey | chaos_experiments_core.py:277-292 | the loop adds up exactly the instance and serving totals over the services, and records each service's entry |
| ExperimentsCore.ServingWithinService | chaos_experiments_core.py:280-281 | a well-formed service never has more serving instances than instances |
| ExperimentsCore.HealthyWithinTotal | chaos_experiments_core.py:290-296 | the serving total never exceeds the instance total, and equals it iff every service has all its instances serving |
| ExperimentsCore.DiagnoseMeaning | chaos_experiments_core.py:269-314 | the overall health is a percentage, 100 iff every instance serves, 0 and CRÍTICO with no instances; every service has its own entry |
| ExperimentsCore.BaseExperiment.constructor | chaos_experiments_core.py:83-97 | an experiment whose named target exists starts PENDING, stamped with the current time, with nothing recorded and no stop requested |
| ExperimentsCore.BaseExperiment.Start | chaos_experiments_core.py:99-113 | only a PENDING experiment starts; it is then RUNNING with a new start time, and otherwise nothing changes |
| ExperimentsCore.BaseExperiment.Stop | chaos_experiments_core.py:115-121 | the stop flag is raised; a RUNNING experiment becomes CANCELLED at the current time, any other keeps its status and end time |
| ExperimentsCore.BaseExperiment.Finish | chaos_experiments_core.py:123-136 | an exception gives FAILED with its error; a normal end gives COMPLETED unless a stop was requested; the end time is set and `cleanup` runs once either way |
| ExperimentsCore.BaseExperiment.ResultUnder | chaos_experiments_core.py:146-158 | the result carries the experiment's name, status, results and error under the given id, with a duration exactly when both times are set |
| ExperimentsCore.BaseExperiment.ExecuteLatency | chaos_experiments_core.py:166-195 | a missing target raises and records nothing; otherwise every instance is slowed by `latency_ms` (500 by default) while the experiment waits, the dictionary ends as it began, and the results name the target, the latency and the instances affected |
| ExperimentsCore.BaseExperiment.ExecuteTermination | chaos_experiments_core.py:200-223 | a missing named target or an empty service map raises; with no more serving instances than the minimum it raises and changes nothing; otherwise exactly the picked serving instance is terminated and the results report it and one fewer serving instance |
| ExperimentsCore.BaseExperiment.ExecuteHealthCheck | chaos_experiments_core.py:269-314 | the results are the health report `Diagnose` defines over all services |
| ExperimentsCore.SlowThenRestore | chaos_experiments_core.py:172-190 | while the experiment waits each instance is slowed by exactly the added latency; afterwards the dictionary is as it began and the count of affected instances is its size |
| ExperimentsCore.TerminateServing | chaos_experiments_core.py:207-217 | with no more serving instances than the minimum nothing changes and an error is raised; otherwise exactly the picked serving instance is terminated and one fewer instance serves |
| ExperimentsCore.StopEach | chaos_experiments_core.py:444-449 | every experiment of the set is stopped |
| ExperimentsCore.FindResult | chaos_experiments_core.py:465-474 | the first history entry recorded under the id, or none exactly when no entry is |
| ExperimentsCore.CompletedCount | chaos_experiments_core.py:493-494 | the number of COMPLETED results is at most the history's length, equal to it iff all completed and zero iff none did |
| ExperimentsCore.SuccessRate | chaos_experiments_core.py:488-495 | 100 with no history; otherwise a percentage that is 100 iff every result completed and 0 when none did |
| ExperimentsCore.ChaosExperimentManager.constructor | chaos_experiments_core.py:325-335 | a new manager has no active experiments, an empty history and safety checks on |
| ExperimentsCore.ChaosExperimentManager.SafeTerminationProceeds | chaos_experiments_core.py:388-410 | a termination experiment the safety check admits on a named target has more serving instances than its minimum, so its own guard does not raise (also lines 207-208) |
| ExperimentsCore.ChaosExperimentManager.CreateExperiment | chaos_experiments_core.py:375-386 | a network partition is refused as unsupported and an unknown named target raises; otherwise a new PENDING experiment of that configuration is built (also lines 94-95) |
| ExperimentsCore.ChaosExperimentManager.CreateAndRun | chaos_experiments_core.py:337-373 | the safety check (when on), the cap of three active experiments and creation each refuse without touching the active map; otherwise the new experiment is active and RUNNING under `name-stamp`, and no other entry changes |
| ExperimentsCore.ChaosExperimentManager.MonitorStep | chaos_experiments_core.py:412-431 | the corrected reap (see Findings): the step watches the experiment read when the monitor started; once it is no longer RUNNING its result, recorded under the manager's key, joins the history and the id leaves the active map, even when a newer experiment is stored under it by then; afterwards its status is found under its id; while it runs nothing changes |
| ExperimentsCore.ChaosExperimentManager.MonitorStepAsWritten | chaos_experiments_core.py:412-431 | the reap as written: the same moves on the watched experiment, but the result is recorded under the key `get_result` builds, so a first reap is found under the id exactly when that key equals it (also lines 146-149) |
| ExperimentsCore.ChaosExperimentManager.StopExperiment | chaos_experiments_core.py:433-442 | the answer is true iff the id is active, and then that experiment is stopped |
| ExperimentsCore.ChaosExperimentManager.StopAllExperiments | chaos_experiments_core.py:444-449 | every active experiment is stopped |
| ExperimentsCore.ChaosExperimentManager.ExperimentStatus | chaos_experiments_core.py:451-475 | an active experiment reports its current result; otherwise the first history entry under the id, and none exactly when there is no such entry |
| ExperimentsCore.ChaosExperimentManager.Summary | chaos_experiments_core.py:477-486 | the success rate is a percentage, 100 with no history, and the active count stays within the cap |
| ExperimentsCore.HistoryMissesAsWritten | chaos_experiments_core.py:146-149 | as written, a result is recorded under `name-id(self)`, so the lookup under the manager's key `name-stamp` misses it whenever the two numbers differ (see Findings) (also lines 337-339, 465-466) |
| Helpers.LookupKeys | utils/helpers.py:127-129 | a key is found in a configuration exactly when it is one of its keys |
| Helpers.PutLookup | utils/helpers.py:200-202 | after storing a key, it reads back the stored value and every other key reads as before |
| Helpers.PutKeys | utils/helpers.py:200-202 | storing a key adds it to the configuration's keys and nothing else |
| Helpers.PutUnique | utils/helpers.py:200-202 | storing a key keeps every key present once, as a dictionary does |
| Helpers.Percentage | utils/helpers.py:96-110 | 0 when the denominator is 0; otherwise the result times the denominator is 100 times the numerator; for a part of a whole it lies in [0, 100] and is 100 iff the part is the whole |
| Helpers.RatioFacts | utils/helpers.py:96-110 | a ratio scaled to a percentage times the denominator is the numerator times 100, and a part of a whole lies in [0, 100], reaching 100 iff it is the whole |
| Helpers.MissingFieldsMeaning | utils/helpers.py:126-131 | one missing-field error is reported for each listed field the configuration lacks, and no other error |
| Helpers.ValidateServiceConfig | utils/helpers.py:120-148 | the errors are the missing-field ones in the fixed field order, followed by the numeric checks, or the exception a non-number comparison raises |
| Helpers.ReportMissing | utils/helpers.py:126-131 | the loop reports exactly the missing-field errors, in field order |
| Helpers.ServiceConfigVerdict | utils/helpers.py:120-148 | the validator reports nothing iff every required field is present with initial ≥ 1, min ≥ 1, min ≤ max and initial ≥ min; a field is reported missing iff it is required and absent |
| Helpers.ValidateExperimentConfig | utils/helpers.py:150-163 | walking the entries in order gives exactly the probability errors `ProbabilityErrors` defines, or the exception a non-number probability raises |
| Helpers.ProbabilityVerdict | utils/helpers.py:150-163 | when every probability is a number, an entry is reported, with its value, iff its probability lies outside [0, 1] |
| Helpers.MergeConfigs | utils/helpers.py:192-204 | the loop over the override entries, with its recursive calls, builds exactly the merge `Merged` defines, leaving the base untouched |
| Helpers.MergedLookup | utils/helpers.py:192-204 | after the merge a key the override sets holds the override value, or the recursive merge when both values are dictionaries; a key only in the base keeps its base value |
| Helpers.MergedKeys | utils/helpers.py:192-204 | the merged keys are the base keys and the override keys, each present once |
| Helpers.Merged | utils/helpers.py:192-204 | the merge has exactly the base keys and the override keys |
| Helpers.InsertCount | utils/helpers.py:251 | inserting into a list adds exactly that value |
| Helpers.InsertOrdered | utils/helpers.py:251 | inserting into an ordered list keeps it ordered and one longer |
| Helpers.Sorted | utils/helpers.py:251 | `sorted` gives an ordered permutation of the values |
| Helpers.SortedMembers | utils/helpers.py:251 | a sorted copy holds the same values, its first the least and its last the greatest |
| Helpers.Interpolation | utils/helpers.py:262-263 | interpolating between two ordered values at a weight strictly between 0 and 1 stays between them |
| Helpers.PositionWithin | utils/helpers.py:252 | the position of a percentile in [0, 100] lies within the list, 0 giving the first position and 100 the last |
| Helpers.AtPositionBounds | utils/helpers.py:254-263 | at a position within a sorted list the value exists and lies between its first and last elements, the ends giving the ends |
| Helpers.PercentileBounds | utils/helpers.py:244-263 | for a percentile in [0, 100] of a non-empty list the result exists and lies between the values' minimum and maximum; 0 gives the minimum and 100 the maximum |
| Helpers.Percentile | utils/helpers.py:244-263 | no values give 0; for a percentile in [0, 100] of some values the result exists and lies between their minimum and maximum |
| Helpers.SleepDoubles | utils/helpers.py:292 | each back-off sleep is twice the one before |
| Helpers.BackoffsDouble | utils/helpers.py:288-292 | there is one sleep per listed attempt, the first is the delay itself and each next one doubles |
| Helpers.RetryOperation | utils/helpers.py:280-294 | the operation is called at most `max_attempts` times and stops at its first success, which is returned; if every call fails the last exception is raised again; with no attempt at all `raise None` fails; the sleeps double from the delay, one after each failure but the last |
| Helpers.TruncateOverflows | utils/helpers.py:340-346 | as written, a 5-character text truncated to 2 comes back with 7 characters, longer than the limit (see Findings) |
| Helpers.TruncateAsWritten | utils/helpers.py:340-346 | a text within the limit is unchanged; a longer one comes back as a prefix of the text followed by "...", exactly the limit long from a limit of 3 on, and longer than the limit below 3 |
| Helpers.Truncate | utils/helpers.py:340-346 | a text within the limit is unchanged; a longer one is cut to exactly the limit and is a prefix of the text up to the "..." it ends with when the limit is at least 3; from a limit of 3 on it equals the function as written |
| Reports.CriticalAlerts | utils/reports.py:175-176 | the critical alerts are exactly the active alerts of severity CRITICAL, so never more than the active ones (also lines 210-211) |
| Reports.RatioUnit | utils/reports.py:236-238 | a part of a positive whole gives a ratio in [0, 1], equal to 1 exactly for the whole |
| Reports.MeanWithin | utils/reports.py:203-204 | availabilities of at most 100 each average to a value in [0, 100] |
| Reports.MeanOf | utils/reports.py:203-204 | services all at the same availability average to that availability |
| Reports.SumOfDefined | utils/reports.py:203 | a metric's sum over the services exists exactly when every service's value reads as a number (also lines 230-233) |
| Reports.SumOfWithin | utils/reports.py:203 | a metric in [0, c] at every service sums to at most c per service (also lines 230-233) |
| Reports.HealthyBelowTotal | utils/reports.py:230-233 | when each service's healthy count lies between 0 and its total, the healthy sum lies between 0 and the total sum |
| Reports.AlertScoreRange | utils/reports.py:208-219 | the alert component lies in [0, 20]; it is 20 iff no alert is critical and at most 5 are active, 20 − 5·critical while some alert is critical, and 0 from 4 critical alerts on |
| Reports.AlertScoreFalls | utils/reports.py:213-214 | once some alert is critical, one more critical alert never raises the alert component |
| Reports.ResilienceScore | utils/reports.py:196-253 | the score always lies in [0, 100], and is 50 when reading the report raises |
| Reports.ScoreRaisesExactly | utils/reports.py:196-253 | computing the score raises exactly when an availability, an instance count or the success rate is present but not a number |
| Reports.ComponentsWithin | utils/reports.py:200-249 | for metrics in their natural ranges every component stays within its weight (40, 20, 20 and 10 points), so the score is the plain sum with the 10-point recovery component |
| Reports.EmptyReportScore | utils/reports.py:200-249 | a report with no services, alerts or experiments scores 40: 20 for alerts, 10 for experiments and 10 for recovery |
| Reports.PerfectScore | utils/reports.py:200-249 | fully available services with every instance healthy, no alerts and every experiment successful score the full 100 |
| Reports.Recommendations | utils/reports.py:255-322 | the recommendations are never empty |
| Reports.LowAvailabilityExact | utils/reports.py:268-272 | the low-availability list exists iff every availability reads, and then names exactly the services below 90% |
| Reports.SingleInstanceExact | utils/reports.py:279-282 | the redundancy list names exactly the services with one instance |
| Reports.ScoreRule | utils/reports.py:263-267 | the critical-score entry appears iff the score is below 50, the low-score entry iff it is from 50 to below 70 |
| Reports.ErrorRule | utils/reports.py:318-320 | the error entry appears iff a comparison raises, and then it comes last |
| Reports.AlertRule | utils/reports.py:300-308 | when every comparison reads, the alert entry appears iff some active alert is critical |
| Reports.DefaultRule | utils/reports.py:310-316 | the three default entries are the whole answer iff no rule fires |
| Reports.ServiceRisksShape | utils/reports.py:335-347 | the service walk raises iff an availability does not read; it lists only availability risks as high and availability or redundancy risks as medium |
| Reports.CriticalRisksExact | utils/reports.py:342-343 | when every availability reads, a service is a high risk iff it is below 50% |
| Reports.LowRisksExact | utils/reports.py:344-345 | when every availability reads, a service has low availability iff it is from 50% to below 80% |
| Reports.RedundancyRisksExact | utils/reports.py:347-348 | when every availability reads, a service lacks redundancy iff it has exactly one instance |
| Reports.RiskLevelHigh | utils/reports.py:350-366 | the level is HIGH iff there is a high risk or more than three medium ones, so any service below 50% or more than three critical alerts makes it HIGH |
| Reports.RiskLevelLow | utils/reports.py:324-371 | the level is LOW iff every service is at least 80% available with other than one instance and no alert is critical |
| Reports.AvailabilityWalkCounts | utils/reports.py:140-153 | the availability loop raises iff an availability does not read; otherwise it counts a service healthy iff above 90%, never more than the services, and its total is the availability sum |
| Reports.WeaknessesExact | utils/reports.py:144-153 | when every availability reads, the weaknesses name exactly the services below 50%, each with its value |
| Reports.AnalysisMeaning | utils/reports.py:127-194 | when every availability and the success rate read the analysis is complete: the healthy ratio lies in [0, 1] and is 1 iff every service is above 90%, the average is the mean availability, the critical count is within the active count, the score is the resilience score, there is at least one recommendation and the risks are assessed; otherwise it stops where the comparison raised |

## Left out

- Instance aliasing: instances are values in their service's dictionary. A Python instance object reached through several holders (a healthy list handed to a caller, a saved list in an experiment) is one object, but here each change goes back through the dictionary. Updating it in place through another reference is not modelled.
- Threads, locks and sleeps: each background loop, each experiment's worker thread and each monitor thread is a single step (`Tick`, `Finish`, `MonitorStep`, `RunSingleHealthScan`). Interleavings and the waits between steps are not modelled.
- The start and stop of the service health-check loop, the auto-restart thread, the balancer's metrics loop and traffic generator, and the monitoring loop are not modelled. These loops only schedule the single steps that are modelled.
- `ChaosGorilla`'s recovery-watching loop and its `recovery_times`, and `ChaosKong`'s `disaster_duration`, are not modelled. They only read the clock and healthy counts while sleeping (chaos/experiments.py:375-388,446-456).
- The clock, the weekday and hour, random draws (`random()`, `uniform`, `choice`, `sample`) and generated ids (`uuid4`) are parameters. Uniqueness of generated ids is a `requires`.
- Logging is left out. Callbacks are counted (the monkey's `callbackCalls`, the runner's `notices`); what a callback does is not modelled.
- Exception and log message text is not modelled: errors are datatype values that name the error and its data.
- An alert's message is the rule's message. The suffix `: value operator threshold` that `check_metric` appends (core/monitoring.py:170) is not modelled, because it renders numbers as Python text; the value and the threshold are kept in their own fields of the alert.
- Floating point is modelled as `real`, so rounding and IEEE special values are not modelled.
- The moving average of response times and the CPU and memory samples are modelled only with the sample as a parameter and the clamp to [0, 100] (core/service.py:125-145).
- The weighted-random and random balancing strategies take the random pick as a parameter. Their weight distribution is not modelled (core/load_balancer.py:160-178).
- The retry jitter takes its `uniform(-1, 1)` draw as a parameter, and the latency experiment's jitter draw is one too. Their distributions are not modelled.
- The `ThreadPoolExecutor` deadline of the timeout pattern is not modelled. Whether the function finishes in time is a parameter (core/patterns.py:420-443).
- `ResourceExhaustionExperiment` of chaos_experiments_core.py (lines 225-264) is created by the factory but its `execute` is not modelled. It only overwrites CPU or memory readings and then redraws them at random.
- The response-time, CPU and memory averages of `HealthCheckExperiment` and its `diagnosis_timestamp` are not modelled (chaos_experiments_core.py:285-287,313).
- The `create_*` configuration constructors of chaos_experiments_core.py (lines 501-541) are not modelled. They only build an `ExperimentConfig`, which is the `Config` datatype here.
- The `results` dictionaries of the chaos/experiments.py experiments, as `get_status` reports them, are not modelled. The runner's status records keep the id, name, type, status, target, times and error.
- Other runner operations are not modelled: `create_experiment_batch`, `start_experiment_batch` (a thread that staggers starts with sleeps) and `get_runner_metrics` (chaos/runner.py:386-454,473-496).
- Configuration values are numbers, strings or dictionaries. Booleans and lists in a configuration are not modelled.
- Report metrics are all `real`; Python's distinction between `int` and `float` in report dictionaries is not modelled.
- Report rendering and file output (HTML, JSON, CSV, charts), configuration load and save, and metrics export are I/O and are not modelled.
- Python dictionary iteration order is modelled by an explicit list of keys (`order`, `names`) kept beside each map.
- The `UNKNOWN` entry `_get_service_health` writes when a component's `get_service_metrics` raises is not modelled. The modelled services' metrics never raise (core/monitoring.py:521-525).
- Patterns.RateLimiter.constructor: requires a rate of at least 0. A negative rate would make the refill drain the bucket; the source does not check for it, and that case is not modelled.
- ChaosMonkeys.Lower: folds only the ASCII letters `A`-`Z`. Python's `str.lower` folds every cased character and can change the length (`"İ".lower()` has two code points), so a configured day written with non-ASCII capitals is compared differently. The default days are ASCII.
- `ExperimentsCore.ChaosExperimentManager.Summary`: bounds the active count by the cap only for a manager whose invariant holds, and does not restate the other counts, which are read directly from the fields.

## Findings

| source | as written | input that shows it | evidently intended | confidence | as-written member | corrected member |
|---|---|---|---|---|---|---|
| chaos/experiments.py:526-535 | a failed health check is tested before the DEGRADED status, and `health_check` answers True only for an instance that ends HEALTHY, so `degraded_instances` is never filled and every DEGRADED instance is listed as unhealthy | a DEGRADED instance whose check draws neither the flap (draw ≥ 0.05) nor the recovery (draw ≥ 0.3) | a DEGRADED instance is listed in `degraded_instances` | not executed | Diagnosis.DegradedReportedUnhealthy | Diagnosis.EvaluateMeaning |
| utils/helpers.py:340-346 | `text[:max_length-3] + "..."` with `max_length` below 3 slices with a negative stop and keeps most of the text | `truncate_string("hello", 2)` gives `"hell..."`, 7 characters | the result is never longer than `max_length` | not executed | Helpers.TruncateOverflows | Helpers.Truncate |
| chaos_experiments_core.py:146-149 | `get_result` records an experiment under `name-id(self)`, but the manager keys it by `name-int(time.time())` (line 339), and `get_experiment_status` searches the history for the manager's key (lines 465-466) | any reaped experiment whose `id(self)` differs from its creation second, e.g. name `lat`, stamp 1700000000, `id(self)` 140000000000000: the lookup of `lat-1700000000` finds nothing | a reaped experiment is found under the id `create_and_run_experiment` returned | not executed | ExperimentsCore.ChaosExperimentManager.MonitorStepAsWritten | ExperimentsCore.ChaosExperimentManager.MonitorStep |
