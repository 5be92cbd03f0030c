/**
 * The experiment runner (chaos/runner.py): experiments are registered under
 * an id when they are created, admitted to start by the safety rules and the
 * concurrency cap, stopped on demand, and reaped into a bounded history once
 * they are no longer running.
 *
 * The runner holds each experiment's lifecycle (`Experiments.Experiment`);
 * the worker thread that runs `execute` is not part of this module.  The
 * monitor thread of an experiment is one step (`MonitorStep`), taken once the
 * experiment has left RUNNING.  Callbacks are recorded as notices; what they
 * do is not modelled.  Experiment ids (`uuid4()[:8]`) and the clock are
 * parameters.
 */
module Runner {
  import opened Wrappers
  import opened Seqs
  import opened Services
  import opened Experiments

  datatype RunnerStatus = Idle | RunnerRunning | Paused | Stopping

  /** `max_concurrent_experiments`. */
  const MaxConcurrent: nat := 3

  /** How many reaped experiments `experiment_history` keeps. */
  const HistoryCap: nat := 50

  /** How many of them `get_all_experiments_status` shows. */
  const ShownHistory: nat := 10

  /** The event types callbacks can be added for. */
  function EventTypes(): set<string>
  {
    {"on_start", "on_complete", "on_fail", "on_cancel"}
  }

  /** One `_notify_callbacks`: the event, the experiment id and how many callbacks were called. */
  datatype Notice = Notice(event: string, experimentId: string, callbacks: nat)

  /** `get_status` of an experiment (its `results` dictionary is not modelled). */
  datatype StatusRecord = StatusRecord(
    name: string, experimentType: ExperimentType, targetService: Option<string>,
    status: ExperimentStatus, durationSeconds: int, createdAt: real, startedAt: Option<real>,
    completedAt: Option<real>, runtimeSeconds: Option<real>, errorMessage: Option<string>)

  function StatusOf(e: Experiment, now: real): StatusRecord
    reads e
  {
    StatusRecord(e.name, e.experimentType, e.targetService, e.status, e.durationSeconds, e.createdAt,
                 e.startedAt, e.completedAt, e.Runtime(now), e.errorMessage)
  }

  /** The experiment kinds the runner creates, with the target each one names. */
  datatype ExperimentKind =
    | LatencyKind(service: string)
    | ResourceExhaustionKind(service: string)
    | NetworkPartitionKind(service: string)
    | GorillaKind
    | KongKind
    | DoctorKind

  /** The type each kind's constructor passes to `ChaosExperiment`. */
  function TypeOf(k: ExperimentKind): ExperimentType
  {
    match k
    case LatencyKind(_) => NetworkLatency
    case ResourceExhaustionKind(_) => ResourceExhaustion
    case NetworkPartitionKind(_) => NetworkPartition
    case GorillaKind => ChaosGorilla
    case KongKind => ChaosKong
    case DoctorKind => InstanceTermination
  }

  /** The target service each kind's constructor passes: zone, region and diagnosis experiments name none. */
  function TargetOf(k: ExperimentKind): Option<string>
  {
    match k
    case LatencyKind(s) => Some(s)
    case ResourceExhaustionKind(s) => Some(s)
    case NetworkPartitionKind(s) => Some(s)
    case _ => None
  }

  /** The callback notice a reaped experiment's final status gives, if any. */
  function EndNotice(status: ExperimentStatus, id: string, callbacks: map<string, nat>): seq<Notice>
  {
    match status
    case Completed => [Notice("on_complete", id, if "on_complete" in callbacks then callbacks["on_complete"] else 0)]
    case Failed => [Notice("on_fail", id, if "on_fail" in callbacks then callbacks["on_fail"] else 0)]
    case Cancelled => [Notice("on_cancel", id, if "on_cancel" in callbacks then callbacks["on_cancel"] else 0)]
    case _ => []
  }

  /** `successful / max(1, total) * 100`. */
  function SuccessRate(successful: nat, total: nat): (r: real)
    ensures successful <= total ==> 0.0 <= r <= 100.0
    ensures successful <= total && 0 < total ==> (r == 100.0 <==> successful == total)
    ensures successful == 0 ==> r == 0.0
  {
    if total == 0 then
      (successful as real / 1 as real) * 100.0
    else
      RatioBelowHundred(successful, total);
      (successful as real / total as real) * 100.0
  }

  lemma RatioBelowHundred(h: nat, t: nat)
    requires 0 < t
    ensures h <= t ==> 0.0 <= (h as real / t as real) * 100.0 <= 100.0
    ensures h <= t ==> ((h as real / t as real) * 100.0 == 100.0 <==> h == t)
  {
    if h <= t {
      RatioFacts(h, t);
    }
  }

  /** An experiment `stop` left: the stop flag raised, RUNNING turned CANCELLED at `now`, any other status kept. */
  twostate predicate Stopped(e: Experiment, now: real)
    reads e
  {
    e.shouldStop
    && (old(e.status) == Running ==> e.status == Cancelled && e.completedAt == Some(now))
    && (old(e.status) != Running ==> e.status == old(e.status) && e.completedAt == old(e.completedAt))
    && e.startedAt == old(e.startedAt) && e.errorMessage == old(e.errorMessage) && e.cleanups == old(e.cleanups)
  }

  /** `stop` on each of a set of experiments. */
  method StopEach(exps: set<Experiment>, now: real)
    modifies exps
    ensures forall e | e in exps :: Stopped(e, now)
  {
    var rest := exps;
    while rest != {}
      invariant rest <= exps
      invariant forall e | e in exps - rest :: Stopped(e, now)
      invariant forall e | e in rest :: unchanged(e)
      decreases rest
    {
      var e :| e in rest;
      e.Stop(now);
      rest := rest - {e};
    }
  }

  /** The ids of the experiments that are RUNNING. */
  function RunningIds(active: map<string, Experiment>): set<string>
    reads active.Values
  {
    set id | id in active && active[id].status == Running
  }

  /** The totals `get_all_experiments_status` reports. */
  datatype Statistics = Statistics(total: nat, successful: nat, failed: nat, successRate: real)

  datatype RunnerOverview = RunnerOverview(
    runnerStatus: RunnerStatus,
    active: map<string, StatusRecord>,
    recentHistory: seq<StatusRecord>,
    statistics: Statistics)

  class ExperimentRunner {
    const name: string
    var status: RunnerStatus
    var targetServices: map<string, Service>
    var active: map<string, Experiment>
    /** The ids whose monitor thread was started: those `start_experiment` really started. */
    var monitored: set<string>
    var history: seq<StatusRecord>
    var safetyChecksEnabled: bool
    var dryRunMode: bool
    var requireConfirmation: bool
    /** How many callbacks each event type has. */
    var callbacks: map<string, nat>
    var notices: seq<Notice>
    var totalExperiments: nat
    var successfulExperiments: nat
    var failedExperiments: nat

    /**
     * The history stays within its cap, callbacks exist for exactly the four
     * event types, and every success, failure and still-active experiment
     * was counted when it was registered.
     */
    predicate Valid()
      reads this
    {
      |history| <= HistoryCap
      && callbacks.Keys == EventTypes()
      && successfulExperiments + failedExperiments + |active| <= totalExperiments
      && monitored <= active.Keys
    }

    constructor (name: string)
      ensures Valid() && this.name == name && status == Idle
      ensures targetServices == map[] && active == map[] && monitored == {} && history == [] && notices == []
      ensures safetyChecksEnabled && !dryRunMode && requireConfirmation
      ensures callbacks == map e | e in EventTypes() :: 0
      ensures totalExperiments == 0 && successfulExperiments == 0 && failedExperiments == 0
    {
      this.name := name;
      status := Idle;
      targetServices := map[];
      active := map[];
      monitored := {};
      history := [];
      safetyChecksEnabled := true;
      dryRunMode := false;
      requireConfirmation := true;
      callbacks := map e | e in EventTypes() :: 0;
      notices := [];
      totalExperiments := 0;
      successfulExperiments := 0;
      failedExperiments := 0;
    }

    /** `register_service`. */
    method RegisterService(serviceName: string, s: Service)
      requires Valid()
      modifies this`targetServices
      ensures Valid() && targetServices == old(targetServices)[serviceName := s]
    {
      targetServices := targetServices[serviceName := s];
    }

    /** `set_safety_mode`. */
    method SetSafetyMode(enabled: bool, dryRun: bool, confirmation: bool)
      requires Valid()
      modifies this`safetyChecksEnabled, this`dryRunMode, this`requireConfirmation
      ensures Valid()
      ensures safetyChecksEnabled == enabled && dryRunMode == dryRun && requireConfirmation == confirmation
    {
      safetyChecksEnabled, dryRunMode, requireConfirmation := enabled, dryRun, confirmation;
    }

    /** `_register_experiment`: the experiment is active under `id` and counted now, before any start. */
    method RegisterExperiment(id: string, e: Experiment) returns (r: string)
      requires Valid()
      modifies this`active, this`totalExperiments
      ensures Valid() && r == id
      ensures active == old(active)[id := e] && totalExperiments == old(totalExperiments) + 1
    {
      active := active[id := e];
      totalExperiments := totalExperiments + 1;
      r := id;
    }

    /**
     * The `create_*_experiment` methods: a new PENDING experiment named
     * `name-id`, of the kind's type and target, registered under `id`.
     */
    method CreateExperiment(id: string, name: string, kind: ExperimentKind, durationSeconds: int, now: real)
      returns (r: string)
      requires Valid()
      modifies this`active, this`totalExperiments
      ensures Valid() && r == id && id in active && fresh(active[id])
      ensures active == old(active)[id := active[id]] && totalExperiments == old(totalExperiments) + 1
      ensures active[id].name == name + "-" + id && active[id].experimentType == TypeOf(kind)
      ensures active[id].targetService == TargetOf(kind) && active[id].durationSeconds == durationSeconds
      ensures active[id].status == Pending && active[id].startedAt == None
    {
      var e := new Experiment(name + "-" + id, TypeOf(kind), TargetOf(kind), durationSeconds, now);
      r := RegisterExperiment(id, e);
    }

    /** Whether some active zone or region experiment is RUNNING. */
    predicate DestructiveRunning()
      reads this, active.Values
    {
      exists id | id in active :: active[id].experimentType in {ChaosGorilla, ChaosKong} && active[id].status == Running
    }

    /**
     * `_safety_check`: refused with no registered service; when a target is
     * named, refused unless it is registered with at least `min_instances`
     * healthy instances; a zone experiment is refused while a zone or region
     * experiment runs, a region experiment while confirmation is required.
     */
    predicate SafetyCheck(e: Experiment)
      reads this, targetServices.Values, active.Values, e
    {
      if targetServices == map[] then false
      else if e.targetService.Some? && e.targetService.value != ""
              && (e.targetService.value !in targetServices
                  || |targetServices[e.targetService.value].HealthyIds()| < targetServices[e.targetService.value].minInstances)
      then false
      else if e.experimentType == ChaosGorilla then !DestructiveRunning()
      else if e.experimentType == ChaosKong then !requireConfirmation
      else true
    }

    /**
     * The safety rules one by one: a named target passes with exactly
     * `min_instances` healthy instances and is refused with one fewer.
     */
    lemma SafetyRules(e: Experiment)
      ensures targetServices == map[] ==> !SafetyCheck(e)
      ensures e.targetService.Some? && e.targetService.value != "" && e.targetService.value !in targetServices
              ==> !SafetyCheck(e)
      ensures e.targetService.Some? && e.targetService.value != "" && e.targetService.value in targetServices
              && |targetServices[e.targetService.value].HealthyIds()| < targetServices[e.targetService.value].minInstances
              ==> !SafetyCheck(e)
      ensures e.experimentType == ChaosGorilla && DestructiveRunning() ==> !SafetyCheck(e)
      ensures e.experimentType == ChaosKong && requireConfirmation ==> !SafetyCheck(e)
      ensures targetServices != map[] && e.experimentType !in {ChaosGorilla, ChaosKong}
              && (e.targetService.Some? && e.targetService.value != "" ==>
                    e.targetService.value in targetServices
                    && |targetServices[e.targetService.value].HealthyIds()| >= targetServices[e.targetService.value].minInstances)
              ==> SafetyCheck(e)
    {
    }

    /** What `start_experiment` checks before it starts anything. */
    predicate Admitted(id: string)
      reads this, targetServices.Values, active.Values
    {
      id in active && (!safetyChecksEnabled || SafetyCheck(active[id])) && |RunningIds(active)| < MaxConcurrent
    }

    /**
     * `start_experiment`: an unknown id, a failed safety check (when checks
     * are on) or a full set of running experiments refuses; in dry-run mode
     * an admitted experiment is reported started without starting; otherwise
     * the experiment's `start` decides, and a start notifies `on_start`.
     */
    method StartExperiment(id: string, now: real) returns (ok: bool)
      requires Valid()
      modifies this`notices, this`monitored, if id in active then {active[id]} else {}
      ensures Valid()
      ensures ok <==> old(Admitted(id)) && (dryRunMode || old(active[id].status) == Pending)
      ensures monitored == if ok && !dryRunMode then old(monitored) + {id} else old(monitored)
      ensures ok && !dryRunMode ==>
        active[id].status == Running && active[id].startedAt == Some(now)
        && notices == old(notices) + [Notice("on_start", id, callbacks["on_start"])]
      ensures !ok || dryRunMode ==> notices == old(notices) && (id in active ==> unchanged(active[id]))
    {
      if id !in active {
        return false;
      }
      var e := active[id];
      if safetyChecksEnabled && !SafetyCheck(e) {
        return false;
      }
      if |RunningIds(active)| >= MaxConcurrent {
        return false;
      }
      if dryRunMode {
        return true;
      }
      ok := e.Start(now);
      if ok {
        monitored := monitored + {id};
        notices := notices + [Notice("on_start", id, callbacks["on_start"])];
      }
    }

    /**
     * `force_experiment`: `start_experiment` with the safety checks and the
     * confirmation requirement off, both restored afterwards.
     */
    method ForceExperiment(id: string, now: real) returns (ok: bool)
      requires Valid()
      modifies this`notices, this`monitored, this`safetyChecksEnabled, this`requireConfirmation,
               if id in active then {active[id]} else {}
      ensures Valid()
      ensures safetyChecksEnabled == old(safetyChecksEnabled) && requireConfirmation == old(requireConfirmation)
      ensures monitored == if ok && !dryRunMode then old(monitored) + {id} else old(monitored)
      ensures ok <==> id in active && old(|RunningIds(active)|) < MaxConcurrent
                      && (dryRunMode || old(active[id].status) == Pending)
      ensures ok && !dryRunMode ==>
        active[id].status == Running && active[id].startedAt == Some(now)
        && notices == old(notices) + [Notice("on_start", id, callbacks["on_start"])]
      ensures !ok || dryRunMode ==> notices == old(notices) && (id in active ==> unchanged(active[id]))
    {
      var oldSafety, oldConfirmation := safetyChecksEnabled, requireConfirmation;
      safetyChecksEnabled, requireConfirmation := false, false;
      assert Admitted(id) <==> id in active && |RunningIds(active)| < MaxConcurrent;
      ok := StartExperiment(id, now);
      safetyChecksEnabled, requireConfirmation := oldSafety, oldConfirmation;
    }

    /** `stop_experiment`: true exactly for a known id, whose experiment is stopped. */
    method StopExperiment(id: string, now: real) returns (ok: bool)
      requires Valid()
      modifies if id in active then {active[id]} else {}
      ensures ok <==> id in active
      ensures ok ==> Stopped(active[id], now)
    {
      if id !in active {
        return false;
      }
      active[id].Stop(now);
      ok := true;
    }

    /** `stop_all_experiments`: every active experiment is stopped. */
    method StopAllExperiments(now: real)
      requires Valid()
      modifies active.Values
      ensures forall id | id in active :: Stopped(active[id], now)
    {
      var exps := active.Values;
      StopEach(exps, now);
      forall id | id in active
        ensures Stopped(active[id], now)
      {
        assert active[id] in exps;
      }
    }

    /**
     * `emergency_stop`: every active experiment is stopped (`stop` raises
     * nothing here, so there is no error to swallow) and the runner ends IDLE.
     */
    method EmergencyStop(now: real)
      requires Valid()
      modifies this`status, active.Values
      ensures Valid() && status == Idle
      ensures forall id | id in active :: Stopped(active[id], now)
    {
      status := Stopping;
      var exps := active.Values;
      StopEach(exps, now);
      status := Idle;
      forall id | id in active
        ensures Stopped(active[id], now)
      {
        assert active[id] in exps;
      }
    }

    /** `add_callback`: one more callback for a known event type; an unknown one is ignored. */
    method AddCallback(eventType: string)
      requires Valid()
      modifies this`callbacks
      ensures Valid()
      ensures eventType in EventTypes() ==> callbacks == old(callbacks)[eventType := old(callbacks)[eventType] + 1]
      ensures eventType !in EventTypes() ==> callbacks == old(callbacks)
    {
      if eventType in callbacks {
        callbacks := callbacks[eventType := callbacks[eventType] + 1];
      }
    }

    /**
     * The step the monitor thread of a started experiment takes once the
     * experiment is no longer RUNNING: its status joins the history (the
     * oldest entry dropped past 50), COMPLETED counts a success and FAILED a
     * failure, the matching callbacks are notified, and the experiment leaves
     * the active set.  An experiment without a monitor (never started, or
     * started in dry run) or still RUNNING is left alone.
     */
    method MonitorStep(id: string, now: real) returns (reaped: bool)
      requires Valid()
      modifies this`history, this`active, this`monitored, this`successfulExperiments, this`failedExperiments,
               this`notices
      ensures Valid()
      ensures reaped <==> old(id in monitored && active[id].status != Running)
      ensures !reaped ==> unchanged(this)
      ensures reaped ==>
        var e := old(active)[id];
        active == old(active) - {id} && monitored == old(monitored) - {id}
        && history == KeepLast(old(history) + [StatusOf(e, now)], HistoryCap)
        && successfulExperiments == old(successfulExperiments) + (if e.status == Completed then 1 else 0)
        && failedExperiments == old(failedExperiments) + (if e.status == Failed then 1 else 0)
        && notices == old(notices) + EndNotice(e.status, id, callbacks)
    {
      if id !in monitored || active[id].status == Running {
        return false;
      }
      var e := active[id];
      reaped := true;
      monitored := monitored - {id};
      history := KeepLast(history + [StatusOf(e, now)], HistoryCap);
      if e.status == Completed {
        successfulExperiments := successfulExperiments + 1;
      } else if e.status == Failed {
        failedExperiments := failedExperiments + 1;
      }
      notices := notices + EndNotice(e.status, id, callbacks);
      active := active - {id};
    }

    /** `get_experiment_status`: an active experiment's status, else the first reaped one whose name ends with `id`. */
    function ExperimentStatus(id: string, now: real): (r: Option<StatusRecord>)
      reads this, active.Values
      ensures id in active ==> r == Some(StatusOf(active[id], now))
      ensures id !in active && r.Some? ==> r.value in history && EndsWith(r.value.name, id)
      ensures id !in active && r.None? ==> forall k | 0 <= k < |history| :: !EndsWith(history[k].name, id)
    {
      if id in active then Some(StatusOf(active[id], now)) else FirstEndingWith(history, id)
    }

    /**
     * `get_all_experiments_status`: every active experiment's status, the
     * last ten reaped ones and the totals, with the success rate in percent.
     */
    function Overview(now: real): (r: RunnerOverview)
      reads this, active.Values
      ensures r.active.Keys == active.Keys
      ensures forall id | id in active :: r.active[id] == StatusOf(active[id], now)
      ensures |r.recentHistory| == MinInt(ShownHistory, |history|)
      ensures r.recentHistory == history[|history| - |r.recentHistory|..]
      ensures Valid() ==> 0.0 <= r.statistics.successRate <= 100.0
    {
      var shown := if |history| <= ShownHistory then history else history[|history| - ShownHistory..];
      RunnerOverview(status, map id | id in active :: StatusOf(active[id], now), shown,
                     Statistics(totalExperiments, successfulExperiments, failedExperiments,
                                SuccessRate(successfulExperiments, totalExperiments)))
    }
  }

  predicate EndsWith(s: string, suffix: string)
  {
    |suffix| <= |s| && s[|s| - |suffix|..] == suffix
  }

  /** The first record whose name ends with `id`, if any. */
  function FirstEndingWith(records: seq<StatusRecord>, id: string): (r: Option<StatusRecord>)
    ensures r.Some? ==> r.value in records && EndsWith(r.value.name, id)
    ensures r.None? <==> forall k | 0 <= k < |records| :: !EndsWith(records[k].name, id)
    ensures r.Some? ==> exists k :: 0 <= k < |records| && records[k] == r.value
                                    && forall j | 0 <= j < k :: !EndsWith(records[j].name, id)
  {
    if records == [] then None
    else if EndsWith(records[0].name, id) then Some(records[0])
    else
      var rest := FirstEndingWith(records[1..], id);
      assert forall k | 1 <= k < |records| :: records[k] == records[1..][k - 1];
      if rest.Some? then
        var k :| 0 <= k < |records[1..]| && records[1..][k] == rest.value
                 && forall j | 0 <= j < k :: !EndsWith(records[1..][j].name, id);
        assert records[k + 1] == rest.value;
        rest
      else rest
  }
}
