/**
 * The simplified experiment engine (chaos_experiments_core.py): an
 * experiment's lifecycle, the latency, termination and health-check
 * experiments, and the manager that admits, creates, starts, stops and
 * reaps them.
 *
 * As in module `Experiments`, the worker thread of an experiment is split
 * into its `execute` method, run as one step, and `Finish`, which receives
 * what `execute` raised.  The manager's monitor thread is one step
 * (`MonitorStep`), taken once the experiment has left RUNNING.  Clock
 * readings, `int(time.time())`, `id(self)` and random choices are
 * parameters.  Errors are values; their message text is not modelled.
 */
module ExperimentsCore {
  import opened Wrappers
  import opened Seqs
  import opened Services
  import opened Experiments

  datatype CoreType = LatencyType | TerminationType | ResourceExhaustionType | NetworkPartitionType | HealthCheckType

  /**
   * `ExperimentConfig`.  Of its `parameters` dictionary only `latency_ms`
   * is read by a modelled experiment.
   */
  datatype Config = Config(name: string, experimentType: CoreType, targetService: Option<string>,
                           durationSeconds: int, latencyMs: Option<int>)

  /** The target as a Python condition: absent or empty is false. */
  predicate Named(c: Config)
  {
    c.targetService.Some? && c.targetService.value != ""
  }

  /** `parameters.get('latency_ms', 500)`. */
  function LatencyMs(c: Config): int
  {
    if c.latencyMs.Some? then c.latencyMs.value else 500
  }

  /** What an experiment or the manager raises. */
  datatype CoreError =
    | UnknownTargetService(serviceName: string)   // ValueError of the constructor
    | MissingKey(key: Option<string>)            // KeyError of `self.services[...]`
    | NoServicesToChoose                         // IndexError of `random.choice([])`
    | TooFewHealthy(serviceName: string, healthy: nat, minimum: int)
    | UnsupportedType(experimentType: CoreType)  // ValueError of the factory
    | SafetyCheckFailed
    | ConcurrencyLimit(limit: nat)

  // ---------------------------------------------------------------------
  // Experiment ids: `f"{name}-{n}"` for a non-negative integer `n`
  // ---------------------------------------------------------------------

  predicate AllDigits(s: string)
  {
    forall k | 0 <= k < |s| :: '0' <= s[k] <= '9'
  }

  /** `str(n)`: the decimal digits of `n`, most significant first. */
  function Decimal(n: nat): (s: string)
    ensures |s| >= 1 && AllDigits(s)
  {
    if n < 10 then [(48 + n) as char] else Decimal(n / 10) + [(48 + n % 10) as char]
  }

  /** `int(s)` for a string of digits. */
  function DecimalValue(s: string): nat
    requires AllDigits(s)
  {
    if s == [] then 0 else DecimalValue(s[..|s| - 1]) * 10 + (s[|s| - 1] as int - 48)
  }

  /** Reading back the digits of `n` gives `n`. */
  lemma {:induction false} DecimalRoundTrip(n: nat)
    ensures DecimalValue(Decimal(n)) == n
  {
    var s := Decimal(n);
    if n < 10 {
      assert s[..|s| - 1] == [];
    } else {
      var prefix := Decimal(n / 10);
      assert s[..|s| - 1] == prefix;
      DecimalRoundTrip(n / 10);
    }
  }

  /** `f"{name}-{n}"`. */
  function ExperimentId(name: string, n: nat): string
  {
    name + "-" + Decimal(n)
  }

  /** Two ids built from the same name are equal only when built from the same number. */
  lemma IdsDiffer(name: string, a: nat, b: nat)
    ensures ExperimentId(name, a) == ExperimentId(name, b) <==> a == b
  {
    if ExperimentId(name, a) == ExperimentId(name, b) {
      assert ExperimentId(name, a)[|name| + 1..] == Decimal(a);
      assert ExperimentId(name, b)[|name| + 1..] == Decimal(b);
      DecimalRoundTrip(a);
      DecimalRoundTrip(b);
    }
  }

  // ---------------------------------------------------------------------
  // Results
  // ---------------------------------------------------------------------

  /** `EXCELENTE`, `BUENO`, `DEGRADADO` and `CRÍTICO`. */
  datatype SystemGrade = Excelente | Bueno | Degradado | Critico

  /** One entry of `services_health` (the averages are not modelled). */
  datatype ServiceHealth = ServiceHealth(totalInstances: nat, healthyInstances: nat, availability: real)

  datatype HealthReport = HealthReport(
    systemStatus: SystemGrade, overallHealth: real, totalInstances: nat, healthyInstances: nat,
    servicesHealth: map<string, ServiceHealth>)

  /** The `results` dictionary each experiment type fills in. */
  datatype Outcome =
    | NoResults
    | LatencyResults(targetService: string, latencyAddedMs: int, instancesAffected: nat)
    | TerminationResults(targetService: string, terminatedInstance: string, remainingInstances: nat)
    | HealthResults(report: HealthReport)

  datatype ExperimentResult = ExperimentResult(
    experimentId: string, name: string, experimentType: CoreType, status: ExperimentStatus,
    startTime: real, endTime: Option<real>, duration: Option<real>, results: Outcome,
    errorMessage: Option<CoreError>)

  /** An `ExperimentResult`, whose `__post_init__` fills in the duration when both times are truthy. */
  function MakeResult(experimentId: string, name: string, experimentType: CoreType, status: ExperimentStatus,
                      startTime: real, endTime: Option<real>, results: Outcome,
                      errorMessage: Option<CoreError>): (r: ExperimentResult)
    ensures r.experimentId == experimentId && r.status == status && r.results == results
    ensures r.startTime == startTime && r.endTime == endTime && r.errorMessage == errorMessage
    ensures r.duration.Some? <==> Truthy(endTime) && startTime != 0.0
    ensures r.duration.Some? ==> r.startTime + r.duration.value == r.endTime.value
  {
    var duration := if Truthy(endTime) && startTime != 0.0 then Some(endTime.value - startTime) else None;
    ExperimentResult(experimentId, name, experimentType, status, startTime, endTime, duration, results, errorMessage)
  }

  // ---------------------------------------------------------------------
  // Health check arithmetic
  // ---------------------------------------------------------------------

  /** `(healthy / total) * 100`, or 0 when there is nothing to count. */
  function Overall(healthy: nat, total: nat): real
  {
    if total > 0 then (healthy as real / total as real) * 100.0 else 0.0
  }

  /** The verdict for an overall health percentage. */
  function Grade(overall: real): SystemGrade
  {
    if overall >= 90.0 then Excelente
    else if overall >= 70.0 then Bueno
    else if overall >= 50.0 then Degradado
    else Critico
  }

  /** Better verdicts rank higher. */
  function Rank(g: SystemGrade): nat
  {
    match g
    case Critico => 0
    case Degradado => 1
    case Bueno => 2
    case Excelente => 3
  }

  /** More health never gives a worse verdict, and the thresholds are 90, 70 and 50. */
  lemma GradeMonotone(a: real, b: real)
    requires a <= b
    ensures Rank(Grade(a)) <= Rank(Grade(b))
    ensures Grade(b) == Critico ==> b < 50.0
    ensures Grade(a) == Excelente ==> a >= 90.0
  {
  }

  /** One service's entry: its instance count, serving count and availability. */
  function HealthOf(s: Service): (h: ServiceHealth)
    reads s
  {
    ServiceHealth(|s.instances|, |s.HealthyIds()|, Overall(|s.HealthyIds()|, |s.instances|))
  }

  /** The number of instances over the listed services. */
  function InstanceTotal(services: map<string, Service>, names: seq<string>): nat
    requires forall n | n in names :: n in services
    reads services.Values
  {
    if names == [] then 0
    else InstanceTotal(services, names[..|names| - 1]) + |services[names[|names| - 1]].instances|
  }

  /** The number of serving instances over the listed services. */
  function HealthyTotal(services: map<string, Service>, names: seq<string>): nat
    requires forall n | n in names :: n in services
    reads services.Values
  {
    if names == [] then 0
    else HealthyTotal(services, names[..|names| - 1]) + |services[names[|names| - 1]].HealthyIds()|
  }

  /**
   * The loop of `HealthCheckExperiment.execute`: each listed service's
   * entry, and the instance and serving counts added up.
   */
  method Survey(services: map<string, Service>, names: seq<string>)
    returns (total: nat, healthy: nat, health: map<string, ServiceHealth>)
    requires forall n | n in names :: n in services
    ensures total == InstanceTotal(services, names) && healthy == HealthyTotal(services, names)
    ensures health == map n | n in names :: HealthOf(services[n])
  {
    total, healthy := 0, 0;
    var i := 0;
    while i < |names|
      invariant 0 <= i <= |names|
      invariant total == InstanceTotal(services, names[..i])
      invariant healthy == HealthyTotal(services, names[..i])
    {
      var s := services[names[i]];
      assert names[..i + 1][..i] == names[..i];
      total := total + |s.instances|;
      healthy := healthy + |s.HealthyIds()|;
      i := i + 1;
    }
    assert names[..i] == names;
    health := map n | n in names :: HealthOf(services[n]);
  }

  ghost predicate AllValid(services: map<string, Service>)
    reads services.Values
  {
    forall n | n in services :: services[n].Valid()
  }

  /** Every instance of the service serves. */
  predicate FullyServing(s: Service)
    reads s
  {
    |s.HealthyIds()| == |s.instances|
  }

  /** A valid service never has more serving instances than instances. */
  lemma ServingWithinService(s: Service)
    requires s.Valid()
    ensures |s.HealthyIds()| <= |s.instances|
  {
    HealthyCount(s.order, s.instances);
  }

  /**
   * The serving total never exceeds the instance total, and the two are
   * equal exactly when every listed service has all its instances serving.
   */
  lemma {:induction false} HealthyWithinTotal(services: map<string, Service>, names: seq<string>)
    requires forall k | 0 <= k < |names| :: names[k] in services
    requires forall k | 0 <= k < |names| ::
      |services[names[k]].HealthyIds()| <= |services[names[k]].instances|
    ensures HealthyTotal(services, names) <= InstanceTotal(services, names)
    ensures HealthyTotal(services, names) == InstanceTotal(services, names)
        <==> forall k | 0 <= k < |names| :: FullyServing(services[names[k]])
  {
    if names != [] {
      var init := names[..|names| - 1];
      assert forall k | 0 <= k < |init| :: init[k] == names[k];
      HealthyWithinTotal(services, init);
    }
  }

  /** The report `HealthCheckExperiment.execute` builds over the services listed in `names`. */
  function Diagnose(services: map<string, Service>, names: seq<string>): HealthReport
    requires forall n | n in names :: n in services
    reads services.Values
  {
    var t := InstanceTotal(services, names);
    var h := HealthyTotal(services, names);
    var o := Overall(h, t);
    HealthReport(Grade(o), o, t, h, map n | n in names :: HealthOf(services[n]))
  }

  /**
   * Overall health lies in [0, 100] and is 100 exactly when every instance
   * serves; a system with no instances is CRÍTICO; each listed service has
   * its entry.
   */
  lemma DiagnoseMeaning(services: map<string, Service>, names: seq<string>)
    requires forall n | n in names :: n in services
    requires AllValid(services)
    ensures var r := Diagnose(services, names);
      r.healthyInstances <= r.totalInstances
      && 0.0 <= r.overallHealth <= 100.0
      && (r.totalInstances == 0 ==> r.overallHealth == 0.0 && r.systemStatus == Critico)
      && (r.totalInstances > 0 ==>
            (r.overallHealth == 100.0 <==> forall n | n in names :: FullyServing(services[n])))
      && r.servicesHealth.Keys == (set n | n in names)
      && forall n | n in names :: r.servicesHealth[n] == HealthOf(services[n])
  {
    var t := InstanceTotal(services, names);
    var h := HealthyTotal(services, names);
    forall k | 0 <= k < |names|
      ensures |services[names[k]].HealthyIds()| <= |services[names[k]].instances|
    {
      ServingWithinService(services[names[k]]);
    }
    HealthyWithinTotal(services, names);
    if t > 0 {
      RatioFacts(h, t);
    }
  }

  // ---------------------------------------------------------------------
  // The experiment (`BaseExperiment` and its three modelled subclasses)
  // ---------------------------------------------------------------------

  class BaseExperiment {
    const config: Config
    const services: map<string, Service>
    /** `id(self)`, the number Python reports as the object's identity. */
    const identity: nat
    var status: ExperimentStatus
    var startTime: real
    var endTime: Option<real>
    var results: Outcome
    var errorMessage: Option<CoreError>
    var shouldStop: bool
    /** How many times `cleanup` has run (it does nothing in every modelled type). */
    var cleanups: nat

    /** The constructor after its target check: PENDING, stamped `now`, nothing recorded. */
    constructor (config: Config, services: map<string, Service>, identity: nat, now: real)
      requires Named(config) ==> config.targetService.value in services
      ensures this.config == config && this.services == services && this.identity == identity
      ensures status == Pending && startTime == now && endTime == None
      ensures results == NoResults && errorMessage == None && !shouldStop && cleanups == 0
    {
      this.config := config;
      this.services := services;
      this.identity := identity;
      status := Pending;
      startTime := now;
      endTime := None;
      results := NoResults;
      errorMessage := None;
      shouldStop := false;
      cleanups := 0;
    }

    /** `start`: only a PENDING experiment starts; it becomes RUNNING with a new start time. */
    method Start(now: real) returns (started: bool)
      modifies this`status, this`startTime
      ensures started <==> old(status) == Pending
      ensures started ==> status == Running && startTime == now
      ensures !started ==> status == old(status) && startTime == old(startTime)
    {
      if status != Pending {
        return false;
      }
      status := Running;
      startTime := now;
      started := true;
    }

    /** `stop`: raises the stop flag; a RUNNING experiment becomes CANCELLED at `now`. */
    method Stop(now: real)
      modifies this`status, this`endTime, this`shouldStop
      ensures shouldStop
      ensures old(status) == Running ==> status == Cancelled && endTime == Some(now)
      ensures old(status) != Running ==> status == old(status) && endTime == old(endTime)
    {
      shouldStop := true;
      if status == Running {
        status := Cancelled;
        endTime := Some(now);
      }
    }

    /**
     * The rest of `_run_experiment` once `execute` has ended with `raised`:
     * FAILED with the error if it raised, otherwise COMPLETED unless a stop
     * was requested; the end time is set and `cleanup` runs either way.
     */
    method Finish(raised: Option<CoreError>, now: real)
      modifies this`status, this`errorMessage, this`endTime, this`cleanups
      ensures raised.Some? ==> status == Failed && errorMessage == raised
      ensures raised.None? && !shouldStop ==> status == Completed
      ensures raised.None? && shouldStop ==> status == old(status)
      ensures raised.None? ==> errorMessage == old(errorMessage)
      ensures endTime == Some(now) && cleanups == old(cleanups) + 1
    {
      if raised.Some? {
        status := Failed;
        errorMessage := raised;
      } else if !shouldStop {
        status := Completed;
      }
      endTime := Some(now);
      cleanups := cleanups + 1;
    }

    /** `get_result`, recorded under `experimentId`. */
    function ResultUnder(experimentId: string): (r: ExperimentResult)
      reads this
      ensures r.experimentId == experimentId && r.name == config.name && r.status == status
      ensures r.results == results && r.errorMessage == errorMessage
      ensures r.duration.Some? <==> Truthy(endTime) && startTime != 0.0
    {
      MakeResult(experimentId, config.name, config.experimentType, status, startTime, endTime, results, errorMessage)
    }

    /** `get_result` as written: the id is the name followed by `id(self)`. */
    function ResultAsWritten(): ExperimentResult
      reads this
    {
      ResultUnder(ExperimentId(config.name, identity))
    }

    /** Whether `self.services[self.config.target_service]` finds a service. */
    predicate TargetFound()
    {
      config.targetService.Some? && config.targetService.value in services
    }

    /** The service that lookup finds, as a frame. */
    function FoundTarget(): set<Service>
    {
      if TargetFound() then {services[config.targetService.value]} else {}
    }

    /**
     * `LatencyExperiment.execute`: every instance of the target slows by
     * `latency_ms` (`during` is the dictionary while the experiment waits),
     * then each saved latency is put back on the instances still present,
     * which leaves the dictionary as it was.  A missing target raises.
     */
    method ExecuteLatency() returns (raised: Option<CoreError>, ghost during: map<string, Instance>)
      requires TargetFound() ==> services[config.targetService.value].Valid()
      modifies this`results, FoundTarget()
      ensures raised.Some? <==> !TargetFound()
      ensures raised.Some? ==> raised.value == MissingKey(config.targetService) && results == old(results)
      ensures raised.None? ==>
        var s := services[config.targetService.value];
        s.Valid() && s.instances == old(s.instances)
        && during.Keys == s.instances.Keys
        && (forall id | id in during :: during[id] == IntroduceLatency(s.instances[id], LatencyMs(config) as real))
        && results == LatencyResults(config.targetService.value, LatencyMs(config), |s.instances|)
    {
      if !TargetFound() {
        return Some(MissingKey(config.targetService)), map[];
      }
      var s := services[config.targetService.value];
      var affected;
      affected, during := SlowThenRestore(s, LatencyMs(config) as real);
      results := LatencyResults(config.targetService.value, LatencyMs(config), affected);
      raised := None;
    }

    /**
     * The service `TerminationExperiment.execute` works on: the named one,
     * or the random `choice` when no target is named; absent when the
     * lookup raises.
     */
    function ChosenService(choice: string): Option<string>
    {
      if Named(config) then
        (if config.targetService.value in services then Some(config.targetService.value) else None)
      else if services == map[] then None
      else Some(choice)
    }

    function ChosenFrame(choice: string): set<Service>
      requires !Named(config) && services != map[] ==> choice in services
    {
      var n := ChosenService(choice);
      if n.Some? then {services[n.value]} else {}
    }

    /**
     * `TerminationExperiment.execute`: the chosen service is looked up (a
     * missing one raises), then one of its serving instances is terminated
     * as `TerminateServing` describes.
     */
    method ExecuteTermination(choice: string, pick: nat) returns (raised: Option<CoreError>)
      requires !Named(config) && services != map[] ==> choice in services
      requires ChosenService(choice).Some? ==>
        var s := services[ChosenService(choice).value];
        s.Valid() && (|s.HealthyIds()| > s.minInstances ==> pick < |s.HealthyIds()|)
      modifies this`results, ChosenFrame(choice)
      ensures ChosenService(choice).None? ==>
        raised == Some(if Named(config) then MissingKey(config.targetService) else NoServicesToChoose)
        && results == old(results)
      ensures ChosenService(choice).Some? ==>
        var s := services[ChosenService(choice).value];
        TerminatedOne(s, pick, raised)
        && (raised.Some? ==> results == old(results))
        && (raised.None? ==>
              results == TerminationResults(s.name, old(s.HealthyIds())[pick], old(|s.HealthyIds()|) - 1))
    {
      var n := ChosenService(choice);
      if n.None? {
        return Some(if Named(config) then MissingKey(config.targetService) else NoServicesToChoose);
      }
      var s := services[n.value];
      var killed;
      raised, killed := TerminateServing(s, pick);
      if raised.None? {
        results := TerminationResults(s.name, killed, |s.HealthyIds()|);
      }
    }

    /**
     * `HealthCheckExperiment.execute`, walking the services in dictionary
     * order `names` and adding up instance and serving counts.
     */
    method ExecuteHealthCheck(names: seq<string>)
      requires Distinct(names) && forall n :: n in services <==> n in names
      modifies this`results
      ensures results == HealthResults(Diagnose(services, names))
    {
      var total, healthy, health := Survey(services, names);
      var overall := Overall(healthy, total);
      results := HealthResults(HealthReport(Grade(overall), overall, total, healthy, health));
    }
  }

  /**
   * The two loops of `LatencyExperiment.execute` on service `s`: save each
   * base latency and add `added` to it (`during` is the dictionary while
   * the experiment waits), then put each saved latency back on the
   * instances still present.  The dictionary ends as it began, and
   * `affected` counts the saved latencies.
   */
  method SlowThenRestore(s: Service, added: real) returns (affected: nat, ghost during: map<string, Instance>)
    requires s.Valid()
    modifies s`instances
    ensures s.Valid() && s.instances == old(s.instances) && affected == |s.instances|
    ensures during.Keys == s.instances.Keys
    ensures forall id | id in during :: during[id] == IntroduceLatency(s.instances[id], added)
  {
    var m0 := s.instances;
    var original := SaveLatencies(s.order, m0, map[]);
    assert original == BaseLatencies(m0);
    var m1 := ChangeEach(s.order, m0, i => IntroduceLatency(i, added));
    SameIdentities(s.name, s.region, s.order, m0, m1);
    s.instances := m1;
    during := m1;
    // The timed wait only sleeps; the restore loop skips ids no longer present.
    var m2 := ChangeEach(s.order, m1, i => RestoreLatency(i, original));
    forall id | id in m2
      ensures m2[id] == m0[id]
    {
      LatencyRoundTrip(m0, map[], id, m0[id].baseResponseTime + added);
      assert map[] + BaseLatencies(m0) == original;
    }
    assert m2 == m0;
    s.instances := m2;
    assert |original| == |original.Keys| == |m0.Keys| == |m0|;
    affected := |original|;
  }

  /**
   * What the termination experiment does to its service: with no more
   * serving instances than the minimum it raises and changes nothing;
   * otherwise the `pick`-th serving instance is terminated and kept.
   */
  twostate predicate TerminatedOne(s: Service, pick: nat, new raised: Option<CoreError>)
    reads s
  {
    s.Valid()
    && (old(|s.HealthyIds()|) <= s.minInstances ==>
          raised == Some(TooFewHealthy(s.name, old(|s.HealthyIds()|), s.minInstances))
          && s.instances == old(s.instances))
    && (old(|s.HealthyIds()|) > s.minInstances ==>
          raised == None && pick < old(|s.HealthyIds()|)
          && s.instances == old(s.instances)[old(s.HealthyIds())[pick] := Terminate(old(s.instances)[old(s.HealthyIds())[pick]])])
  }

  /**
   * The guard and the kill of `TerminationExperiment.execute`: the same rule
   * and the same step as the service's chaos primitive.
   */
  method TerminateServing(s: Service, pick: nat) returns (raised: Option<CoreError>, killed: string)
    requires s.Valid()
    requires |s.HealthyIds()| > s.minInstances ==> pick < |s.HealthyIds()|
    modifies s`instances
    ensures TerminatedOne(s, pick, raised)
    ensures raised.None? ==> killed == old(s.HealthyIds())[pick] && |s.HealthyIds()| == old(|s.HealthyIds()|) - 1
  {
    var healthy := s.HealthyIds();
    if |healthy| <= s.minInstances {
      return Some(TooFewHealthy(s.name, |healthy|, s.minInstances)), "";
    }
    var r := s.ChaosTerminateRandomInstance(pick);
    raised, killed := None, r.value;
  }

  /** An experiment `stop` left: flag raised, RUNNING turned CANCELLED at `now`, any other status kept. */
  twostate predicate Stopped(e: BaseExperiment, now: real)
    reads e
  {
    e.shouldStop
    && (old(e.status) == Running ==> e.status == Cancelled && e.endTime == Some(now))
    && (old(e.status) != Running ==> e.status == old(e.status) && e.endTime == old(e.endTime))
    && e.startTime == old(e.startTime) && e.results == old(e.results)
    && e.errorMessage == old(e.errorMessage) && e.cleanups == old(e.cleanups)
  }

  /** `stop` on each of a set of experiments. */
  method StopEach(exps: set<BaseExperiment>, now: real)
    modifies exps
    ensures forall e | e in exps :: Stopped(e, now)
  {
    var rest := exps;
    while rest != {}
      invariant rest <= exps
      invariant forall e | e in exps - rest :: Stopped(e, now)
      invariant forall e | e in rest :: unchanged(e)
      decreases rest
    {
      var e :| e in rest;
      e.Stop(now);
      rest := rest - {e};
    }
  }

  // ---------------------------------------------------------------------
  // The manager (`ChaosExperimentManager`)
  // ---------------------------------------------------------------------

  /** `max_concurrent_experiments`. */
  const MaxConcurrentExperiments: nat := 3

  /** What `get_experiment_status` reports of a result. */
  datatype StatusSummary = StatusSummary(
    name: string, experimentType: CoreType, status: ExperimentStatus, duration: Option<real>, results: Outcome)

  function SummaryOf(r: ExperimentResult): StatusSummary
  {
    StatusSummary(r.name, r.experimentType, r.status, r.duration, r.results)
  }

  /** The first result recorded under `id`. */
  function FindResult(results: seq<ExperimentResult>, id: string): (r: Option<ExperimentResult>)
    ensures r.None? <==> forall k | 0 <= k < |results| :: results[k].experimentId != id
    ensures r.Some? ==>
      exists k | 0 <= k < |results| ::
        (results[k] == r.value && results[k].experimentId == id
         && forall j | 0 <= j < k :: results[j].experimentId != id)
  {
    if results == [] then None
    else if results[0].experimentId == id then Some(results[0])
    else
      var r := FindResult(results[1..], id);
      if r.Some? then
        var k :| 0 <= k < |results[1..]| && results[1..][k] == r.value && results[1..][k].experimentId == id
          && forall j | 0 <= j < k :: results[1..][j].experimentId != id;
        assert results[k + 1] == r.value;
        r
      else
        r
  }

  /** How many results are COMPLETED. */
  function CompletedCount(results: seq<ExperimentResult>): (c: nat)
    ensures c <= |results|
    ensures c == |results| <==> forall k | 0 <= k < |results| :: results[k].status == Completed
    ensures c == 0 <==> forall k | 0 <= k < |results| :: results[k].status != Completed
  {
    if results == [] then 0
    else
      var rest := CompletedCount(results[..|results| - 1]);
      assert forall k | 0 <= k < |results| - 1 :: results[..|results| - 1][k] == results[k];
      rest + (if results[|results| - 1].status == Completed then 1 else 0)
  }

  /**
   * `_calculate_success_rate`: 100 with no history, otherwise the share of
   * COMPLETED results as a percentage.
   */
  function SuccessRate(results: seq<ExperimentResult>): (r: real)
    ensures results == [] ==> r == 100.0
    ensures 0.0 <= r <= 100.0
    ensures r == 100.0 <==> forall k | 0 <= k < |results| :: results[k].status == Completed
    ensures results != [] && (forall k | 0 <= k < |results| :: results[k].status != Completed) ==> r == 0.0
  {
    if results == [] then 100.0
    else
      var c := CompletedCount(results);
      RatioFacts(c, |results|);
      (c as real / |results| as real) * 100.0
  }

  /** `get_system_summary`. */
  datatype SystemSummary = SystemSummary(
    activeExperiments: nat, completedExperiments: nat, successRate: real, registeredServices: nat,
    safetyEnabled: bool)

  class ChaosExperimentManager {
    const services: map<string, Service>
    var active: map<string, BaseExperiment>
    var completed: seq<ExperimentResult>
    var safetyChecksEnabled: bool

    /** No more experiments are active than the concurrency cap admits. */
    predicate Valid()
      reads this
    {
      |active| <= MaxConcurrentExperiments
    }

    constructor (services: map<string, Service>)
      ensures Valid() && this.services == services
      ensures active == map[] && completed == [] && safetyChecksEnabled
    {
      this.services := services;
      active := map[];
      completed := [];
      safetyChecksEnabled := true;
    }

    /**
     * `_safety_check`: there are services; a named target exists; and a
     * termination experiment's target has more serving instances than its
     * minimum.  An unnamed target is not checked.
     */
    predicate SafetyCheck(config: Config)
      reads services.Values
    {
      services != map[]
      && (Named(config) ==>
            config.targetService.value in services
            && (config.experimentType == TerminationType ==>
                  |services[config.targetService.value].HealthyIds()|
                    > services[config.targetService.value].minInstances))
    }

    /**
     * A termination experiment the safety check admitted on a named target
     * does not raise for lack of serving instances, as long as the target
     * has not changed in between.
     */
    lemma SafeTerminationProceeds(config: Config)
      requires SafetyCheck(config) && Named(config) && config.experimentType == TerminationType
      ensures var s := services[config.targetService.value]; !(|s.HealthyIds()| <= s.minInstances)
    {
    }

    /** The error `_create_experiment` raises for `config`, if any. */
    function CreationError(config: Config): Option<CoreError>
    {
      if config.experimentType == NetworkPartitionType then Some(UnsupportedType(NetworkPartitionType))
      else if Named(config) && config.targetService.value !in services then
        Some(UnknownTargetService(config.targetService.value))
      else None
    }

    /**
     * `_create_experiment`: network partitions have no variant here; every
     * other type is constructed, which raises for an unknown named target.
     */
    method CreateExperiment(config: Config, identity: nat, now: real) returns (r: Result<BaseExperiment, CoreError>)
      ensures r.Err? <==> CreationError(config).Some?
      ensures r.Err? ==> r.error == CreationError(config).value
      ensures r.Ok? ==>
        (fresh(r.value) && r.value.config == config && r.value.services == services
         && r.value.identity == identity && r.value.status == Pending && r.value.startTime == now
         && r.value.endTime == None && r.value.results == NoResults && !r.value.shouldStop)
    {
      if config.experimentType == NetworkPartitionType {
        return Err(UnsupportedType(NetworkPartitionType));
      }
      if Named(config) && config.targetService.value !in services {
        return Err(UnknownTargetService(config.targetService.value));
      }
      var e := new BaseExperiment(config, services, identity, now);
      r := Ok(e);
    }

    /** The outcome of `create_and_run_experiment` for `config` in the current state. */
    function Admission(config: Config, stamp: nat): Result<string, CoreError>
      reads this, services.Values
    {
      if safetyChecksEnabled && !SafetyCheck(config) then Err(SafetyCheckFailed)
      else if |active| >= MaxConcurrentExperiments then Err(ConcurrencyLimit(MaxConcurrentExperiments))
      else if CreationError(config).Some? then Err(CreationError(config).value)
      else Ok(ExperimentId(config.name, stamp))
    }

    /**
     * `create_and_run_experiment`, with `stamp` the value of
     * `int(time.time())`: the safety check (when enabled), the concurrency
     * cap and creation can each refuse, leaving the active map alone;
     * otherwise the new experiment is registered under `name-stamp` and
     * started.  The start always succeeds, since the experiment is new and
     * PENDING, so the branch that unregisters it never runs.
     */
    method CreateAndRun(config: Config, stamp: nat, identity: nat, now: real) returns (r: Result<string, CoreError>)
      requires Valid()
      modifies this`active
      ensures Valid()
      ensures r == old(Admission(config, stamp))
      ensures r.Err? ==> active == old(active)
      ensures r.Ok? ==>
        active.Keys == old(active).Keys + {r.value}
        && fresh(active[r.value]) && active[r.value].config == config
        && active[r.value].status == Running && active[r.value].startTime == now
        && forall k | k in old(active) && k != r.value :: active[k] == old(active)[k]
    {
      var id := ExperimentId(config.name, stamp);
      if safetyChecksEnabled && !SafetyCheck(config) {
        return Err(SafetyCheckFailed);
      }
      if |active| >= MaxConcurrentExperiments {
        return Err(ConcurrencyLimit(MaxConcurrentExperiments));
      }
      var made := CreateExperiment(config, identity, now);
      if made.Err? {
        return Err(made.error);
      }
      var e := made.value;
      active := active[id := e];
      var started := e.Start(now);
      assert started;
      r := Ok(id);
    }

    /**
     * One `_monitor_experiment` step. The monitor thread reads the
     * experiment under `id` once, when it starts, and watches that object
     * (`watched`); once it has left RUNNING, its result is appended to the
     * history and `id` leaves the active map, whatever is stored there by
     * then: a newer experiment created under the same id in the same second
     * is dropped with it.  While `watched` runs nothing changes.
     * This is the corrected step: the result is recorded under the manager's
     * id, so that `ExperimentStatus(id)` finds it afterwards (the code records
     * it under `id(self)`, as `MonitorStepAsWritten` does).
     */
    method MonitorStep(id: string, watched: BaseExperiment) returns (reaped: bool)
      requires Valid()
      modifies this`completed, this`active
      ensures Valid()
      ensures reaped <==> watched.status != Running
      ensures reaped ==> completed == old(completed) + [watched.ResultUnder(id)] && active == old(active) - {id}
      ensures !reaped ==> completed == old(completed) && active == old(active)
      ensures reaped ==> ExperimentStatus(id).Some?
      ensures reaped && FindResult(old(completed), id).None? ==>
        ExperimentStatus(id) == Some(SummaryOf(watched.ResultUnder(id)))
    {
      if watched.status == Running {
        return false;
      }
      var r := watched.ResultUnder(id);
      completed := completed + [r];
      active := active - {id};
      assert completed[|completed| - 1] == r;
      reaped := true;
    }

    /**
     * One `_monitor_experiment` step as written: the history gains
     * `get_result()` of the watched experiment, recorded under its name and
     * `id(self)`, and `id` leaves the active map.
     * When nothing was recorded under `id` before, `ExperimentStatus(id)`
     * afterwards finds nothing exactly when that record's id differs from
     * the manager's key, which `HistoryMissesAsWritten` shows is the case
     * whenever the identity differs from the creation stamp.
     */
    method MonitorStepAsWritten(id: string, watched: BaseExperiment) returns (reaped: bool)
      requires Valid()
      modifies this`completed, this`active
      ensures Valid()
      ensures reaped <==> watched.status != Running
      ensures reaped ==> completed == old(completed) + [watched.ResultAsWritten()] && active == old(active) - {id}
      ensures !reaped ==> completed == old(completed) && active == old(active)
      ensures reaped && FindResult(old(completed), id).None? ==>
        (ExperimentStatus(id).None? <==> watched.ResultAsWritten().experimentId != id)
    {
      if watched.status == Running {
        return false;
      }
      var r := watched.ResultAsWritten();
      completed := completed + [r];
      active := active - {id};
      assert completed[|completed| - 1] == r;
      reaped := true;
    }

    /** `stop_experiment`: false for an unknown id, otherwise that experiment is stopped. */
    method StopExperiment(id: string, now: real) returns (found: bool)
      modifies if id in active then {active[id]} else {}
      ensures found <==> id in active
      ensures found ==> Stopped(active[id], now)
    {
      if id !in active {
        return false;
      }
      active[id].Stop(now);
      found := true;
    }

    /** `stop_all_experiments`: every active experiment is stopped. */
    method StopAllExperiments(now: real)
      modifies active.Values
      ensures forall id | id in active :: Stopped(active[id], now)
    {
      var exps := active.Values;
      StopEach(exps, now);
      forall id | id in active
        ensures Stopped(active[id], now)
      {
        assert active[id] in exps;
      }
    }

    /**
     * `get_experiment_status`: an active experiment reports its current
     * result; otherwise the first history entry recorded under `id`.
     */
    function ExperimentStatus(id: string): (r: Option<StatusSummary>)
      reads this, active.Values
      ensures id in active ==> r == Some(SummaryOf(active[id].ResultUnder(id)))
      ensures id !in active ==> (r.None? <==> forall k | 0 <= k < |completed| :: completed[k].experimentId != id)
    {
      if id in active then Some(SummaryOf(active[id].ResultUnder(id)))
      else
        var found := FindResult(completed, id);
        if found.Some? then Some(SummaryOf(found.value)) else None
    }

    /** `get_system_summary`. */
    function Summary(): (r: SystemSummary)
      reads this
      ensures r.activeExperiments <= MaxConcurrentExperiments || !Valid()
      ensures 0.0 <= r.successRate <= 100.0
      ensures r.completedExperiments == 0 ==> r.successRate == 100.0
    {
      SystemSummary(|active|, |completed|, SuccessRate(completed), |services|, safetyChecksEnabled)
    }
  }

  /**
   * `get_result` as written records an experiment under its name and
   * `id(self)`, not under the manager's key `name-int(time.time())`: the
   * two agree only when the object's identity equals the stamp, so the
   * history lookup of `get_experiment_status` misses every reaped
   * experiment whose identity differs from its stamp.
   */
  lemma HistoryMissesAsWritten(e: BaseExperiment, stamp: nat)
    requires e.identity != stamp
    ensures e.ResultAsWritten().experimentId != ExperimentId(e.config.name, stamp)
    ensures FindResult([e.ResultAsWritten()], ExperimentId(e.config.name, stamp)).None?
  {
    IdsDiffer(e.config.name, e.identity, stamp);
  }
}
