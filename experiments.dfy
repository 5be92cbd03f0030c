/**
 * Chaos experiments (chaos/experiments.py): the experiment lifecycle and the
 * `execute`/`cleanup` pairs of the latency, resource-exhaustion and network
 * partition experiments.  The zone and region outages are in module
 * `Outages`, the diagnostic experiment in module `Diagnosis`.
 *
 * An experiment's worker thread runs `execute` and then `cleanup`; here the
 * lifecycle is a class whose `Finish` step receives what `execute` did
 * (returned, or raised with a message), and each experiment type is a class
 * holding what its `execute` saved for its `cleanup`.  Each timed loop of an
 * `execute` is one step (`Tick`).  Clock readings and random draws are
 * parameters.
 */
module Experiments {
  import opened Wrappers
  import opened Seqs
  import opened Services

  datatype ExperimentType =
    | InstanceTermination | NetworkLatency | NetworkPartition | ResourceExhaustion
    | DatabaseFailure | DependencyFailure | ChaosGorilla | ChaosKong

  datatype ExperimentStatus = Pending | Running | Completed | Failed | Cancelled

  /** A Python timestamp used as a condition: absent or 0.0 is false. */
  predicate Truthy(t: Option<real>)
  {
    t.Some? && t.value != 0.0
  }

  /**
   * The lifecycle every experiment shares (`ChaosExperiment`).  `cleanups`
   * counts the runs of `cleanup`, which the worker performs in a `finally`.
   */
  class Experiment {
    const name: string
    const experimentType: ExperimentType
    const targetService: Option<string>
    const durationSeconds: int
    const createdAt: real
    var status: ExperimentStatus
    var startedAt: Option<real>
    var completedAt: Option<real>
    var errorMessage: Option<string>
    var shouldStop: bool
    var cleanups: nat

    /** A new experiment is PENDING with no timestamps, no error and no stop request. */
    constructor (name: string, experimentType: ExperimentType, targetService: Option<string>,
                 durationSeconds: int, now: real)
      ensures this.name == name && this.experimentType == experimentType
      ensures this.targetService == targetService && this.durationSeconds == durationSeconds
      ensures createdAt == now && status == Pending
      ensures startedAt == None && completedAt == None && errorMessage == None
      ensures !shouldStop && cleanups == 0
    {
      this.name := name;
      this.experimentType := experimentType;
      this.targetService := targetService;
      this.durationSeconds := durationSeconds;
      createdAt := now;
      status := Pending;
      startedAt := None;
      completedAt := None;
      errorMessage := None;
      shouldStop := false;
      cleanups := 0;
    }

    /**
     * `start`: only a PENDING experiment starts; it becomes RUNNING at `now`.
     * In any other state nothing changes and the answer is false.
     */
    method Start(now: real) returns (started: bool)
      modifies this`status, this`startedAt
      ensures started <==> old(status) == Pending
      ensures started ==> status == Running && startedAt == Some(now)
      ensures !started ==> status == old(status) && startedAt == old(startedAt)
    {
      if status != Pending {
        return false;
      }
      status := Running;
      startedAt := Some(now);
      started := true;
    }

    /**
     * `stop`: raises the stop flag; a RUNNING experiment becomes CANCELLED at
     * `now`, and a finished or pending one keeps its status and end time.
     */
    method Stop(now: real)
      modifies this`status, this`completedAt, this`shouldStop
      ensures shouldStop
      ensures old(status) == Running ==> status == Cancelled && completedAt == Some(now)
      ensures old(status) != Running ==> status == old(status) && completedAt == old(completedAt)
    {
      shouldStop := true;
      if status == Running {
        status := Cancelled;
        completedAt := Some(now);
      }
    }

    /**
     * The rest of `_run_experiment` once `execute` has ended: `raised` is the
     * message of the exception it raised, if any.  An exception gives FAILED
     * with that message; a normal return gives COMPLETED unless a stop was
     * requested, which leaves the status alone.  Either way the end time is
     * set and `cleanup` runs once.
     */
    method Finish(raised: Option<string>, now: real)
      modifies this`status, this`errorMessage, this`completedAt, this`cleanups
      ensures raised.Some? ==> status == Failed && errorMessage == raised
      ensures raised.None? && !shouldStop ==> status == Completed
      ensures raised.None? && shouldStop ==> status == old(status)
      ensures raised.None? ==> errorMessage == old(errorMessage)
      ensures completedAt == Some(now) && cleanups == old(cleanups) + 1
    {
      if raised.Some? {
        status := Failed;
        errorMessage := raised;
      } else if !shouldStop {
        status := Completed;
      }
      completedAt := Some(now);
      cleanups := cleanups + 1;
    }

    /**
     * `runtime_seconds` of `get_status`: absent until the experiment has a
     * start time, then measured up to the end time, or up to `now` while the
     * experiment has none.
     */
    function Runtime(now: real): (r: Option<real>)
      reads this
      ensures r.Some? <==> Truthy(startedAt)
      ensures r.Some? && Truthy(completedAt) ==> startedAt.value + r.value == completedAt.value
      ensures r.Some? && !Truthy(completedAt) ==> startedAt.value + r.value == now
    {
      if Truthy(startedAt) then
        Some((if Truthy(completedAt) then completedAt.value else now) - startedAt.value)
      else None
    }
  }

  /** Once an experiment has an end time its runtime no longer depends on the clock. */
  lemma RuntimeSettles(e: Experiment, now1: real, now2: real)
    requires Truthy(e.completedAt)
    ensures e.Runtime(now1) == e.Runtime(now2)
  {
  }

  /** The `ValueError`s an `execute` raises. */
  datatype ExperimentError =
    | UnknownTarget(serviceName: string)
    | NoHealthyTarget(serviceName: string)

  /** `str(e)` of those errors, the text stored as `error_message`. */
  function Message(e: ExperimentError): string
  {
    match e
    case UnknownTarget(n) => "Servicio " + n + " no encontrado"
    case NoHealthyTarget(n) => "No hay instancias saludables en " + n
  }

  /** The service an experiment looks up by name, as a frame: none when it is not registered. */
  function Target(services: map<string, Service>, name: string): set<Service>
  {
    if name in services then {services[name]} else {}
  }

  // ---------------------------------------------------------------------
  // Latency (`LatencyMonkey`)
  // ---------------------------------------------------------------------

  /** The base latency of every instance, by id: what `execute` saves. */
  function BaseLatencies(m: map<string, Instance>): (r: map<string, real>)
    ensures r.Keys == m.Keys
  {
    map id | id in m :: m[id].baseResponseTime
  }

  /** What `cleanup` does to one instance: a saved latency is put back. */
  function RestoreLatency(i: Instance, saved: map<string, real>): Instance
  {
    if i.instanceId in saved then i.(baseResponseTime := saved[i.instanceId]) else i
  }

  /**
   * The variance step of the latency loop: the drawn offset, clipped so that
   * the momentary latency `latencyMs + d` is never negative.
   */
  function Jitter(latencyMs: int, draw: int): (d: int)
    ensures latencyMs + d >= 0
    ensures latencyMs + draw >= 0 ==> d == draw
    ensures latencyMs >= 0 ==> draw <= d <= MaxInt(draw, 0)
  {
    MaxInt(0, latencyMs + draw) - latencyMs
  }

  /**
   * Whatever the experiment does to an instance's base latency, restoring
   * from what was saved before gives the instance back unchanged.
   */
  lemma LatencyRoundTrip(m: map<string, Instance>, earlier: map<string, real>, id: string, latency: real)
    requires id in m && m[id].instanceId == id
    ensures RestoreLatency(m[id].(baseResponseTime := latency), earlier + BaseLatencies(m)) == m[id]
  {
  }

  /** Saves the base latency of every instance, walking the dictionary in order. */
  method SaveLatencies(order: seq<string>, m: map<string, Instance>, saved: map<string, real>)
    returns (r: map<string, real>)
    requires forall id :: id in m <==> id in order
    ensures r == saved + BaseLatencies(m)
  {
    r := saved;
    var i := 0;
    while i < |order|
      invariant 0 <= i <= |order|
      invariant r.Keys == saved.Keys + (set k | 0 <= k < i :: order[k])
      invariant forall id | id in r :: r[id] == if id in order[..i] then m[id].baseResponseTime else saved[id]
    {
      assert order[..i + 1] == order[..i] + [order[i]];
      r := r[order[i] := m[order[i]].baseResponseTime];
      i := i + 1;
    }
    assert order[..i] == order;
    assert (set k | 0 <= k < |order| :: order[k]) == m.Keys;
  }

  class LatencyMonkey {
    const targetService: string
    const latencyMs: int
    const varianceMs: int
    var originalLatencies: map<string, real>
    var affectedRequests: nat

    constructor (targetService: string, latencyMs: int, varianceMs: int)
      ensures this.targetService == targetService
      ensures this.latencyMs == latencyMs && this.varianceMs == varianceMs
      ensures originalLatencies == map[] && affectedRequests == 0
    {
      this.targetService := targetService;
      this.latencyMs := latencyMs;
      this.varianceMs := varianceMs;
      originalLatencies := map[];
      affectedRequests := 0;
    }

    /**
     * The set-up of `execute`: an unregistered target raises; otherwise every
     * instance's base latency is saved and then every instance slows by
     * `latencyMs`.
     */
    method Execute(services: map<string, Service>) returns (r: Option<ExperimentError>)
      requires targetService in services ==> services[targetService].Valid()
      modifies this`originalLatencies, Target(services, targetService)`instances
      ensures targetService !in services ==>
        r == Some(UnknownTarget(targetService)) && originalLatencies == old(originalLatencies)
      ensures targetService in services ==>
        var s := services[targetService];
        r == None && s.Valid()
        && originalLatencies == old(originalLatencies) + BaseLatencies(old(s.instances))
        && s.instances.Keys == old(s.instances).Keys
        && forall id | id in s.instances :: s.instances[id] == IntroduceLatency(old(s.instances)[id], latencyMs as real)
    {
      if targetService !in services {
        return Some(UnknownTarget(targetService));
      }
      var s := services[targetService];
      originalLatencies := SaveLatencies(s.order, s.instances, originalLatencies);
      s.ChaosIntroduceLatency(latencyMs as real);
      r := None;
    }

    /**
     * One round of the latency loop. `randint(-variance, variance)` raises
     * ValueError for a negative variance, before anything changes; otherwise,
     * with `draw` in [-variance, variance], a healthy instance (index `pick`)
     * gets the clipped offset added, and the affected-request count grows;
     * with no healthy instance nothing happens.
     */
    method Tick(s: Service, draw: int, pick: nat) returns (raised: bool)
      requires s.Valid() && (varianceMs >= 0 ==> -varianceMs <= draw <= varianceMs)
      requires |s.HealthyIds()| > 0 ==> pick < |s.HealthyIds()|
      modifies s`instances, this`affectedRequests
      ensures s.Valid()
      ensures raised <==> varianceMs < 0
      ensures raised || old(|s.HealthyIds()|) == 0 ==>
        s.instances == old(s.instances) && affectedRequests == old(affectedRequests)
      ensures !raised && old(|s.HealthyIds()|) > 0 ==>
        var id := old(s.HealthyIds())[pick];
        s.instances == old(s.instances)[id := IntroduceLatency(old(s.instances)[id], Jitter(latencyMs, draw) as real)]
        && affectedRequests == old(affectedRequests) + 1
    {
      if varianceMs < 0 {
        return true;
      }
      var healthy := s.HealthyIds();
      if |healthy| > 0 {
        var id := healthy[pick];
        var j := IntroduceLatency(s.instances[id], Jitter(latencyMs, draw) as real);
        UpdateKeepsWellFormed(s.name, s.region, s.order, s.instances, id, j);
        s.instances := s.instances[id := j];
        affectedRequests := affectedRequests + 1;
      }
      raised := false;
    }

    /** `cleanup`: every instance still present whose latency was saved gets it back. */
    method Cleanup(services: map<string, Service>)
      requires targetService in services ==> services[targetService].Valid()
      modifies Target(services, targetService)`instances
      ensures targetService in services ==>
        var s := services[targetService];
        s.Valid() && s.instances.Keys == old(s.instances).Keys
        && forall id | id in s.instances :: s.instances[id] == RestoreLatency(old(s.instances)[id], originalLatencies)
    {
      if targetService in services {
        var s := services[targetService];
        var saved := originalLatencies;
        var m := ChangeEach(s.order, s.instances, i => RestoreLatency(i, saved));
        SameIdentities(s.name, s.region, s.order, s.instances, m);
        s.instances := m;
      }
    }
  }

  // ---------------------------------------------------------------------
  // Resource exhaustion (`ResourceExhaustionMonkey`)
  // ---------------------------------------------------------------------

  /**
   * One round of the exhaustion loop on the target instance: "cpu" pins the
   * CPU metric at `level` x 100 and triples the base latency, "memory" pins
   * the memory metric and doubles it, any other resource changes neither;
   * above level 0.95 the instance is marked DEGRADED.
   */
  function Exhausted(i: Instance, resourceType: string, level: real, now: real): Instance
  {
    var j :=
      if resourceType == "cpu" then
        i.(metrics := i.metrics.(cpuUsage := level * 100.0), baseResponseTime := i.baseResponseTime * 3.0)
      else if resourceType == "memory" then
        i.(metrics := i.metrics.(memoryUsage := level * 100.0), baseResponseTime := i.baseResponseTime * 2.0)
      else i;
    if level > 0.95 then SetStatus(j, Degraded, now) else j
  }

  /** The three `uniform` draws `cleanup` makes for one instance. */
  datatype Restoration = Restoration(cpuUsage: real, memoryUsage: real, baseResponseTime: real)

  /** The draws lie in the ranges `cleanup` draws from: CPU 20-40, memory 30-50, latency 50-200. */
  predicate InRange(d: Restoration)
  {
    20.0 <= d.cpuUsage <= 40.0 && 30.0 <= d.memoryUsage <= 50.0 && 50.0 <= d.baseResponseTime <= 200.0
  }

  /** What `cleanup` does to one affected instance: fresh metrics and latency, DEGRADED back to HEALTHY. */
  function Recovered(i: Instance, d: Restoration, now: real): Instance
  {
    var j := i.(metrics := i.metrics.(cpuUsage := d.cpuUsage, memoryUsage := d.memoryUsage),
                baseResponseTime := d.baseResponseTime);
    if j.status == Degraded then SetStatus(j, Healthy, now) else j
  }

  /**
   * Exhaustion degrades the instance exactly when the level is above 0.95,
   * otherwise it keeps its status; it never lowers a non-negative latency;
   * and recovering afterwards leaves an instance that was degraded either
   * way HEALTHY.  Neither step changes who the instance is.
   */
  lemma ExhaustionAndRecovery(i: Instance, resourceType: string, level: real, now: real, d: Restoration, later: real)
    ensures Exhausted(i, resourceType, level, now).status == if level > 0.95 then Degraded else i.status
    ensures i.baseResponseTime >= 0.0 ==> Exhausted(i, resourceType, level, now).baseResponseTime >= i.baseResponseTime
    ensures Recovered(Exhausted(i, resourceType, level, now), d, later).status
      == if level > 0.95 || i.status == Degraded then Healthy else i.status
    ensures Exhausted(i, resourceType, level, now).instanceId == i.instanceId
    ensures Exhausted(i, resourceType, level, now).serviceName == i.serviceName
    ensures Exhausted(i, resourceType, level, now).region == i.region
  {
  }

  /** `cleanup`'s loop over the affected ids, the k-th with the k-th draws; absent ids are skipped. */
  function RecoverAll(ids: seq<string>, draws: seq<Restoration>, m: map<string, Instance>, now: real): map<string, Instance>
    requires |draws| == |ids|
  {
    if ids == [] then m
    else RecoverAll(ids[1..], draws[1..], if ids[0] in m then m[ids[0] := Recovered(m[ids[0]], draws[0], now)] else m, now)
  }

  /**
   * After the recovery loop the dictionary has the same keys; unlisted
   * instances are untouched; a listed one has drawn metrics and latency in
   * range and its status with DEGRADED turned into HEALTHY, and keeps its
   * identity.
   */
  lemma {:induction false} RecoverAllEffects(ids: seq<string>, draws: seq<Restoration>, m: map<string, Instance>, now: real)
    requires |draws| == |ids| && forall k | 0 <= k < |draws| :: InRange(draws[k])
    ensures var r := RecoverAll(ids, draws, m, now);
      r.Keys == m.Keys
      && (forall id | id in m && id !in ids :: r[id] == m[id])
      && (forall id | id in m && id in ids ::
            r[id].status == (if m[id].status == Degraded then Healthy else m[id].status)
            && r[id].instanceId == m[id].instanceId && r[id].serviceName == m[id].serviceName
            && r[id].region == m[id].region
            && 50.0 <= r[id].baseResponseTime <= 200.0
            && 20.0 <= r[id].metrics.cpuUsage <= 40.0 && 30.0 <= r[id].metrics.memoryUsage <= 50.0)
  {
    if ids != [] {
      var m1 := if ids[0] in m then m[ids[0] := Recovered(m[ids[0]], draws[0], now)] else m;
      assert forall k | 0 <= k < |draws[1..]| :: draws[1..][k] == draws[k + 1];
      RecoverAllEffects(ids[1..], draws[1..], m1, now);
      forall id | id in m && id in ids
        ensures id == ids[0] || id in ids[1..]
      {
        var k :| 0 <= k < |ids| && ids[k] == id;
        if k > 0 {
          assert ids[1..][k - 1] == id;
        }
      }
    }
  }

  /** Runs the recovery loop over the affected ids. */
  method RecoverListed(ids: seq<string>, draws: seq<Restoration>, m0: map<string, Instance>, now: real)
    returns (m: map<string, Instance>)
    requires |draws| == |ids|
    ensures m == RecoverAll(ids, draws, m0, now)
  {
    m := m0;
    var i := 0;
    while i < |ids|
      invariant 0 <= i <= |ids|
      invariant RecoverAll(ids[i..], draws[i..], m, now) == RecoverAll(ids, draws, m0, now)
    {
      assert ids[i..][1..] == ids[i + 1..] && draws[i..][1..] == draws[i + 1..];
      if ids[i] in m {
        m := m[ids[i] := Recovered(m[ids[i]], draws[i], now)];
      }
      i := i + 1;
    }
  }

  class ResourceExhaustionMonkey {
    const targetService: string
    const resourceType: string
    const exhaustionLevel: real
    var affectedInstances: seq<string>

    constructor (targetService: string, resourceType: string, exhaustionLevel: real)
      ensures this.targetService == targetService && this.resourceType == resourceType
      ensures this.exhaustionLevel == exhaustionLevel && affectedInstances == []
    {
      this.targetService := targetService;
      this.resourceType := resourceType;
      this.exhaustionLevel := exhaustionLevel;
      affectedInstances := [];
    }

    /**
     * The set-up of `execute`: an unregistered target or one with no healthy
     * instance raises; otherwise the healthy instance at index `pick` is the
     * target and is recorded as affected.
     */
    method Execute(services: map<string, Service>, pick: nat) returns (r: Result<string, ExperimentError>)
      requires targetService in services ==> services[targetService].Valid()
      requires targetService in services && |services[targetService].HealthyIds()| > 0 ==>
        pick < |services[targetService].HealthyIds()|
      modifies this`affectedInstances
      ensures targetService !in services ==> r == Err(UnknownTarget(targetService))
      ensures targetService in services && |services[targetService].HealthyIds()| == 0 ==>
        r == Err(NoHealthyTarget(targetService))
      ensures r.Err? ==> affectedInstances == old(affectedInstances)
      ensures r.Ok? ==>
        targetService in services && r.value == services[targetService].HealthyIds()[pick]
        && affectedInstances == old(affectedInstances) + [r.value]
    {
      if targetService !in services {
        return Err(UnknownTarget(targetService));
      }
      var healthy := services[targetService].HealthyIds();
      if |healthy| == 0 {
        return Err(NoHealthyTarget(targetService));
      }
      affectedInstances := affectedInstances + [healthy[pick]];
      r := Ok(healthy[pick]);
    }

    /** One round of the exhaustion loop on instance `id` (nothing visible once it has left the service). */
    method Tick(s: Service, id: string, now: real)
      requires s.Valid()
      modifies s`instances
      ensures s.Valid()
      ensures id in old(s.instances) ==>
        s.instances == old(s.instances)[id := Exhausted(old(s.instances)[id], resourceType, exhaustionLevel, now)]
      ensures id !in old(s.instances) ==> s.instances == old(s.instances)
    {
      if id in s.instances {
        var j := Exhausted(s.instances[id], resourceType, exhaustionLevel, now);
        UpdateKeepsWellFormed(s.name, s.region, s.order, s.instances, id, j);
        s.instances := s.instances[id := j];
      }
    }

    /** `cleanup`: each affected instance still present recovers with its own draws. */
    method Cleanup(services: map<string, Service>, draws: seq<Restoration>, now: real)
      requires targetService in services ==> services[targetService].Valid()
      requires |draws| == |affectedInstances| && forall k | 0 <= k < |draws| :: InRange(draws[k])
      modifies Target(services, targetService)`instances
      ensures targetService in services ==>
        var s := services[targetService];
        s.Valid() && s.instances == RecoverAll(affectedInstances, draws, old(s.instances), now)
    {
      if targetService in services {
        var s := services[targetService];
        var m := RecoverListed(affectedInstances, draws, s.instances, now);
        RecoverAllEffects(affectedInstances, draws, s.instances, now);
        SameIdentities(s.name, s.region, s.order, s.instances, m);
        s.instances := m;
      }
    }
  }

  // ---------------------------------------------------------------------
  // Network partition (`NetworkPartitionMonkey`)
  // ---------------------------------------------------------------------

  /** How many of `n` healthy instances are isolated: a third (at least one) when partial, else all. */
  function IsolationCount(isolationType: string, n: nat): (c: nat)
    ensures isolationType != "partial" ==> c == n
    ensures n >= 1 ==> 1 <= c <= n
    ensures isolationType == "partial" && n >= 3 ==> c * 3 <= n < c * 3 + 3
  {
    if isolationType == "partial" then MaxInt(1, n / 3) else n
  }

  /** An isolated instance: 80% errors and 10 s more latency. */
  function Isolated(i: Instance): Instance
  {
    IntroduceLatency(i.(errorProbability := 0.8), 10000.0)
  }

  /** What `cleanup` does to one isolated instance: 1% errors and a drawn base latency. */
  function Reconnected(i: Instance, baseResponseTime: real): Instance
  {
    i.(errorProbability := 0.01, baseResponseTime := baseResponseTime)
  }

  /** `cleanup`'s loop over the isolated ids, the k-th with the k-th latency draw. */
  function ReconnectAll(ids: seq<string>, draws: seq<real>, m: map<string, Instance>): map<string, Instance>
    requires |draws| == |ids|
  {
    if ids == [] then m
    else ReconnectAll(ids[1..], draws[1..], if ids[0] in m then m[ids[0] := Reconnected(m[ids[0]], draws[0])] else m)
  }

  /**
   * Isolation then reconnection: the error probability ends at 0.01 and the
   * latency at the drawn value, whatever isolation did; the status is never
   * touched by either.
   */
  lemma PartitionRoundTrip(i: Instance, base: real)
    ensures Reconnected(Isolated(i), base) == i.(errorProbability := 0.01, baseResponseTime := base)
    ensures Isolated(i).status == i.status && Isolated(i).errorProbability == 0.8
    ensures Isolated(i).baseResponseTime == i.baseResponseTime + 10000.0
  {
  }

  /**
   * After the reconnection loop the dictionary has the same keys; unlisted
   * instances are untouched; a listed one keeps its status and identity, has
   * error probability 0.01 and a latency in [50, 200] when the draws are.
   */
  lemma {:induction false} ReconnectAllEffects(ids: seq<string>, draws: seq<real>, m: map<string, Instance>)
    requires |draws| == |ids| && forall k | 0 <= k < |draws| :: 50.0 <= draws[k] <= 200.0
    ensures var r := ReconnectAll(ids, draws, m);
      r.Keys == m.Keys
      && (forall id | id in m && id !in ids :: r[id] == m[id])
      && (forall id | id in m && id in ids ::
            r[id] == m[id].(errorProbability := 0.01, baseResponseTime := r[id].baseResponseTime)
            && 50.0 <= r[id].baseResponseTime <= 200.0)
  {
    if ids != [] {
      var m1 := if ids[0] in m then m[ids[0] := Reconnected(m[ids[0]], draws[0])] else m;
      assert forall k | 0 <= k < |draws[1..]| :: draws[1..][k] == draws[k + 1];
      ReconnectAllEffects(ids[1..], draws[1..], m1);
      forall id | id in m && id in ids
        ensures id == ids[0] || id in ids[1..]
      {
        var k :| 0 <= k < |ids| && ids[k] == id;
        if k > 0 {
          assert ids[1..][k - 1] == id;
        }
      }
    }
  }

  /** Runs the reconnection loop over the isolated ids. */
  method ReconnectListed(ids: seq<string>, draws: seq<real>, m0: map<string, Instance>)
    returns (m: map<string, Instance>)
    requires |draws| == |ids|
    ensures m == ReconnectAll(ids, draws, m0)
  {
    m := m0;
    var i := 0;
    while i < |ids|
      invariant 0 <= i <= |ids|
      invariant ReconnectAll(ids[i..], draws[i..], m) == ReconnectAll(ids, draws, m0)
    {
      assert ids[i..][1..] == ids[i + 1..] && draws[i..][1..] == draws[i + 1..];
      if ids[i] in m {
        m := m[ids[i] := Reconnected(m[ids[i]], draws[i])];
      }
      i := i + 1;
    }
  }

  class NetworkPartitionMonkey {
    const targetService: string
    const isolationType: string
    var isolatedInstances: seq<string>

    constructor (targetService: string, isolationType: string)
      ensures this.targetService == targetService && this.isolationType == isolationType
      ensures isolatedInstances == []
    {
      this.targetService := targetService;
      this.isolationType := isolationType;
      isolatedInstances := [];
    }

    /**
     * The set-up of `execute`: an unregistered target or one with no healthy
     * instance raises.  Otherwise a partial partition isolates `sample` (the
     * `random.sample` draw: distinct healthy ids, as many as
     * `IsolationCount`) and a complete one every healthy instance; each
     * isolated instance is recorded and gets 80% errors and 10 s latency.
     */
    method Execute(services: map<string, Service>, sample: seq<string>) returns (r: Option<ExperimentError>)
      requires targetService in services ==> services[targetService].Valid()
      requires isolationType == "partial" && targetService in services ==>
        var healthy := services[targetService].HealthyIds();
        |healthy| > 0 ==>
          |sample| == IsolationCount(isolationType, |healthy|) && Distinct(sample)
          && forall k | 0 <= k < |sample| :: sample[k] in healthy
      modifies this`isolatedInstances, Target(services, targetService)`instances
      ensures targetService !in services ==> r == Some(UnknownTarget(targetService))
      ensures targetService in services && old(|services[targetService].HealthyIds()|) == 0 ==>
        r == Some(NoHealthyTarget(targetService))
      ensures r.Some? ==> isolatedInstances == old(isolatedInstances) && unchanged(Target(services, targetService))
      ensures r.None? ==>
        var s := services[targetService];
        var chosen := if isolationType == "partial" then sample else old(s.HealthyIds());
        targetService in services && s.Valid()
        && |chosen| == IsolationCount(isolationType, old(|s.HealthyIds()|)) && Distinct(chosen)
        && (forall k | 0 <= k < |chosen| :: chosen[k] in old(s.HealthyIds()))
        && isolatedInstances == old(isolatedInstances) + chosen
        && s.instances.Keys == old(s.instances).Keys
        && forall id | id in s.instances ::
             s.instances[id] == if id in chosen then Isolated(old(s.instances)[id]) else old(s.instances)[id]
    {
      if targetService !in services {
        return Some(UnknownTarget(targetService));
      }
      var s := services[targetService];
      var healthy := s.HealthyIds();
      if |healthy| == 0 {
        return Some(NoHealthyTarget(targetService));
      }
      var chosen := if isolationType == "partial" then sample else healthy;
      var m := ChangeEach(s.order, s.instances, (i: Instance) => if i.instanceId in chosen then Isolated(i) else i);
      SameIdentities(s.name, s.region, s.order, s.instances, m);
      s.instances := m;
      isolatedInstances := isolatedInstances + chosen;
      r := None;
    }

    /** `cleanup`: each isolated instance still present reconnects with its own latency draw. */
    method Cleanup(services: map<string, Service>, draws: seq<real>)
      requires targetService in services ==> services[targetService].Valid()
      requires |draws| == |isolatedInstances| && forall k | 0 <= k < |draws| :: 50.0 <= draws[k] <= 200.0
      modifies Target(services, targetService)`instances
      ensures targetService in services ==>
        var s := services[targetService];
        s.Valid() && s.instances == ReconnectAll(isolatedInstances, draws, old(s.instances))
    {
      if targetService in services {
        var s := services[targetService];
        var m := ReconnectListed(isolatedInstances, draws, s.instances);
        ReconnectAllEffects(isolatedInstances, draws, s.instances);
        SameIdentities(s.name, s.region, s.order, s.instances, m);
        s.instances := m;
      }
    }
  }
}
