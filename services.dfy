/**
 * Service instances and services (core/service.py).
 *
 * A service is an object that owns a dictionary from instance id to
 * instance.  Instances are only ever reached through that dictionary, so an
 * instance is a value stored in it and "changing an instance in place" is
 * replacing its entry.  Python dictionaries keep insertion order, so a
 * service also keeps `order`, the list of its keys in that order.
 * Clock readings, random draws and generated ids are parameters.
 */
module Services {
  import opened Wrappers
  import opened Seqs

  datatype ServiceStatus = Healthy | Degraded | Unhealthy | Terminated | Recovering

  /** The statuses `get_healthy_instances` accepts: instances that take traffic. */
  predicate IsServing(s: ServiceStatus)
  {
    s == Healthy || s == Degraded
  }

  datatype ServiceType = ApiGateway | AuthService | Database | Cache | Notification | Payment | UserProfile

  /** The per-instance metrics record (`ServiceMetrics` in the source). */
  datatype InstanceMetrics = InstanceMetrics(
    responseTimeMs: real,
    cpuUsage: real,
    memoryUsage: real,
    uptimeSeconds: real,
    lastHealthCheck: real)

  /** A `ServiceInstance`: its identity and every field its methods change. */
  datatype Instance = Instance(
    serviceName: string,
    instanceId: string,
    port: int,
    region: string,
    status: ServiceStatus,
    startTime: real,
    lastRequestTime: real,
    failureCount: nat,
    recoveryTime: Option<real>,
    baseResponseTime: real,
    errorProbability: real,
    metrics: InstanceMetrics)

  /** The reason carried by a `ServiceException`. */
  datatype ServiceError =
    | ServiceUnavailable(serviceName: string)
    | InstanceTerminated(instanceId: string)
    | SimulatedError(serviceName: string)
    | NoHealthyInstances(serviceName: string)
    | ServiceNotFound(serviceName: string)

  /** Tags the load balancer adds to a response it routed. */
  datatype Routing = Routing(routedBy: string, strategy: string, balancerResponseTimeMs: real)

  /** The success dictionary returned by `handle_request`. */
  datatype Response = Response(
    instanceId: string,
    serviceName: string,
    responseTimeMs: real,
    timestamp: real,
    routing: Option<Routing>)

  /**
   * A new instance: healthy, 1% error probability, no failures.  `port` is
   * the resolved port and `baseResponseTime` the `uniform(50, 200)` draw.
   */
  function NewInstance(serviceName: string, instanceId: string, port: int, region: string,
                       baseResponseTime: real, now: real): Instance
  {
    Instance(serviceName, instanceId, port, region, Healthy, now, now, 0, None,
             baseResponseTime, 0.01, InstanceMetrics(0.0, 0.0, 0.0, 0.0, now))
  }

  /** `min(100, max(0, x))`. */
  function Clamp100(x: real): (r: real)
    ensures 0.0 <= r <= 100.0
    ensures 0.0 <= x <= 100.0 ==> r == x
  {
    if x < 0.0 then 0.0 else if x > 100.0 then 100.0 else x
  }

  /**
   * `_update_metrics` after a served request: a moving average of response
   * times, CPU and memory samples clamped to [0, 100], uptime since start.
   * The samples are the source's random draws.
   */
  function RecordResponse(m: InstanceMetrics, responseTime: real, cpuSample: real, memorySample: real,
                          startTime: real, now: real): (r: InstanceMetrics)
    ensures 0.0 <= r.cpuUsage <= 100.0 && 0.0 <= r.memoryUsage <= 100.0
    ensures MinReal(m.responseTimeMs, responseTime) <= r.responseTimeMs <= MaxReal(m.responseTimeMs, responseTime)
    ensures r.uptimeSeconds == now - startTime && r.lastHealthCheck == now
  {
    InstanceMetrics(m.responseTimeMs * 0.9 + responseTime * 0.1,
                    Clamp100(cpuSample), Clamp100(memorySample), now - startTime, now)
  }

  /**
   * One `ServiceInstance.handle_request`: the instance afterwards and the
   * response or the exception.  `draw` is the `random.random()` value and
   * `responseTime` the measured processing time.
   */
  function Requested(i: Instance, draw: real, responseTime: real, cpuSample: real, memorySample: real,
                     now: real): (Instance, Result<Response, ServiceError>)
  {
    var stamped := i.(lastRequestTime := now);
    if i.status == Unhealthy then (stamped, Err(ServiceUnavailable(i.serviceName)))
    else if i.status == Terminated then (stamped, Err(InstanceTerminated(i.instanceId)))
    else if draw < i.errorProbability then
      (stamped.(failureCount := i.failureCount + 1), Err(SimulatedError(i.serviceName)))
    else
      (stamped.(metrics := RecordResponse(i.metrics, responseTime, cpuSample, memorySample, i.startTime, now)),
       Ok(Response(i.instanceId, i.serviceName, responseTime, now, None)))
  }

  /** An unhealthy or terminated instance refuses every request and keeps its failure count. */
  lemma RequestRefusedWhenDown(i: Instance, draw: real, responseTime: real, cpuSample: real,
                               memorySample: real, now: real)
    requires i.status == Unhealthy || i.status == Terminated
    ensures var (j, r) := Requested(i, draw, responseTime, cpuSample, memorySample, now);
      r.Err? && j.failureCount == i.failureCount && j.status == i.status
      && j.baseResponseTime == i.baseResponseTime && j.metrics == i.metrics
  {
  }

  /**
   * A serving instance fails exactly when the draw falls under its error
   * probability, and then its failure count grows by exactly one; otherwise
   * it answers with its own id and the measured response time.
   */
  lemma RequestOutcome(i: Instance, draw: real, responseTime: real, cpuSample: real,
                       memorySample: real, now: real)
    requires i.status != Unhealthy && i.status != Terminated
    ensures var (j, r) := Requested(i, draw, responseTime, cpuSample, memorySample, now);
      j.status == i.status && j.lastRequestTime == now && j.instanceId == i.instanceId
      && (r.Err? <==> draw < i.errorProbability)
      && (r.Err? ==> r.error == SimulatedError(i.serviceName) && j.failureCount == i.failureCount + 1)
      && (r.Ok? ==> r.value.instanceId == i.instanceId && r.value.responseTimeMs == responseTime
                    && j.failureCount == i.failureCount)
  {
  }

  /** `set_status`: leaving TERMINATED for RECOVERING restarts the uptime clock. */
  function SetStatus(i: Instance, s: ServiceStatus, now: real): Instance
  {
    if s == Recovering && i.status == Terminated then
      i.(status := s, startTime := now, recoveryTime := Some(now))
    else i.(status := s)
  }

  /**
   * One `health_check`: `flapDraw` is the first random draw (5% chance of
   * degrading), `recoverDraw` the second (30% chance that a degraded
   * instance recovers).
   */
  function HealthChecked(i: Instance, flapDraw: real, recoverDraw: real, now: real): (Instance, bool)
  {
    if i.status == Terminated || i.status == Unhealthy then (i, false)
    else if flapDraw < 0.05 then (SetStatus(i, Degraded, now), false)
    else
      var j := if i.status == Degraded && recoverDraw < 0.3 then SetStatus(i, Healthy, now) else i;
      (j.(metrics := j.metrics.(lastHealthCheck := now)), j.status == Healthy)
  }

  /**
   * A health check answers true exactly when the instance ends HEALTHY; it
   * never revives an unhealthy or terminated instance and only ever moves a
   * status to DEGRADED or HEALTHY.
   */
  lemma HealthCheckTruthful(i: Instance, flapDraw: real, recoverDraw: real, now: real)
    ensures var (j, ok) := HealthChecked(i, flapDraw, recoverDraw, now);
      (ok <==> j.status == Healthy)
      && (i.status == Terminated || i.status == Unhealthy ==> j == i)
      && (j.status == i.status || j.status == Degraded || j.status == Healthy)
      && j.failureCount == i.failureCount && j.baseResponseTime == i.baseResponseTime
      && j.instanceId == i.instanceId
  {
  }

  /** `terminate`. */
  function Terminate(i: Instance): Instance
  {
    SetStatus(i, Terminated, i.startTime)
  }

  /** Any status goes to TERMINATED, nothing else changes, and a second call is a no-op. */
  lemma TerminateIdempotent(i: Instance)
    ensures Terminate(i).status == Terminated
    ensures Terminate(i) == i.(status := Terminated)
    ensures Terminate(Terminate(i)) == Terminate(i)
  {
  }

  /** `restart`: RECOVERING, then HEALTHY with the failure count cleared. */
  function Restart(i: Instance, now: real): Instance
  {
    if i.status == Terminated then
      SetStatus(SetStatus(i, Recovering, now), Healthy, now).(failureCount := 0)
    else i
  }

  /** Only a terminated instance restarts; it ends HEALTHY with no failures and a fresh start time. */
  lemma RestartOnlyFromTerminated(i: Instance, now: real)
    ensures i.status != Terminated ==> Restart(i, now) == i
    ensures i.status == Terminated ==>
      Restart(i, now).status == Healthy && Restart(i, now).failureCount == 0
      && Restart(i, now).startTime == now && Restart(i, now).recoveryTime == Some(now)
      && Restart(i, now).baseResponseTime == i.baseResponseTime
  {
  }

  /** `introduce_latency`. */
  function IntroduceLatency(i: Instance, additionalMs: real): Instance
  {
    i.(baseResponseTime := i.baseResponseTime + additionalMs)
  }

  /** `introduce_errors`: the rate is capped at 1.0 and not bounded below. */
  function IntroduceErrors(i: Instance, errorRate: real): Instance
  {
    i.(errorProbability := MinReal(1.0, errorRate))
  }

  /**
   * Added latency accumulates exactly and leaves the status alone; an error
   * rate above 1 is stored as 1 and any other rate as given.
   */
  lemma ChaosKnobs(i: Instance, ms1: real, ms2: real, rate: real)
    ensures IntroduceLatency(IntroduceLatency(i, ms1), ms2).baseResponseTime == i.baseResponseTime + ms1 + ms2
    ensures IntroduceLatency(i, ms1).status == i.status
    ensures IntroduceErrors(i, rate).errorProbability <= 1.0
    ensures rate <= 1.0 ==> IntroduceErrors(i, rate).errorProbability == rate
    ensures IntroduceErrors(i, rate).status == i.status
  {
  }

  /** The ids among `ids` whose instance is serving, in the order of `ids`. */
  function ServingIds(ids: seq<string>, m: map<string, Instance>): (r: seq<string>)
    ensures forall k | 0 <= k < |r| :: r[k] in ids && r[k] in m && IsServing(m[r[k]].status)
    ensures forall k | 0 <= k < |ids| && ids[k] in m && IsServing(m[ids[k]].status) :: ids[k] in r
    ensures |r| <= |ids|
    ensures Distinct(ids) ==> Distinct(r)
  {
    if ids == [] then []
    else
      var rest := ServingIds(ids[1..], m);
      assert forall k | 0 <= k < |rest| :: rest[k] in ids[1..];
      if ids[0] in m && IsServing(m[ids[0]].status) then [ids[0]] + rest else rest
  }

  lemma DistinctTail(ids: seq<string>)
    requires Distinct(ids) && ids != []
    ensures Distinct(ids[1..]) && ids[0] !in ids[1..]
  {
    forall i, j | 0 <= i < j < |ids[1..]| ensures ids[1..][i] != ids[1..][j] {
      assert ids[1..][i] == ids[i + 1] && ids[1..][j] == ids[j + 1];
    }
  }

  /**
   * Changing one serving instance into a non-serving one removes exactly
   * that id from the serving list, so the healthy count drops by one.
   */
  lemma {:induction false} ServingAfterStop(ids: seq<string>, m: map<string, Instance>, id: string, j: Instance)
    requires Distinct(ids) && id in ids && id in m
    requires IsServing(m[id].status) && !IsServing(j.status)
    ensures ServingIds(ids, m[id := j]) == Without(ServingIds(ids, m), id)
    ensures |ServingIds(ids, m[id := j])| == |ServingIds(ids, m)| - 1
  {
    DistinctTail(ids);
    if ids[0] == id {
      ServingUnchanged(ids[1..], m, id, j);
      assert id !in ServingIds(ids[1..], m);
      assert Without(ServingIds(ids[1..], m), id) == ServingIds(ids[1..], m);
    } else {
      ServingAfterStop(ids[1..], m, id, j);
    }
  }

  /** Changing an instance that is not listed does not change the serving list. */
  lemma {:induction false} ServingUnchanged(ids: seq<string>, m: map<string, Instance>, id: string, j: Instance)
    requires id !in ids
    ensures ServingIds(ids, m[id := j]) == ServingIds(ids, m)
  {
    if ids != [] {
      ServingUnchanged(ids[1..], m, id, j);
    }
  }

  /** When every listed instance serves, the serving list is the whole list. */
  lemma {:induction false} AllServing(ids: seq<string>, m: map<string, Instance>)
    requires forall k | 0 <= k < |ids| :: ids[k] in m && IsServing(m[ids[k]].status)
    ensures ServingIds(ids, m) == ids
  {
    if ids != [] {
      AllServing(ids[1..], m);
    }
  }

  /** When no instance serves, the serving list is empty. */
  lemma {:induction false} NoneServing(ids: seq<string>, m: map<string, Instance>)
    requires forall id | id in m :: !IsServing(m[id].status)
    ensures ServingIds(ids, m) == []
  {
    if ids != [] {
      NoneServing(ids[1..], m);
    }
  }

  /** The serving list is as long as the key list exactly when every listed instance serves. */
  lemma {:induction false} ServingAll(ids: seq<string>, m: map<string, Instance>)
    requires Distinct(ids)
    ensures |ServingIds(ids, m)| == |ids| <==> forall k | 0 <= k < |ids| :: ids[k] in m && IsServing(m[ids[k]].status)
  {
    if ids != [] {
      DistinctTail(ids);
      ServingAll(ids[1..], m);
      assert forall k | 1 <= k < |ids| :: ids[k] == ids[1..][k - 1];
    }
  }

  /** A list of distinct keys has as many elements as the set of its elements. */
  lemma {:induction false} DistinctCard(ids: seq<string>)
    requires Distinct(ids)
    ensures |(set k | 0 <= k < |ids| :: ids[k])| == |ids|
  {
    if ids != [] {
      DistinctTail(ids);
      DistinctCard(ids[1..]);
      assert (set k | 0 <= k < |ids| :: ids[k]) == {ids[0]} + (set k | 0 <= k < |ids[1..]| :: ids[1..][k]);
    }
  }

  /** The first listed instance idle for more than 300 seconds at `now`. */
  function FirstIdle(ids: seq<string>, m: map<string, Instance>, now: real): (r: Option<string>)
    ensures r.Some? ==> r.value in ids && r.value in m && now - m[r.value].lastRequestTime > 300.0
    ensures r.None? ==> forall k | 0 <= k < |ids| && ids[k] in m :: now - m[ids[k]].lastRequestTime <= 300.0
  {
    if ids == [] then None
    else if ids[0] in m && now - m[ids[0]].lastRequestTime > 300.0 then Some(ids[0])
    else
      var r := FirstIdle(ids[1..], m, now);
      assert forall k | 1 <= k < |ids| :: ids[k] == ids[1..][k - 1];
      r
  }

  /**
   * A service's dictionary and key list agree, no key is listed twice, and
   * every instance is stored under its own id and belongs to the service.
   */
  ghost predicate WellFormed(name: string, region: string, order: seq<string>, m: map<string, Instance>)
  {
    Distinct(order)
    && (forall id :: id in m <==> id in order)
    && (forall id | id in m :: m[id].instanceId == id && m[id].serviceName == name && m[id].region == region)
  }

  /** Replacing an instance by one with the same identity keeps the dictionary well formed. */
  lemma UpdateKeepsWellFormed(name: string, region: string, order: seq<string>, m: map<string, Instance>,
                              id: string, j: Instance)
    requires WellFormed(name, region, order, m) && id in m
    requires j.instanceId == id && j.serviceName == name && j.region == region
    ensures WellFormed(name, region, order, m[id := j])
  {
  }

  /** Storing an instance under its own id appends a new key or keeps the list. */
  lemma AddKeepsWellFormed(name: string, region: string, order: seq<string>, m: map<string, Instance>,
                           id: string, j: Instance)
    requires WellFormed(name, region, order, m)
    requires j.instanceId == id && j.serviceName == name && j.region == region
    ensures WellFormed(name, region, if id in m then order else order + [id], m[id := j])
    ensures |m[id := j]| == |m| + (if id in m then 0 else 1)
  {
    if id !in m {
      assert forall k | 0 <= k < |order| :: order[k] in m;
    }
  }

  /** Deleting a key from the dictionary and from its key list keeps them in step. */
  lemma RemoveKeepsWellFormed(name: string, region: string, order: seq<string>, m: map<string, Instance>, id: string)
    requires WellFormed(name, region, order, m) && id in m
    ensures WellFormed(name, region, Without(order, id), m - {id})
    ensures |m - {id}| == |m| - 1
  {
    WithoutIn(order, id);
  }

  /** The aggregate returned by `get_service_metrics`; `totalRequests` is absent for an empty service. */
  datatype ServiceMetrics = ServiceMetrics(
    serviceName: string,
    totalInstances: nat,
    healthyInstances: nat,
    availability: real,
    avgResponseTimeMs: real,
    totalRequests: Option<nat>,
    errorRate: real,
    statuses: map<string, ServiceStatus>)

  /** What auto-scaling did in one round. */
  datatype ScaleAction = NoScaling | ScaledUp(id: string) | ScaledDown(id: string)

  class Service {
    const name: string
    const serviceType: ServiceType
    const region: string
    const minInstances: int
    const maxInstances: int
    const targetInstances: int
    var instances: map<string, Instance>
    /** The keys of `instances` in insertion order. */
    var order: seq<string>
    var requestCount: nat
    var totalResponseTime: real
    var errorCount: nat
    var autoScalingEnabled: bool

    /**
     * Every instance is stored under its own id and belongs to this service,
     * and the minimum is at least one instance.
     */
    ghost predicate Valid()
      reads this
    {
      WellFormed(name, region, order, instances) && minInstances >= 1
    }

    /** `get_healthy_instances`, as ids in dictionary order. */
    function HealthyIds(): seq<string>
      reads this
    {
      ServingIds(order, instances)
    }

    /**
     * `initial_instances` instances are created with the given ids (the uuid
     * draws, which never collide), ports and base latencies.
     */
    constructor (name: string, serviceType: ServiceType, initialInstances: int, region: string,
                 ids: seq<string>, ports: seq<int>, baseResponseTimes: seq<real>, now: real)
      requires |ids| == |ports| == |baseResponseTimes| == MaxInt(0, initialInstances)
      requires Distinct(ids)
      ensures Valid()
      ensures this.name == name && this.serviceType == serviceType && this.region == region
      ensures minInstances == MaxInt(1, initialInstances / 2)
      ensures maxInstances == initialInstances * 3 && targetInstances == initialInstances
      ensures order == ids && |instances| == |ids|
      ensures forall k | 0 <= k < |ids| ::
        instances[ids[k]] == NewInstance(name, ids[k], ports[k], region, baseResponseTimes[k], now)
      ensures HealthyIds() == ids
      ensures requestCount == 0 && totalResponseTime == 0.0 && errorCount == 0 && autoScalingEnabled
    {
      this.name := name;
      this.serviceType := serviceType;
      this.region := region;
      minInstances := MaxInt(1, initialInstances / 2);
      maxInstances := initialInstances * 3;
      targetInstances := initialInstances;
      requestCount := 0;
      totalResponseTime := 0.0;
      errorCount := 0;
      autoScalingEnabled := true;
      var m := InitialInstances(name, region, ids, ports, baseResponseTimes, now);
      instances := m;
      order := ids;
      AllServing(ids, m);
    }

    /**
     * `add_instance`: stores a new healthy instance under `id` (a reused id
     * replaces the old instance in place, keeping its position).
     */
    method AddInstance(id: string, port: int, baseResponseTime: real, now: real)
      requires Valid()
      modifies this`instances, this`order
      ensures Valid()
      ensures instances == old(instances)[id := NewInstance(name, id, port, region, baseResponseTime, now)]
      ensures order == if id in old(instances) then old(order) else old(order) + [id]
      ensures |instances| == old(|instances|) + (if id in old(instances) then 0 else 1)
    {
      var j := NewInstance(name, id, port, region, baseResponseTime, now);
      AddKeepsWellFormed(name, region, order, instances, id, j);
      if id !in instances {
        order := order + [id];
      }
      instances := instances[id := j];
    }

    /** `remove_instance`: terminates and deletes the instance under `id`; false when there is none. */
    method RemoveInstance(id: string) returns (removed: bool)
      requires Valid()
      modifies this`instances, this`order
      ensures Valid()
      ensures removed == (id in old(instances))
      ensures instances == old(instances) - {id} && order == Without(old(order), id)
      ensures |instances| == old(|instances|) - (if removed then 1 else 0)
    {
      if id !in instances {
        return false;
      }
      // The instance is terminated and then dropped; once dropped it is not
      // reachable, so only the deletion is visible.
      RemoveKeepsWellFormed(name, region, order, instances, id);
      instances := instances - {id};
      order := Without(order, id);
      removed := true;
    }

    /**
     * `ServiceInstance.handle_request` on the instance stored under `id`: the
     * entry is replaced by the instance afterwards and the outcome returned.
     */
    method InstanceRequest(id: string, draw: real, responseTime: real, cpuSample: real, memorySample: real,
                           now: real)
      returns (r: Result<Response, ServiceError>)
      requires Valid() && id in instances
      modifies this`instances
      ensures Valid() && instances.Keys == old(instances).Keys
      ensures var (j, res) := Requested(old(instances)[id], draw, responseTime, cpuSample, memorySample, now);
        r == res && instances == old(instances)[id := j]
    {
      var (j, res) := Requested(instances[id], draw, responseTime, cpuSample, memorySample, now);
      UpdateKeepsWellFormed(name, region, order, instances, id, j);
      instances := instances[id := j];
      r := res;
    }

    /**
     * `Service.handle_request`: routes to the healthy instance at index
     * `pick` (the `random.choice` draw) and counts successes, their latency,
     * and errors.
     */
    method HandleRequest(pick: nat, draw: real, responseTime: real, cpuSample: real, memorySample: real, now: real)
      returns (r: Result<Response, ServiceError>)
      requires Valid()
      requires HealthyIds() != [] ==> pick < |HealthyIds()|
      modifies this`instances, this`requestCount, this`totalResponseTime, this`errorCount
      ensures Valid() && instances.Keys == old(instances).Keys
      ensures old(HealthyIds()) == [] ==>
        r == Err(NoHealthyInstances(name)) && instances == old(instances)
        && errorCount == old(errorCount) + 1 && requestCount == old(requestCount)
        && totalResponseTime == old(totalResponseTime)
      ensures old(HealthyIds()) != [] ==>
        var id := old(HealthyIds())[pick];
        var (j, res) := Requested(old(instances)[id], draw, responseTime, cpuSample, memorySample, now);
        r == res && instances == old(instances)[id := j]
        && (r.Ok? ==> requestCount == old(requestCount) + 1 && errorCount == old(errorCount)
                      && totalResponseTime == old(totalResponseTime) + responseTime)
        && (r.Err? ==> requestCount == old(requestCount) && errorCount == old(errorCount) + 1
                       && totalResponseTime == old(totalResponseTime))
    {
      var healthy := HealthyIds();
      if healthy == [] {
        errorCount := errorCount + 1;
        return Err(NoHealthyInstances(name));
      }
      r := InstanceRequest(healthy[pick], draw, responseTime, cpuSample, memorySample, now);
      if r.Ok? {
        requestCount := requestCount + 1;
        totalResponseTime := totalResponseTime + responseTime;
      } else {
        errorCount := errorCount + 1;
      }
    }

    /**
     * `chaos_terminate_random_instance`: refuses (None) while the healthy
     * count is at most `min_instances`; otherwise terminates the healthy
     * instance at index `pick` (the random draw), keeps it in the dictionary
     * and returns its id.
     */
    method ChaosTerminateRandomInstance(pick: nat) returns (r: Option<string>)
      requires Valid()
      requires |HealthyIds()| > minInstances ==> pick < |HealthyIds()|
      modifies this`instances
      ensures Valid()
      ensures old(|HealthyIds()|) <= minInstances ==> r == None && instances == old(instances)
      ensures old(|HealthyIds()|) > minInstances ==>
        r == Some(old(HealthyIds())[pick])
        && instances == old(instances)[r.value := Terminate(old(instances)[r.value])]
      ensures r.Some? ==> HealthyIds() == Without(old(HealthyIds()), r.value)
      ensures r.Some? ==> |HealthyIds()| == old(|HealthyIds()|) - 1
    {
      var healthy := HealthyIds();
      if |healthy| <= minInstances {
        return None;
      }
      var id := healthy[pick];
      var j := Terminate(instances[id]);
      ServingAfterStop(order, instances, id, j);
      UpdateKeepsWellFormed(name, region, order, instances, id, j);
      instances := instances[id := j];
      r := Some(id);
    }

    /** `chaos_introduce_latency` without an id: every instance slows by `latencyMs`. */
    method ChaosIntroduceLatency(latencyMs: real)
      requires Valid()
      modifies this`instances
      ensures Valid() && instances.Keys == old(instances).Keys
      ensures forall id | id in instances :: instances[id] == IntroduceLatency(old(instances)[id], latencyMs)
    {
      var m := ChangeEach(order, instances, i => IntroduceLatency(i, latencyMs));
      SameIdentities(name, region, order, instances, m);
      instances := m;
    }

    /** `shutdown`: every instance ends TERMINATED and stays in the dictionary. */
    method Shutdown()
      requires Valid()
      modifies this`instances
      ensures Valid() && instances.Keys == old(instances).Keys
      ensures forall id | id in instances :: instances[id] == Terminate(old(instances)[id])
      ensures HealthyIds() == []
    {
      var m := ChangeEach(order, instances, Terminate);
      SameIdentities(name, region, order, instances, m);
      NoneServing(order, m);
      instances := m;
    }

    /**
     * One round of `_auto_scale_if_needed`: one new instance (id `newId`)
     * when healthy < min and total < max; otherwise, when healthy > target
     * and total > min, the first instance idle for over 300 s is removed.
     */
    method AutoScaleIfNeeded(newId: string, port: int, baseResponseTime: real, now: real)
      returns (action: ScaleAction)
      requires Valid()
      modifies this`instances, this`order
      ensures Valid()
      ensures action == NoScaling ==> instances == old(instances) && order == old(order)
      ensures !autoScalingEnabled ==> action == NoScaling
      ensures action.ScaledUp? <==>
        autoScalingEnabled && old(|HealthyIds()|) < minInstances && old(|instances|) < maxInstances
      ensures action.ScaledUp? ==>
        action.id == newId
        && instances == old(instances)[newId := NewInstance(name, newId, port, region, baseResponseTime, now)]
        && |instances| == old(|instances|) + (if newId in old(instances) then 0 else 1)
      ensures action.ScaledDown? ==>
        autoScalingEnabled && old(|HealthyIds()|) > targetInstances && old(|instances|) > minInstances
        && Some(action.id) == FirstIdle(old(order), old(instances), now)
        && instances == old(instances) - {action.id}
        && |instances| == old(|instances|) - 1 && |instances| >= minInstances
      ensures (action == NoScaling && autoScalingEnabled && old(|HealthyIds()|) > targetInstances
               && old(|instances|) > minInstances) ==> FirstIdle(old(order), old(instances), now) == None
    {
      if !autoScalingEnabled {
        return NoScaling;
      }
      var healthyCount := |HealthyIds()|;
      var totalCount := |instances|;
      if healthyCount < minInstances && totalCount < maxInstances {
        AddInstance(newId, port, baseResponseTime, now);
        return ScaledUp(newId);
      }
      action := NoScaling;
      if healthyCount > targetInstances && totalCount > minInstances {
        // The dictionary does not change while it is scanned, so the
        // "more than min" test inside the scan always holds.
        var idle := FindIdle(order, instances, now);
        if idle.Some? {
          var _ := RemoveInstance(idle.value);
          action := ScaledDown(idle.value);
        }
      }
    }

    /** `get_service_metrics`. */
    function Metrics(): ServiceMetrics
      reads this
    {
      var total := |instances|;
      var healthy := |HealthyIds()|;
      var statuses := map id | id in instances :: instances[id].status;
      if total == 0 then
        ServiceMetrics(name, 0, 0, 0.0, 0.0, None, 0.0, statuses)
      else
        ServiceMetrics(name, total, healthy, (healthy as real / total as real) * 100.0,
                       if requestCount > 0 then totalResponseTime / requestCount as real else 0.0,
                       Some(requestCount),
                       (errorCount as real / MaxInt(1, requestCount) as real) * 100.0,
                       statuses)
    }

    /**
     * Availability is the healthy share in percent and lies in [0, 100]; it is
     * 100 exactly when every instance serves.  The error rate divides errors
     * by served requests (at least 1), the average response time the total
     * time by served requests (0 when none); a service without instances
     * reports zeros.
     */
    lemma MetricsMeaning()
      requires Valid()
      ensures var m := Metrics();
        m.totalInstances == |instances| && m.healthyInstances <= m.totalInstances
        && 0.0 <= m.availability <= 100.0
        && (m.totalInstances > 0 ==>
              (m.availability == 100.0 <==> forall id | id in instances :: IsServing(instances[id].status)))
        && (m.totalInstances > 0 ==> m.errorRate * MaxInt(1, requestCount) as real == errorCount as real * 100.0)
        && (m.totalInstances > 0 && requestCount > 0 ==> m.avgResponseTimeMs * requestCount as real == totalResponseTime)
        && (m.totalInstances > 0 && requestCount == 0 ==> m.avgResponseTimeMs == 0.0)
        && (m.totalInstances == 0 ==>
              m.healthyInstances == 0 && m.availability == 0.0 && m.avgResponseTimeMs == 0.0 && m.errorRate == 0.0
              && m.totalRequests.None?)
    {
      HealthyCount(order, instances);
      if |instances| > 0 {
        RatioFacts(|HealthyIds()|, |instances|);
      }
    }

    /** `_auto_restart_instance` body: restarts the instance if it is still terminated. */
    method AutoRestartInstance(id: string, now: real)
      requires Valid()
      modifies this`instances
      ensures Valid()
      ensures id in old(instances) ==> instances == old(instances)[id := Restart(old(instances)[id], now)]
      ensures id !in old(instances) ==> instances == old(instances)
    {
      if id in instances && instances[id].status == Terminated {
        var j := Restart(instances[id], now);
        UpdateKeepsWellFormed(name, region, order, instances, id, j);
        instances := instances[id := j];
      }
    }
  }

  /** Every key of a well-formed dictionary sits at some index of the key list. */
  lemma EveryKeyListed(order: seq<string>, m: map<string, Instance>)
    requires forall id :: id in m <==> id in order
    ensures forall id | id in m :: exists k :: 0 <= k < |order| && order[k] == id
  {
  }

  lemma RatioFacts(h: nat, t: nat)
    requires 0 < t && h <= t
    ensures 0.0 <= (h as real / t as real) * 100.0 <= 100.0
    ensures (h as real / t as real) * 100.0 == 100.0 <==> h == t
  {
  }

  /** Builds the initial dictionary, one `add_instance` per id. */
  method InitialInstances(name: string, region: string, ids: seq<string>, ports: seq<int>,
                          baseResponseTimes: seq<real>, now: real)
    returns (m: map<string, Instance>)
    requires |ids| == |ports| == |baseResponseTimes| && Distinct(ids)
    ensures WellFormed(name, region, ids, m) && |m| == |ids|
    ensures forall k | 0 <= k < |ids| ::
      m[ids[k]] == NewInstance(name, ids[k], ports[k], region, baseResponseTimes[k], now)
  {
    m := map[];
    var i := 0;
    while i < |ids|
      invariant 0 <= i <= |ids|
      invariant WellFormed(name, region, ids[..i], m) && |m| == i
      invariant forall k | 0 <= k < i ::
        m[ids[k]] == NewInstance(name, ids[k], ports[k], region, baseResponseTimes[k], now)
    {
      InitialStep(name, region, ids, ports, baseResponseTimes, now, i, m);
      m := m[ids[i] := NewInstance(name, ids[i], ports[i], region, baseResponseTimes[i], now)];
      i := i + 1;
    }
    assert ids[..i] == ids;
  }

  lemma InitialStep(name: string, region: string, ids: seq<string>, ports: seq<int>,
                    baseResponseTimes: seq<real>, now: real, i: nat, m: map<string, Instance>)
    requires |ids| == |ports| == |baseResponseTimes| && Distinct(ids) && i < |ids|
    requires WellFormed(name, region, ids[..i], m) && |m| == i
    requires forall k | 0 <= k < i ::
      m[ids[k]] == NewInstance(name, ids[k], ports[k], region, baseResponseTimes[k], now)
    ensures var m2 := m[ids[i] := NewInstance(name, ids[i], ports[i], region, baseResponseTimes[i], now)];
      WellFormed(name, region, ids[..i + 1], m2) && |m2| == i + 1
      && forall k | 0 <= k < i + 1 ::
           m2[ids[k]] == NewInstance(name, ids[k], ports[k], region, baseResponseTimes[k], now)
  {
    assert ids[i] !in ids[..i];
    AddKeepsWellFormed(name, region, ids[..i], m, ids[i],
                       NewInstance(name, ids[i], ports[i], region, baseResponseTimes[i], now));
    assert ids[..i + 1] == ids[..i] + [ids[i]];
  }

  /**
   * A `for instance in instances.values()` loop that changes each instance
   * by `f`: every entry ends as `f` of its old value.
   */
  method ChangeEach(order: seq<string>, m0: map<string, Instance>, f: Instance -> Instance)
    returns (m: map<string, Instance>)
    requires Distinct(order) && forall id :: id in m0 <==> id in order
    ensures m.Keys == m0.Keys && forall id | id in m :: m[id] == f(m0[id])
  {
    m := m0;
    var i := 0;
    while i < |order|
      invariant 0 <= i <= |order| && m.Keys == m0.Keys
      invariant forall id | id in m :: m[id] == if id in order[..i] then f(m0[id]) else m0[id]
    {
      assert order[..i + 1] == order[..i] + [order[i]];
      assert order[i] !in order[..i];
      m := m[order[i] := f(m[order[i]])];
      i := i + 1;
    }
    assert order[..i] == order;
  }

  /** A dictionary with the same keys and the same instance identities stays well formed. */
  lemma SameIdentities(name: string, region: string, order: seq<string>, m: map<string, Instance>,
                       m2: map<string, Instance>)
    requires WellFormed(name, region, order, m) && m2.Keys == m.Keys
    requires forall id | id in m2 ::
      (m2[id].instanceId == m[id].instanceId && m2[id].serviceName == m[id].serviceName
       && m2[id].region == m[id].region)
    ensures WellFormed(name, region, order, m2)
  {
  }

  /** The first id idle for over 300 seconds, found by scanning the key list. */
  method FindIdle(order: seq<string>, m: map<string, Instance>, now: real) returns (r: Option<string>)
    requires forall k | 0 <= k < |order| :: order[k] in m
    ensures r == FirstIdle(order, m, now)
  {
    var i := 0;
    while i < |order|
      invariant 0 <= i <= |order|
      invariant FirstIdle(order, m, now) == FirstIdle(order[i..], m, now)
    {
      if now - m[order[i]].lastRequestTime > 300.0 {
        return Some(order[i]);
      }
      assert order[i..][1..] == order[i + 1..];
      i := i + 1;
    }
    return None;
  }

  /**
   * Over a well-formed dictionary the serving list is never longer than the
   * dictionary, and as long exactly when every instance serves.
   */
  lemma HealthyCount(order: seq<string>, m: map<string, Instance>)
    requires Distinct(order) && forall id :: id in m <==> id in order
    ensures |ServingIds(order, m)| <= |m|
    ensures |ServingIds(order, m)| == |m| <==> forall id | id in m :: IsServing(m[id].status)
  {
    DistinctCard(order);
    assert (set k | 0 <= k < |order| :: order[k]) == m.Keys;
    ServingAll(order, m);
    assert (forall id | id in m :: IsServing(m[id].status))
       <==> (forall k | 0 <= k < |order| :: order[k] in m && IsServing(m[order[k]].status));
  }
}
