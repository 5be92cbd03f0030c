/**
 * The load balancer (core/load_balancer.py): a registry of services by
 * name, a round-robin cursor per service, instance selection strategies,
 * traffic counters and two chaos helpers.
 */
module LoadBalancing {
  import opened Wrappers
  import opened Seqs
  import opened Services

  datatype Strategy = RoundRobin | LeastConnections | Random | WeightedRoundRobin | HealthBased

  /** The strategy's `value`, as put into routed responses. */
  function StrategyValue(s: Strategy): string
  {
    match s
    case RoundRobin => "round_robin"
    case LeastConnections => "least_connections"
    case Random => "random"
    case WeightedRoundRobin => "weighted_round_robin"
    case HealthBased => "health_based"
  }

  /** Strategies that choose with a random draw (`pick`). */
  predicate ChoosesRandomly(s: Strategy)
  {
    s == Random || s == WeightedRoundRobin
  }

  /**
   * `_calculate_health_score`: 100 minus penalties for latency above 500 ms,
   * CPU and memory above 80% and ten per failure, plus 10 after an hour of
   * uptime, floored at 0.
   */
  function HealthScore(i: Instance): (r: real)
    ensures 0.0 <= r <= 110.0
    ensures (i.metrics.responseTimeMs <= 500.0 && i.metrics.cpuUsage <= 80.0 && i.metrics.memoryUsage <= 80.0
             && i.failureCount == 0) ==> r == (if i.metrics.uptimeSeconds > 3600.0 then 110.0 else 100.0)
  {
    var m := i.metrics;
    var latency := if m.responseTimeMs > 500.0 then (m.responseTimeMs - 500.0) / 10.0 else 0.0;
    var cpu := if m.cpuUsage > 80.0 then (m.cpuUsage - 80.0) * 2.0 else 0.0;
    var memory := if m.memoryUsage > 80.0 then (m.memoryUsage - 80.0) * 1.5 else 0.0;
    var bonus := if m.uptimeSeconds > 3600.0 then 10.0 else 0.0;
    MaxReal(0.0, 100.0 - latency - cpu - memory - (i.failureCount as real) * 10.0 + bonus)
  }

  /** Every extra failure costs ten points until the score reaches 0. */
  lemma FailuresLowerScore(i: Instance)
    ensures HealthScore(i.(failureCount := i.failureCount + 1)) == MaxReal(0.0, HealthScore(i) - 10.0)
    ensures HealthScore(i.(failureCount := i.failureCount + 1)) <= HealthScore(i)
  {
  }

  /**
   * The index of the first largest key: what a stable descending sort puts
   * first, and what `min` with the negated key returns.
   */
  function FirstArgMax(keys: seq<real>): (r: nat)
    requires |keys| > 0
    ensures r < |keys|
    ensures forall k | 0 <= k < |keys| :: keys[k] <= keys[r]
    ensures forall k | 0 <= k < r :: keys[k] < keys[r]
  {
    if |keys| == 1 then 0
    else
      var r := FirstArgMax(keys[..|keys| - 1]);
      if keys[|keys| - 1] > keys[r] then |keys| - 1 else r
  }

  /** The instances listed under `ids`, in order. */
  function InstancesOf(ids: seq<string>, m: map<string, Instance>): (r: seq<Instance>)
    requires forall k | 0 <= k < |ids| :: ids[k] in m
    ensures |r| == |ids| && forall k | 0 <= k < |ids| :: r[k] == m[ids[k]]
  {
    seq(|ids|, k requires 0 <= k < |ids| => m[ids[k]])
  }

  function Scores(insts: seq<Instance>): (r: seq<real>)
    ensures |r| == |insts| && forall k | 0 <= k < |insts| :: r[k] == HealthScore(insts[k])
  {
    seq(|insts|, k requires 0 <= k < |insts| => HealthScore(insts[k]))
  }

  function LastRequestTimes(insts: seq<Instance>): (r: seq<real>)
    ensures |r| == |insts| && forall k | 0 <= k < |insts| :: r[k] == insts[k].lastRequestTime
  {
    seq(|insts|, k requires 0 <= k < |insts| => insts[k].lastRequestTime)
  }

  /**
   * `_select_instance` over a non-empty list of healthy instances: the
   * index it chooses.  `counter` is the service's round-robin cursor and
   * `pick` the random draw.  Least connections picks the instance whose time
   * since its last request is smallest, that is the most recently served.
   */
  function SelectIndex(s: Strategy, counter: nat, insts: seq<Instance>, pick: nat): (r: nat)
    requires |insts| > 0
    requires ChoosesRandomly(s) ==> pick < |insts|
    ensures r < |insts|
  {
    match s
    case RoundRobin => counter % |insts|
    case LeastConnections => FirstArgMax(LastRequestTimes(insts))
    case HealthBased => FirstArgMax(Scores(insts))
    case Random => pick
    case WeightedRoundRobin => pick
  }

  /**
   * What each strategy's choice means: round robin takes the cursor modulo
   * the list length, health-based the first instance with the best score,
   * least connections the first most recently served one, the random
   * strategies the draw.
   */
  lemma SelectIndexMeaning(s: Strategy, counter: nat, insts: seq<Instance>, pick: nat)
    requires |insts| > 0
    requires ChoosesRandomly(s) ==> pick < |insts|
    ensures var r := SelectIndex(s, counter, insts, pick);
      (s == RoundRobin ==> r == counter % |insts|)
      && (s == HealthBased ==>
            (forall k | 0 <= k < |insts| :: HealthScore(insts[k]) <= HealthScore(insts[r]))
            && forall k | 0 <= k < r :: HealthScore(insts[k]) < HealthScore(insts[r]))
      && (s == LeastConnections ==>
            (forall k | 0 <= k < |insts| :: insts[k].lastRequestTime <= insts[r].lastRequestTime)
            && forall k | 0 <= k < r :: insts[k].lastRequestTime < insts[r].lastRequestTime)
      && (ChoosesRandomly(s) ==> r == pick)
  {
    var r := SelectIndex(s, counter, insts, pick);
    if s == HealthBased {
      var sc := Scores(insts);
      assert forall k | 0 <= k < |insts| :: sc[k] <= sc[r];
    } else if s == LeastConnections {
      var lt := LastRequestTimes(insts);
      assert forall k | 0 <= k < |insts| :: lt[k] <= lt[r];
    }
  }

  /** A service whose instance order and traffic counters are as they were: only its instances changed. */
  twostate predicate Untouched(s: Service)
    reads s
  {
    s.order == old(s.order) && s.requestCount == old(s.requestCount)
    && s.totalResponseTime == old(s.totalResponseTime) && s.errorCount == old(s.errorCount)
    && s.autoScalingEnabled == old(s.autoScalingEnabled)
  }

  class LoadBalancer {
    const name: string
    const strategy: Strategy
    var services: map<string, Service>
    /** `_round_robin_counters`: one cursor per registered service. */
    var rrCounters: map<string, nat>
    var requestCount: nat
    var totalResponseTime: real
    var errorCount: nat

    /** Each service is registered under its own name and has a cursor. */
    ghost predicate Valid()
      reads this`services, this`rrCounters, services.Values
    {
      services.Keys == rrCounters.Keys
      && forall n | n in services :: services[n].name == n && services[n].Valid()
    }

    constructor (name: string, strategy: Strategy)
      ensures Valid()
      ensures this.name == name && this.strategy == strategy
      ensures services == map[] && rrCounters == map[]
      ensures requestCount == 0 && totalResponseTime == 0.0 && errorCount == 0
    {
      this.name := name;
      this.strategy := strategy;
      services := map[];
      rrCounters := map[];
      requestCount := 0;
      totalResponseTime := 0.0;
      errorCount := 0;
    }

    /** `register_service`: (re)registers under the service's name with a fresh cursor. */
    method RegisterService(service: Service)
      requires Valid() && service.Valid()
      modifies this`services, this`rrCounters
      ensures Valid()
      ensures services == old(services)[service.name := service]
      ensures rrCounters == old(rrCounters)[service.name := 0]
    {
      services := services[service.name := service];
      rrCounters := rrCounters[service.name := 0];
    }

    /** `unregister_service`: drops the service and its cursor; unknown names are ignored. */
    method UnregisterService(serviceName: string)
      requires Valid()
      modifies this`services, this`rrCounters
      ensures Valid()
      ensures services == old(services) - {serviceName} && rrCounters == old(rrCounters) - {serviceName}
      ensures serviceName !in old(services) ==> services == old(services) && rrCounters == old(rrCounters)
    {
      if serviceName in services {
        services := services - {serviceName};
        rrCounters := rrCounters - {serviceName};
      }
    }

    /** `_update_metrics`: one more request; a success adds its latency, a failure counts an error. */
    method UpdateMetrics(responseTime: real, success: bool)
      modifies this`requestCount, this`totalResponseTime, this`errorCount
      ensures requestCount == old(requestCount) + 1
      ensures success ==> totalResponseTime == old(totalResponseTime) + responseTime && errorCount == old(errorCount)
      ensures !success ==> totalResponseTime == old(totalResponseTime) && errorCount == old(errorCount) + 1
    {
      requestCount := requestCount + 1;
      if success {
        totalResponseTime := totalResponseTime + responseTime;
      } else {
        errorCount := errorCount + 1;
      }
    }

    /**
     * `_select_instance` for the service registered under `serviceName`:
     * the id of the chosen healthy instance, or None when none is healthy.
     * Round robin advances the service's cursor modulo the healthy count.
     */
    method SelectInstance(serviceName: string, pick: nat) returns (r: Option<string>)
      requires Valid() && serviceName in services
      requires services[serviceName].HealthyIds() != [] && ChoosesRandomly(strategy) ==>
        pick < |services[serviceName].HealthyIds()|
      modifies this`rrCounters
      ensures Valid()
      ensures var healthy := services[serviceName].HealthyIds();
        var m := services[serviceName].instances;
        if healthy == [] then r == None && rrCounters == old(rrCounters)
        else
          r == Some(healthy[SelectIndex(strategy, old(rrCounters)[serviceName], InstancesOf(healthy, m), pick)])
          && rrCounters == if strategy == RoundRobin
                           then old(rrCounters)[serviceName := (old(rrCounters)[serviceName] + 1) % |healthy|]
                           else old(rrCounters)
    {
      var service := services[serviceName];
      var healthy := service.HealthyIds();
      if healthy == [] {
        r := None;
      } else {
        var counter := rrCounters[serviceName];
        var k := SelectIndex(strategy, counter, InstancesOf(healthy, service.instances), pick);
        if strategy == RoundRobin {
          rrCounters := rrCounters[serviceName := (counter + 1) % |healthy|];
        }
        r := Some(healthy[k]);
      }
    }

    /**
     * The choice and the call of `route_request`: an unknown service or one
     * without a healthy instance is an error; otherwise the selected instance
     * handles the request (its own `handle_request`, so the service's counters
     * do not move) and `res` is its answer.
     */
    method Dispatch(serviceName: string, pick: nat, draw: real, responseTime: real, cpuSample: real,
                    memorySample: real, now: real)
      returns (res: Result<Response, ServiceError>, chosen: Option<string>)
      requires Valid()
      requires serviceName in services && services[serviceName].HealthyIds() != [] && ChoosesRandomly(strategy) ==>
        pick < |services[serviceName].HealthyIds()|
      modifies this`rrCounters, (if serviceName in services then {services[serviceName]} else {})`instances
      ensures Valid() && services == old(services)
      ensures rrCounters ==
        if serviceName in services && old(services[serviceName].HealthyIds()) != [] && strategy == RoundRobin
        then old(rrCounters)[serviceName := (old(rrCounters)[serviceName] + 1) % |old(services[serviceName].HealthyIds())|]
        else old(rrCounters)
      ensures serviceName !in services ==> res == Err(ServiceNotFound(serviceName)) && chosen == None
      ensures serviceName in services && old(services[serviceName].HealthyIds()) == [] ==>
        res == Err(NoHealthyInstances(serviceName)) && chosen == None
        && services[serviceName].instances == old(services[serviceName].instances)
      ensures serviceName in services && old(services[serviceName].HealthyIds()) != [] ==>
        var healthy := old(services[serviceName].HealthyIds());
        chosen == Some(healthy[SelectIndex(strategy, old(rrCounters)[serviceName],
                                           InstancesOf(healthy, old(services[serviceName].instances)), pick)])
      ensures chosen.Some? ==>
        serviceName in services && chosen.value in old(services[serviceName].HealthyIds())
        && var (j, res') := Requested(old(services[serviceName].instances)[chosen.value], draw, responseTime,
                                      cpuSample, memorySample, now);
        services[serviceName].instances == old(services[serviceName].instances)[chosen.value := j] && res == res'
    {
      if serviceName !in services {
        return Err(ServiceNotFound(serviceName)), None;
      }
      var service := services[serviceName];
      chosen := SelectInstance(serviceName, pick);
      if chosen.None? {
        return Err(NoHealthyInstances(serviceName)), None;
      }
      res := service.InstanceRequest(chosen.value, draw, responseTime, cpuSample, memorySample, now);
    }

    /**
     * `route_request`: an unknown service or one without a healthy instance
     * is an error; otherwise the strategy selects a healthy instance (round
     * robin advancing the service's cursor) and it handles the request (its
     * own `handle_request`: only that instance changes, and the frame keeps
     * the service's order and counters).  Every call counts one request;
     * failures count an error, successes their latency `elapsedMs`, and a
     * success is tagged with the balancer's name, the strategy and that
     * latency.
     */
    method RouteRequest(serviceName: string, pick: nat, draw: real, responseTime: real, cpuSample: real,
                        memorySample: real, now: real, elapsedMs: real)
      returns (r: Result<Response, ServiceError>, chosen: Option<string>)
      requires Valid()
      requires serviceName in services && services[serviceName].HealthyIds() != [] && ChoosesRandomly(strategy) ==>
        pick < |services[serviceName].HealthyIds()|
      modifies this`rrCounters, this`requestCount, this`totalResponseTime, this`errorCount
      modifies (if serviceName in services then {services[serviceName]} else {})`instances
      ensures Valid() && services == old(services)
      ensures rrCounters ==
        if serviceName in services && old(services[serviceName].HealthyIds()) != [] && strategy == RoundRobin
        then old(rrCounters)[serviceName := (old(rrCounters)[serviceName] + 1) % |old(services[serviceName].HealthyIds())|]
        else old(rrCounters)
      ensures requestCount == old(requestCount) + 1
      ensures r.Err? ==> totalResponseTime == old(totalResponseTime) && errorCount == old(errorCount) + 1
      ensures r.Ok? ==> totalResponseTime == old(totalResponseTime) + elapsedMs && errorCount == old(errorCount)
      ensures serviceName !in services ==> r == Err(ServiceNotFound(serviceName)) && chosen == None
      ensures serviceName in services && old(services[serviceName].HealthyIds()) == [] ==>
        r == Err(NoHealthyInstances(serviceName)) && chosen == None
        && services[serviceName].instances == old(services[serviceName].instances)
      ensures serviceName in services && old(services[serviceName].HealthyIds()) != [] ==>
        var healthy := old(services[serviceName].HealthyIds());
        chosen == Some(healthy[SelectIndex(strategy, old(rrCounters)[serviceName],
                                           InstancesOf(healthy, old(services[serviceName].instances)), pick)])
      ensures chosen.Some? ==>
        serviceName in services && chosen.value in old(services[serviceName].HealthyIds())
        && var (j, res) := Requested(old(services[serviceName].instances)[chosen.value], draw, responseTime,
                                     cpuSample, memorySample, now);
        services[serviceName].instances == old(services[serviceName].instances)[chosen.value := j]
        && (res.Err? ==> r == res)
        && (res.Ok? ==> r == Ok(res.value.(routing := Some(Routing(name, StrategyValue(strategy), elapsedMs)))))
    {
      var res;
      res, chosen := Dispatch(serviceName, pick, draw, responseTime, cpuSample, memorySample, now);
      r := if res.Ok? then Ok(res.value.(routing := Some(Routing(name, StrategyValue(strategy), elapsedMs)))) else res;
      ghost var cursors := rrCounters;
      UpdateMetrics(if res.Ok? then elapsedMs else 0.0, res.Ok?);
      assert rrCounters == cursors;
    }

    /** `get_service_availability`: healthy share in percent per service, 0 for an empty one. */
    function Availability(): (r: map<string, real>)
      reads this, services.Values
      ensures r.Keys == services.Keys
    {
      map n | n in services ::
        var total := |services[n].instances|;
        if total > 0 then (|services[n].HealthyIds()| as real / total as real) * 100.0 else 0.0
    }

    /**
     * Every availability lies in [0, 100]; a non-empty service is at 100
     * exactly when all its instances serve, and an empty one is at 0.
     */
    lemma AvailabilityMeaning(n: string)
      requires Valid() && n in services
      ensures 0.0 <= Availability()[n] <= 100.0
      ensures |services[n].instances| == 0 ==> Availability()[n] == 0.0
      ensures |services[n].instances| > 0 ==>
        (Availability()[n] == 100.0 <==> forall id | id in services[n].instances :: IsServing(services[n].instances[id].status))
    {
      var s := services[n];
      HealthyCount(s.order, s.instances);
      if |s.instances| > 0 {
        RatioFacts(|s.HealthyIds()|, |s.instances|);
      }
    }

    /**
     * `chaos_remove_service`: terminates every instance of the service but
     * leaves it registered; false for an unknown name.
     */
    method ChaosRemoveService(serviceName: string) returns (found: bool)
      requires Valid()
      modifies (if serviceName in services then {services[serviceName]} else {})`instances
      ensures Valid()
      ensures found == (serviceName in services)
      ensures found ==> Untouched(services[serviceName])
      ensures found ==>
        services[serviceName].instances.Keys == old(services[serviceName].instances).Keys
        && services[serviceName].HealthyIds() == []
        && forall id | id in services[serviceName].instances ::
             services[serviceName].instances[id] == Terminate(old(services[serviceName].instances)[id])
    {
      if serviceName !in services {
        return false;
      }
      services[serviceName].Shutdown();
      found := true;
    }

    /**
     * `chaos_degrade_service`: every instance's base latency grows by
     * `base * (factor - 1)`, so it becomes `base * factor`; false for an
     * unknown name.
     */
    method ChaosDegradeService(serviceName: string, factor: real) returns (found: bool)
      requires Valid()
      modifies (if serviceName in services then {services[serviceName]} else {})`instances
      ensures Valid()
      ensures found == (serviceName in services)
      ensures found ==> Untouched(services[serviceName])
      ensures found ==>
        services[serviceName].instances.Keys == old(services[serviceName].instances).Keys
        && forall id | id in services[serviceName].instances ::
             services[serviceName].instances[id]
             == old(services[serviceName].instances)[id].(baseResponseTime := old(services[serviceName].instances)[id].baseResponseTime * factor)
    {
      if serviceName !in services {
        return false;
      }
      var service := services[serviceName];
      var m := ChangeEach(service.order, service.instances,
                          (i: Instance) => IntroduceLatency(i, i.baseResponseTime * (factor - 1.0)));
      SameIdentities(service.name, service.region, service.order, service.instances, m);
      service.instances := m;
      found := true;
    }
  }
}
