/**
 * The Chaos Monkey (chaos/chaos_monkey.py): a scheduler that terminates one
 * healthy instance of a registered service at a time, never below the
 * safety minimum, and keeps counters and a bounded termination history.
 *
 * The clock, the weekday and hour, and the probability draw are parameters;
 * the random choice of a service or an instance is a nondeterministic `:|`
 * choice among the eligible ones.  The background loop is one step (`Tick`).
 */
module ChaosMonkeys {
  import opened Wrappers
  import opened Seqs
  import opened Services

  datatype Hours = Hours(start: int, end: int)

  /** Every setting `configure` can change. */
  datatype Settings = Settings(
    enabled: bool,
    allowedDays: seq<string>,
    allowedHours: Hours,
    minHealthyInstances: int,
    maxInstancesToKill: int,
    excludedServices: set<string>,
    terminationProbability: real,
    checkIntervalSeconds: int)

  /** The settings of a new monkey: disabled, office hours on weekdays, keep one healthy instance. */
  function DefaultSettings(): Settings
  {
    Settings(false, ["monday", "tuesday", "wednesday", "thursday", "friday"], Hours(9, 17), 1, 1, {}, 0.3, 30)
  }

  /** The keys a `configure` dictionary may carry; `None` is an absent key. */
  datatype ConfigUpdate = ConfigUpdate(
    enabled: Option<bool>,
    days: Option<seq<string>>,
    hours: Option<Hours>,
    minHealthyInstances: Option<int>,
    maxInstancesToKill: Option<int>,
    excludedServices: Option<seq<string>>,
    probability: Option<real>,
    checkIntervalSeconds: Option<int>)

  function Pick<T>(o: Option<T>, current: T): T
  {
    if o.Some? then o.value else current
  }

  /** `configure`: each key present overwrites its setting; the excluded list becomes a set. */
  function Configured(s: Settings, c: ConfigUpdate): Settings
  {
    Settings(
      Pick(c.enabled, s.enabled),
      Pick(c.days, s.allowedDays),
      Pick(c.hours, s.allowedHours),
      Pick(c.minHealthyInstances, s.minHealthyInstances),
      Pick(c.maxInstancesToKill, s.maxInstancesToKill),
      if c.excludedServices.Some? then (set x | x in c.excludedServices.value) else s.excludedServices,
      Pick(c.probability, s.terminationProbability),
      Pick(c.checkIntervalSeconds, s.checkIntervalSeconds))
  }

  const NoUpdate := ConfigUpdate(None, None, None, None, None, None, None, None)

  /**
   * Keys absent from the dictionary keep their previous values, an empty
   * dictionary changes nothing, and applying the same dictionary twice is the
   * same as applying it once.
   */
  lemma ConfigureOnlyPresent(s: Settings, c: ConfigUpdate)
    ensures c.enabled.None? ==> Configured(s, c).enabled == s.enabled
    ensures c.days.None? ==> Configured(s, c).allowedDays == s.allowedDays
    ensures c.hours.None? ==> Configured(s, c).allowedHours == s.allowedHours
    ensures c.minHealthyInstances.None? ==> Configured(s, c).minHealthyInstances == s.minHealthyInstances
    ensures c.maxInstancesToKill.None? ==> Configured(s, c).maxInstancesToKill == s.maxInstancesToKill
    ensures c.excludedServices.None? ==> Configured(s, c).excludedServices == s.excludedServices
    ensures c.excludedServices.Some? ==>
      forall x :: x in Configured(s, c).excludedServices <==> x in c.excludedServices.value
    ensures c.probability.None? ==> Configured(s, c).terminationProbability == s.terminationProbability
    ensures c.checkIntervalSeconds.None? ==> Configured(s, c).checkIntervalSeconds == s.checkIntervalSeconds
    ensures Configured(s, NoUpdate) == s
    ensures Configured(Configured(s, c), c) == Configured(s, c)
  {
  }

  /** ASCII case folding, as `str.lower` does on weekday names. */
  function LowerChar(c: char): char
  {
    if 'A' <= c <= 'Z' then (c as int + 32) as char else c
  }

  function Lower(s: string): (r: string)
    ensures |r| == |s| && forall i | 0 <= i < |s| :: r[i] == LowerChar(s[i])
  {
    if s == [] then [] else [LowerChar(s[0])] + Lower(s[1..])
  }

  /** Whether some day in `days`, lower-cased, is `today`. */
  function DayAllowed(days: seq<string>, today: string): (r: bool)
    ensures r <==> exists k | 0 <= k < |days| :: Lower(days[k]) == today
  {
    if days == [] then false
    else if Lower(days[0]) == today then true
    else
      var r := DayAllowed(days[1..], today);
      assert forall k | 1 <= k < |days| :: days[k] == days[1..][k - 1];
      r
  }

  /**
   * `_is_chaos_time` for a clock reading whose lower-cased weekday name is
   * `today` and whose hour is `hour`: enabled, an allowed day, and
   * start <= hour < end.
   */
  function ChaosTime(s: Settings, today: string, hour: int): bool
  {
    s.enabled && DayAllowed(s.allowedDays, today) && s.allowedHours.start <= hour < s.allowedHours.end
  }

  /** The schedule check is the conjunction of its three conditions; upper-case day names still match. */
  lemma ChaosTimeMeaning(s: Settings, today: string, hour: int)
    ensures ChaosTime(s, today, hour) <==>
      s.enabled && (exists k | 0 <= k < |s.allowedDays| :: Lower(s.allowedDays[k]) == today)
      && s.allowedHours.start <= hour && hour < s.allowedHours.end
    ensures !s.enabled ==> !ChaosTime(s, today, hour)
  {
  }

  datatype TerminationRecord = TerminationRecord(timestamp: real, serviceName: string, instanceId: string,
                                                 chaosMonkey: string)

  const HistoryCap: nat := 100

  /** The records whose timestamp is at or after `cutoff`, in order. */
  function Since(history: seq<TerminationRecord>, cutoff: real): (r: seq<TerminationRecord>)
    ensures |r| <= |history|
    ensures forall x :: x in r <==> x in history && x.timestamp >= cutoff
  {
    if history == [] then []
    else (if history[0].timestamp >= cutoff then [history[0]] else []) + Since(history[1..], cutoff)
  }

  /** Capping after every append is the same as capping once at the end. */
  lemma {:induction false} KeepLastAppend<T>(s: seq<T>, x: T, cap: nat)
    ensures KeepLast(KeepLast(s, cap) + [x], cap) == KeepLast(s + [x], cap)
  {
    var k := KeepLast(s, cap);
    var lhs := KeepLast(k + [x], cap);
    var rhs := KeepLast(s + [x], cap);
    assert |lhs| == |rhs|;
    forall i | 0 <= i < |lhs| ensures lhs[i] == rhs[i] {
      var j := i + |k| + 1 - |lhs|;
      assert lhs[i] == (k + [x])[j];
      if j == |k| {
        assert rhs[i] == (s + [x])[|s|];
      } else {
        assert (k + [x])[j] == k[j] == s[|s| - |k| + j];
        assert rhs[i] == (s + [x])[|s| - |k| + j];
      }
    }
  }

  /** How a forced run ends, one case per status `force_chaos` reports. */
  datatype ForceError = Disabled | NotRegistered | NoEligibleService
  datatype ForceOutcome =
    | ChaosError(reason: ForceError)
    | ChaosSuccess(service: string, instanceId: string)
    | ChaosBlocked(service: string, minInstancesRequired: int)

  /**
   * How one pass of the background loop ends: no strike, an instance of a
   * service terminated, or the service refusing the termination.
   */
  datatype TickOutcome =
    | Idle
    | Struck(service: string, instanceId: string)
    | Refused(service: string)

  /** What `simulate_outage` reports. */
  datatype OutageOutcome =
    | OutageError
    | Outage(service: string, terminated: seq<string>, requestedCount: int)

  function OutageStatus(o: OutageOutcome): string
  {
    if o.OutageError? then "error" else if o.terminated != [] then "success" else "blocked"
  }

  /** The history records of terminations `ids` in `service` at time `now`. */
  function Records(now: real, service: string, ids: seq<string>, monkey: string): (r: seq<TerminationRecord>)
    ensures |r| == |ids| && forall k | 0 <= k < |ids| :: r[k] == TerminationRecord(now, service, ids[k], monkey)
  {
    seq(|ids|, k requires 0 <= k < |ids| => TerminationRecord(now, service, ids[k], monkey))
  }

  lemma RecordsAppend(now: real, service: string, ids: seq<string>, id: string, monkey: string)
    ensures Records(now, service, ids + [id], monkey)
            == Records(now, service, ids, monkey) + [TerminationRecord(now, service, id, monkey)]
  {
  }

  /**
   * The bookkeeping of an outage in progress: `results` were taken from the
   * healthy list `h0`, one at a time, leaving `cur`, and each was taken while
   * more than `min` instances were healthy.
   */
  ghost predicate OutageSoFar(h0: seq<string>, cur: seq<string>, results: seq<string>, min: int)
  {
    |cur| == |h0| - |results| && |results| <= MaxInt(0, |h0| - min)
    && Distinct(results) && (forall id | id in results :: id in h0 && id !in cur)
    && (forall id | id in cur :: id in h0)
  }

  lemma OutageStep(h0: seq<string>, cur: seq<string>, results: seq<string>, id: string, min: int)
    requires OutageSoFar(h0, cur, results, min)
    requires id in cur && |cur| > min
    ensures |Without(cur, id)| == |cur| - 1 ==> OutageSoFar(h0, Without(cur, id), results + [id], min)
  {
    WithoutIn(cur, id);
    forall x | x in results + [id] ensures x in h0 && x !in Without(cur, id) {
      if x != id {
        assert x in results;
      }
    }
    assert Distinct(results + [id]) by {
      forall i, j | 0 <= i < j < |results + [id]| ensures (results + [id])[i] != (results + [id])[j] {
        if j == |results| {
          assert (results + [id])[i] == results[i] && results[i] in results;
        }
      }
    }
  }

  lemma OutageStops(h0: seq<string>, cur: seq<string>, results: seq<string>, min: int, bound: nat)
    requires OutageSoFar(h0, cur, results, min) && |cur| <= min && |results| < bound
    ensures |results| == MinInt(bound, MaxInt(0, |h0| - min))
  {
  }

  lemma OutageEnds(h0: seq<string>, cur: seq<string>, results: seq<string>, min: int, bound: nat)
    requires OutageSoFar(h0, cur, results, min) && |results| == bound
    ensures |results| == MinInt(bound, MaxInt(0, |h0| - min))
  {
  }

  lemma HistoryStep(h: seq<TerminationRecord>, now: real, service: string, ids: seq<string>, id: string,
                    monkey: string)
    ensures KeepLast(KeepLast(h + Records(now, service, ids, monkey), HistoryCap)
                     + [TerminationRecord(now, service, id, monkey)], HistoryCap)
            == KeepLast(h + Records(now, service, ids + [id], monkey), HistoryCap)
  {
    KeepLastAppend(h + Records(now, service, ids, monkey), TerminationRecord(now, service, id, monkey), HistoryCap);
    RecordsAppend(now, service, ids, id, monkey);
    assert h + Records(now, service, ids, monkey) + [TerminationRecord(now, service, id, monkey)]
           == h + Records(now, service, ids + [id], monkey);
  }

  /**
   * What `chaos_terminate_random_instance` did to `s`: one healthy instance
   * terminated exactly when there were more than the minimum, else nothing.
   */
  twostate predicate TerminatedIn(s: Service, new r: Option<string>)
    reads s
  {
    (r.Some? <==> old(|s.HealthyIds()|) > s.minInstances)
    && (r.Some? ==> r.value in old(s.HealthyIds()) && r.value in old(s.instances)
                    && s.instances == old(s.instances)[r.value := Terminate(old(s.instances)[r.value])]
                    && |s.HealthyIds()| == old(|s.HealthyIds()|) - 1
                    && s.HealthyIds() == Without(old(s.HealthyIds()), r.value))
    && (r.None? ==> s.instances == old(s.instances) && s.HealthyIds() == old(s.HealthyIds()))
  }

  /**
   * What an outage did to the instances of `s`: exactly the `terminated`
   * ones are now TERMINATED, and every other instance is as it was.
   */
  twostate predicate OutageKills(s: Service, new terminated: seq<string>)
    reads s
  {
    Killed(old(s.instances), s.instances, terminated)
  }

  /** `m` is `m0` with exactly the `terminated` instances terminated. */
  predicate Killed(m0: map<string, Instance>, m: map<string, Instance>, terminated: seq<string>)
  {
    m.Keys == m0.Keys
    && forall id | id in m :: m[id] == if id in terminated then Terminate(m0[id]) else m0[id]
  }

  /** Terminating one more instance, not yet terminated, extends `Killed` by its id. */
  lemma KilledStep(m0: map<string, Instance>, m: map<string, Instance>, terminated: seq<string>, id: string)
    requires Killed(m0, m, terminated) && id in m && id !in terminated
    ensures Killed(m0, m[id := Terminate(m[id])], terminated + [id])
  {
  }

  /** The service terminates one of its healthy instances, chosen at random. */
  method TerminateRandom(s: Service) returns (r: Option<string>)
    requires s.Valid()
    modifies s`instances
    ensures s.Valid() && TerminatedIn(s, r)
  {
    var pick: nat := 0;
    if |s.HealthyIds()| > s.minInstances {
      assert 0 < |s.HealthyIds()|;
      pick :| pick < |s.HealthyIds()|;
    }
    r := s.ChaosTerminateRandomInstance(pick);
  }

  class ChaosMonkey {
    const name: string
    var settings: Settings
    var running: bool
    var targets: map<string, Service>
    var totalTerminations: nat
    var successfulTerminations: nat
    var blockedTerminations: nat
    var lastTerminationTime: Option<real>
    var history: seq<TerminationRecord>
    /** How many termination callbacks are registered, and how many calls of them were made. */
    var callbacks: nat
    var callbackCalls: nat

    /** Every target is a well-formed service and the history is within its cap. */
    ghost predicate Valid()
      reads this, targets.Values
    {
      |history| <= HistoryCap && forall n | n in targets :: targets[n].Valid()
    }

    /** The registered services with more healthy instances than the minimum. */
    function Eligible(): set<string>
      reads this, targets.Values
    {
      set n | n in targets && |targets[n].HealthyIds()| > settings.minHealthyInstances
    }

    constructor (name: string)
      ensures Valid() && this.name == name && settings == DefaultSettings() && !running
      ensures targets == map[] && history == [] && lastTerminationTime == None
      ensures totalTerminations == 0 && successfulTerminations == 0 && blockedTerminations == 0
      ensures callbacks == 0 && callbackCalls == 0
    {
      this.name := name;
      settings := DefaultSettings();
      running := false;
      targets := map[];
      totalTerminations := 0;
      successfulTerminations := 0;
      blockedTerminations := 0;
      lastTerminationTime := None;
      history := [];
      callbacks := 0;
      callbackCalls := 0;
    }

    method Configure(c: ConfigUpdate)
      modifies this`settings
      ensures settings == Configured(old(settings), c)
    {
      settings := Configured(settings, c);
    }

    /** `register_service`: excluded names are never registered. */
    method RegisterService(serviceName: string, service: Service)
      requires Valid() && service.Valid()
      modifies this`targets
      ensures Valid()
      ensures serviceName in settings.excludedServices ==> targets == old(targets)
      ensures serviceName !in settings.excludedServices ==> targets == old(targets)[serviceName := service]
    {
      if serviceName !in settings.excludedServices {
        targets := targets[serviceName := service];
      }
    }

    method UnregisterService(serviceName: string)
      requires Valid()
      modifies this`targets
      ensures Valid() && targets == old(targets) - {serviceName}
    {
      if serviceName in targets {
        targets := targets - {serviceName};
      }
    }

    /** `exclude_service`: the name is excluded and no longer a target. */
    method ExcludeService(serviceName: string)
      requires Valid()
      modifies this`settings, this`targets
      ensures Valid()
      ensures settings == old(settings).(excludedServices := old(settings).excludedServices + {serviceName})
      ensures targets == old(targets) - {serviceName}
    {
      settings := settings.(excludedServices := settings.excludedServices + {serviceName});
      if serviceName in targets {
        targets := targets - {serviceName};
      }
    }

    /** The deferred step of a timed exclusion: the name may be registered again. */
    method ReInclude(serviceName: string)
      modifies this`settings
      ensures settings == old(settings).(excludedServices := old(settings).excludedServices - {serviceName})
    {
      settings := settings.(excludedServices := settings.excludedServices - {serviceName});
    }

    /** `disable_temporarily`: disabled now; `wasEnabled` is what the deferred re-enable restores. */
    method DisableTemporarily() returns (wasEnabled: bool)
      modifies this`settings
      ensures wasEnabled == old(settings).enabled && settings == old(settings).(enabled := false)
    {
      wasEnabled := settings.enabled;
      settings := settings.(enabled := false);
    }

    method ReEnable(wasEnabled: bool)
      modifies this`settings
      ensures settings == old(settings).(enabled := wasEnabled)
    {
      settings := settings.(enabled := wasEnabled);
    }

    /** `start`: runs only when enabled and not already running. */
    method Start()
      modifies this`running
      ensures running == (old(running) || settings.enabled)
    {
      if running || !settings.enabled {
        return;
      }
      running := true;
    }

    method Stop()
      modifies this`running
      ensures !running
    {
      running := false;
    }

    method AddTerminationCallback()
      modifies this`callbacks
      ensures callbacks == old(callbacks) + 1
    {
      callbacks := callbacks + 1;
    }

    /** `_select_target_service`: some eligible service, or none when there is none. */
    method SelectTargetService() returns (r: Option<string>)
      ensures r.None? <==> Eligible() == {}
      ensures r.Some? ==> r.value in Eligible() && r.value in targets
                          && |targets[r.value].HealthyIds()| > settings.minHealthyInstances
    {
      var eligible := Eligible();
      if eligible == {} {
        return None;
      }
      var n :| n in eligible;
      r := Some(n);
    }

    /**
     * `_terminate_instance`: asks the service to terminate a random healthy
     * instance and counts the answer as a success or a block.
     */
    method TerminateInstance(serviceName: string) returns (r: Option<string>)
      requires Valid() && serviceName in targets
      modifies this`successfulTerminations, this`blockedTerminations, targets[serviceName]
      ensures Valid()
      ensures TerminatedIn(targets[serviceName], r)
      ensures r.Some? ==> successfulTerminations == old(successfulTerminations) + 1
                          && blockedTerminations == old(blockedTerminations)
      ensures r.None? ==> blockedTerminations == old(blockedTerminations) + 1
                          && successfulTerminations == old(successfulTerminations)
    {
      r := TerminateRandom(targets[serviceName]);
      if r.Some? {
        successfulTerminations := successfulTerminations + 1;
      } else {
        blockedTerminations := blockedTerminations + 1;
      }
    }

    /** `_record_termination`: counted, timestamped, and appended to the history capped at 100. */
    method RecordTermination(serviceName: string, instanceId: string, now: real)
      requires |history| <= HistoryCap
      modifies this`totalTerminations, this`lastTerminationTime, this`history
      ensures totalTerminations == old(totalTerminations) + 1 && lastTerminationTime == Some(now)
      ensures history == KeepLast(old(history) + [TerminationRecord(now, serviceName, instanceId, name)], HistoryCap)
      ensures |history| <= HistoryCap && history[|history| - 1] == TerminationRecord(now, serviceName, instanceId, name)
    {
      totalTerminations := totalTerminations + 1;
      lastTerminationTime := Some(now);
      var rec := TerminationRecord(now, serviceName, instanceId, name);
      AppendBounded(history, rec, HistoryCap);
      history := history + [rec];
      if |history| > HistoryCap {
        history := history[1..];
      }
    }

    /** `get_termination_history(hours)`: the records of the last `hours` hours. */
    function TerminationHistory(hours: int, now: real): (r: seq<TerminationRecord>)
      reads this
      ensures forall x :: x in r <==> x in history && x.timestamp >= now - (hours * 3600) as real
    {
      Since(history, now - (hours * 3600) as real)
    }

    /**
     * A termination attempt on one registered service as `force_chaos`,
     * `_execute_chaos` and `simulate_outage` make it: a success is recorded,
     * and the callbacks are notified when `notify` is set.
     */
    method Strike(target: string, now: real, notify: bool) returns (r: Option<string>)
      requires Valid() && target in targets
      modifies this`successfulTerminations, this`blockedTerminations, this`totalTerminations,
               this`lastTerminationTime, this`history, this`callbackCalls, targets[target]
      ensures Valid() && TerminatedIn(targets[target], r)
      ensures r.Some? ==>
        successfulTerminations == old(successfulTerminations) + 1 && totalTerminations == old(totalTerminations) + 1
        && blockedTerminations == old(blockedTerminations) && lastTerminationTime == Some(now)
        && history == KeepLast(old(history) + [TerminationRecord(now, target, r.value, name)], HistoryCap)
        && callbackCalls == old(callbackCalls) + (if notify then callbacks else 0)
      ensures r.None? ==>
        blockedTerminations == old(blockedTerminations) + 1 && successfulTerminations == old(successfulTerminations)
        && totalTerminations == old(totalTerminations) && lastTerminationTime == old(lastTerminationTime)
        && history == old(history) && callbackCalls == old(callbackCalls)
    {
      r := TerminateInstance(target);
      if r.Some? {
        RecordTermination(target, r.value, now);
        if notify {
          callbackCalls := callbackCalls + callbacks;
        }
      }
    }

    /**
     * `force_chaos`: terminate in the named service, or in an eligible one
     * when no name (or an empty name) is given, ignoring schedule and
     * probability.
     */
    method ForceChaos(serviceName: Option<string>, now: real) returns (r: ForceOutcome)
      requires Valid()
      modifies this`successfulTerminations, this`blockedTerminations, this`totalTerminations,
               this`lastTerminationTime, this`history, this`callbackCalls, targets.Values
      ensures Valid()
      ensures !settings.enabled ==> r == ChaosError(Disabled)
      ensures settings.enabled && serviceName.Some? && serviceName.value != "" && serviceName.value !in targets ==>
        r == ChaosError(NotRegistered)
      ensures settings.enabled && (serviceName.None? || serviceName.value == "") && old(Eligible()) == {} ==>
        r == ChaosError(NoEligibleService)
      ensures settings.enabled && serviceName.Some? && serviceName.value in targets && serviceName.value != "" ==>
        !r.ChaosError? && r.service == serviceName.value
      ensures (r.ChaosSuccess? || r.ChaosBlocked?) && (serviceName.None? || serviceName.value == "") ==>
        r.service in old(Eligible())
      ensures forall s | s in targets.Values && (r.ChaosError? || s != targets[r.service]) :: unchanged(s)
      ensures r.ChaosError? ==>
        history == old(history) && totalTerminations == old(totalTerminations) && callbackCalls == old(callbackCalls)
        && successfulTerminations == old(successfulTerminations) && blockedTerminations == old(blockedTerminations)
      ensures !r.ChaosError? ==>
        r.service in targets && TerminatedIn(targets[r.service], if r.ChaosSuccess? then Some(r.instanceId) else None)
      ensures r.ChaosSuccess? ==>
        successfulTerminations == old(successfulTerminations) + 1 && totalTerminations == old(totalTerminations) + 1
        && blockedTerminations == old(blockedTerminations)
        && history == KeepLast(old(history) + [TerminationRecord(now, r.service, r.instanceId, name)], HistoryCap)
        && callbackCalls == old(callbackCalls) + callbacks
      ensures r.ChaosBlocked? ==>
        r.minInstancesRequired == settings.minHealthyInstances
        && blockedTerminations == old(blockedTerminations) + 1 && successfulTerminations == old(successfulTerminations)
        && history == old(history) && totalTerminations == old(totalTerminations) && callbackCalls == old(callbackCalls)
    {
      if !settings.enabled {
        return ChaosError(Disabled);
      }
      var named := serviceName.Some? && serviceName.value != "";
      if named && serviceName.value !in targets {
        return ChaosError(NotRegistered);
      }
      var target: string;
      if named {
        target := serviceName.value;
      } else {
        var chosen := SelectTargetService();
        if chosen.None? || chosen.value == "" {
          return ChaosError(NoEligibleService);
        }
        target := chosen.value;
      }
      var id := Strike(target, now, true);
      if id.Some? {
        r := ChaosSuccess(target, id.value);
      } else {
        r := ChaosBlocked(target, settings.minHealthyInstances);
      }
    }

    /**
     * One pass of the background loop: inside the schedule, when the draw
     * does not exceed the termination probability, strike an eligible service.
     */
    method Tick(today: string, hour: int, draw: real, now: real) returns (r: TickOutcome)
      requires Valid()
      modifies this`successfulTerminations, this`blockedTerminations, this`totalTerminations,
               this`lastTerminationTime, this`history, this`callbackCalls, targets.Values
      ensures Valid()
      ensures !ChaosTime(settings, today, hour) || draw > settings.terminationProbability ==> r == Idle
      ensures old(Eligible()) == {} ==> r == Idle
      ensures r == Idle ==> unchanged(this) && unchanged(targets.Values)
      ensures r != Idle ==>
        ChaosTime(settings, today, hour) && draw <= settings.terminationProbability
        && r.service in old(Eligible()) && r.service in targets
      ensures forall s | s in targets.Values && (r == Idle || s != targets[r.service]) :: unchanged(s)
      ensures r.Struck? ==>
        TerminatedIn(targets[r.service], Some(r.instanceId))
        && successfulTerminations == old(successfulTerminations) + 1 && totalTerminations == old(totalTerminations) + 1
        && blockedTerminations == old(blockedTerminations) && lastTerminationTime == Some(now)
        && history == KeepLast(old(history) + [TerminationRecord(now, r.service, r.instanceId, name)], HistoryCap)
        && callbackCalls == old(callbackCalls) + callbacks
      ensures r.Refused? ==>
        TerminatedIn(targets[r.service], None)
        && blockedTerminations == old(blockedTerminations) + 1 && successfulTerminations == old(successfulTerminations)
        && totalTerminations == old(totalTerminations) && lastTerminationTime == old(lastTerminationTime)
        && history == old(history) && callbackCalls == old(callbackCalls)
    {
      if !ChaosTime(settings, today, hour) || draw > settings.terminationProbability {
        return Idle;
      }
      var chosen := SelectTargetService();
      if chosen.None? || chosen.value == "" {
        return Idle;
      }
      var id := Strike(chosen.value, now, true);
      r := if id.Some? then Struck(chosen.value, id.value) else Refused(chosen.value);
    }

    /**
     * `simulate_outage`: up to `min(instance_count, max_instances_to_kill)`
     * terminations in one service, stopping at the first refusal; the
     * callbacks are not notified.  `chosen` is the random pick of
     * `_select_target_service`, used when no service is named.
     */
    method SimulateOutage(serviceName: Option<string>, instanceCount: int, now: real, chosen: Option<string>)
      returns (o: OutageOutcome)
      requires Valid()
      requires chosen.None? <==> Eligible() == {}
      requires chosen.Some? ==> chosen.value in Eligible()
      modifies this`successfulTerminations, this`blockedTerminations, this`totalTerminations,
               this`lastTerminationTime, this`history, this`callbackCalls, targets.Values
      ensures Valid() && callbackCalls == old(callbackCalls)
      ensures !settings.enabled ==> o == OutageError
      ensures o.OutageError? ==> unchanged(this) && unchanged(targets.Values)
      ensures settings.enabled && serviceName.Some? && serviceName.value != "" && serviceName.value in targets ==>
        o.Outage? && o.service == serviceName.value
      ensures settings.enabled && serviceName.Some? && serviceName.value != "" && serviceName.value !in old(targets) ==>
        o == OutageError
      ensures (serviceName.None? || serviceName.value == "") && old(Eligible()) == {} ==> o == OutageError
      ensures o.Outage? && (serviceName.None? || serviceName.value == "") ==> o.service in old(Eligible())
      ensures o.Outage? ==>
        o.service in targets && o.requestedCount == instanceCount
        && OutageDone(o.service, targets[o.service], MaxInt(0, MinInt(instanceCount, settings.maxInstancesToKill)), now,
                      o.terminated, old(targets[o.service].HealthyIds()), old(targets[o.service].instances), old(history),
                      old(lastTerminationTime), old(successfulTerminations), old(totalTerminations),
                      old(blockedTerminations))
      ensures o.Outage? ==> OutageKills(targets[o.service], o.terminated)
      ensures o.Outage? ==> lastTerminationTime == if o.terminated == [] then old(lastTerminationTime) else Some(now)
      ensures o.Outage? ==> unchanged(targets.Values - {targets[o.service]})
    {
      if !settings.enabled {
        return OutageError;
      }
      var target := OutageTarget(serviceName, chosen);
      if target.None? {
        return OutageError;
      }
      var results := TerminateUpTo(target.value, MaxInt(0, MinInt(instanceCount, settings.maxInstancesToKill)), now);
      o := Outage(target.value, results, instanceCount);
    }

    /**
     * The service `simulate_outage` strikes: the one named, or else the
     * random pick `chosen`; none when that is empty or not registered.
     */
    function OutageTarget(serviceName: Option<string>, chosen: Option<string>): (t: Option<string>)
      reads this
      ensures t.Some? ==> t.value in targets && t.value != ""
      ensures serviceName.Some? && serviceName.value != "" ==>
        t == if serviceName.value in targets then serviceName else None
      ensures (serviceName.None? || serviceName.value == "") ==>
        (t.Some? <==> chosen.Some? && chosen.value != "" && chosen.value in targets) && (t.Some? ==> t == chosen)
    {
      var target := if serviceName.Some? && serviceName.value != "" then serviceName.value
                    else if chosen.Some? then chosen.value else "";
      if target == "" || target !in targets then None else Some(target)
    }

    /**
     * What an outage of `bound` attempts on `s` did, from the state where
     * `s` had the healthy ids `h0` and the instances `m0` and the monkey the
     * history `hist0`, last termination time `last0` and counters `succ0`,
     * `total0` and `blocked0`: it terminated as many distinct healthy
     * instances as the minimum allowed, up to `bound`, left every other
     * instance as it was, and counted and recorded each termination at
     * `now`; a refusal before `bound` was counted as a block.
     */
    ghost predicate OutageDone(service: string, s: Service, bound: nat, now: real, terminated: seq<string>,
                               h0: seq<string>, m0: map<string, Instance>, hist0: seq<TerminationRecord>,
                               last0: Option<real>, succ0: nat, total0: nat, blocked0: nat)
      reads this, s
    {
      |terminated| == MinInt(bound, MaxInt(0, |h0| - s.minInstances))
      && blockedTerminations == blocked0 + (if |terminated| < bound then 1 else 0)
      && OutageProgress(service, s, h0, m0, hist0, last0, succ0, total0, now, terminated)
    }

    /**
     * The outage loop's two exits: every attempt used, or a refusal at the
     * service's minimum, counted as a block.
     */
    lemma OutageFinished(service: string, s: Service, bound: nat, now: real, terminated: seq<string>,
                         h0: seq<string>, m0: map<string, Instance>, hist0: seq<TerminationRecord>,
                         last0: Option<real>, succ0: nat, total0: nat, blocked0: nat)
      requires OutageProgress(service, s, h0, m0, hist0, last0, succ0, total0, now, terminated)
      requires || (|terminated| == bound && blockedTerminations == blocked0)
               || (|terminated| < bound && |s.HealthyIds()| <= s.minInstances && blockedTerminations == blocked0 + 1)
      ensures OutageDone(service, s, bound, now, terminated, h0, m0, hist0, last0, succ0, total0, blocked0)
    {
      if |terminated| == bound {
        OutageEnds(h0, s.HealthyIds(), terminated, s.minInstances, bound);
      } else {
        OutageStops(h0, s.HealthyIds(), terminated, s.minInstances, bound);
      }
    }

    /**
     * Where the outage loop on `s` stands after terminating `results`:
     * those ids were healthy and are now TERMINATED, everything else is as it
     * was, and each termination was counted and recorded at `now`.
     */
    ghost predicate OutageProgress(target: string, s: Service, h0: seq<string>, m0: map<string, Instance>,
                                   hist0: seq<TerminationRecord>, last0: Option<real>, succ0: nat, total0: nat,
                                   now: real, results: seq<string>)
      reads this, s
    {
      OutageSoFar(h0, s.HealthyIds(), results, s.minInstances)
      && Killed(m0, s.instances, results)
      && successfulTerminations == succ0 + |results| && totalTerminations == total0 + |results|
      && history == KeepLast(hist0 + Records(now, target, results, name), HistoryCap)
      && lastTerminationTime == if results == [] then last0 else Some(now)
    }

    /**
     * One pass of the outage loop: a `Strike` without notification.  A
     * success extends the outage by its id; a refusal is counted as a block
     * and happens only at the service's minimum.
     */
    method OutageRound(target: string, now: real, ghost h0: seq<string>, ghost m0: map<string, Instance>,
                       ghost hist0: seq<TerminationRecord>, ghost last0: Option<real>, ghost succ0: nat,
                       ghost total0: nat, results: seq<string>) returns (id: Option<string>)
      requires Valid() && target in targets
      requires OutageProgress(target, targets[target], h0, m0, hist0, last0, succ0, total0, now, results)
      modifies this`successfulTerminations, this`blockedTerminations, this`totalTerminations,
               this`lastTerminationTime, this`history, this`callbackCalls, targets[target]
      ensures Valid() && callbackCalls == old(callbackCalls)
      ensures id.Some? ==>
        OutageProgress(target, targets[target], h0, m0, hist0, last0, succ0, total0, now, results + [id.value])
        && blockedTerminations == old(blockedTerminations)
      ensures id.None? ==>
        OutageProgress(target, targets[target], h0, m0, hist0, last0, succ0, total0, now, results)
        && |targets[target].HealthyIds()| <= targets[target].minInstances
        && blockedTerminations == old(blockedTerminations) + 1
    {
      var s := targets[target];
      ghost var prev := s.instances;
      ghost var cur := s.HealthyIds();
      id := Strike(target, now, false);
      if id.Some? {
        OutageStep(h0, cur, results, id.value, s.minInstances);
        KilledStep(m0, prev, results, id.value);
        HistoryStep(hist0, now, target, results, id.value, name);
      }
    }

    /** The termination loop of `simulate_outage`. */
    method TerminateUpTo(target: string, bound: nat, now: real) returns (results: seq<string>)
      requires Valid() && target in targets
      modifies this`successfulTerminations, this`blockedTerminations, this`totalTerminations,
               this`lastTerminationTime, this`history, this`callbackCalls, targets[target]
      ensures Valid() && callbackCalls == old(callbackCalls)
      ensures OutageDone(target, targets[target], bound, now, results, old(targets[target].HealthyIds()),
                         old(targets[target].instances), old(history), old(lastTerminationTime),
                         old(successfulTerminations), old(totalTerminations), old(blockedTerminations))
      ensures OutageKills(targets[target], results)
      ensures lastTerminationTime == if results == [] then old(lastTerminationTime) else Some(now)
      ensures unchanged(targets.Values - {targets[target]})
    {
      var s := targets[target];
      ghost var m0 := s.instances;
      ghost var h0 := s.HealthyIds();
      results := [];
      while |results| < bound
        invariant Valid() && |results| <= bound
        invariant OutageProgress(target, s, h0, m0, old(history), old(lastTerminationTime),
                                 old(successfulTerminations), old(totalTerminations), now, results)
        invariant blockedTerminations == old(blockedTerminations) && callbackCalls == old(callbackCalls)
      {
        var id := OutageRound(target, now, h0, m0, old(history), old(lastTerminationTime),
                              old(successfulTerminations), old(totalTerminations), results);
        if id.None? {
          OutageFinished(target, s, bound, now, results, h0, m0, old(history), old(lastTerminationTime),
                         old(successfulTerminations), old(totalTerminations), old(blockedTerminations));
          return;
        }
        results := results + [id.value];
      }
      OutageFinished(target, s, bound, now, results, h0, m0, old(history), old(lastTerminationTime),
                     old(successfulTerminations), old(totalTerminations), old(blockedTerminations));
    }
  }
}
