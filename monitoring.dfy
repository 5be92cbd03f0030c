/**
 * Monitoring and alerting (core/monitoring.py): bounded metric series, alert
 * rules, alert deduplication and resolution, and the health verdicts built
 * on active alerts and service availability.
 */
module Monitoring {
  import opened Wrappers
  import opened Seqs
  import Services

  /** A `MetricPoint` (tags are not modelled). */
  datatype MetricPoint = MetricPoint(timestamp: real, value: real)

  /** The points of `points` at or after `cutoff`, in order. */
  function InWindow(points: seq<MetricPoint>, cutoff: real): (r: seq<MetricPoint>)
    ensures |r| <= |points|
    ensures forall k | 0 <= k < |r| :: r[k] in points && r[k].timestamp >= cutoff
    ensures forall k | 0 <= k < |points| && points[k].timestamp >= cutoff :: points[k] in r
  {
    if points == [] then []
    else
      var rest := InWindow(points[1..], cutoff);
      assert forall k | 0 <= k < |rest| :: rest[k] in points[1..];
      assert forall k | 1 <= k < |points| :: points[k] == points[1..][k - 1];
      if points[0].timestamp >= cutoff then [points[0]] + rest else rest
  }

  function SumValues(points: seq<MetricPoint>): real
  {
    if points == [] then 0.0 else points[0].value + SumValues(points[1..])
  }

  /** A sum of values all within [lo, hi] lies within [n * lo, n * hi]. */
  lemma {:induction false} SumWithin(points: seq<MetricPoint>, lo: real, hi: real)
    requires forall k | 0 <= k < |points| :: lo <= points[k].value <= hi
    ensures |points| as real * lo <= SumValues(points) <= |points| as real * hi
  {
    if points != [] {
      assert forall k | 0 <= k < |points[1..]| :: points[1..][k] == points[k + 1];
      SumWithin(points[1..], lo, hi);
    }
  }

  /** The arithmetic mean of the values. */
  function Mean(points: seq<MetricPoint>): real
    requires points != []
  {
    SumValues(points) / |points| as real
  }

  /** The mean of points whose values lie within [lo, hi] lies within [lo, hi]. */
  lemma MeanOfWithin(points: seq<MetricPoint>, lo: real, hi: real)
    requires points != [] && forall p | p in points :: lo <= p.value <= hi
    ensures lo <= Mean(points) <= hi
  {
    forall k | 0 <= k < |points| ensures lo <= points[k].value <= hi {
      assert points[k] in points;
    }
    SumWithin(points, lo, hi);
    MeanWithin(SumValues(points), |points| as real, lo, hi);
  }

  /** A mean of values within [lo, hi] lies within [lo, hi]. */
  lemma MeanWithin(sum: real, n: real, lo: real, hi: real)
    requires n > 0.0 && n * lo <= sum <= n * hi
    ensures lo <= sum / n <= hi
  {
    assert (sum / n) * n == sum;
  }

  /** `MetricCollector`: one series per metric name, each at most `maxPoints` long. */
  class MetricCollector {
    const maxPoints: nat
    var series: map<string, seq<MetricPoint>>

    ghost predicate Valid()
      reads this
    {
      forall n | n in series :: |series[n]| <= maxPoints
    }

    constructor (maxPoints: nat)
      ensures Valid() && this.maxPoints == maxPoints && series == map[]
    {
      this.maxPoints := maxPoints;
      series := map[];
    }

    /** The series under `name`; the default dictionary's empty deque when absent. */
    function Series(name: string): seq<MetricPoint>
      reads this
    {
      if name in series then series[name] else []
    }

    /**
     * `add_metric`: appends a point stamped `now`; a full series drops its
     * oldest point.
     */
    method AddMetric(name: string, value: real, now: real)
      requires Valid()
      modifies this`series
      ensures Valid()
      ensures series == old(series)[name := KeepLast(old(Series(name)) + [MetricPoint(now, value)], maxPoints)]
      ensures |old(Series(name))| < maxPoints ==> Series(name) == old(Series(name)) + [MetricPoint(now, value)]
      ensures |old(Series(name))| == maxPoints > 0 ==> Series(name) == old(Series(name))[1..] + [MetricPoint(now, value)]
      ensures maxPoints > 0 ==> Latest(name) == Some(value)
    {
      var s := Series(name);
      AppendBounded(s, MetricPoint(now, value), maxPoints);
      series := series[name := KeepLast(s + [MetricPoint(now, value)], maxPoints)];
    }

    /** `get_metrics`: the points of the last `windowSeconds` seconds. */
    function Window(name: string, windowSeconds: real, now: real): seq<MetricPoint>
      reads this
    {
      InWindow(Series(name), now - windowSeconds)
    }

    /** `get_latest_value`. */
    function Latest(name: string): (r: Option<real>)
      reads this
      ensures r.None? <==> Series(name) == []
      ensures r.Some? ==> r.value == Series(name)[|Series(name)| - 1].value
    {
      if Series(name) == [] then None else Some(Series(name)[|Series(name)| - 1].value)
    }

    /** `calculate_average`: the mean of the window, None when it is empty. */
    function Average(name: string, windowSeconds: real, now: real): (r: Option<real>)
      reads this
      ensures r.None? <==> Window(name, windowSeconds, now) == []
    {
      var w := Window(name, windowSeconds, now);
      if w == [] then None else Some(Mean(w))
    }

    /**
     * The average lies between any bounds of the values in the window, and
     * it counts only points stamped at or after `now - windowSeconds`.
     */
    lemma AverageWithin(name: string, windowSeconds: real, now: real, lo: real, hi: real)
      requires forall p | p in Window(name, windowSeconds, now) :: lo <= p.value <= hi
      ensures Average(name, windowSeconds, now).Some? ==> lo <= Average(name, windowSeconds, now).value <= hi
    {
      var w := Window(name, windowSeconds, now);
      if w != [] {
        MeanOfWithin(w, lo, hi);
      }
    }
  }

  /** An alert rule. */
  datatype Rule = Rule(name: string, metric: string, threshold: real, operator: string, severity: string,
                       message: string)

  /** A rule as submitted to `add_alert_rule`: any field may be missing. */
  datatype RuleSpec = RuleSpec(name: Option<string>, metric: Option<string>, threshold: Option<real>,
                               operator: Option<string>, severity: Option<string>, message: Option<string>)

  /** An `Alert`; `instanceId` None is Python's None. */
  datatype Alert = Alert(id: string, severity: string, serviceName: string, instanceId: Option<string>,
                         metricName: string, currentValue: real, threshold: real, message: string,
                         timestamp: real, resolved: bool, resolvedTimestamp: Option<real>)

  /** The five rules every alert manager starts with. */
  function DefaultRules(): seq<Rule>
  {
    [Rule("high_response_time", "response_time_ms", 1000.0, ">", "HIGH", "Tiempo de respuesta alto detectado"),
     Rule("high_error_rate", "error_rate", 5.0, ">", "CRITICAL", "Tasa de errores alta detectada"),
     Rule("low_availability", "availability", 90.0, "<", "HIGH", "Disponibilidad baja detectada"),
     Rule("high_cpu_usage", "cpu_usage", 85.0, ">", "MEDIUM", "Uso alto de CPU detectado"),
     Rule("high_memory_usage", "memory_usage", 85.0, ">", "MEDIUM", "Uso alto de memoria detectado")]
  }

  /** The ValueError of `add_alert_rule`. */
  datatype RuleError = MissingField

  /** `add_alert_rule`'s check: the rule when every field is present, otherwise the ValueError. */
  function RuleOf(spec: RuleSpec): (r: Result<Rule, RuleError>)
    ensures r.Ok? <==> spec.name.Some? && spec.metric.Some? && spec.threshold.Some? && spec.operator.Some?
                       && spec.severity.Some? && spec.message.Some?
    ensures r.Ok? ==> r.value.name == spec.name.value && r.value.metric == spec.metric.value
                      && r.value.threshold == spec.threshold.value && r.value.operator == spec.operator.value
                      && r.value.severity == spec.severity.value && r.value.message == spec.message.value
  {
    if spec.name.Some? && spec.metric.Some? && spec.threshold.Some? && spec.operator.Some?
       && spec.severity.Some? && spec.message.Some?
    then Ok(Rule(spec.name.value, spec.metric.value, spec.threshold.value, spec.operator.value,
                 spec.severity.value, spec.message.value))
    else Err(MissingField)
  }

  /** `_evaluate_rule`. */
  function Evaluate(operator: string, threshold: real, value: real): bool
  {
    if operator == ">" then value > threshold
    else if operator == "<" then value < threshold
    else if operator == ">=" then value >= threshold
    else if operator == "<=" then value <= threshold
    else if operator == "==" then value == threshold
    else if operator == "!=" then value != threshold
    else false
  }

  predicate KnownOperator(operator: string)
  {
    operator == ">" || operator == "<" || operator == ">=" || operator == "<=" || operator == "==" || operator == "!="
  }

  /**
   * The operators pair up: `>=` is `>` or `==`, `<=` is `<` or `==`, `!=`
   * negates `==`, `<` and `>=` never agree, and an unknown operator never
   * fires.
   */
  lemma EvaluateMeaning(threshold: real, value: real, operator: string)
    ensures Evaluate(">=", threshold, value) == (Evaluate(">", threshold, value) || Evaluate("==", threshold, value))
    ensures Evaluate("<=", threshold, value) == (Evaluate("<", threshold, value) || Evaluate("==", threshold, value))
    ensures Evaluate("!=", threshold, value) == !Evaluate("==", threshold, value)
    ensures Evaluate("<", threshold, value) != Evaluate(">=", threshold, value)
    ensures !KnownOperator(operator) ==> !Evaluate(operator, threshold, value)
  {
  }

  /** `f"{service_name}:{instance_id or 'service'}:{rule_name}"`; an empty id is falsy too. */
  function AlertId(serviceName: string, instanceId: Option<string>, ruleName: string): string
  {
    serviceName + ":" + (if instanceId.Some? && instanceId.value != "" then instanceId.value else "service")
    + ":" + ruleName
  }

  /** Distinct instances of one service get distinct alert ids for the same rule. */
  lemma AlertIdsDiffer(serviceName: string, a: string, b: string, ruleName: string)
    requires a != b && a != "" && b != "" && a != "service" && b != "service"
    requires ':' !in a && ':' !in b
    ensures AlertId(serviceName, Some(a), ruleName) != AlertId(serviceName, Some(b), ruleName)
    ensures AlertId(serviceName, Some(a), ruleName) != AlertId(serviceName, None, ruleName)
  {
    var ia := AlertId(serviceName, Some(a), ruleName);
    var ib := AlertId(serviceName, Some(b), ruleName);
    var iz := AlertId(serviceName, None, ruleName);
    var p := |serviceName| + 1;
    assert ia[..p] == ib[..p] == iz[..p];
    assert ia[p..] == a + ":" + ruleName && ib[p..] == b + ":" + ruleName && iz[p..] == "service:" + ruleName;
    ColonSplit(a, b, ruleName);
    ColonSplit(a, "service", ruleName);
  }

  lemma ColonSplit(a: string, b: string, tail: string)
    requires a != b && ':' !in a && ':' !in b
    ensures a + ":" + tail != b + ":" + tail
  {
    var x := a + ":" + tail;
    var y := b + ":" + tail;
    if |a| < |b| {
      assert x[|a|] == ':' && y[|a|] == b[|a|];
    } else if |b| < |a| {
      assert y[|b|] == ':' && x[|b|] == a[|b|];
    } else {
      var k :| 0 <= k < |a| && a[k] != b[k];
      assert x[k] == a[k] && y[k] == b[k];
    }
  }

  /** The alerts dictionary and its keys in creation order (Python dict order). */
  datatype AlertBook = AlertBook(alerts: map<string, Alert>, order: seq<string>)

  /** Keys and key list agree, no key is listed twice, every alert is stored under its own id. */
  ghost predicate WellFormedBook(b: AlertBook)
  {
    Distinct(b.order)
    && (forall id :: id in b.alerts <==> id in b.order)
    && (forall id | id in b.alerts :: b.alerts[id].id == id)
  }

  /**
   * One iteration of `check_metric` for one rule: a firing rule creates the
   * alert when its id is new; a quiet rule resolves an open alert once;
   * everything else is left alone.
   */
  function CheckRule(b: AlertBook, rule: Rule, metric: string, value: real, serviceName: string,
                     instanceId: Option<string>, now: real): (r: AlertBook)
    ensures WellFormedBook(b) ==> WellFormedBook(r)
  {
    if rule.metric != metric then b
    else
      var fires := Evaluate(rule.operator, rule.threshold, value);
      var id := AlertId(serviceName, instanceId, rule.name);
      if fires && id !in b.alerts then
        var alert := Alert(id, rule.severity, serviceName, instanceId, metric, value, rule.threshold,
                           rule.message, now, false, None);
        assert id !in b.order ==> forall k | 0 <= k < |b.order| :: b.order[k] != id;
        AlertBook(b.alerts[id := alert], b.order + [id])
      else if !fires && id in b.alerts && !b.alerts[id].resolved then
        b.(alerts := b.alerts[id := b.alerts[id].(resolved := true, resolvedTimestamp := Some(now))])
      else b
  }

  /** `check_metric`: the rules in list order. */
  function CheckRules(b: AlertBook, rules: seq<Rule>, metric: string, value: real, serviceName: string,
                      instanceId: Option<string>, now: real): (r: AlertBook)
    ensures WellFormedBook(b) ==> WellFormedBook(r)
  {
    if rules == [] then b
    else CheckRule(CheckRules(b, rules[..|rules| - 1], metric, value, serviceName, instanceId, now),
                   rules[|rules| - 1], metric, value, serviceName, instanceId, now)
  }

  /** What survives a check: an alert is never removed, only ever resolved, and a resolved alert never changes. */
  ghost predicate Keeps(b: AlertBook, r: AlertBook)
  {
    (forall id | id in b.alerts :: id in r.alerts)
    && (forall id | id in b.alerts ::
          r.alerts[id] == b.alerts[id]
          || (!b.alerts[id].resolved && r.alerts[id] == b.alerts[id].(resolved := true, resolvedTimestamp := r.alerts[id].resolvedTimestamp)))
    && |b.order| <= |r.order| && r.order[..|b.order|] == b.order
  }

  /**
   * One rule step in full: it creates an alert exactly when the rule's metric
   * matches, the rule fires and the id is new; it resolves exactly when the
   * metric matches, the rule is quiet and the alert is open, stamping `now`.
   */
  lemma CheckRuleMeaning(b: AlertBook, rule: Rule, metric: string, value: real, serviceName: string,
                         instanceId: Option<string>, now: real)
    ensures var r := CheckRule(b, rule, metric, value, serviceName, instanceId, now);
      var id := AlertId(serviceName, instanceId, rule.name);
      var fires := rule.metric == metric && Evaluate(rule.operator, rule.threshold, value);
      Keeps(b, r)
      && (r.alerts.Keys == b.alerts.Keys + (if fires then {id} else {}))
      && (fires && id !in b.alerts ==>
            r.alerts[id].resolved == false && r.alerts[id].timestamp == now && r.alerts[id].currentValue == value
            && r.alerts[id].severity == rule.severity && r.order == b.order + [id])
      && (id in b.alerts && b.alerts[id].resolved ==> r == b)
      && (rule.metric == metric && !fires && id in b.alerts && !b.alerts[id].resolved ==>
            r.alerts == b.alerts[id := b.alerts[id].(resolved := true, resolvedTimestamp := Some(now))])
      && (forall other | other in b.alerts && other != id :: r.alerts[other] == b.alerts[other])
  {
    var r := CheckRule(b, rule, metric, value, serviceName, instanceId, now);
    var id := AlertId(serviceName, instanceId, rule.name);
    if rule.metric == metric {
      var fires := Evaluate(rule.operator, rule.threshold, value);
      if fires && id !in b.alerts {
        assert (b.order + [id])[..|b.order|] == b.order;
      } else if !fires && id in b.alerts && !b.alerts[id].resolved {
        assert r.order == b.order;
      } else {
        assert r == b;
      }
    }
  }

  /** Keeping is transitive, so a whole `check_metric` keeps what each rule step keeps. */
  lemma {:induction false} CheckRulesKeeps(b: AlertBook, rules: seq<Rule>, metric: string, value: real,
                                           serviceName: string, instanceId: Option<string>, now: real)
    ensures Keeps(b, CheckRules(b, rules, metric, value, serviceName, instanceId, now))
  {
    if rules != [] {
      var mid := CheckRules(b, rules[..|rules| - 1], metric, value, serviceName, instanceId, now);
      CheckRulesKeeps(b, rules[..|rules| - 1], metric, value, serviceName, instanceId, now);
      CheckRuleMeaning(mid, rules[|rules| - 1], metric, value, serviceName, instanceId, now);
      var r := CheckRule(mid, rules[|rules| - 1], metric, value, serviceName, instanceId, now);
      assert r.order[..|mid.order|] == mid.order;
      assert r.order[..|b.order|] == mid.order[..|b.order|];
    }
  }

  /**
   * A resolved alert is never re-opened and never replaced: a later breach
   * with the same id leaves it exactly as it was.
   */
  lemma ResolvedIsFinal(b: AlertBook, rules: seq<Rule>, metric: string, value: real, serviceName: string,
                        instanceId: Option<string>, now: real, id: string)
    requires id in b.alerts && b.alerts[id].resolved
    ensures id in CheckRules(b, rules, metric, value, serviceName, instanceId, now).alerts
    ensures CheckRules(b, rules, metric, value, serviceName, instanceId, now).alerts[id] == b.alerts[id]
  {
    CheckRulesKeeps(b, rules, metric, value, serviceName, instanceId, now);
  }

  /** The unresolved alerts among `ids`, in order. */
  function OpenAlerts(ids: seq<string>, alerts: map<string, Alert>): (r: seq<Alert>)
    requires forall k | 0 <= k < |ids| :: ids[k] in alerts
    ensures forall a | a in r :: !a.resolved && exists k | 0 <= k < |ids| :: alerts[ids[k]] == a
    ensures forall k | 0 <= k < |ids| && !alerts[ids[k]].resolved :: alerts[ids[k]] in r
    ensures |r| <= |ids|
  {
    if ids == [] then []
    else
      var rest := OpenAlerts(ids[1..], alerts);
      assert forall k | 1 <= k < |ids| :: ids[k] == ids[1..][k - 1];
      if !alerts[ids[0]].resolved then [alerts[ids[0]]] + rest else rest
  }

  class AlertManager {
    var book: AlertBook
    var rules: seq<Rule>

    ghost predicate Valid()
      reads this
    {
      WellFormedBook(book)
    }

    constructor ()
      ensures Valid() && book == AlertBook(map[], []) && rules == DefaultRules()
    {
      book := AlertBook(map[], []);
      rules := DefaultRules();
    }

    /** `add_alert_rule`: appends a complete rule; a missing field is the ValueError and nothing changes. */
    method AddAlertRule(spec: RuleSpec) returns (r: Result<(), RuleError>)
      modifies this`rules
      ensures RuleOf(spec).Ok? ==> r == Ok(()) && rules == old(rules) + [RuleOf(spec).value]
      ensures RuleOf(spec).Err? ==> r == Err(RuleOf(spec).error) && rules == old(rules)
    {
      var rule := RuleOf(spec);
      if rule.Err? {
        return Err(rule.error);
      }
      rules := rules + [rule.value];
      r := Ok(());
    }

    /**
     * `check_metric`: every rule for `metric` is evaluated in order.  Each
     * alert created here is appended to `book.order`, which is also the
     * sequence of `_trigger_alert` calls, so callbacks fire once per alert.
     */
    method CheckMetric(metric: string, value: real, serviceName: string, instanceId: Option<string>, now: real)
      requires Valid()
      modifies this`book
      ensures Valid()
      ensures book == CheckRules(old(book), rules, metric, value, serviceName, instanceId, now)
      ensures Keeps(old(book), book)
    {
      var i := 0;
      while i < |rules|
        invariant 0 <= i <= |rules|
        invariant book == CheckRules(old(book), rules[..i], metric, value, serviceName, instanceId, now)
      {
        assert rules[..i + 1][..i] == rules[..i];
        book := CheckRule(book, rules[i], metric, value, serviceName, instanceId, now);
        i := i + 1;
      }
      assert rules[..i] == rules;
      CheckRulesKeeps(old(book), rules, metric, value, serviceName, instanceId, now);
    }

    /** `get_active_alerts`: the unresolved alerts in dictionary order. */
    function ActiveAlerts(): seq<Alert>
      reads this
      requires Valid()
    {
      OpenAlerts(book.order, book.alerts)
    }

    /** An alert is active exactly when it is stored and unresolved. */
    lemma ActiveAlertsMeaning(a: Alert)
      requires Valid()
      ensures a in ActiveAlerts() <==> a.id in book.alerts && book.alerts[a.id] == a && !a.resolved
    {
      if a.id in book.alerts && book.alerts[a.id] == a && !a.resolved {
        var k :| 0 <= k < |book.order| && book.order[k] == a.id;
      }
    }
  }

  /** The overall verdict of the monitoring system. */
  datatype SystemHealth = AllHealthy | Warning | Degraded | Critical

  function CountCritical(alerts: seq<Alert>): (n: nat)
    ensures n <= |alerts|
    ensures n == 0 <==> forall k | 0 <= k < |alerts| :: alerts[k].severity != "CRITICAL"
  {
    if alerts == [] then 0
    else
      var rest := CountCritical(alerts[1..]);
      assert forall k | 1 <= k < |alerts| :: alerts[k] == alerts[1..][k - 1];
      (if alerts[0].severity == "CRITICAL" then 1 else 0) + rest
  }

  /** CRITICAL with any critical alert, DEGRADED above 5 alerts, WARNING with any, else HEALTHY. */
  function Verdict(critical: nat, total: nat): SystemHealth
  {
    if critical > 0 then Critical
    else if total > 5 then Degraded
    else if total > 0 then Warning
    else AllHealthy
  }

  /** `_generate_system_overview`; `totalServices` counts the registered services. */
  datatype Overview = Overview(totalServices: nat, totalAlerts: nat, criticalAlerts: nat, systemHealth: SystemHealth)

  function SystemOverview(active: seq<Alert>, totalServices: nat): Overview
  {
    var critical := CountCritical(active);
    Overview(totalServices, |active|, critical, Verdict(critical, |active|))
  }

  /** `get_system_status`. */
  function SystemStatus(active: seq<Alert>): SystemHealth
  {
    if exists k | 0 <= k < |active| :: active[k].severity == "CRITICAL" then Critical
    else if |active| > 5 then Degraded
    else if |active| > 0 then Warning
    else AllHealthy
  }

  /**
   * The overview's verdict and `get_system_status` agree, and each verdict
   * means what it says about the active alerts.
   */
  lemma VerdictsAgree(active: seq<Alert>, totalServices: nat)
    ensures SystemOverview(active, totalServices).systemHealth == SystemStatus(active)
    ensures SystemStatus(active) == Critical <==> exists k | 0 <= k < |active| :: active[k].severity == "CRITICAL"
    ensures SystemStatus(active) == AllHealthy <==> active == []
    ensures SystemStatus(active) == Degraded ==> |active| > 5
    ensures SystemStatus(active) == Warning ==> 0 < |active| <= 5
  {
  }

  /** Per-service status in `_get_service_health`. */
  datatype ServiceHealth = ServiceHealth(status: string, availability: real, healthyInstances: nat, totalInstances: nat)

  function StatusOf(availability: real): (s: string)
    ensures s == "HEALTHY" <==> availability > 90.0
    ensures s == "DEGRADED" <==> 50.0 < availability <= 90.0
    ensures s == "CRITICAL" <==> availability <= 50.0
  {
    if availability > 90.0 then "HEALTHY" else if availability > 50.0 then "DEGRADED" else "CRITICAL"
  }

  /** `_get_service_health` over the metrics of the registered services. */
  function ServiceHealthReport(metrics: map<string, Services.ServiceMetrics>): (r: map<string, ServiceHealth>)
    ensures r.Keys == metrics.Keys
    ensures forall n | n in r ::
      r[n].status == StatusOf(metrics[n].availability) && r[n].availability == metrics[n].availability
      && r[n].healthyInstances == metrics[n].healthyInstances && r[n].totalInstances == metrics[n].totalInstances
  {
    map n | n in metrics :: ServiceHealth(StatusOf(metrics[n].availability), metrics[n].availability,
                                          metrics[n].healthyInstances, metrics[n].totalInstances)
  }
}
