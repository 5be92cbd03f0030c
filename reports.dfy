/**
 * The analysis half of utils/reports.py: the summary of a collected
 * report, the resilience score, the recommendations and the risk
 * assessment.
 *
 * The collected report is a value: the service metrics in the order of the
 * services dict, the active alerts and the experiment statistics (None when
 * the experiments dict is empty or missing).  A metric the dict may lack,
 * or may hold as something other than a number, is a `Field`; reading it
 * with `.get(key, 0)` gives 0 when it is absent and raises when it is
 * compared or added while not a number.  Each analysis function catches
 * what it raises, as the source does, and returns what it had built when
 * the exception came.
 */
module Reports {
  import opened Wrappers
  import opened Seqs

  datatype Field = Absent | Num(v: real) | NonNumeric

  /** `d.get(key, 0)` used as a number: None when the stored value is not one. */
  function Number(f: Field): Option<real>
  {
    match f
    case Absent => Some(0.0)
    case Num(v) => Some(v)
    case NonNumeric => None
  }

  /** `d.get(key, 0) == 1`, which compares without raising. */
  predicate IsOne(f: Field)
  {
    f == Num(1.0)
  }

  /** `d.get(key, 0) == 0`, which compares without raising. */
  predicate IsZero(f: Field)
  {
    f == Absent || f == Num(0.0)
  }

  datatype ServiceData = ServiceData(name: string, availability: Field, totalInstances: Field, healthyInstances: Field)
  datatype Alert = Alert(severity: string)
  datatype Stats = Stats(successRate: Field, totalExperiments: Field)
  datatype ReportData = ReportData(services: seq<ServiceData>, activeAlerts: seq<Alert>, experiments: Option<Stats>)

  predicate Critical(a: Alert)
  {
    a.severity == "CRITICAL"
  }

  /** The critical alerts among the active ones, in their order. */
  function CriticalAlerts(alerts: seq<Alert>): (r: seq<Alert>)
    ensures |r| <= |alerts|
    ensures forall a :: a in r <==> a in alerts && Critical(a)
  {
    if alerts == [] then []
    else (if Critical(alerts[0]) then [alerts[0]] else []) + CriticalAlerts(alerts[1..])
  }

  /** `x / y` for a positive divisor. */
  function Ratio(x: real, y: real): real
    requires y > 0.0
  {
    x / y
  }

  /** A part of a whole gives a ratio in [0, 1], equal to 1 exactly for the whole. */
  lemma RatioUnit(x: real, y: real)
    requires 0.0 < y && 0.0 <= x <= y
    ensures 0.0 <= Ratio(x, y) <= 1.0
    ensures Ratio(x, y) == 1.0 <==> x == y
  {
    var q := x / y;
    assert q * y == x;
  }

  /** `c` added up `n` times. */
  function Times(c: real, n: nat): real
  {
    if n == 0 then 0.0 else c + Times(c, n - 1)
  }

  lemma {:induction false} TimesIs(c: real, n: nat)
    ensures Times(c, n) == c * n as real
  {
    if n > 0 {
      TimesIs(c, n - 1);
      Distribute(c, (n - 1) as real);
    }
  }

  lemma Distribute(c: real, m: real)
    ensures c * (m + 1.0) == c + c * m
  {
  }

  /** A total of at most 100 per element averages to at most 100, and `n` times `c` averages to `c`. */
  lemma MeanWithin(total: real, n: nat)
    requires 0 < n && 0.0 <= total <= Times(100.0, n)
    ensures 0.0 <= Ratio(total, n as real) <= 100.0
  {
    TimesIs(100.0, n);
    var m := n as real;
    var q := total / m;
    assert q * m == total;
  }

  lemma MeanOf(c: real, n: nat)
    requires n > 0
    ensures Ratio(Times(c, n), n as real) == c
  {
    TimesIs(c, n);
    var m := n as real;
    assert (c * m) / m == c;
  }

  // ---------------------------------------------------------------------
  // Sums over the services
  // ---------------------------------------------------------------------

  datatype Key = AvailabilityKey | TotalInstancesKey | HealthyInstancesKey

  function FieldOf(s: ServiceData, key: Key): Field
  {
    match key
    case AvailabilityKey => s.availability
    case TotalInstancesKey => s.totalInstances
    case HealthyInstancesKey => s.healthyInstances
  }

  /** The sum of one metric over the services; None when one of them is not a number. */
  function SumOf(services: seq<ServiceData>, key: Key): Option<real>
  {
    if services == [] then Some(0.0)
    else
      var x := Number(FieldOf(services[0], key));
      var rest := SumOf(services[1..], key);
      if x.None? || rest.None? then None else Some(x.value + rest.value)
  }

  /** Every service holds the metric as a number (or lacks it). */
  predicate Readable(services: seq<ServiceData>, key: Key)
  {
    forall i | 0 <= i < |services| :: !FieldOf(services[i], key).NonNumeric?
  }

  /** The sum exists exactly when every service's value can be read. */
  lemma {:induction false} SumOfDefined(services: seq<ServiceData>, key: Key)
    ensures SumOf(services, key).Some? <==> Readable(services, key)
  {
    if services != [] {
      SumOfDefined(services[1..], key);
      assert forall i | 1 <= i < |services| :: services[1..][i - 1] == services[i];
    }
  }

  /** A metric in [0, c] at every service sums to at most `c` per service. */
  lemma {:induction false} SumOfWithin(services: seq<ServiceData>, key: Key, c: real)
    requires 0.0 <= c
    requires forall i | 0 <= i < |services| ::
      (Number(FieldOf(services[i], key)).Some? && 0.0 <= Number(FieldOf(services[i], key)).value <= c)
    ensures SumOf(services, key).Some?
    ensures 0.0 <= SumOf(services, key).value <= Times(c, |services|)
  {
    if services != [] {
      assert forall i | 0 <= i < |services| - 1 :: services[1..][i] == services[i + 1];
      SumOfWithin(services[1..], key, c);
    }
  }

  /** The healthy-instance sum stays below the total-instance sum when it does at every service. */
  lemma {:induction false} HealthyBelowTotal(services: seq<ServiceData>)
    requires forall i | 0 <= i < |services| :: InstancesInRange(services[i])
    ensures SumOf(services, HealthyInstancesKey).Some? && SumOf(services, TotalInstancesKey).Some?
    ensures 0.0 <= SumOf(services, HealthyInstancesKey).value <= SumOf(services, TotalInstancesKey).value
  {
    if services != [] {
      assert forall i | 0 <= i < |services| - 1 :: services[1..][i] == services[i + 1];
      HealthyBelowTotal(services[1..]);
    }
  }

  /** Healthy and total instances are numbers with 0 <= healthy <= total. */
  predicate InstancesInRange(s: ServiceData)
  {
    var h := Number(s.healthyInstances);
    var t := Number(s.totalInstances);
    h.Some? && t.Some? && 0.0 <= h.value <= t.value
  }

  // ---------------------------------------------------------------------
  // `_calculate_resilience_score`
  // ---------------------------------------------------------------------

  /** The alert component: 5 points off per critical alert, else 2 per active alert beyond 5. */
  function AlertScore(critical: nat, active: nat): int
  {
    if critical > 0 then MaxInt(0, 20 - critical * 5)
    else if active > 5 then MaxInt(0, 20 - (active - 5) * 2)
    else 20
  }

  /**
   * The alert component lies in [0, 20]; it is the full 20 exactly when no
   * alert is critical and at most 5 are active, and 0 from 4 critical
   * alerts on.
   */
  lemma AlertScoreRange(critical: nat, active: nat)
    ensures 0 <= AlertScore(critical, active) <= 20
    ensures AlertScore(critical, active) == 20 <==> critical == 0 && active <= 5
    ensures critical >= 4 ==> AlertScore(critical, active) == 0
    ensures 0 < critical ==> AlertScore(critical, active) == 20 - 5 * MinInt(critical, 4)
  {
  }

  /** One more critical alert never raises the alert component, once some alert is critical. */
  lemma AlertScoreFalls(critical: nat, active: nat, active2: nat)
    requires 0 < critical
    ensures AlertScore(critical + 1, active2) <= AlertScore(critical, active)
  {
  }

  /** The availability component: the mean availability as a share of 40; 0 without services. */
  function AvailabilityScore(services: seq<ServiceData>): Option<real>
  {
    var sum := SumOf(services, AvailabilityKey);
    if sum.None? then None
    else if services == [] then Some(0.0)
    else Some(Ratio(sum.value, |services| as real) / 100.0 * 40.0)
  }

  /** The experiment component: the success rate as a share of 20, and 10 without experiment data. */
  function ExperimentScore(experiments: Option<Stats>): Option<real>
  {
    if experiments.None? then Some(10.0)
    else
      var rate := Number(experiments.value.successRate);
      if rate.None? then None else Some(rate.value / 100.0 * 20.0)
  }

  /** The instance component: the healthy share of all instances as a share of 10. */
  function InstanceScore(services: seq<ServiceData>): Option<real>
  {
    var total := SumOf(services, TotalInstancesKey);
    var healthy := SumOf(services, HealthyInstancesKey);
    if total.None? || healthy.None? then None
    else if total.value > 0.0 then Some(Ratio(healthy.value, total.value) * 10.0)
    else Some(0.0)
  }

  /** The fixed recovery component. */
  const RecoveryScore := 10.0

  /** The four computed components, or None when reading one of them raises. */
  datatype Components = Components(availability: real, alerts: int, experiments: real, instances: real)

  function ScoreComponents(data: ReportData): Option<Components>
  {
    var availability := AvailabilityScore(data.services);
    var experiments := ExperimentScore(data.experiments);
    var instances := InstanceScore(data.services);
    if availability.None? || experiments.None? || instances.None? then None
    else
      var critical := |CriticalAlerts(data.activeAlerts)|;
      Some(Components(availability.value, AlertScore(critical, |data.activeAlerts|), experiments.value, instances.value))
  }

  /**
   * `_calculate_resilience_score`: the sum of the components and the
   * recovery score, clamped to [0, 100]; 50 when reading the report raises.
   */
  function ResilienceScore(data: ReportData): (r: real)
    ensures 0.0 <= r <= 100.0
    ensures ScoreComponents(data).None? ==> r == 50.0
  {
    var c := ScoreComponents(data);
    if c.None? then 50.0
    else
      var sum := c.value.availability + c.value.alerts as real + c.value.experiments + c.value.instances + RecoveryScore;
      MinReal(100.0, MaxReal(0.0, sum))
  }

  /** Reading the report for the score raises exactly when a metric it adds or compares is not a number. */
  lemma ScoreRaisesExactly(data: ReportData)
    ensures ScoreComponents(data).None? <==>
      !Readable(data.services, AvailabilityKey) || !Readable(data.services, TotalInstancesKey)
      || !Readable(data.services, HealthyInstancesKey)
      || (data.experiments.Some? && data.experiments.value.successRate.NonNumeric?)
  {
    SumOfDefined(data.services, AvailabilityKey);
    SumOfDefined(data.services, TotalInstancesKey);
    SumOfDefined(data.services, HealthyInstancesKey);
  }

  /** A report whose metrics lie in their natural ranges. */
  predicate WellRanged(data: ReportData)
  {
    (forall i | 0 <= i < |data.services| :: Number(data.services[i].availability).Some?
       && 0.0 <= Number(data.services[i].availability).value <= 100.0)
    && (forall i | 0 <= i < |data.services| :: InstancesInRange(data.services[i]))
    && (data.experiments.Some? ==>
          (Number(data.experiments.value.successRate).Some?
           && 0.0 <= Number(data.experiments.value.successRate).value <= 100.0))
  }

  /**
   * For a well-ranged report every component stays within its weight (40,
   * 20, 20 and 10 points), so the clamp never changes the sum.
   */
  lemma ComponentsWithin(data: ReportData)
    requires WellRanged(data)
    ensures ScoreComponents(data).Some?
    ensures var c := ScoreComponents(data).value;
      0.0 <= c.availability <= 40.0 && 0 <= c.alerts <= 20 && 0.0 <= c.experiments <= 20.0
      && 0.0 <= c.instances <= 10.0
    ensures var c := ScoreComponents(data).value;
      ResilienceScore(data) == c.availability + c.alerts as real + c.experiments + c.instances + RecoveryScore
  {
    var services := data.services;
    SumOfWithin(services, AvailabilityKey, 100.0);
    if services != [] {
      MeanWithin(SumOf(services, AvailabilityKey).value, |services|);
    }
    HealthyBelowTotal(services);
    var total := SumOf(services, TotalInstancesKey).value;
    if total > 0.0 {
      RatioUnit(SumOf(services, HealthyInstancesKey).value, total);
    }
    AlertScoreRange(|CriticalAlerts(data.activeAlerts)|, |data.activeAlerts|);
  }

  /** A report with no services, alerts or experiments scores 40: the alert, experiment and recovery defaults. */
  lemma EmptyReportScore()
    ensures ResilienceScore(ReportData([], [], None)) == 40.0
  {
    assert CriticalAlerts([]) == [];
  }

  /**
   * Fully available services with every instance healthy, no alerts and
   * every experiment successful give the full 100.
   */
  lemma PerfectScore(data: ReportData)
    requires data.services != [] && data.activeAlerts == []
    requires forall i | 0 <= i < |data.services| ::
      (data.services[i].availability == Num(100.0)
       && data.services[i].totalInstances.Num? && data.services[i].totalInstances.v > 0.0
       && data.services[i].healthyInstances == data.services[i].totalInstances)
    requires data.experiments == Some(Stats(Num(100.0), Absent))
    ensures ResilienceScore(data) == 100.0
  {
    var services := data.services;
    AllOfEach(services, 100.0);
    PositiveTotals(services);
    assert CriticalAlerts([]) == [];
    MeanOf(100.0, |services|);
    var total := SumOf(services, TotalInstancesKey).value;
    RatioUnit(total, total);
  }

  /** Services all at availability `a` sum to `a` per service. */
  lemma {:induction false} AllOfEach(services: seq<ServiceData>, a: real)
    requires forall i | 0 <= i < |services| :: services[i].availability == Num(a)
    ensures SumOf(services, AvailabilityKey) == Some(Times(a, |services|))
  {
    if services != [] {
      assert forall i | 0 <= i < |services| - 1 :: services[1..][i] == services[i + 1];
      AllOfEach(services[1..], a);
    }
  }

  /** Positive instance counts, healthy equal to total, give equal and positive sums. */
  lemma {:induction false} PositiveTotals(services: seq<ServiceData>)
    requires services != []
    requires forall i | 0 <= i < |services| ::
      (services[i].totalInstances.Num? && services[i].totalInstances.v > 0.0
       && services[i].healthyInstances == services[i].totalInstances)
    ensures SumOf(services, TotalInstancesKey).Some? && SumOf(services, TotalInstancesKey).value > 0.0
    ensures SumOf(services, HealthyInstancesKey) == SumOf(services, TotalInstancesKey)
  {
    assert forall i | 0 <= i < |services| - 1 :: services[1..][i] == services[i + 1];
    if |services| > 1 {
      PositiveTotals(services[1..]);
    }
  }

  // ---------------------------------------------------------------------
  // `_generate_recommendations`
  // ---------------------------------------------------------------------

  datatype Recommendation =
    | CriticalResilience
    | LowResilience
    | ImproveAvailability(services: seq<string>)
    | AddRedundancy(services: seq<string>)
    | StartExperiments
    | InvestigateFailures
    | ResolveCriticalAlerts
    | HealthyState
    | IncreaseFrequency
    | AddObservability
    | RecommendationError

  /** The names of services below 90% availability; None when a comparison raises. */
  function LowAvailabilityNames(services: seq<ServiceData>): Option<seq<string>>
  {
    if services == [] then Some([])
    else
      var a := Number(services[0].availability);
      var rest := LowAvailabilityNames(services[1..]);
      if a.None? || rest.None? then None
      else Some((if a.value < 90.0 then [services[0].name] else []) + rest.value)
  }

  /** The names of services with exactly one instance. */
  function SingleInstanceNames(services: seq<ServiceData>): seq<string>
  {
    if services == [] then []
    else (if IsOne(services[0].totalInstances) then [services[0].name] else []) + SingleInstanceNames(services[1..])
  }

  /** The experiment rule: start experiments when none ran, investigate when under 70% succeed. */
  function ExperimentAdvice(experiments: Option<Stats>): Result<seq<Recommendation>, Field>
  {
    if experiments.None? then Ok([])
    else if IsZero(experiments.value.totalExperiments) then Ok([StartExperiments])
    else
      var rate := Number(experiments.value.successRate);
      if rate.None? then Err(experiments.value.successRate)
      else if rate.value < 70.0 then Ok([InvestigateFailures])
      else Ok([])
  }

  /** The three entries given when no rule fires. */
  function Defaults(): seq<Recommendation>
  {
    [HealthyState, IncreaseFrequency, AddObservability]
  }

  /**
   * `_generate_recommendations`: the score, availability, redundancy,
   * experiment and alert rules in order, the defaults when none fires, and
   * the error entry after whatever was built when a comparison raises.
   */
  function Recommendations(data: ReportData, score: real): (r: seq<Recommendation>)
    ensures |r| >= 1
  {
    var first := if score < 50.0 then [CriticalResilience] else if score < 70.0 then [LowResilience] else [];
    var low := LowAvailabilityNames(data.services);
    if low.None? then first + [RecommendationError]
    else
      var single := SingleInstanceNames(data.services);
      var built := first + (if low.value != [] then [ImproveAvailability(low.value)] else [])
                   + (if single != [] then [AddRedundancy(single)] else []);
      var advice := ExperimentAdvice(data.experiments);
      if advice.Err? then built + [RecommendationError]
      else
        var all := built + advice.value
                   + (if CriticalAlerts(data.activeAlerts) != [] then [ResolveCriticalAlerts] else []);
        if all == [] then Defaults() else all
  }

  /** The low-availability names are exactly the services below 90%, and exist when every availability reads. */
  lemma {:induction false} LowAvailabilityExact(services: seq<ServiceData>)
    ensures LowAvailabilityNames(services).Some? <==> Readable(services, AvailabilityKey)
    ensures LowAvailabilityNames(services).Some? ==> forall name ::
      ((name in LowAvailabilityNames(services).value)
         <==> exists i | 0 <= i < |services| :: services[i].name == name
                                              && Number(services[i].availability).value < 90.0)
  {
    if services != [] {
      var tail := services[1..];
      assert forall i | 0 <= i < |tail| :: tail[i] == services[i + 1];
      LowAvailabilityExact(tail);
      if LowAvailabilityNames(services).Some? {
        forall name
          ensures name in LowAvailabilityNames(services).value
            <==> exists i | 0 <= i < |services| :: services[i].name == name
                                                 && Number(services[i].availability).value < 90.0
        {
          if exists i | 0 <= i < |services| :: services[i].name == name
                                               && Number(services[i].availability).value < 90.0 {
            var i :| 0 <= i < |services| && services[i].name == name
                     && Number(services[i].availability).value < 90.0;
            if i > 0 {
              assert tail[i - 1] == services[i];
            }
          }
        }
      }
    }
  }

  /** The single-instance names are exactly the services with one instance. */
  lemma {:induction false} SingleInstanceExact(services: seq<ServiceData>)
    ensures forall name ::
      ((name in SingleInstanceNames(services))
         <==> exists i | 0 <= i < |services| :: services[i].name == name && IsOne(services[i].totalInstances))
  {
    if services != [] {
      var tail := services[1..];
      assert forall i | 0 <= i < |tail| :: tail[i] == services[i + 1];
      SingleInstanceExact(tail);
      forall name
        ensures name in SingleInstanceNames(services)
          <==> exists i | 0 <= i < |services| :: services[i].name == name && IsOne(services[i].totalInstances)
      {
        if exists i | 0 <= i < |services| :: services[i].name == name && IsOne(services[i].totalInstances) {
          var i :| 0 <= i < |services| && services[i].name == name && IsOne(services[i].totalInstances);
          if i > 0 {
            assert tail[i - 1] == services[i];
          }
        }
      }
    }
  }

  /** The score rule fires by the score alone. */
  lemma ScoreRule(data: ReportData, score: real)
    ensures CriticalResilience in Recommendations(data, score) <==> score < 50.0
    ensures LowResilience in Recommendations(data, score) <==> 50.0 <= score < 70.0
  {
  }

  /** The error entry appears only when a comparison raises, and then it is the last entry. */
  lemma ErrorRule(data: ReportData, score: real)
    ensures var r := Recommendations(data, score);
      (RecommendationError in r)
        <==> (LowAvailabilityNames(data.services).None? || ExperimentAdvice(data.experiments).Err?)
    ensures var r := Recommendations(data, score);
      RecommendationError in r ==> r[|r| - 1] == RecommendationError
  {
  }

  /** When every comparison reads, the alert rule fires exactly for a critical alert. */
  lemma AlertRule(data: ReportData, score: real)
    requires LowAvailabilityNames(data.services).Some? && ExperimentAdvice(data.experiments).Ok?
    ensures ResolveCriticalAlerts in Recommendations(data, score)
      <==> exists a | a in data.activeAlerts :: Critical(a)
  {
    var crit := CriticalAlerts(data.activeAlerts);
    if crit != [] {
      assert crit[0] in crit;
    }
  }

  /** The defaults are given exactly when no rule fires. */
  lemma DefaultRule(data: ReportData, score: real)
    ensures (Recommendations(data, score) == Defaults()) <==>
      (70.0 <= score && LowAvailabilityNames(data.services) == Some([])
       && SingleInstanceNames(data.services) == [] && ExperimentAdvice(data.experiments) == Ok([])
       && CriticalAlerts(data.activeAlerts) == [])
  {
    var r := Recommendations(data, score);
    if r == Defaults() {
      assert HealthyState in r;
      var advice := ExperimentAdvice(data.experiments);
      assert advice.Ok? ==> HealthyState !in advice.value;
    }
  }

  // ---------------------------------------------------------------------
  // `_assess_risks`
  // ---------------------------------------------------------------------

  datatype Risk =
    | CriticalAvailability(service: string)
    | LowAvailability(service: string)
    | NoRedundancy(service: string)
    | ManyCriticalAlerts
    | CriticalAlertsActive

  datatype RiskLevel = LowRisk | MediumRisk | HighRisk

  datatype RiskAssessment = RiskAssessment(high: seq<Risk>, medium: seq<Risk>, low: seq<Risk>, level: RiskLevel)

  /** The risks found walking the services in order, and whether a comparison raised on the way. */
  datatype RiskWalk = RiskWalk(high: seq<Risk>, medium: seq<Risk>, raised: bool)

  function ServiceRisks(services: seq<ServiceData>): RiskWalk
  {
    if services == [] then RiskWalk([], [], false)
    else
      var s := services[0];
      var a := Number(s.availability);
      if a.None? then RiskWalk([], [], true)
      else
        var rest := ServiceRisks(services[1..]);
        RiskWalk((if a.value < 50.0 then [CriticalAvailability(s.name)] else []) + rest.high,
                 (if 50.0 <= a.value < 80.0 then [LowAvailability(s.name)] else [])
                 + (if IsOne(s.totalInstances) then [NoRedundancy(s.name)] else []) + rest.medium,
                 rest.raised)
  }

  /**
   * `_assess_risks`: the service risks, then the alert risks; the overall
   * level is high for a high risk or more than three medium ones, medium
   * for any medium one, low otherwise.  When a comparison raises, the
   * risks found so far stay and the level stays low.
   */
  function AssessRisks(data: ReportData): RiskAssessment
  {
    var walk := ServiceRisks(data.services);
    if walk.raised then RiskAssessment(walk.high, walk.medium, [], LowRisk)
    else
      var critical := |CriticalAlerts(data.activeAlerts)|;
      var high := walk.high + (if critical > 3 then [ManyCriticalAlerts] else []);
      var medium := walk.medium + (if 0 < critical <= 3 then [CriticalAlertsActive] else []);
      var level := if high != [] then HighRisk
                   else if |medium| > 3 then HighRisk
                   else if medium != [] then MediumRisk
                   else LowRisk;
      RiskAssessment(high, medium, [], level)
  }

  /** The service walk raises exactly at an unreadable availability; it lists only service risks. */
  lemma {:induction false} ServiceRisksShape(services: seq<ServiceData>)
    ensures ServiceRisks(services).raised <==> !Readable(services, AvailabilityKey)
    ensures forall k | 0 <= k < |ServiceRisks(services).high| :: ServiceRisks(services).high[k].CriticalAvailability?
    ensures forall k | 0 <= k < |ServiceRisks(services).medium| ::
      ServiceRisks(services).medium[k].LowAvailability? || ServiceRisks(services).medium[k].NoRedundancy?
  {
    if services != [] {
      var tail := services[1..];
      assert forall i | 0 <= i < |tail| :: tail[i] == services[i + 1];
      ServiceRisksShape(tail);
    }
  }

  /** When every availability reads, a service is critical exactly below 50%. */
  lemma {:induction false} CriticalRisksExact(services: seq<ServiceData>, name: string)
    requires Readable(services, AvailabilityKey)
    ensures CriticalAvailability(name) in ServiceRisks(services).high
      <==> exists i | 0 <= i < |services| :: services[i].name == name
                                           && Number(services[i].availability).value < 50.0
  {
    if services != [] {
      var tail := services[1..];
      assert forall i | 0 <= i < |tail| :: tail[i] == services[i + 1];
      CriticalRisksExact(tail, name);
      forall i | 0 < i < |services|
        ensures services[i] == tail[i - 1]
      {
      }
    }
  }

  /** When every availability reads, a service has low availability exactly from 50% to below 80%. */
  lemma {:induction false} LowRisksExact(services: seq<ServiceData>, name: string)
    requires Readable(services, AvailabilityKey)
    ensures LowAvailability(name) in ServiceRisks(services).medium
      <==> exists i | 0 <= i < |services| :: services[i].name == name
                                           && 50.0 <= Number(services[i].availability).value < 80.0
  {
    if services != [] {
      var tail := services[1..];
      assert forall i | 0 <= i < |tail| :: tail[i] == services[i + 1];
      LowRisksExact(tail, name);
      forall i | 0 < i < |services|
        ensures services[i] == tail[i - 1]
      {
      }
    }
  }

  /** When every availability reads, a service lacks redundancy exactly at one instance. */
  lemma {:induction false} RedundancyRisksExact(services: seq<ServiceData>, name: string)
    requires Readable(services, AvailabilityKey)
    ensures NoRedundancy(name) in ServiceRisks(services).medium
      <==> exists i | 0 <= i < |services| :: services[i].name == name && IsOne(services[i].totalInstances)
  {
    if services != [] {
      var tail := services[1..];
      assert forall i | 0 <= i < |tail| :: tail[i] == services[i + 1];
      RedundancyRisksExact(tail, name);
      forall i | 0 < i < |services|
        ensures services[i] == tail[i - 1]
      {
      }
    }
  }

  /**
   * The overall level from the report itself, when every availability
   * reads: high for a high risk or more than three medium ones, so for a
   * service below 50% or more than three critical alerts.
   */
  lemma RiskLevelHigh(data: ReportData)
    requires Readable(data.services, AvailabilityKey)
    ensures var a := AssessRisks(data);
      a.low == [] && (a.level == HighRisk <==> a.high != [] || |a.medium| > 3)
    ensures (exists i | 0 <= i < |data.services| :: Number(data.services[i].availability).value < 50.0)
      ==> AssessRisks(data).level == HighRisk
    ensures |CriticalAlerts(data.activeAlerts)| > 3 ==> AssessRisks(data).level == HighRisk
  {
    var services := data.services;
    ServiceRisksShape(services);
    if exists i | 0 <= i < |services| :: Number(services[i].availability).value < 50.0 {
      var i :| 0 <= i < |services| && Number(services[i].availability).value < 50.0;
      CriticalRisksExact(services, services[i].name);
    }
  }

  /** The overall level is low exactly when no service and no alert is flagged. */
  lemma RiskLevelLow(data: ReportData)
    requires Readable(data.services, AvailabilityKey)
    ensures AssessRisks(data).level == LowRisk <==>
      (forall i | 0 <= i < |data.services| :: Number(data.services[i].availability).value >= 80.0
                                             && !IsOne(data.services[i].totalInstances))
      && CriticalAlerts(data.activeAlerts) == []
  {
    var services := data.services;
    ServiceRisksShape(services);
    var w := ServiceRisks(services);
    if exists i | 0 <= i < |services| :: Number(services[i].availability).value < 80.0
                                        || IsOne(services[i].totalInstances) {
      var i :| 0 <= i < |services| && (Number(services[i].availability).value < 80.0
                                       || IsOne(services[i].totalInstances));
      var name := services[i].name;
      if Number(services[i].availability).value < 50.0 {
        CriticalRisksExact(services, name);
      } else if Number(services[i].availability).value < 80.0 {
        LowRisksExact(services, name);
      } else {
        RedundancyRisksExact(services, name);
      }
    }
    if w.high != [] {
      assert w.high[0] in w.high;
      CriticalRisksExact(services, w.high[0].service);
    }
    if w.medium != [] {
      var m := w.medium[0];
      assert m in w.medium;
      if m.LowAvailability? {
        LowRisksExact(services, m.service);
      } else {
        RedundancyRisksExact(services, m.service);
      }
    }
  }

  // ---------------------------------------------------------------------
  // `_generate_analysis`
  // ---------------------------------------------------------------------

  datatype Strength = HighExperimentSuccess
  datatype Weakness = LowServiceAvailability(service: string, availability: real) | LowExperimentSuccess

  /** The availability loop's totals, and whether a comparison raised on the way. */
  datatype Walk = Walk(total: real, healthy: nat, weaknesses: seq<Weakness>, raised: bool)

  function AvailabilityWalk(services: seq<ServiceData>): Walk
  {
    if services == [] then Walk(0.0, 0, [], false)
    else
      var s := services[0];
      var a := Number(s.availability);
      if a.None? then Walk(0.0, 0, [], true)
      else
        var rest := AvailabilityWalk(services[1..]);
        Walk(a.value + rest.total,
             (if a.value > 90.0 then 1 else 0) + rest.healthy,
             (if a.value < 50.0 then [LowServiceAvailability(s.name, a.value)] else []) + rest.weaknesses,
             rest.raised)
  }

  /**
   * The availability loop raises exactly at an unreadable availability;
   * otherwise it counts a service as healthy exactly above 90%, and its
   * total is the availability sum.
   */
  lemma {:induction false} AvailabilityWalkCounts(services: seq<ServiceData>)
    ensures AvailabilityWalk(services).raised <==> !Readable(services, AvailabilityKey)
    ensures !AvailabilityWalk(services).raised ==>
      AvailabilityWalk(services).healthy <= |services|
      && ((AvailabilityWalk(services).healthy == |services|)
            <==> forall i | 0 <= i < |services| :: Number(services[i].availability).value > 90.0)
      && SumOf(services, AvailabilityKey) == Some(AvailabilityWalk(services).total)
  {
    if services != [] {
      var tail := services[1..];
      assert forall i | 0 <= i < |tail| :: tail[i] == services[i + 1];
      AvailabilityWalkCounts(tail);
    }
  }

  /** When every availability reads, the weaknesses name exactly the services below 50%, each with its value. */
  lemma {:induction false} WeaknessesExact(services: seq<ServiceData>, name: string, a: real)
    requires Readable(services, AvailabilityKey)
    ensures LowServiceAvailability(name, a) in AvailabilityWalk(services).weaknesses
      <==> exists i | 0 <= i < |services| :: services[i].name == name
                                           && Number(services[i].availability) == Some(a) && a < 50.0
  {
    if services != [] {
      var tail := services[1..];
      assert forall i | 0 <= i < |tail| :: tail[i] == services[i + 1];
      WeaknessesExact(tail, name, a);
      forall i | 0 < i < |services|
        ensures services[i] == tail[i - 1]
      {
      }
    }
  }

  datatype Analysis = Analysis(
    averageAvailability: Option<real>,
    healthyServicesRatio: Option<real>,
    experimentSuccessRate: Option<Field>,
    totalExperiments: Option<Field>,
    activeAlerts: Option<nat>,
    criticalAlerts: Option<nat>,
    resilienceScore: real,
    strengths: seq<Strength>,
    weaknesses: seq<Weakness>,
    recommendations: seq<Recommendation>,
    riskAssessment: Option<RiskAssessment>)

  /** `stats.get(key, 0)` as stored in the summary. */
  function Stored(f: Field): Field
  {
    if f.Absent? then Num(0.0) else f
  }

  /**
   * `_generate_analysis`: the availability summary, the experiment
   * summary, the alert counts, then the score, the recommendations and the
   * risks.  A comparison that raises leaves the analysis as built so far.
   */
  function GenerateAnalysis(data: ReportData): Analysis
  {
    var walk := AvailabilityWalk(data.services);
    if walk.raised then Analysis(None, None, None, None, None, None, 0.0, [], walk.weaknesses, [], None)
    else
      var n := MaxInt(1, |data.services|) as real;
      var average := Some(Ratio(walk.total, n));
      var ratio := Some(Ratio(walk.healthy as real, n));
      var rate := if data.experiments.Some? then Some(Stored(data.experiments.value.successRate)) else None;
      var total := if data.experiments.Some? then Some(Stored(data.experiments.value.totalExperiments)) else None;
      if rate.Some? && rate.value.NonNumeric? then
        Analysis(average, ratio, rate, total, None, None, 0.0, [], walk.weaknesses, [], None)
      else
        var strengths := if rate.Some? && rate.value.v > 80.0 then [HighExperimentSuccess] else [];
        var weaknesses := walk.weaknesses
                          + (if rate.Some? && rate.value.v < 50.0 then [LowExperimentSuccess] else []);
        var score := ResilienceScore(data);
        Analysis(average, ratio, rate, total, Some(|data.activeAlerts|), Some(|CriticalAlerts(data.activeAlerts)|),
                 score, strengths, weaknesses, Recommendations(data, score), Some(AssessRisks(data)))
  }

  /**
   * When every availability and the success rate read, the analysis is
   * complete: the healthy ratio is the share of services above 90% over
   * max(1, n), in [0, 1]; the average is the mean availability; the
   * critical alerts are among the active ones; the score is the resilience
   * score and the recommendations are never empty.  Otherwise it stops
   * before the alert counts.
   */
  lemma AnalysisMeaning(data: ReportData)
    ensures var a := GenerateAnalysis(data);
      (a.criticalAlerts.Some? <==>
         Readable(data.services, AvailabilityKey)
         && !(data.experiments.Some? && data.experiments.value.successRate.NonNumeric?))
      && (a.averageAvailability.Some? <==> Readable(data.services, AvailabilityKey))
    ensures var a := GenerateAnalysis(data);
      a.criticalAlerts.Some? ==>
        a.criticalAlerts.value <= a.activeAlerts.value
        && a.resilienceScore == ResilienceScore(data)
        && |a.recommendations| >= 1
        && a.riskAssessment == Some(AssessRisks(data))
    ensures var a := GenerateAnalysis(data);
      a.healthyServicesRatio.Some? ==>
        0.0 <= a.healthyServicesRatio.value <= 1.0
        && ((a.healthyServicesRatio.value == 1.0)
              <==> data.services != [] && forall i | 0 <= i < |data.services| ::
                                            Number(data.services[i].availability).value > 90.0)
    ensures var a := GenerateAnalysis(data);
      a.averageAvailability.Some? && data.services != [] ==>
        SumOf(data.services, AvailabilityKey).Some?
        && a.averageAvailability.value == Ratio(SumOf(data.services, AvailabilityKey).value, |data.services| as real)
  {
    var services := data.services;
    AvailabilityWalkCounts(services);
    var walk := AvailabilityWalk(services);
    if !walk.raised {
      var n := MaxInt(1, |services|) as real;
      RatioUnit(walk.healthy as real, n);
    }
  }
}
