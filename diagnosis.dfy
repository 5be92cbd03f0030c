/**
 * The diagnostic experiment (chaos/experiments.py, `DoctorMonkey`): health
 * scans of every service, the report of each scan, the list of unhealthy
 * instances seen so far and the summary of the last scan.
 */
module Diagnosis {
  import opened Wrappers
  import opened Seqs
  import opened Services

  /** The two `random()` draws of one instance's `health_check`. */
  datatype HealthDraw = HealthDraw(flap: real, recover: real)

  /** Where an instance lands in a service's health report. */
  datatype Verdict = CountedHealthy | ListedDegraded | ListedUnhealthy

  /**
   * `_evaluate_instance_health` as written: a failed check or an
   * UNHEALTHY/TERMINATED status lists the instance as unhealthy, a DEGRADED
   * status lists it as degraded, anything else counts it healthy.
   */
  function EvaluateAsWritten(status: ServiceStatus, ok: bool): Verdict
  {
    if !ok || status == Unhealthy || status == Terminated then ListedUnhealthy
    else if status == Degraded then ListedDegraded
    else CountedHealthy
  }

  /**
   * As written, no instance is ever listed as degraded: the check answers
   * true only for an instance that ends HEALTHY, so the degraded branch is
   * never reached.
   */
  lemma DegradedNeverListed(i: Instance, d: HealthDraw, now: real)
    ensures var (j, ok) := HealthChecked(i, d.flap, d.recover, now);
      EvaluateAsWritten(j.status, ok) != ListedDegraded
  {
    HealthCheckTruthful(i, d.flap, d.recover, now);
  }

  /** A DEGRADED instance that neither flaps nor recovers stays DEGRADED and is listed as unhealthy. */
  lemma DegradedReportedUnhealthy(i: Instance, d: HealthDraw, now: real)
    requires i.status == Degraded && d.flap >= 0.05 && d.recover >= 0.3
    ensures var (j, ok) := HealthChecked(i, d.flap, d.recover, now);
      j.status == Degraded && EvaluateAsWritten(j.status, ok) == ListedUnhealthy
  {
  }

  /**
   * The evaluation the report's three lists call for: UNHEALTHY and
   * TERMINATED are unhealthy, DEGRADED is degraded, otherwise a failed check
   * is unhealthy and a passed one healthy.
   */
  function Evaluate(status: ServiceStatus, ok: bool): Verdict
  {
    if status == Unhealthy || status == Terminated then ListedUnhealthy
    else if status == Degraded then ListedDegraded
    else if !ok then ListedUnhealthy
    else CountedHealthy
  }

  /**
   * After a health check, an instance is counted healthy exactly when it is
   * HEALTHY and listed degraded exactly when it is DEGRADED; the evaluation
   * as written agrees everywhere except on DEGRADED instances.
   */
  lemma EvaluateMeaning(i: Instance, d: HealthDraw, now: real)
    ensures var (j, ok) := HealthChecked(i, d.flap, d.recover, now);
      (Evaluate(j.status, ok) == CountedHealthy <==> j.status == Healthy)
      && (Evaluate(j.status, ok) == ListedDegraded <==> j.status == Degraded)
      && (Evaluate(j.status, ok) == EvaluateAsWritten(j.status, ok) <==> j.status != Degraded)
  {
    HealthCheckTruthful(i, d.flap, d.recover, now);
  }

  /**
   * The verdict the scan reaches on an instance after its health check, as
   * the code evaluates it, from the status alone: the check's answer is
   * whether the instance ended HEALTHY.
   */
  function Judge(j: Instance): Verdict
  {
    EvaluateAsWritten(j.status, j.status == Healthy)
  }

  /**
   * `Judge` gives the verdict the code gives on the check's own answer:
   * HEALTHY instances are counted healthy and every other one is listed
   * unhealthy.
   */
  lemma JudgeMatches(i: Instance, d: HealthDraw, now: real)
    ensures var (j, ok) := HealthChecked(i, d.flap, d.recover, now);
      Judge(j) == EvaluateAsWritten(j.status, ok)
      && (Judge(j) == CountedHealthy <==> j.status == Healthy)
      && (Judge(j) == ListedUnhealthy <==> j.status != Healthy)
  {
    HealthCheckTruthful(i, d.flap, d.recover, now);
  }

  /** The health check of a dictionary's instances under `draws`, keyed by instance id. */
  function CheckedBy(draws: map<string, HealthDraw>, now: real): Instance -> Instance
  {
    (i: Instance) =>
      if i.instanceId in draws then HealthChecked(i, draws[i.instanceId].flap, draws[i.instanceId].recover, now).0
      else i
  }

  datatype IssueKind = HighResponseTime | HighCpu

  /** A performance issue: the instance, what is wrong, and the reading. */
  datatype Issue = Issue(instanceId: string, kind: IssueKind, value: real)

  /** The issues of one instance: response time above 1000 ms, then CPU above 90%. */
  function Issues(id: string, m: InstanceMetrics): seq<Issue>
  {
    (if m.responseTimeMs > 1000.0 then [Issue(id, HighResponseTime, m.responseTimeMs)] else [])
    + (if m.cpuUsage > 90.0 then [Issue(id, HighCpu, m.cpuUsage)] else [])
  }

  /** A service's part of a scan (`_check_service_health`). */
  datatype ServiceHealth = ServiceHealth(
    totalInstances: nat,
    healthyInstances: nat,
    unhealthyInstances: seq<string>,
    degradedInstances: seq<string>,
    performanceIssues: seq<Issue>)

  /** `h` with the instance `id`, judged `v`, with metrics `metrics`, added. */
  function Counted(h: ServiceHealth, id: string, v: Verdict, metrics: InstanceMetrics): ServiceHealth
  {
    h.(healthyInstances := if v == CountedHealthy then h.healthyInstances + 1 else h.healthyInstances,
       unhealthyInstances := h.unhealthyInstances + (if v == ListedUnhealthy then [id] else []),
       degradedInstances := h.degradedInstances + (if v == ListedDegraded then [id] else []),
       performanceIssues := h.performanceIssues + Issues(id, metrics))
  }

  /**
   * The report on the listed instances of dictionary `m`, each as its
   * health check left it, in list order.
   */
  function Tally(order: seq<string>, m: map<string, Instance>): ServiceHealth
    requires forall k | 0 <= k < |order| :: order[k] in m
  {
    if order == [] then ServiceHealth(|m|, 0, [], [], [])
    else
      var id := order[|order| - 1];
      Counted(Tally(order[..|order| - 1], m), id, Judge(m[id]), m[id].metrics)
  }

  /**
   * Every checked instance lands in exactly one place: the healthy count
   * and the two lists add up to the number checked.
   */
  lemma {:induction false} TallyPartition(order: seq<string>, m: map<string, Instance>)
    requires forall k | 0 <= k < |order| :: order[k] in m
    ensures var h := Tally(order, m);
      h.totalInstances == |m|
      && h.healthyInstances + |h.unhealthyInstances| + |h.degradedInstances| == |order|
  {
    if order != [] {
      TallyPartition(order[..|order| - 1], m);
    }
  }

  /**
   * As the code evaluates: an instance is listed as unhealthy exactly when it
   * was checked and its check left it anything but HEALTHY (a DEGRADED one
   * included), and the degraded list stays empty.
   */
  lemma {:induction false} TallyMembers(order: seq<string>, m: map<string, Instance>)
    requires forall k | 0 <= k < |order| :: order[k] in m
    ensures var h := Tally(order, m);
      (forall id :: id in h.unhealthyInstances <==> id in order && m[id].status != Healthy)
      && h.degradedInstances == []
  {
    if order != [] {
      var init := order[..|order| - 1];
      TallyMembers(init, m);
      assert order == init + [order[|order| - 1]];
    }
  }

  /** `Tally` over one more listed instance. */
  lemma TallyStep(order: seq<string>, m: map<string, Instance>, i: nat)
    requires i < |order| && forall k | 0 <= k < |order| :: order[k] in m
    ensures Tally(order[..i + 1], m) == Counted(Tally(order[..i], m), order[i], Judge(m[order[i]]), m[order[i]].metrics)
  {
    assert order[..i + 1][..i] == order[..i];
  }

  /** The doctor's list of unhealthy instances after noting `ids`: each id appended once, on first sight. */
  function Noted(seen: seq<string>, ids: seq<string>): seq<string>
  {
    if ids == [] then seen
    else
      var r := Noted(seen, ids[..|ids| - 1]);
      var id := ids[|ids| - 1];
      if id in r then r else r + [id]
  }

  /** Noting keeps what was seen in place, adds exactly the new ids, and never lists one twice. */
  lemma {:induction false} NotedMeaning(seen: seq<string>, ids: seq<string>)
    ensures var r := Noted(seen, ids);
      |seen| <= |r| && r[..|seen|] == seen
      && (forall x :: x in r <==> x in seen || x in ids)
      && (Distinct(seen) ==> Distinct(r))
  {
    if ids != [] {
      NotedMeaning(seen, ids[..|ids| - 1]);
      assert ids == ids[..|ids| - 1] + [ids[|ids| - 1]];
    }
  }

  /** Noting two lists one after the other is noting them joined. */
  lemma {:induction false} NotedConcat(seen: seq<string>, a: seq<string>, b: seq<string>)
    ensures Noted(Noted(seen, a), b) == Noted(seen, a + b)
  {
    if b != [] {
      NotedConcat(seen, a, b[..|b| - 1]);
      assert (a + b)[..|a + b| - 1] == a + b[..|b| - 1];
    } else {
      assert a + b == a;
    }
  }

  /** The report on the listed instances of the checked dictionary `m`, in list order. */
  method TallyChecked(order: seq<string>, m: map<string, Instance>) returns (h: ServiceHealth)
    requires forall k | 0 <= k < |order| :: order[k] in m
    ensures h == Tally(order, m)
  {
    h := ServiceHealth(|m|, 0, [], [], []);
    var i := 0;
    while i < |order|
      invariant 0 <= i <= |order| && h == Tally(order[..i], m)
    {
      var id := order[i];
      TallyStep(order, m, i);
      h := Counted(h, id, Judge(m[id]), m[id].metrics);
      i := i + 1;
    }
    assert order[..i] == order;
  }

  /**
   * The doctor's bookkeeping of one service's unhealthy instances, in the
   * order they were found: each id not yet in `seen` is appended.
   */
  method NoteAll(seen: seq<string>, ids: seq<string>) returns (r: seq<string>)
    ensures r == Noted(seen, ids)
  {
    r := seen;
    var i := 0;
    while i < |ids|
      invariant 0 <= i <= |ids| && r == Noted(seen, ids[..i])
    {
      assert ids[..i + 1][..i] == ids[..i];
      if ids[i] !in r {
        r := r + [ids[i]];
      }
      i := i + 1;
    }
    assert ids[..i] == ids;
  }

  /** After a health scan with `draws`, `s` is valid and each instance is as its check left it. */
  twostate predicate Examined(s: Service, draws: map<string, HealthDraw>, now: real)
    reads s
  {
    s.Valid() && s.instances.Keys == old(s.instances).Keys
    && forall id | id in s.instances :: s.instances[id] == CheckedBy(draws, now)(old(s.instances)[id])
  }

  /** The health checks of a service's instances, in dictionary order, with `draws`. */
  method CheckHealthOf(s: Service, draws: map<string, HealthDraw>, now: real)
    requires s.Valid()
    modifies s`instances
    ensures Examined(s, draws, now)
  {
    var m := ChangeEach(s.order, s.instances, CheckedBy(draws, now));
    SameIdentities(s.name, s.region, s.order, s.instances, m);
    s.instances := m;
  }

  /** A scan's entry per service, in dictionary order. */
  type ScanEntry = (string, ServiceHealth)

  /** Every service's listed instances are in its dictionary. */
  ghost predicate Covered(after: map<string, (seq<string>, map<string, Instance>)>)
  {
    forall n, j | n in after && 0 <= j < |after[n].0| :: after[n].0[j] in after[n].1
  }

  /** Every service lists each of its instances exactly once. */
  ghost predicate Listed(after: map<string, (seq<string>, map<string, Instance>)>)
  {
    Covered(after)
    && forall n | n in after :: Distinct(after[n].0) && forall id :: id in after[n].1 <==> id in after[n].0
  }

  /**
   * `entries` are a scan of the listed services, in order, `after` holding
   * each one's instance order and dictionary once its instances were checked.
   */
  ghost predicate ScanOf(entries: seq<ScanEntry>, names: seq<string>, after: map<string, (seq<string>, map<string, Instance>)>)
    requires Covered(after)
  {
    |entries| == |names|
    && forall k | 0 <= k < |names| :: names[k] in after && entries[k] == (names[k], Tally(after[names[k]].0, after[names[k]].1))
  }

  /** The unhealthy instances of a scan, service after service. */
  function Flagged(entries: seq<ScanEntry>): seq<string>
  {
    if entries == [] then []
    else Flagged(entries[..|entries| - 1]) + entries[|entries| - 1].1.unhealthyInstances
  }

  /** Each service's instance order and dictionary. */
  function Snapshot(services: map<string, Service>): (r: map<string, (seq<string>, map<string, Instance>)>)
    reads services.Values
    ensures r.Keys == services.Keys
  {
    map n | n in services :: (services[n].order, services[n].instances)
  }

  /** A snapshot of valid services lists each instance its dictionaries hold exactly once. */
  lemma SnapshotListed(services: map<string, Service>)
    requires forall n | n in services :: services[n].Valid()
    ensures Listed(Snapshot(services))
  {
  }

  /**
   * Each service's instances were health-checked with its own draws, and
   * `after` holds each service's instance order and checked dictionary.
   */
  twostate predicate ScannedInto(services: map<string, Service>, draws: map<string, map<string, HealthDraw>>,
                                 now: real, new after: map<string, (seq<string>, map<string, Instance>)>)
    reads services.Values
  {
    forall n | n in services ::
      n in draws && Examined(services[n], draws[n], now)
      && n in after && after[n] == (services[n].order, services[n].instances)
  }

  /**
   * `_perform_health_scan` over the services in dictionary order, with the
   * doctor's list `seen`: each service's instances are health-checked with
   * the service's own draws, the service's entry is added to the scan and its
   * unhealthy instances are noted.
   */
  method ScanAll(services: map<string, Service>, names: seq<string>, draws: map<string, map<string, HealthDraw>>,
                 now: real, seen: seq<string>)
    returns (entries: seq<ScanEntry>, seen': seq<string>, after: map<string, (seq<string>, map<string, Instance>)>)
    requires Distinct(names) && forall n :: n in services <==> n in names
    requires forall n | n in services :: services[n].Valid() && n in draws
    requires forall a, b | a in services && b in services && a != b :: services[a] != services[b]
    modifies services.Values`instances
    ensures ScannedInto(services, draws, now, after)
    ensures Listed(after) && ScanOf(entries, names, after)
    ensures seen' == Noted(seen, Flagged(entries))
  {
    CheckAll(services, names, draws, now);
    SnapshotListed(services);
    after := Snapshot(services);
    entries, seen' := Report(names, after, seen);
  }

  /** The health checks of every service, in dictionary order. */
  method CheckAll(services: map<string, Service>, names: seq<string>, draws: map<string, map<string, HealthDraw>>,
                  now: real)
    requires Distinct(names) && forall n :: n in services <==> n in names
    requires forall n | n in services :: services[n].Valid() && n in draws
    requires forall a, b | a in services && b in services && a != b :: services[a] != services[b]
    modifies services.Values`instances
    ensures forall n | n in services :: Examined(services[n], draws[n], now)
  {
    var i := 0;
    while i < |names|
      invariant 0 <= i <= |names|
      invariant forall k | 0 <= k < i :: Examined(services[names[k]], draws[names[k]], now)
      invariant forall k | i <= k < |names| :: unchanged(services[names[k]])
    {
      var n := names[i];
      assert forall k | 0 <= k < |names| && k != i :: services[names[k]] != services[n];
      CheckHealthOf(services[n], draws[n], now);
      i := i + 1;
    }
    assert forall n | n in services :: exists k :: 0 <= k < |names| && names[k] == n;
  }

  /** The scan's entries and the doctor's list, read from the checked dictionaries `after`. */
  method Report(names: seq<string>, after: map<string, (seq<string>, map<string, Instance>)>, seen: seq<string>)
    returns (entries: seq<ScanEntry>, seen': seq<string>)
    requires Covered(after) && forall k | 0 <= k < |names| :: names[k] in after
    ensures ScanOf(entries, names, after)
    ensures seen' == Noted(seen, Flagged(entries))
  {
    entries := [];
    var i := 0;
    while i < |names|
      invariant 0 <= i <= |names| && |entries| == i
      invariant forall k | 0 <= k < i :: entries[k] == (names[k], Tally(after[names[k]].0, after[names[k]].1))
    {
      var n := names[i];
      var h := TallyChecked(after[n].0, after[n].1);
      entries := entries + [(n, h)];
      i := i + 1;
    }
    seen' := NoteAll(seen, Flagged(entries));
  }

  /** A listing without repeats of a dictionary's keys is as long as the dictionary. */
  lemma OrderCoversKeys(order: seq<string>, m: map<string, Instance>)
    requires Distinct(order) && forall id :: id in m <==> id in order
    ensures |order| == |m|
  {
    DistinctCard(order);
    assert (set k | 0 <= k < |order| :: order[k]) == m.Keys;
  }

  /** Each entry's healthy count and lists add up to the service's instance count. */
  predicate Consistent(entries: seq<ScanEntry>)
  {
    forall k | 0 <= k < |entries| ::
      entries[k].1.healthyInstances + |entries[k].1.unhealthyInstances| + |entries[k].1.degradedInstances|
      == entries[k].1.totalInstances
  }

  /** A scan of services that list their instances accounts for every instance exactly once. */
  lemma ScanConsistent(entries: seq<ScanEntry>, names: seq<string>, after: map<string, (seq<string>, map<string, Instance>)>)
    requires Listed(after) && ScanOf(entries, names, after)
    ensures Consistent(entries)
  {
    forall k | 0 <= k < |entries|
      ensures entries[k].1.healthyInstances + |entries[k].1.unhealthyInstances| + |entries[k].1.degradedInstances|
        == entries[k].1.totalInstances
    {
      var n := names[k];
      TallyPartition(after[n].0, after[n].1);
      OrderCoversKeys(after[n].0, after[n].1);
    }
  }

  /** One scan (`current_scan`): its number, its time and the entry of each service. */
  datatype HealthReport = HealthReport(scanNumber: nat, timestamp: real, services: seq<ScanEntry>)

  /** The system's state in the summary: HEALTHY, DEGRADED or CRITICAL. */
  datatype OverallStatus = SystemHealthy | SystemDegraded | SystemCritical

  datatype HealthSummary = HealthSummary(
    overallAvailability: real,
    totalInstances: nat,
    healthyInstances: nat,
    unhealthyInstances: nat,
    degradedInstances: nat,
    healthStatus: OverallStatus)

  /** Above 90% availability the system is HEALTHY, above 50% DEGRADED, otherwise CRITICAL. */
  function Grade(availability: real): OverallStatus
  {
    if availability > 90.0 then SystemHealthy
    else if availability > 50.0 then SystemDegraded
    else SystemCritical
  }

  function Rank(s: OverallStatus): nat
  {
    match s
    case SystemCritical => 0
    case SystemDegraded => 1
    case SystemHealthy => 2
  }

  /** More availability never grades the system worse. */
  lemma GradeMonotone(a: real, b: real)
    requires a <= b
    ensures Rank(Grade(a)) <= Rank(Grade(b))
  {
  }

  /** The instance totals of a scan: all, healthy, unhealthy and degraded. */
  function Totals(entries: seq<ScanEntry>): (nat, nat, nat, nat)
  {
    if entries == [] then (0, 0, 0, 0)
    else
      var (t, h, u, d) := Totals(entries[..|entries| - 1]);
      var e := entries[|entries| - 1].1;
      (t + e.totalInstances, h + e.healthyInstances, u + |e.unhealthyInstances|, d + |e.degradedInstances|)
  }

  /** The totals of a consistent scan add up: every instance is healthy, unhealthy or degraded. */
  lemma {:induction false} TotalsPartition(entries: seq<ScanEntry>)
    requires Consistent(entries)
    ensures var (t, h, u, d) := Totals(entries); t == h + u + d
  {
    if entries != [] {
      assert Consistent(entries[..|entries| - 1]);
      TotalsPartition(entries[..|entries| - 1]);
    }
  }

  /**
   * `_generate_health_summary`: nothing without a scan; otherwise the totals
   * of the latest scan, the percentage of healthy instances (0 when there
   * are none) and its grade.
   */
  function Summarize(reports: seq<HealthReport>): Option<HealthSummary>
  {
    if reports == [] then None
    else
      var (t, h, u, d) := Totals(reports[|reports| - 1].services);
      var availability := if t > 0 then (h as real / t as real) * 100.0 else 0.0;
      Some(HealthSummary(availability, t, h, u, d, Grade(availability)))
  }

  /**
   * The summary exists exactly when a scan was made; after a consistent
   * scan the availability is a percentage, all instances healthy means 100%
   * and HEALTHY, and no healthy instance means CRITICAL.
   */
  lemma SummaryMeaning(reports: seq<HealthReport>)
    requires reports != [] ==> Consistent(reports[|reports| - 1].services)
    ensures Summarize(reports).None? <==> reports == []
    ensures Summarize(reports).Some? ==>
      var r := Summarize(reports).value;
      0.0 <= r.overallAvailability <= 100.0
      && r.totalInstances == r.healthyInstances + r.unhealthyInstances + r.degradedInstances
      && (r.totalInstances > 0 && r.healthyInstances == r.totalInstances
          ==> r.overallAvailability == 100.0 && r.healthStatus == SystemHealthy)
      && (r.healthyInstances == 0 ==> r.healthStatus == SystemCritical)
  {
    if reports != [] {
      var entries := reports[|reports| - 1].services;
      TotalsPartition(entries);
      var (t, h, u, d) := Totals(entries);
      if t > 0 {
        RatioFacts(h, t);
      }
    }
  }

  /** The last `n` reports, or all of them when there are fewer (`health_reports[-5:]` for `n` = 5). */
  function LastReports(reports: seq<HealthReport>, n: nat): (r: seq<HealthReport>)
    ensures |r| == MinInt(n, |reports|)
    ensures r == reports[|reports| - |r|..]
  {
    if |reports| <= n then reports else reports[|reports| - n..]
  }

  /** What `execute` leaves in `results`. */
  datatype DoctorResults = DoctorResults(
    totalScans: nat,
    uniqueUnhealthyInstances: nat,
    healthReports: seq<HealthReport>,
    summary: Option<HealthSummary>)

  /**
   * The diagnostic experiment (`DoctorMonkey`): it only health-checks
   * instances, keeps every scan's report and remembers each instance it
   * ever found unhealthy, once.
   */
  class DoctorMonkey {
    const name: string
    const durationSeconds: int
    var healthReports: seq<HealthReport>
    var unhealthyInstances: seq<string>

    constructor (name: string, durationSeconds: int)
      ensures this.name == name && this.durationSeconds == durationSeconds
      ensures healthReports == [] && unhealthyInstances == []
    {
      this.name := name;
      this.durationSeconds := durationSeconds;
      healthReports := [];
      unhealthyInstances := [];
    }

    /**
     * `_run_single_health_scan`: scans every service (its instances are
     * health-checked), appends the scan's report and notes the unhealthy
     * instances not yet listed.
     */
    method RunSingleHealthScan(services: map<string, Service>, names: seq<string>,
                               draws: map<string, map<string, HealthDraw>>, scanNumber: nat, now: real)
      returns (report: HealthReport, ghost after: map<string, (seq<string>, map<string, Instance>)>)
      requires Distinct(names) && forall n :: n in services <==> n in names
      requires forall n | n in services :: services[n].Valid() && n in draws
      requires forall a, b | a in services && b in services && a != b :: services[a] != services[b]
      modifies this`healthReports, this`unhealthyInstances, services.Values`instances
      ensures ScannedInto(services, draws, now, after) && Listed(after)
      ensures report.scanNumber == scanNumber && report.timestamp == now && ScanOf(report.services, names, after)
      ensures healthReports == old(healthReports) + [report]
      ensures unhealthyInstances == Noted(old(unhealthyInstances), Flagged(report.services))
    {
      var entries, seen;
      entries, seen, after := ScanAll(services, names, draws, now, unhealthyInstances);
      report := HealthReport(scanNumber, now, entries);
      healthReports, unhealthyInstances := healthReports + [report], seen;
    }

    /** `results` after `scanCount` scans: the count, the unique unhealthy count, the last five reports and the summary. */
    function Results(scanCount: nat): (r: DoctorResults)
      reads this
      ensures r.totalScans == scanCount && r.uniqueUnhealthyInstances == |unhealthyInstances|
      ensures |r.healthReports| == MinInt(5, |healthReports|)
      ensures r.healthReports == healthReports[|healthReports| - |r.healthReports|..]
      ensures r.summary.None? <==> healthReports == []
    {
      DoctorResults(scanCount, |unhealthyInstances|, LastReports(healthReports, 5), Summarize(healthReports))
    }
  }
}
