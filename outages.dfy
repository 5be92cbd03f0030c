/**
 * Zone and region outages (chaos/experiments.py, `ChaosGorilla` and
 * `ChaosKong`): every instance in the failing zone or region is terminated,
 * the affected services and their terminated instances are recorded, and
 * after a zone outage each terminated instance is replaced.
 */
module Outages {
  import opened Wrappers
  import opened Seqs
  import opened Services

  /** A zone outage (`ChaosGorilla`, replaced at cleanup) or a region outage (`ChaosKong`, not replaced). */
  datatype OutageScope = Zone | Region

  /** An instance after the outage: terminated when it sits in the failing region. */
  function RegionDown(i: Instance, region: string): Instance
  {
    if i.region == region then Terminate(i) else i
  }

  /** The listed ids whose instance sits in `region`, in list order. */
  function InRegion(order: seq<string>, m: map<string, Instance>, region: string): seq<string>
    requires forall k | 0 <= k < |order| :: order[k] in m
  {
    if order == [] then []
    else
      var last := order[|order| - 1];
      InRegion(order[..|order| - 1], m, region) + (if m[last].region == region then [last] else [])
  }

  /**
   * All instances of a well-formed service sit in the service's region, so
   * an outage takes either every instance of a service or none of them.
   */
  lemma WholeServiceOrNothing(name: string, serviceRegion: string, order: seq<string>,
                              m: map<string, Instance>, region: string)
    requires WellFormed(name, serviceRegion, order, m)
    ensures InRegion(order, m, region) == if serviceRegion == region then order else []
  {
    PrefixInRegion(order, m, serviceRegion, region, |order|);
    assert order[..|order|] == order;
  }

  lemma {:induction false} PrefixInRegion(order: seq<string>, m: map<string, Instance>, serviceRegion: string,
                                          region: string, i: nat)
    requires i <= |order| && forall k | 0 <= k < |order| :: order[k] in m && m[order[k]].region == serviceRegion
    ensures InRegion(order[..i], m, region) == if serviceRegion == region then order[..i] else []
  {
    if i > 0 {
      PrefixInRegion(order, m, serviceRegion, region, i - 1);
      assert order[..i][..i - 1] == order[..i - 1];
      assert order[..i] == order[..i - 1] + [order[i - 1]];
    }
  }

  /** `InRegion` over one more id of the list. */
  lemma InRegionStep(order: seq<string>, m: map<string, Instance>, region: string, i: nat)
    requires i < |order| && forall k | 0 <= k < |order| :: order[k] in m
    ensures InRegion(order[..i + 1], m, region)
      == InRegion(order[..i], m, region) + (if m[order[i]].region == region then [order[i]] else [])
  {
    assert order[..i + 1][..i] == order[..i];
  }

  /**
   * One service's part of `execute`: walks the instances in dictionary
   * order, terminating and listing those in `region`.
   */
  method TerminateInRegion(order: seq<string>, m0: map<string, Instance>, region: string)
    returns (m: map<string, Instance>, ids: seq<string>)
    requires Distinct(order) && forall id :: id in m0 <==> id in order
    ensures m.Keys == m0.Keys && forall id | id in m :: m[id] == RegionDown(m0[id], region)
    ensures ids == InRegion(order, m0, region)
  {
    m := m0;
    ids := [];
    var i := 0;
    while i < |order|
      invariant 0 <= i <= |order| && m.Keys == m0.Keys
      invariant forall k | 0 <= k < |order| :: m[order[k]] == if k < i then RegionDown(m0[order[k]], region) else m0[order[k]]
      invariant ids == InRegion(order[..i], m0, region)
    {
      var id := order[i];
      InRegionStep(order, m0, region, i);
      if m[id].region == region {
        m := m[id := Terminate(m[id])];
        ids := ids + [id];
      }
      i := i + 1;
    }
    assert order[..i] == order;
    assert forall id | id in m :: exists k :: 0 <= k < |order| && order[k] == id;
  }

  /** After an outage of `region`, `s` is valid and its dictionary is as `DownMap` leaves it. */
  twostate predicate DownedIn(s: Service, region: string)
    reads s
  {
    s.Valid() && s.instances == DownMap(old(s.instances), region)
  }

  /** A service's dictionary after an outage of `region`. */
  function DownMap(m: map<string, Instance>, region: string): (r: map<string, Instance>)
    ensures r.Keys == m.Keys
  {
    map id | id in m :: RegionDown(m[id], region)
  }

  /**
   * One service's outage: its instances in `region` are terminated and their
   * ids returned, which are all of its ids when the service is in `region`
   * and none otherwise.
   */
  method DownService(s: Service, region: string) returns (ids: seq<string>)
    requires s.Valid()
    modifies s`instances
    ensures DownedIn(s, region)
    ensures ids == if s.region == region then s.order else []
  {
    var m;
    m, ids := TerminateInRegion(s.order, s.instances, region);
    WholeServiceOrNothing(s.name, s.region, s.order, s.instances, region);
    SameIdentities(s.name, s.region, s.order, s.instances, m);
    s.instances := m;
  }

  /** Each service's region and instance ids in dictionary order. */
  function Layout(services: map<string, Service>): (r: map<string, (string, seq<string>)>)
    reads services.Values
    ensures r.Keys == services.Keys
  {
    map n | n in services :: (services[n].region, services[n].order)
  }

  /** The services an outage of `region` hits (those with an instance there), in dictionary order. */
  function Hit(names: seq<string>, layout: map<string, (string, seq<string>)>, region: string): seq<string>
    requires forall k | 0 <= k < |names| :: names[k] in layout
  {
    if names == [] then []
    else
      var rest := Hit(names[1..], layout, region);
      var n := names[0];
      if layout[n].0 == region && layout[n].1 != [] then [n] + rest else rest
  }

  /**
   * The services an outage reports are exactly the listed ones in the
   * struck region that had instances, each reported once.
   */
  lemma {:induction false} HitMeaning(names: seq<string>, layout: map<string, (string, seq<string>)>, region: string)
    requires forall k | 0 <= k < |names| :: names[k] in layout
    ensures forall n :: n in Hit(names, layout, region) <==> n in names && layout[n].0 == region && layout[n].1 != []
    ensures Distinct(names) ==> Distinct(Hit(names, layout, region))
  {
    if names != [] {
      HitMeaning(names[1..], layout, region);
      if Distinct(names) {
        assert Distinct(names[1..]);
        assert names[0] !in names[1..];
      }
    }
  }

  /** `Hit` over one more name of the list. */
  lemma HitStep(names: seq<string>, layout: map<string, (string, seq<string>)>, region: string, i: nat)
    requires i < |names| && forall k | 0 <= k < |names| :: names[k] in layout
    ensures Hit(names[..i + 1], layout, region)
      == Hit(names[..i], layout, region)
         + (if layout[names[i]].0 == region && layout[names[i]].1 != [] then [names[i]] else [])
  {
    HitAppend(names[..i], names[i], layout, region);
    assert names[..i + 1] == names[..i] + [names[i]];
  }

  lemma {:induction false} HitAppend(names: seq<string>, n: string, layout: map<string, (string, seq<string>)>,
                                     region: string)
    requires n in layout && forall k | 0 <= k < |names| :: names[k] in layout
    ensures Hit(names + [n], layout, region)
      == Hit(names, layout, region) + (if layout[n].0 == region && layout[n].1 != [] then [n] else [])
  {
    if names != [] {
      assert (names + [n])[1..] == names[1..] + [n];
      HitAppend(names[1..], n, layout, region);
    }
  }

  /** A new instance's draws: its uuid, its port and its base latency. */
  datatype Spawn = Spawn(id: string, port: int, baseResponseTime: real)

  /** The spawned ids are distinct and none is in use. */
  predicate FreshSpawns(spawns: seq<Spawn>, m: map<string, Instance>)
  {
    (forall k | 0 <= k < |spawns| :: spawns[k].id !in m)
    && forall k, l | 0 <= k < l < |spawns| :: spawns[k].id != spawns[l].id
  }

  /** The instances `add_instance` creates from the draws, keyed by id. */
  function Spawned(name: string, region: string, spawns: seq<Spawn>, now: real): (r: map<string, Instance>)
    ensures r.Keys == set k | 0 <= k < |spawns| :: spawns[k].id
  {
    if spawns == [] then map[]
    else
      var last := spawns[|spawns| - 1];
      Spawned(name, region, spawns[..|spawns| - 1], now)[last.id := NewInstance(name, last.id, last.port, region,
                                                                                last.baseResponseTime, now)]
  }

  /**
   * With fresh, distinct ids the service gains exactly one instance per
   * draw, every old instance is kept as it was, and each new one is the
   * healthy instance built from its draw.
   */
  lemma SpawnedMeaning(name: string, region: string, spawns: seq<Spawn>, now: real, m: map<string, Instance>)
    requires FreshSpawns(spawns, m)
    ensures var r := m + Spawned(name, region, spawns, now);
      |r| == |m| + |spawns|
      && (forall id | id in m :: id in r && r[id] == m[id])
      && forall k | 0 <= k < |spawns| ::
           spawns[k].id in r
           && r[spawns[k].id] == NewInstance(name, spawns[k].id, spawns[k].port, region, spawns[k].baseResponseTime, now)
  {
    SpawnedSize(name, region, spawns, now, m);
    forall k | 0 <= k < |spawns|
      ensures spawns[k].id in Spawned(name, region, spawns, now)
           && Spawned(name, region, spawns, now)[spawns[k].id]
              == NewInstance(name, spawns[k].id, spawns[k].port, region, spawns[k].baseResponseTime, now)
    {
      SpawnedAt(name, region, spawns, now, k);
    }
  }

  lemma {:induction false} SpawnedSize(name: string, region: string, spawns: seq<Spawn>, now: real, m: map<string, Instance>)
    requires FreshSpawns(spawns, m)
    ensures |m + Spawned(name, region, spawns, now)| == |m| + |spawns|
  {
    if spawns != [] {
      var init := spawns[..|spawns| - 1];
      var last := spawns[|spawns| - 1];
      assert FreshSpawns(init, m) by {
        assert forall k | 0 <= k < |init| :: init[k] == spawns[k];
      }
      SpawnedSize(name, region, init, now, m);
      LastFresh(name, region, spawns, now, m);
      UnionUpdate(m, Spawned(name, region, init, now), last.id,
                  NewInstance(name, last.id, last.port, region, last.baseResponseTime, now));
    }
  }

  lemma LastFresh(name: string, region: string, spawns: seq<Spawn>, now: real, m: map<string, Instance>)
    requires FreshSpawns(spawns, m) && spawns != []
    ensures spawns[|spawns| - 1].id !in m + Spawned(name, region, spawns[..|spawns| - 1], now)
  {
    var init := spawns[..|spawns| - 1];
    assert forall k | 0 <= k < |init| :: init[k].id != spawns[|spawns| - 1].id;
  }

  lemma UnionUpdate<K, V>(m: map<K, V>, s: map<K, V>, k: K, v: V)
    ensures m + s[k := v] == (m + s)[k := v]
  {
  }

  /** With distinct ids, the instance built from the `k`th draw is the one `Spawned` keys by its id. */
  lemma {:induction false} SpawnedAt(name: string, region: string, spawns: seq<Spawn>, now: real, k: nat)
    requires forall a, b | 0 <= a < b < |spawns| :: spawns[a].id != spawns[b].id
    requires k < |spawns|
    ensures spawns[k].id in Spawned(name, region, spawns, now)
    ensures Spawned(name, region, spawns, now)[spawns[k].id]
            == NewInstance(name, spawns[k].id, spawns[k].port, region, spawns[k].baseResponseTime, now)
  {
    var n := |spawns| - 1;
    if k < n {
      var init := spawns[..n];
      assert init[k] == spawns[k] && spawns[k].id != spawns[n].id;
      SpawnedAt(name, region, init, now, k);
    }
  }

  /** `Spawned` over one more draw. */
  lemma SpawnStep(name: string, region: string, spawns: seq<Spawn>, now: real, i: nat)
    requires i < |spawns|
    ensures Spawned(name, region, spawns[..i + 1], now)
      == Spawned(name, region, spawns[..i], now)[spawns[i].id := NewInstance(name, spawns[i].id, spawns[i].port,
                                                                             region, spawns[i].baseResponseTime, now)]
  {
    assert spawns[..i + 1][..i] == spawns[..i];
  }

  /** `s` is valid and holds, besides what it held, the instances `spawns` describes. */
  twostate predicate Respawned(s: Service, spawns: seq<Spawn>, now: real)
    reads s
  {
    s.Valid() && s.instances == old(s.instances) + Spawned(s.name, s.region, spawns, now)
  }

  /** `add_instance` once per draw: the service gains the instances `Spawned` describes. */
  method Respawn(s: Service, spawns: seq<Spawn>, now: real)
    requires s.Valid()
    modifies s`instances, s`order
    ensures Respawned(s, spawns, now)
  {
    var i := 0;
    while i < |spawns|
      invariant 0 <= i <= |spawns| && s.Valid()
      invariant s.instances == old(s.instances) + Spawned(s.name, s.region, spawns[..i], now)
    {
      SpawnStep(s.name, s.region, spawns, now, i);
      UnionUpdate(old(s.instances), Spawned(s.name, s.region, spawns[..i], now), spawns[i].id,
                  NewInstance(s.name, spawns[i].id, spawns[i].port, s.region, spawns[i].baseResponseTime, now));
      s.AddInstance(spawns[i].id, spawns[i].port, spawns[i].baseResponseTime, now);
      i := i + 1;
    }
    assert spawns[..i] == spawns;
  }

  /**
   * The loop of `execute` over the services in dictionary order: each
   * service's instances in `region` are terminated, and the services hit
   * are listed with the ids terminated in each.
   */
  method DownAll(services: map<string, Service>, names: seq<string>, region: string)
    returns (affected: seq<string>, terminated: map<string, seq<string>>)
    requires Distinct(names) && forall n :: n in services <==> n in names
    requires forall n | n in services :: services[n].Valid()
    requires forall a, b | a in services && b in services && a != b :: services[a] != services[b]
    modifies services.Values`instances
    ensures forall n | n in services :: DownedIn(services[n], region)
    ensures affected == Hit(names, old(Layout(services)), region)
    ensures terminated == map n | n in affected && n in old(Layout(services)) :: old(Layout(services))[n].1
  {
    var layout := map n | n in services :: (services[n].region, services[n].order);
    var i := 0;
    while i < |names|
      invariant 0 <= i <= |names|
      invariant forall k | 0 <= k < i :: DownedIn(services[names[k]], region)
      invariant forall k | i <= k < |names| :: unchanged(services[names[k]])
    {
      var n := names[i];
      assert forall k | 0 <= k < |names| && k != i :: services[names[k]] != services[n];
      var _ := DownService(services[n], region);
      i := i + 1;
    }
    assert forall n | n in services :: exists k :: 0 <= k < |names| && names[k] == n;
    affected, terminated := Record(names, layout, region);
  }

  /**
   * The report of an outage: the services of `names` hit by it, in order,
   * each with the ids it had when it went down.
   */
  method Record(names: seq<string>, layout: map<string, (string, seq<string>)>, region: string)
    returns (affected: seq<string>, terminated: map<string, seq<string>>)
    requires forall k | 0 <= k < |names| :: names[k] in layout
    ensures affected == Hit(names, layout, region)
    ensures terminated == map n | n in affected && n in layout :: layout[n].1
  {
    affected := [];
    terminated := map[];
    var i := 0;
    while i < |names|
      invariant 0 <= i <= |names|
      invariant affected == Hit(names[..i], layout, region)
      invariant terminated == map n | n in affected && n in layout :: layout[n].1
    {
      var n := names[i];
      HitStep(names, layout, region, i);
      if layout[n].0 == region && layout[n].1 != [] {
        TerminatedStep(affected, terminated, layout, n);
        affected := affected + [n];
        terminated := terminated[n := layout[n].1];
      }
      i := i + 1;
    }
    assert names[..i] == names;
  }

  /** The record of terminated ids over one more affected service. */
  lemma TerminatedStep(affected: seq<string>, terminated: map<string, seq<string>>,
                       layout: map<string, (string, seq<string>)>, n: string)
    requires n in layout
    requires terminated == map x | x in affected && x in layout :: layout[x].1
    ensures terminated[n := layout[n].1] == map x | x in affected + [n] && x in layout :: layout[x].1
  {
  }

  /** The loop of a zone outage's `cleanup`: each affected service gets its new instances. */
  method RespawnAll(services: map<string, Service>, affected: seq<string>, spawns: map<string, seq<Spawn>>, now: real)
    requires forall n | n in services :: services[n].Valid()
    requires forall a, b | a in services && b in services && a != b :: services[a] != services[b]
    requires Distinct(affected)
    requires forall n | n in affected :: n in services && n in spawns && FreshSpawns(spawns[n], services[n].instances)
    modifies services.Values`instances, services.Values`order
    ensures forall n | n in affected :: Respawned(services[n], spawns[n], now)
    ensures forall n | n in services && n !in affected :: unchanged(services[n])
  {
    var i := 0;
    while i < |affected|
      invariant 0 <= i <= |affected|
      invariant forall k | 0 <= k < i :: Respawned(services[affected[k]], spawns[affected[k]], now)
      invariant forall k | i <= k < |affected| :: unchanged(services[affected[k]])
      invariant forall n | n in services && n !in affected :: unchanged(services[n])
    {
      var n := affected[i];
      assert forall k | 0 <= k < |affected| && k != i :: affected[k] != n;
      Respawn(services[n], spawns[n], now);
      i := i + 1;
    }
    assert forall n | n in affected :: exists k :: 0 <= k < |affected| && affected[k] == n;
  }

  class RegionFailure {
    const scope: OutageScope
    const target: string
    var affectedServices: seq<string>
    var terminatedInstances: map<string, seq<string>>

    constructor (scope: OutageScope, target: string)
      ensures this.scope == scope && this.target == target
      ensures affectedServices == [] && terminatedInstances == map[]
    {
      this.scope := scope;
      this.target := target;
      affectedServices := [];
      terminatedInstances := map[];
    }

    /**
     * The outage of `execute`, over the services in dictionary order
     * (`names`): every instance in the target zone or region is terminated;
     * a service is listed as affected, with its terminated ids, exactly when
     * it had an instance there, and then those ids are all of its instances.
     */
    method Execute(services: map<string, Service>, names: seq<string>)
      requires Distinct(names) && forall n :: n in services <==> n in names
      requires forall n | n in services :: services[n].Valid()
      requires forall a, b | a in services && b in services && a != b :: services[a] != services[b]
      requires affectedServices == [] && terminatedInstances == map[]
      modifies this`affectedServices, this`terminatedInstances, services.Values`instances
      ensures forall n | n in services :: DownedIn(services[n], target)
      ensures affectedServices == Hit(names, old(Layout(services)), target)
      ensures terminatedInstances == map n | n in affectedServices && n in old(Layout(services)) :: old(Layout(services))[n].1
    {
      affectedServices, terminatedInstances := DownAll(services, names, target);
    }

    /**
     * `cleanup`: after a zone outage each affected service gets one new
     * instance per terminated one (`spawns` holds each service's draws);
     * after a region outage nothing is done.
     */
    method Cleanup(services: map<string, Service>, spawns: map<string, seq<Spawn>>, now: real)
      requires forall n | n in services :: services[n].Valid()
      requires forall a, b | a in services && b in services && a != b :: services[a] != services[b]
      requires Distinct(affectedServices)
      requires scope == Zone ==>
        forall n | n in affectedServices ::
          n in services && n in spawns
          && |spawns[n]| == (if n in terminatedInstances then |terminatedInstances[n]| else 0)
          && FreshSpawns(spawns[n], services[n].instances)
      modifies services.Values`instances, services.Values`order
      ensures forall n | n in services :: services[n].Valid()
      ensures forall n | n in services ::
        services[n].instances == old(services[n].instances)
          + if scope == Zone && n in affectedServices
            then Spawned(services[n].name, services[n].region, spawns[n], now) else map[]
    {
      if scope == Region {
        return;
      }
      RespawnAll(services, affectedServices, spawns, now);
    }
  }
}
