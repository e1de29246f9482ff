/** internal/state/electricity.go: the whole-house aggregate of one device map. The source walks
    the map in whatever order Go yields; the result does not depend on it. */
module Electricity {
  import opened Common
  import opened Model
  import opened Order

  const METER_SCHEME := "meter"

  /** What the aggregator looks at. */
  datatype Device = Device(id: string, cls: Class, scheme: string, availability: Availability, powerW: Option<real>,
                           lastSeen: int)

  predicate IsMeter(d: Device) { d.powerW.Some? && (d.cls.EnergyMeter? || d.scheme == METER_SCHEME) }

  predicate IsPowerMonitored(c: Class) { c.ShortBurst? || c.CyclePower? || c.Continuous? || c.Media? || c.UPSSensor? }

  function StalenessSeconds(c: Class, override: Option<int>): int {
    match override
    case Some(s) => s
    case None => if c.ShortBurst? || c.CyclePower? || c.Continuous? || c.Media? then 900 else 3600
  }

  predicate IsFresh(d: Device, now: int, overrides: map<Class, int>) {
    && !d.availability.Offline? && d.lastSeen != 0
    && var override := if d.cls in overrides then Some(overrides[d.cls]) else None;
       now - d.lastSeen <= NS_PER_SECOND * StalenessSeconds(d.cls, override)
  }

  datatype Aggregate = Aggregate(grossW: real, monitoredW: real, unmonitoredW: real, grossSeen: bool,
                                 staleIDs: seq<string>)

  // ------------------------------------------------------------ what the aggregate means

  /** Devices are filed under their own, non-empty ids. */
  ghost predicate Keyed(ds: map<string, Device>) { forall k :: k in ds ==> k != "" && ds[k].id == k }

  ghost function Meters(ds: map<string, Device>): set<string> { set k | k in ds && IsMeter(ds[k]) }

  ghost function Plugs(ds: map<string, Device>): set<string> {
    set k | k in ds && !IsMeter(ds[k]) && IsPowerMonitored(ds[k].cls) && ds[k].powerW.Some?
  }

  ghost function FreshPlugs(ds: map<string, Device>, now: int, overrides: map<Class, int>): set<string> {
    set k | k in Plugs(ds) && IsFresh(ds[k], now, overrides)
  }

  ghost predicate Least(m: string, ks: set<string>) { m in ks && forall k :: k in ks ==> k == m || Below(m, k) }

  ghost function Draw(d: Device): real { if d.powerW.Some? then d.powerW.value else 0.0 }

  ghost function Sum(ds: map<string, Device>, ks: set<string>): real
    requires ks <= ds.Keys
  {
    if ks == {} then 0.0 else var k :| k in ks; Draw(ds[k]) + Sum(ds, ks - {k})
  }

  /** Gross is the least-id meter's power, monitored the sum over the fresh plugs, and the stale
      ids are the other plugs, sorted. */
  ghost predicate IsAggregate(now: int, ds: map<string, Device>, overrides: map<Class, int>, a: Aggregate) {
    && (if Meters(ds) == {} then !a.grossSeen && a.grossW == 0.0 && a.unmonitoredW == 0.0
        else
          && a.grossSeen && a.unmonitoredW == a.grossW - a.monitoredW
          && exists m :: Least(m, Meters(ds)) && a.grossW == Draw(ds[m]))
    && a.monitoredW == Sum(ds, FreshPlugs(ds, now, overrides))
    && Ascending(a.staleIDs) && forall k :: k in a.staleIDs <==> k in Plugs(ds) - FreshPlugs(ds, now, overrides)
  }

  lemma LeastIsUnique(m: string, n: string, ks: set<string>)
    requires Least(m, ks) && Least(n, ks)
    ensures m == n
  {
    if m != n {
      BelowIsStrict(m, n);
    }
  }

  /** The description fixes the aggregate: every iteration order yields the same one. */
  lemma {:induction false} AggregateIsUnique(now: int, ds: map<string, Device>, overrides: map<Class, int>,
                                             a: Aggregate, b: Aggregate)
    requires IsAggregate(now, ds, overrides, a) && IsAggregate(now, ds, overrides, b)
    ensures a == b
  {
    AscendingIsUnique(a.staleIDs, b.staleIDs);
    if Meters(ds) != {} {
      var m :| Least(m, Meters(ds)) && a.grossW == Draw(ds[m]);
      var n :| Least(n, Meters(ds)) && b.grossW == Draw(ds[n]);
      LeastIsUnique(m, n, Meters(ds));
    }
  }

  /** The sum does not depend on which summand is taken out first. */
  lemma {:induction false} SumTakes(ds: map<string, Device>, ks: set<string>, k: string)
    requires ks <= ds.Keys && k in ks
    ensures Sum(ds, ks) == Draw(ds[k]) + Sum(ds, ks - {k})
    decreases |ks|
  {
    var j :| j in ks && Sum(ds, ks) == Draw(ds[j]) + Sum(ds, ks - {j});
    if j != k {
      SumTakes(ds, ks - {j}, k);
      SumTakes(ds, ks - {k}, j);
      assert ks - {j} - {k} == ks - {k} - {j};
    }
  }

  // ------------------------------------------------------------ the loop

  /** What the accumulators hold once the devices in `done` have been visited. */
  ghost predicate Gathered(ds: map<string, Device>, done: set<string>, now: int, overrides: map<Class, int>,
                           meterID: string, agg: Aggregate) {
    && (meterID == "" <==> Meters(ds) * done == {}) && (agg.grossSeen <==> meterID != "")
    && (if meterID == "" then agg.grossW == 0.0
        else Least(meterID, Meters(ds) * done) && agg.grossW == Draw(ds[meterID]))
    && agg.unmonitoredW == 0.0
    && agg.monitoredW == Sum(ds, FreshPlugs(ds, now, overrides) * done)
    && forall k :: multiset(agg.staleIDs)[k]
                   == if k in (Plugs(ds) - FreshPlugs(ds, now, overrides)) * done then 1 else 0
  }

  lemma LeastOfMore(m: string, ks: set<string>, k: string)
    requires ks != {} ==> Least(m, ks)
    ensures Least(if ks == {} || Below(k, m) then k else m, ks + {k})
  {
    if ks != {} {
      BelowIsTotal(k, m);
      if Below(k, m) {
        forall j | j in ks ensures j == k || Below(k, j) {
          if j != m {
            BelowIsTransitive(k, m, j);
          }
        }
      }
    }
  }

  /** What visiting device k does to the three groups. */
  lemma Visited(ds: map<string, Device>, done: set<string>, now: int, overrides: map<Class, int>, k: string)
    requires Keyed(ds) && k in ds && k !in done
    ensures Meters(ds) * (done + {k}) == Meters(ds) * done + if IsMeter(ds[k]) then {k} else {}
    ensures FreshPlugs(ds, now, overrides) * (done + {k})
            == FreshPlugs(ds, now, overrides) * done + if k in FreshPlugs(ds, now, overrides) then {k} else {}
    ensures Sum(ds, FreshPlugs(ds, now, overrides) * (done + {k}))
            == Sum(ds, FreshPlugs(ds, now, overrides) * done)
               + if k in FreshPlugs(ds, now, overrides) then Draw(ds[k]) else 0.0
  {
    var before, after := FreshPlugs(ds, now, overrides) * done, FreshPlugs(ds, now, overrides) * (done + {k});
    if k in FreshPlugs(ds, now, overrides) {
      assert after - {k} == before;
      SumTakes(ds, after, k);
    } else {
      assert after == before;
    }
  }

  lemma MeterVisited(ds: map<string, Device>, done: set<string>, now: int, overrides: map<Class, int>,
                     meterID: string, agg: Aggregate, k: string)
    requires Keyed(ds) && k in ds && k !in done && IsMeter(ds[k]) && Gathered(ds, done, now, overrides, meterID, agg)
    ensures if meterID == "" || Below(k, meterID)
            then Gathered(ds, done + {k}, now, overrides, k, agg.(grossW := Draw(ds[k]), grossSeen := true))
            else Gathered(ds, done + {k}, now, overrides, meterID, agg)
  {
    Visited(ds, done, now, overrides, k);
    LeastOfMore(meterID, Meters(ds) * done, k);
  }

  lemma OtherVisited(ds: map<string, Device>, done: set<string>, now: int, overrides: map<Class, int>,
                     meterID: string, agg: Aggregate, k: string)
    requires Keyed(ds) && k in ds && k !in done && !IsMeter(ds[k]) && Gathered(ds, done, now, overrides, meterID, agg)
    ensures Gathered(ds, done + {k}, now, overrides, meterID,
                     if k !in Plugs(ds) then agg
                     else if k in FreshPlugs(ds, now, overrides) then agg.(monitoredW := agg.monitoredW + Draw(ds[k]))
                     else agg.(staleIDs := agg.staleIDs + [k]))
  {
    Visited(ds, done, now, overrides, k);
  }

  lemma AllVisited(ds: map<string, Device>, now: int, overrides: map<Class, int>, meterID: string, agg: Aggregate)
    requires Keyed(ds) && Gathered(ds, ds.Keys, now, overrides, meterID, agg)
    ensures IsAggregate(now, ds, overrides,
                        agg.(unmonitoredW := if agg.grossSeen then agg.grossW - agg.monitoredW else 0.0,
                             staleIDs := Sort(agg.staleIDs)))
  {
    assert FreshPlugs(ds, now, overrides) * ds.Keys == FreshPlugs(ds, now, overrides);
    assert Meters(ds) * ds.Keys == Meters(ds);
    var sorted := Sort(agg.staleIDs);
    SortIsSorted(agg.staleIDs);
    SortedAscends(sorted);
    forall k ensures k in sorted <==> k in Plugs(ds) - FreshPlugs(ds, now, overrides) {
      assert k in sorted <==> multiset(sorted)[k] > 0;
    }
  }

  method AggregateElectricity(now: int, ds: map<string, Device>, overrides: map<Class, int>) returns (agg: Aggregate)
    requires Keyed(ds)
    ensures IsAggregate(now, ds, overrides, agg)
  {
    agg := Aggregate(0.0, 0.0, 0.0, false, []);
    var meterID, todo := "", ds.Keys;
    while todo != {}
      invariant todo <= ds.Keys && Gathered(ds, ds.Keys - todo, now, overrides, meterID, agg)
      decreases todo
    {
      var k :| k in todo;
      var d := ds[k];
      ghost var done := ds.Keys - todo;
      todo := todo - {k};
      assert ds.Keys - todo == done + {k};
      if IsMeter(d) {
        MeterVisited(ds, done, now, overrides, meterID, agg, k);
        if meterID == "" || Below(d.id, meterID) {
          meterID := d.id;
          agg := agg.(grossW := d.powerW.value, grossSeen := true);
        }
        continue;
      }
      OtherVisited(ds, done, now, overrides, meterID, agg, k);
      if !IsPowerMonitored(d.cls) || d.powerW.None? {
        continue;
      }
      if !IsFresh(d, now, overrides) {
        agg := agg.(staleIDs := agg.staleIDs + [d.id]);
        continue;
      }
      agg := agg.(monitoredW := agg.monitoredW + d.powerW.value);
    }
    assert ds.Keys - todo == ds.Keys;
    AllVisited(ds, now, overrides, meterID, agg);
    if agg.grossSeen {
      agg := agg.(unmonitoredW := agg.grossW - agg.monitoredW);
    }
    agg := agg.(staleIDs := Sort(agg.staleIDs));
  }
}
