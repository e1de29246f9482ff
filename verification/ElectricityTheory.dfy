/** What the whole-house aggregate makes of each device (internal/state/electricity.go and
    internal/device/profiles.go), in seconds and watts. */
module ElectricityTheory {
  import opened Common
  import opened Model
  import opened Order
  import opened Electricity

  // ------------------------------------------------------------ what each device is

  /** A device with a power that the configuration or its scheme says is a meter. */
  predicate SuppliesGross(d: Device) { d.powerW.Some? && (d.cls == EnergyMeter || d.scheme == "meter") }

  /** A plug, or a UPS with its load. */
  predicate DrawsPower(d: Device) {
    && d.powerW.Some? && d.scheme != "meter"
    && (d.cls == ShortBurst || d.cls == CyclePower || d.cls == Continuous || d.cls == Media || d.cls == UPSSensor)
  }

  /** Seconds after which a silent device no longer counts. */
  function Patience(c: Class, overrides: map<Class, int>): int {
    if c in overrides then overrides[c] else if c == UPSSensor then 3600 else 900
  }

  /** Offline, never seen, or silent for longer than its patience. */
  predicate IsStale(d: Device, now: int, overrides: map<Class, int>) {
    d.availability == Offline || d.lastSeen == 0 || now - d.lastSeen > Patience(d.cls, overrides) * 1_000_000_000
  }

  lemma PlugsDraw(ds: map<string, Device>, now: int, overrides: map<Class, int>, k: string)
    requires k in ds
    ensures k in Meters(ds) <==> SuppliesGross(ds[k])
    ensures k in Plugs(ds) <==> DrawsPower(ds[k])
    ensures k in FreshPlugs(ds, now, overrides) <==> DrawsPower(ds[k]) && !IsStale(ds[k], now, overrides)
  {
  }

  /** The stale list names exactly the plugs that are offline, never seen or silent too long. */
  lemma StaleMeans(now: int, ds: map<string, Device>, overrides: map<Class, int>, a: Aggregate, k: string)
    requires IsAggregate(now, ds, overrides, a)
    ensures k in a.staleIDs <==> k in ds && DrawsPower(ds[k]) && IsStale(ds[k], now, overrides)
  {
    if k in ds {
      PlugsDraw(ds, now, overrides, k);
    }
  }

  /** Gross is the power of the meter whose id comes first, byte by byte. */
  lemma GrossMeans(now: int, ds: map<string, Device>, overrides: map<Class, int>, a: Aggregate)
    requires IsAggregate(now, ds, overrides, a)
    ensures a.grossSeen <==> exists k :: k in ds && SuppliesGross(ds[k])
    ensures a.grossSeen ==>
              exists m :: m in ds && SuppliesGross(ds[m]) && a.grossW == ds[m].powerW.value
                          && forall k :: k in ds && SuppliesGross(ds[k]) ==> k == m || ComesFirst(m, k)
  {
    forall k | k in ds ensures k in Meters(ds) <==> SuppliesGross(ds[k]) {
      PlugsDraw(ds, now, overrides, k);
    }
    if Meters(ds) != {} {
      var m :| Least(m, Meters(ds)) && a.grossW == Draw(ds[m]);
      forall k | k in ds && SuppliesGross(ds[k]) ensures k == m || ComesFirst(m, k) {
        assert k in Meters(ds);
        if k != m {
          BelowComesFirst(m, k);
        }
      }
    }
  }

  // ------------------------------------------------------------ what each device contributes

  function WithPower(ds: map<string, Device>, k: string, watts: real): map<string, Device>
    requires k in ds
  {
    ds[k := ds[k].(powerW := Some(watts))]
  }

  /** The sum looks at the summed devices only. */
  lemma {:induction false} SumSees(ds: map<string, Device>, es: map<string, Device>, ks: set<string>)
    requires ks <= ds.Keys && ks <= es.Keys && forall k :: k in ks ==> ds[k] == es[k]
    ensures Sum(ds, ks) == Sum(es, ks)
  {
    if ks != {} {
      var k :| k in ks && Sum(ds, ks) == Draw(ds[k]) + Sum(ds, ks - {k});
      SumSees(ds, es, ks - {k});
      SumTakes(es, ks, k);
    }
  }

  lemma SumMoves(ds: map<string, Device>, ks: set<string>, k: string, watts: real)
    requires ks <= ds.Keys && k in ds && ds[k].powerW.Some?
    ensures Sum(WithPower(ds, k, watts), ks) == Sum(ds, ks) + if k in ks then watts - ds[k].powerW.value else 0.0
  {
    var es := WithPower(ds, k, watts);
    if k in ks {
      SumTakes(ds, ks, k);
      SumTakes(es, ks, k);
      SumSees(ds, es, ks - {k});
    } else {
      SumSees(ds, es, ks);
    }
  }

  lemma SameGroups(ds: map<string, Device>, now: int, overrides: map<Class, int>, k: string, watts: real)
    requires k in ds && ds[k].powerW.Some?
    ensures var es := WithPower(ds, k, watts);
            && Meters(es) == Meters(ds) && Plugs(es) == Plugs(ds)
            && FreshPlugs(es, now, overrides) == FreshPlugs(ds, now, overrides)
  {
  }

  lemma SameGross(ds: map<string, Device>, k: string, watts: real, now: int, overrides: map<Class, int>,
                  a: Aggregate, b: Aggregate)
    requires k in ds && ds[k].powerW.Some? && !SuppliesGross(ds[k])
    requires IsAggregate(now, ds, overrides, a) && IsAggregate(now, WithPower(ds, k, watts), overrides, b)
    ensures b.grossSeen == a.grossSeen && b.grossW == a.grossW
  {
    var es := WithPower(ds, k, watts);
    SameGroups(ds, now, overrides, k, watts);
    if Meters(ds) != {} {
      var m :| Least(m, Meters(ds)) && a.grossW == Draw(ds[m]);
      var n :| Least(n, Meters(es)) && b.grossW == Draw(es[n]);
      LeastIsUnique(m, n, Meters(ds));
      PlugsDraw(ds, now, overrides, m);
    }
  }

  /** A plug that counts adds its power to the monitored figure, watt for watt, and takes it from
      the unmonitored one; any other device's power but the meter's moves nothing. */
  lemma PowerCounts(now: int, ds: map<string, Device>, overrides: map<Class, int>, a: Aggregate,
                    k: string, watts: real, b: Aggregate)
    requires k in ds && ds[k].powerW.Some? && !SuppliesGross(ds[k])
    requires IsAggregate(now, ds, overrides, a) && IsAggregate(now, WithPower(ds, k, watts), overrides, b)
    ensures var counts := DrawsPower(ds[k]) && !IsStale(ds[k], now, overrides);
            var more := if counts then watts - ds[k].powerW.value else 0.0;
            && b.monitoredW == a.monitoredW + more
            && b.unmonitoredW == (if a.grossSeen then a.unmonitoredW - more else 0.0)
            && b.grossSeen == a.grossSeen && b.grossW == a.grossW && b.staleIDs == a.staleIDs
  {
    var es := WithPower(ds, k, watts);
    SameGroups(ds, now, overrides, k, watts);
    SameGross(ds, k, watts, now, overrides, a, b);
    PlugsDraw(ds, now, overrides, k);
    SumMoves(ds, FreshPlugs(ds, now, overrides), k, watts);
    AscendingIsUnique(a.staleIDs, b.staleIDs);
  }

  /** A house without a plug that counts has nothing monitored. */
  lemma NothingMonitored(now: int, ds: map<string, Device>, overrides: map<Class, int>, a: Aggregate)
    requires IsAggregate(now, ds, overrides, a)
    requires forall k :: k in ds ==> !DrawsPower(ds[k]) || IsStale(ds[k], now, overrides)
    ensures a.monitoredW == 0.0
  {
    forall k | k in ds ensures k !in FreshPlugs(ds, now, overrides) {
      PlugsDraw(ds, now, overrides, k);
    }
    assert FreshPlugs(ds, now, overrides) == {};
  }
}
