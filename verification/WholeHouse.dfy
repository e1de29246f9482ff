/** internal/state/engine_electricity.go: whole-house electricity. The critical section first, then
    the ingests and house recomputes that run around it, step by step, in any interleaving. */
module WholeHouse {
  import opened Common
  import opened Energy
  import opened Electricity
  import opened Model

  /** Meter period totals, as far as known. */
  datatype Totals = Totals(today: Option<real>, week: Option<real>, month: Option<real>)

  /** One applied recompute: when, on what aggregate, and what a triggering meter reading carried. */
  datatype Applied = Applied(at: int, agg: Aggregate, byMeter: bool, carried: Totals)

  datatype Session = Session(grossKWh: real, monitoredKWh: real, unmonitoredKWh: real)

  datatype Summary = Summary(grossW: real, monitoredW: real, unmonitoredW: real, coverage: real, stale: seq<string>,
                             totals: Totals, session: Session, computedAt: int)

  // ------------------------------------------------------------ what a history of recomputes means

  function GrossOf(log: seq<Applied>): (s: seq<Sample>)
    ensures |s| == |log|
  {
    seq(|log|, i requires 0 <= i < |log| => Sample(log[i].at, log[i].agg.grossW))
  }

  function MonitoredOf(log: seq<Applied>): (s: seq<Sample>)
    ensures |s| == |log|
  {
    seq(|log|, i requires 0 <= i < |log| => Sample(log[i].at, log[i].agg.monitoredW))
  }

  function UnmonitoredOf(log: seq<Applied>): (s: seq<Sample>)
    ensures |s| == |log|
  {
    seq(|log|, i requires 0 <= i < |log| => Sample(log[i].at, log[i].agg.unmonitoredW))
  }

  function Latest(x: Option<real>, was: Option<real>): Option<real> { if x.Some? then x else was }

  /** The last value any meter reading carried, each period for itself. */
  function TotalsOf(log: seq<Applied>): Totals {
    if log == [] then Totals(None, None, None)
    else
      Carry(TotalsOf(log[..|log| - 1]), log[|log| - 1].byMeter, log[|log| - 1].carried)
  }

  function SummaryOf(gap: int, log: seq<Applied>): Summary
    requires log != []
  {
    var last := log[|log| - 1];
    Summary(last.agg.grossW, last.agg.monitoredW, last.agg.unmonitoredW,
            if last.agg.grossW != 0.0 then last.agg.monitoredW / last.agg.grossW else 0.0,
            last.agg.staleIDs, TotalsOf(log),
            Session(KWh(gap, GrossOf(log)), KWh(gap, MonitoredOf(log)), KWh(gap, UnmonitoredOf(log))), last.at)
  }

  predicate IsNewer(log: seq<Applied>, now: int) { log == [] || now > log[|log| - 1].at }

  /** A recompute that can follow: at a real instant, on a balanced aggregate. */
  predicate IsSound(e: Applied) {
    e.at != 0 && e.agg.grossSeen && e.agg.grossW == e.agg.monitoredW + e.agg.unmonitoredW
  }

  /** Recomputes were applied in strictly rising time order, each on a balanced aggregate. */
  ghost predicate Rising(log: seq<Applied>) {
    log == [] || (Rising(log[..|log| - 1]) && IsSound(log[|log| - 1]) && IsNewer(log[..|log| - 1], log[|log| - 1].at))
  }

  lemma Appended(log: seq<Applied>, e: Applied)
    ensures GrossOf(log + [e]) == GrossOf(log) + [Sample(e.at, e.agg.grossW)]
    ensures MonitoredOf(log + [e]) == MonitoredOf(log) + [Sample(e.at, e.agg.monitoredW)]
    ensures UnmonitoredOf(log + [e]) == UnmonitoredOf(log) + [Sample(e.at, e.agg.unmonitoredW)]
    ensures (log + [e])[..|log|] == log
  {
  }

  /** What a meter reading carried replaces what was known, period by period. */
  function Carry(was: Totals, byMeter: bool, carried: Totals): Totals {
    if byMeter
    then Totals(Latest(carried.today, was.today), Latest(carried.week, was.week), Latest(carried.month, was.month))
    else was
  }

  // ------------------------------------------------------------ the critical section

  class Ledger {
    const gap: int
    const gross: Integrator
    const monitored: Integrator
    const unmonitored: Integrator
    var lastElecAt: int
    var totals: Totals
    ghost var log: seq<Applied>

    ghost predicate Valid()
      reads this, gross, monitored, unmonitored
    {
      && gross != monitored && gross != unmonitored && monitored != unmonitored
      && gross.Valid() && gross.maxGap == gap && gross.samples == GrossOf(log)
      && monitored.Valid() && monitored.maxGap == gap && monitored.samples == MonitoredOf(log)
      && unmonitored.Valid() && unmonitored.maxGap == gap && unmonitored.samples == UnmonitoredOf(log)
      && lastElecAt == (if log == [] then 0 else log[|log| - 1].at)
      && totals == TotalsOf(log) && Rising(log)
    }

    constructor (gap: int)
      ensures Valid() && log == [] && this.gap == gap && fresh(gross) && fresh(monitored) && fresh(unmonitored)
    {
      this.gap := gap;
      gross := new Integrator(gap);
      monitored := new Integrator(gap);
      unmonitored := new Integrator(gap);
      lastElecAt, totals, log := 0, Totals(None, None, None), [];
    }

    /** The three integrators move in lockstep. */
    method Advance(now: int, agg: Aggregate)
      requires gross.Valid() && monitored.Valid() && unmonitored.Valid()
      requires gross != monitored && gross != unmonitored && monitored != unmonitored
      modifies gross, monitored, unmonitored
      ensures gross.Valid() && gross.samples == old(gross.samples) + [Sample(now, agg.grossW)]
      ensures monitored.Valid() && monitored.samples == old(monitored.samples) + [Sample(now, agg.monitoredW)]
      ensures unmonitored.Valid() && unmonitored.samples == old(unmonitored.samples) + [Sample(now, agg.unmonitoredW)]
    {
      gross.Update(now, agg.grossW);
      monitored.Update(now, agg.monitoredW);
      unmonitored.Update(now, agg.unmonitoredW);
    }

    method TakeTotals(byMeter: bool, carried: Totals)
      modifies this`totals
      ensures totals == Carry(old(totals), byMeter, carried)
    {
      if byMeter {
        if carried.today.Some? {
          totals := totals.(today := carried.today);
        }
        if carried.week.Some? {
          totals := totals.(week := carried.week);
        }
        if carried.month.Some? {
          totals := totals.(month := carried.month);
        }
      }
    }

    method Summarise(now: int, agg: Aggregate) returns (s: Summary)
      requires Valid() && log != [] && log[|log| - 1].at == now && log[|log| - 1].agg == agg
      ensures s == SummaryOf(gap, log)
    {
      s := Summary(agg.grossW, agg.monitoredW, agg.unmonitoredW, 0.0, agg.staleIDs, totals,
                   Session(gross.total, monitored.total, unmonitored.total), now);
      if agg.grossW != 0.0 {
        s := s.(coverage := agg.monitoredW / agg.grossW);
      }
    }

    /** Between taking and releasing elecMu: the summary to store, unless the reading is too old. */
    method Apply(now: int, agg: Aggregate, byMeter: bool, carried: Totals) returns (summary: Option<Summary>)
      requires Valid() && now != 0 && agg.grossSeen && agg.grossW == agg.monitoredW + agg.unmonitoredW
      modifies this, gross, monitored, unmonitored
      ensures Valid()
      ensures log == if IsNewer(old(log), now) then old(log) + [Applied(now, agg, byMeter, carried)] else old(log)
      ensures summary == if IsNewer(old(log), now) then Some(SummaryOf(gap, log)) else None
    {
      if lastElecAt != 0 && !(now > lastElecAt) {
        return None;
      }
      lastElecAt := now;
      Advance(now, agg);
      TakeTotals(byMeter, carried);
      Appended(log, Applied(now, agg, byMeter, carried));
      log := log + [Applied(now, agg, byMeter, carried)];
      var s := Summarise(now, agg);
      summary := Some(s);
    }

    /** recomputeElectricity on a copy of the device map; without a meter nothing happens. */
    method Recompute(now: int, devices: map<string, Device>, overrides: map<Class, int>, byMeter: bool, carried: Totals)
      returns (summary: Option<Summary>, ghost agg: Aggregate)
      requires Valid() && now != 0 && Keyed(devices)
      modifies this, gross, monitored, unmonitored
      ensures Valid() && IsAggregate(now, devices, overrides, agg)
      ensures var applies := Meters(devices) != {} && IsNewer(old(log), now);
              && log == (if applies then old(log) + [Applied(now, agg, byMeter, carried)] else old(log))
              && summary == if applies then Some(SummaryOf(gap, log)) else None
    {
      var a := AggregateElectricity(now, devices, overrides);
      agg := a;
      if !a.grossSeen {
        return None, agg;
      }
      summary := Apply(now, a, byMeter, carried);
    }
  }

  // ------------------------------------------------------------ what every such history guarantees

  lemma {:induction false} RisingMeans(log: seq<Applied>)
    requires Rising(log)
    ensures forall i :: 0 <= i < |log| ==> IsSound(log[i])
    ensures forall i, j :: 0 <= i < j < |log| ==> log[i].at < log[j].at
  {
    if log != [] {
      var was := log[..|log| - 1];
      RisingMeans(was);
      forall i | 0 <= i < |was| ensures IsSound(log[i]) && log[i].at < log[|log| - 1].at {
        assert was[i] == log[i];
      }
    }
  }

  /** Gross splits into monitored and unmonitored, in power and in accumulated energy. */
  lemma {:induction false} SummaryBalances(gap: int, log: seq<Applied>)
    requires log != [] && Rising(log)
    ensures var s := SummaryOf(gap, log);
            && s.grossW == s.monitoredW + s.unmonitoredW
            && s.session.grossKWh == s.session.monitoredKWh + s.session.unmonitoredKWh
  {
    RisingMeans(log);
    KWhAdds(gap, GrossOf(log), MonitoredOf(log), UnmonitoredOf(log));
  }

  /** No energy twice: with the gross power within p, the session total is at most p times the
      time from the first applied recompute to the last, whatever order readings arrived in. */
  lemma {:induction false} SessionIsBounded(gap: int, log: seq<Applied>, p: real)
    requires log != [] && Rising(log) && Within(GrossOf(log), p)
    ensures var most := Steady(p, log[|log| - 1].at - log[0].at);
            -most <= SummaryOf(gap, log).session.grossKWh <= most
  {
    RisingMeans(log);
    assert Ordered(GrossOf(log));
    KWhBounded(gap, GrossOf(log), p);
  }

  // ------------------------------------------------------------ what a summary shows

  lemma OnePairMore(gap: int, s: seq<Sample>, x: Sample)
    requires s != []
    ensures KWh(gap, s + [x]) == KWh(gap, s) + KWh(gap, [s[|s| - 1], x])
  {
    var t := s + [x];
    KWhSplits(gap, t, |s| - 1);
    assert t[..|s|] == s && t[|s| - 1..] == [s[|s| - 1], x];
  }

  /** The energy between two successive recomputes on one of the three lines. */
  function Between(gap: int, from: int, w0: real, to: int, w1: real): real {
    KWh(gap, [Sample(from, w0), Sample(to, w1)])
  }

  /** A summary shows the recompute it came from, coverage as monitored over gross, and session
      energies that each grew by what lies between the last two recomputes. */
  lemma SummaryMeans(gap: int, log: seq<Applied>, e: Applied)
    ensures var s := SummaryOf(gap, log + [e]);
            && s.grossW == e.agg.grossW && s.monitoredW == e.agg.monitoredW && s.unmonitoredW == e.agg.unmonitoredW
            && s.stale == e.agg.staleIDs && s.computedAt == e.at
            && (if e.agg.grossW == 0.0 then s.coverage == 0.0 else s.coverage * e.agg.grossW == e.agg.monitoredW)
    ensures var now := SummaryOf(gap, log + [e]).session;
            if log == [] then now == Session(0.0, 0.0, 0.0)
            else
              var was, p := SummaryOf(gap, log).session, log[|log| - 1];
              && now.grossKWh == was.grossKWh + Between(gap, p.at, p.agg.grossW, e.at, e.agg.grossW)
              && now.monitoredKWh == was.monitoredKWh + Between(gap, p.at, p.agg.monitoredW, e.at, e.agg.monitoredW)
              && now.unmonitoredKWh == was.unmonitoredKWh
                                       + Between(gap, p.at, p.agg.unmonitoredW, e.at, e.agg.unmonitoredW)
  {
    Appended(log, e);
    if log != [] {
      OnePairMore(gap, GrossOf(log), Sample(e.at, e.agg.grossW));
      OnePairMore(gap, MonitoredOf(log), Sample(e.at, e.agg.monitoredW));
      OnePairMore(gap, UnmonitoredOf(log), Sample(e.at, e.agg.unmonitoredW));
    }
  }

  datatype Period = Today | Week | Month

  function Over(p: Period, t: Totals): Option<real> {
    match p
    case Today => t.today
    case Week => t.week
    case Month => t.month
  }

  /** Recompute k was driven by a meter reading that carried the period's total. */
  predicate Tells(log: seq<Applied>, p: Period, k: nat) {
    k < |log| && log[k].byMeter && Over(p, log[k].carried).Some?
  }

  ghost predicate TellsLast(log: seq<Applied>, p: Period, k: nat) {
    Tells(log, p, k) && forall j: nat :: k < j ==> !Tells(log, p, j)
  }

  /** Each period total is the one last carried by a meter reading, if any was. */
  lemma {:induction false} TotalsMean(log: seq<Applied>, p: Period)
    ensures if exists k: nat :: Tells(log, p, k)
            then exists k: nat :: TellsLast(log, p, k) && Over(p, TotalsOf(log)) == Over(p, log[k].carried)
            else Over(p, TotalsOf(log)) == None
  {
    if log != [] {
      var n := |log| - 1;
      TotalsMean(log[..n], p);
      assert forall k: nat :: k < n ==> Tells(log, p, k) == Tells(log[..n], p, k);
      if Tells(log, p, n) {
        assert TellsLast(log, p, n);
      } else if exists k: nat :: Tells(log[..n], p, k) {
        var k: nat :| TellsLast(log[..n], p, k) && Over(p, TotalsOf(log[..n])) == Over(p, log[..n][k].carried);
        assert TellsLast(log, p, k);
      }
    }
  }

  // ------------------------------------------------------------ which recomputes are applied

  /** What successive calls of Apply leave in the log. */
  function AppliedOf(es: seq<Applied>): seq<Applied> {
    if es == [] then []
    else
      var was, e := AppliedOf(es[..|es| - 1]), es[|es| - 1];
      if IsNewer(was, e.at) then was + [e] else was
  }

  /** The entries later than all before them. */
  function Records(es: seq<Applied>): seq<Applied> {
    if es == [] then []
    else
      var n := |es| - 1;
      Records(es[..n]) + if forall j :: 0 <= j < n ==> es[j].at < es[n].at then [es[n]] else []
  }

  lemma {:induction false} NewerThanAll(es: seq<Applied>, at: int)
    ensures IsNewer(AppliedOf(es), at) <==> forall j :: 0 <= j < |es| ==> es[j].at < at
  {
    if es != [] {
      var n := |es| - 1;
      NewerThanAll(es[..n], at);
      NewerThanAll(es[..n], es[n].at);
      assert forall j :: 0 <= j < n ==> es[..n][j] == es[j];
    }
  }

  /** Exactly the recomputes later than every earlier one are applied, in their order. */
  lemma {:induction false} RecordsAreApplied(es: seq<Applied>)
    ensures AppliedOf(es) == Records(es)
  {
    if es != [] {
      var n := |es| - 1;
      RecordsAreApplied(es[..n]);
      NewerThanAll(es[..n], es[n].at);
      assert forall j :: 0 <= j < n ==> es[..n][j] == es[j];
    }
  }
}
