/** What a device's record shows after a run of readings (internal/state/engine.go, IngestReading):
    the latest measurements, the lifetime extremes, the activity and the energy warnings. */
module EntryTheory {
  import opened Common
  import opened Energy
  import opened Model
  import opened IdentityIndex
  import opened Entry
  import Device
  import Theory = DeviceTheory

  datatype Arrival = Arrival(at: int, reading: Reading)

  // ------------------------------------------------------------ measurements

  datatype Quantity = Power | Consumption | Temperature | Humidity

  function Carried(q: Quantity, r: Reading): Option<real> {
    match q
    case Power => r.powerW
    case Consumption => r.energyKWh
    case Temperature => r.temperatureC
    case Humidity => r.humidityPct
  }

  function Shown(q: Quantity, m: Measures): Option<real> {
    match q
    case Power => m.powerW
    case Consumption => m.energyKWh
    case Temperature => m.temperatureC
    case Humidity => m.humidityPct
  }

  predicate Carries(q: Quantity, hs: seq<Arrival>, k: nat) { k < |hs| && Carried(q, hs[k].reading).Some? }

  ghost predicate IsLast(q: Quantity, hs: seq<Arrival>, k: nat) {
    Carries(q, hs, k) && forall j: nat :: k < j ==> !Carries(q, hs, j)
  }

  /** The value the last reading to carry one carried; without one, what was. */
  ghost predicate IsLatest(q: Quantity, hs: seq<Arrival>, was: Option<real>, now: Option<real>) {
    if exists k: nat :: Carries(q, hs, k) then exists k: nat :: IsLast(q, hs, k) && now == Carried(q, hs[k].reading)
    else now == was
  }

  function Measured(m: Measures, hs: seq<Arrival>): Measures {
    if hs == [] then m
    else Measure(Measured(m, hs[..|hs| - 1]), hs[|hs| - 1].at, hs[|hs| - 1].reading)
  }

  lemma LatestOn(q: Quantity, hs: seq<Arrival>, h: Arrival, was: Option<real>, now: Option<real>)
    requires IsLatest(q, hs, was, now)
    ensures IsLatest(q, hs + [h], was, if Carried(q, h.reading).Some? then Carried(q, h.reading) else now)
  {
    var all := hs + [h];
    assert forall k: nat :: k < |hs| ==> Carries(q, all, k) == Carries(q, hs, k);
    if Carried(q, h.reading).Some? {
      assert IsLast(q, all, |hs|);
    } else if exists k: nat :: Carries(q, hs, k) {
      var k: nat :| IsLast(q, hs, k) && now == Carried(q, hs[k].reading);
      assert IsLast(q, all, k);
    }
  }

  /** Each measurement shown is the last one carried, and lastSeen the last reading's time. */
  lemma {:induction false} MeasuredMeans(m: Measures, hs: seq<Arrival>, q: Quantity)
    ensures IsLatest(q, hs, Shown(q, m), Shown(q, Measured(m, hs)))
    ensures Measured(m, hs).lastSeen == if hs == [] then m.lastSeen else hs[|hs| - 1].at
  {
    if hs != [] {
      var n := |hs| - 1;
      MeasuredMeans(m, hs[..n], q);
      LatestOn(q, hs[..n], hs[n], Shown(q, m), Shown(q, Measured(m, hs[..n])));
      assert hs[..n] + [hs[n]] == hs;
    }
  }

  // ------------------------------------------------------------ lifetime extremes

  datatype Extreme = Extreme(q: Quantity, highest: bool)

  /** The five that are kept. */
  predicate IsKept(x: Extreme) {
    x == Extreme(Power, true) || x.q == Temperature || x.q == Humidity
  }

  function PeakIn(p: Peaks, x: Extreme): Option<Peak>
    requires IsKept(x)
  {
    match x
    case Extreme(Power, _) => p.maxPower
    case Extreme(Temperature, highest) => if highest then p.maxTemperature else p.minTemperature
    case Extreme(Humidity, highest) => if highest then p.maxHumidity else p.minHumidity
  }

  predicate Exceeds(highest: bool, v: real, w: real) { if highest then v > w else v < w }

  /** Reading k carried it, nothing exceeded it and nothing reached it before. */
  ghost predicate AttainedAt(x: Extreme, hs: seq<Arrival>, k: nat, peak: Peak) {
    && Carries(x.q, hs, k) && Carried(x.q, hs[k].reading) == Some(peak.value) && hs[k].at == peak.at
    && (forall j: nat :: Carries(x.q, hs, j) ==> !Exceeds(x.highest, Carried(x.q, hs[j].reading).value, peak.value))
    && forall j: nat :: j < k && Carries(x.q, hs, j) ==> Carried(x.q, hs[j].reading).value != peak.value
  }

  ghost predicate IsPeak(x: Extreme, hs: seq<Arrival>, p: Option<Peak>) {
    match p
    case None => forall k: nat :: !Carries(x.q, hs, k)
    case Some(peak) =>
      exists k: nat :: AttainedAt(x, hs, k, peak)
  }

  function Peaked(p: Peaks, hs: seq<Arrival>): Peaks {
    if hs == [] then p
    else ObservePeaks(Peaked(p, hs[..|hs| - 1]), hs[|hs| - 1].at, hs[|hs| - 1].reading)
  }

  const NO_PEAKS := Peaks(None, None, None, None, None)

  function PeakAfter(x: Extreme, p: Option<Peak>, h: Arrival): Option<Peak> {
    var v := Carried(x.q, h.reading);
    if v.None? then p
    else if p.None? || Exceeds(x.highest, v.value, p.value.value) then Some(Peak(v.value, h.at)) else p
  }

  lemma PeakOn(x: Extreme, hs: seq<Arrival>, h: Arrival, p: Option<Peak>)
    requires IsPeak(x, hs, p)
    ensures IsPeak(x, hs + [h], PeakAfter(x, p, h))
  {
    var all, q := hs + [h], PeakAfter(x, p, h);
    assert forall k: nat :: k < |hs| ==> Carries(x.q, all, k) == Carries(x.q, hs, k) && all[k] == hs[k];
    if p.None? {
      if q.Some? {
        assert AttainedAt(x, all, |hs|, q.value);
      }
    } else {
      var k: nat :| AttainedAt(x, hs, k, p.value);
      assert AttainedAt(x, all, if q == p then k else |hs|, q.value);
    }
  }

  lemma ObservesPeak(p: Peaks, at: int, r: Reading, x: Extreme)
    requires IsKept(x)
    ensures PeakIn(ObservePeaks(p, at, r), x) == PeakAfter(x, PeakIn(p, x), Arrival(at, r))
  {
  }

  /** Each lifetime extreme is the most extreme value ever carried, credited to the first reading
      that carried it. */
  lemma {:induction false} PeakedMeans(hs: seq<Arrival>, x: Extreme)
    requires IsKept(x)
    ensures IsPeak(x, hs, PeakIn(Peaked(NO_PEAKS, hs), x))
  {
    if hs != [] {
      var n := |hs| - 1;
      PeakedMeans(hs[..n], x);
      ObservesPeak(Peaked(NO_PEAKS, hs[..n]), hs[n].at, hs[n].reading, x);
      PeakOn(x, hs[..n], hs[n], PeakIn(Peaked(NO_PEAKS, hs[..n]), x));
      assert hs[..n] + [hs[n]] == hs;
    }
  }

  /** A reading that leaves the lifetime block alone carries no extreme. */
  lemma UntrackedKeepsPeaks(p: Peaks, at: int, r: Reading)
    requires !TracksExtremes(r)
    ensures ObservePeaks(p, at, r) == p
  {
  }

  // ------------------------------------------------------------ activity

  /** While the record shows what the machine was doing, or nothing yet, it follows the machine and
      is dated anew exactly when what it shows changes. */
  lemma ActivityFollows(a: PublicActivity, prev: Activity, next: Activity, at: int)
    requires (a.state == prev || a.state == Unknown) && (next == Unknown ==> prev == Unknown)
    ensures var b := ActivityAfter(a, prev, next, at);
            b.state == next && (if next == a.state then b == a else b.since == at && b.lastChanged == at)
  {
  }

  // ------------------------------------------------------------ energy warnings

  function Larger(x: real, y: real): real { if x >= y then x else y }

  function Gap(x: real, y: real): real { if x >= y then x - y else y - x }

  /** Counter and integration differ by at least warnPct percent of the larger. */
  predicate IsDivergent(s: Device.State, warnPct: real)
    requires s.cycle.Some?
  {
    var e := s.cycle.value.energy;
    s.strategy == CounterFirst && e.reported > 0.0
    && 100.0 * Gap(e.reported, e.integrated) >= warnPct * Larger(e.reported, e.integrated)
  }

  /** The counter stood still although energy was measured, or for half a minute. */
  predicate IsStuck(s: Device.State)
    requires s.cycle.Some?
  {
    var c := s.cycle.value;
    s.strategy == CounterFirst && c.energy.reported == 0.0 && (c.energy.integrated >= 0.001 || c.durationSeconds >= 30)
  }

  lemma PercentMeans(x: real, y: real)
    requires x > 0.0 && y >= 0.0
    ensures DivergencePct(x, y) * Larger(x, y) == 100.0 * Gap(x, y)
    ensures 0.0 <= DivergencePct(x, y) <= 100.0
  {
    var larger, gap := Larger(x, y), Gap(x, y);
    assert Abs(x) == x && Abs(y) == y && Abs(x - y) == gap;
    assert gap / larger * larger == gap;
    PercentBounded(DivergencePct(x, y), larger, gap);
  }

  lemma PercentBounded(pct: real, larger: real, gap: real)
    requires larger > 0.0 && 0.0 <= gap <= larger && pct * larger == 100.0 * gap
    ensures 0.0 <= pct <= 100.0
  {
    assert pct * larger <= 100.0 * larger;
    assert pct > 100.0 ==> (pct - 100.0) * larger > 0.0;
    assert pct < 0.0 ==> (0.0 - pct) * larger > 0.0;
  }

  lemma PercentReaches(pct: real, larger: real, gap: real, warnPct: real)
    requires larger > 0.0 && pct * larger == 100.0 * gap
    ensures pct >= warnPct <==> 100.0 * gap >= warnPct * larger
  {
    if pct < warnPct {
      assert pct * larger < warnPct * larger;
    }
    if pct > warnPct {
      assert pct * larger > warnPct * larger;
    }
  }

  /** Exactly a divergent cycle is marked divergent, with the percentage, and exactly one whose
      counter stood still is marked so; nothing else changes. */
  lemma WarningsMean(s: Device.State, warnPct: real)
    requires s.cycle.Some? && s.cycle.value.energy.reported >= 0.0 && s.cycle.value.energy.integrated >= 0.0
    ensures var t := Flagged(s, warnPct);
            var was := s.cycle.value.energy;
            && t.cycle.Some? && t == s.(cycle := t.cycle)
            && t.cycle.value == s.cycle.value.(energy := t.cycle.value.energy)
            && var now := t.cycle.value.energy;
               && (now.divergenceWarning <==> was.divergenceWarning || IsDivergent(s, warnPct))
               && (now.staleCounter <==> was.staleCounter || IsStuck(s))
               && now == was.(divergenceWarning := now.divergenceWarning, staleCounter := now.staleCounter,
                              divergencePct := now.divergencePct)
               && (if IsDivergent(s, warnPct)
                   then now.divergencePct * Larger(was.reported, was.integrated)
                        == 100.0 * Gap(was.reported, was.integrated)
                   else now.divergencePct == was.divergencePct)
  {
    var e := s.cycle.value.energy;
    if e.reported > 0.0 {
      PercentMeans(e.reported, e.integrated);
      PercentReaches(DivergencePct(e.reported, e.integrated), Larger(e.reported, e.integrated),
                     Gap(e.reported, e.integrated), warnPct);
    }
  }

  /** A reading that finishes no cycle flags nothing. */
  lemma OnlyFinishedIsFlagged(conf: Device.Conf, s: Device.State, at: int, r: Reading, warnPct: real)
    ensures var (t, o) := Observe(conf, s, at, r);
            Ingested(conf, s, at, r, warnPct) == if o.finished then Flagged(t, warnPct) else t
  {
    FinishHasCycle(conf, if r.energyKWh.Some? then Device.SeedCounter(s, r.energyKWh.value) else s, at, r);
  }

  lemma FinishHasCycle(conf: Device.Conf, s: Device.State, at: int, r: Reading)
    ensures Device.OnReading(conf, s, at, r).1.cycle.None? ==>
              !Device.OnReading(conf, s, at, r).1.finished || Device.OnReading(conf, s, at, r).0.cycle.None?
  {
  }

  // ------------------------------------------------------------ description

  predicate IsFilled(now: string, d: string, was: string) { now == if d == "" then was else d }

  /** A new description replaces what it says and keeps what it leaves empty; the id stays. */
  lemma DescriptionMeans(was: About, d: About)
    ensures var now := Overlay(was, d);
            && now.id == was.id && now.unclassified == d.unclassified
            && now.cls == (if d.cls == OtherClass("") then was.cls else d.cls)
            && IsFilled(now.placement.displayName, d.placement.displayName, was.placement.displayName)
            && IsFilled(now.placement.room, d.placement.room, was.placement.room)
            && IsFilled(now.placement.floor, d.placement.floor, was.placement.floor)
            && IsFilled(now.placement.covers, d.placement.covers, was.placement.covers)
            && IsFilled(now.placement.location, d.placement.location, was.placement.location)
            && IsFilled(now.identity.scheme, d.identity.scheme, was.identity.scheme)
            && IsFilled(now.identity.primary, d.identity.primary, was.identity.primary)
            && IsFilled(now.identity.display, d.identity.display, was.identity.display)
  {
  }

  // ------------------------------------------------------------ whole runs of readings

  /** Some history brings a machine with this configuration here, so that every theorem about all
      histories speaks of it. */
  ghost predicate IsReached(conf: Device.Conf, s: Device.State) {
    exists strategy, es :: s == Device.Run(conf, strategy, es)
  }

  lemma EventReaches(conf: Device.Conf, s: Device.State, e: Device.Event)
    requires IsReached(conf, s)
    ensures IsReached(conf, Device.Apply(conf, s, e).0)
  {
    var strategy, es :| s == Device.Run(conf, strategy, es);
    assert (es + [e])[..|es|] == es;
    assert Device.Apply(conf, s, e).0 == Device.Run(conf, strategy, es + [e]);
  }

  lemma FlagsReach(conf: Device.Conf, s: Device.State, warnPct: real)
    requires IsReached(conf, s)
    ensures IsReached(conf, Flagged(s, warnPct))
  {
    if s.cycle.Some? {
      var e := s.cycle.value.energy;
      EventReaches(conf, s, Device.MarkDivergence(DivergencePct(e.reported, e.integrated)));
      EventReaches(conf, s, Device.MarkStaleCounter);
    }
  }

  /** What a reading does to the machine is a run of the machine's own events. */
  lemma IngestReaches(conf: Device.Conf, s: Device.State, at: int, r: Reading, warnPct: real)
    requires IsReached(conf, s)
    ensures IsReached(conf, Ingested(conf, s, at, r, warnPct))
  {
    var seeded := s;
    if r.energyKWh.Some? {
      EventReaches(conf, s, Device.Seed(r.energyKWh.value));
      seeded := Device.SeedCounter(s, r.energyKWh.value);
    }
    EventReaches(conf, seeded, Device.Observe(at, r));
    FlagsReach(conf, Observe(conf, s, at, r).0, warnPct);
  }

  /** A run of readings on one entry: the record shows what all of them together determine, its
      activity is the machine's, and the machine is one the run theorems speak of. */
  method Feed(e: DeviceEntry, hs: seq<Arrival>, warnPct: real)
    requires e.Valid() && IsReached(e.runtime.TheConf(), e.runtime.View())
    requires e.device.activity.state == e.runtime.activity || e.device.activity.state == Unknown
    modifies e, e.runtime, e.runtime.integrator, e.runtime.counter, e.runtime.cycle
    ensures e.Valid() && e.runtime == old(e.runtime) && IsReached(e.runtime.TheConf(), e.runtime.View())
    ensures e.runtime.cycle == old(e.runtime.cycle) || fresh(e.runtime.cycle)
    ensures MeasuresOf(e.device.latest) == Measured(old(MeasuresOf(e.device.latest)), hs)
    ensures PeaksOf(e.device.lifetime) == Peaked(old(PeaksOf(e.device.lifetime)), hs)
    ensures if hs == []
            then e.device.activity == old(e.device.activity) && e.runtime.activity == old(e.runtime.activity)
            else e.device.activity.state == e.runtime.activity && e.device.availability.Online?
    ensures e.device.about == old(e.device.about)
    ensures hs == [] ==> e.device == old(e.device)
    decreases |hs|
  {
    if hs != [] {
      var n := |hs| - 1;
      Feed(e, hs[..n], warnPct);
      FeedOne(e, hs[n], warnPct);
    }
  }

  /** From a device just discovered, under nothing but its description, the readings alone decide
      what the record shows. */
  method FeedNew(e: DeviceEntry, hs: seq<Arrival>, id: string, i: Identity, prof: Profile, maxGap: int, warnPct: real)
    requires e.Valid() && e.device == Described(id, i, prof) && IsNewFor(e.runtime, prof, maxGap)
    modifies e, e.runtime, e.runtime.integrator, e.runtime.counter, e.runtime.cycle
    ensures e.Valid() && IsReached(e.runtime.TheConf(), e.runtime.View())
    ensures forall q :: IsLatest(q, hs, None, Shown(q, MeasuresOf(e.device.latest)))
    ensures forall x :: IsKept(x) ==> IsPeak(x, hs, PeakIn(PeaksOf(e.device.lifetime), x))
    ensures e.device.activity.state == e.runtime.activity
    ensures hs == [] ==>
              e.device.availability == NotSeen && e.device.activity.state == Unknown && e.device.cycle == null
    ensures hs != [] ==> e.device.availability == Online && e.device.latest.lastSeen == hs[|hs| - 1].at
    ensures e.device.about == About(id, prof.cls, prof.placement, i, prof.unclassified)
  {
    BeginsReached(e.runtime.TheConf(), prof.strategy);
    ghost var none := MeasuresOf(e.device.latest);
    Feed(e, hs, warnPct);
    forall q ensures IsLatest(q, hs, None, Shown(q, Measured(none, hs))) {
      MeasuredMeans(none, hs, q);
    }
    forall x | IsKept(x) ensures IsPeak(x, hs, PeakIn(Peaked(NO_PEAKS, hs), x)) {
      PeakedMeans(hs, x);
    }
    MeasuredMeans(none, hs, Power);
  }

  lemma BeginsReached(conf: Device.Conf, strategy: Strategy)
    ensures IsReached(conf, Device.Init(strategy))
  {
    assert Device.Run(conf, strategy, []) == Device.Init(strategy);
  }

  method FeedOne(e: DeviceEntry, h: Arrival, warnPct: real)
    requires e.Valid() && IsReached(e.runtime.TheConf(), e.runtime.View())
    requires e.device.activity.state == e.runtime.activity || e.device.activity.state == Unknown
    modifies e, e.runtime, e.runtime.integrator, e.runtime.counter, e.runtime.cycle
    ensures e.Valid() && e.runtime == old(e.runtime) && IsReached(e.runtime.TheConf(), e.runtime.View())
    ensures e.runtime.cycle == old(e.runtime.cycle) || fresh(e.runtime.cycle)
    ensures MeasuresOf(e.device.latest) == Measure(old(MeasuresOf(e.device.latest)), h.at, h.reading)
    ensures PeaksOf(e.device.lifetime) == ObservePeaks(old(PeaksOf(e.device.lifetime)), h.at, h.reading)
    ensures e.device.activity.state == e.runtime.activity && e.device.availability.Online?
    ensures e.device.about == old(e.device.about)
  {
    assert e.runtime.Valid();
    IngestReaches(e.runtime.TheConf(), e.runtime.View(), h.at, h.reading, warnPct);
    IngestMoves(e.runtime.TheConf(), e.runtime.View(), h.at, h.reading, warnPct);
    if !TracksExtremes(h.reading) {
      UntrackedKeepsPeaks(PeaksOf(e.device.lifetime), h.at, h.reading);
    }
    var out := e.Ingest(h.at, h.reading, warnPct);
  }

  /** A reading's report leaves from the machine's activity and arrives at it, never at unknown from
      anything else. */
  lemma IngestMoves(conf: Device.Conf, s: Device.State, at: int, r: Reading, warnPct: real)
    requires Theory.Ok(conf, s)
    ensures var o := Observe(conf, s, at, r).1;
            && o.prev == s.activity && o.next == Ingested(conf, s, at, r, warnPct).activity
            && (o.next == Unknown ==> o.prev == Unknown)
  {
    var seeded := if r.energyKWh.Some? then Device.SeedCounter(s, r.energyKWh.value) else s;
    assert Theory.Ok(conf, seeded);
    Theory.StepLifecycle(conf, seeded, Device.Observe(at, r));
  }
}
