/** One stored device (internal/state/store.go deviceEntry) and what the engine does to it under
    the store lock (internal/state/engine.go). Returned device records share pointers with the
    store, so the records' pointees are modelled as objects. */
module Entry {
  import opened Common
  import opened Energy
  import opened Model
  import opened IdentityIndex
  import opened DeviceRuntime
  import Device

  // ------------------------------------------------------------ shared pointees

  class Cell {
    var v: real

    constructor (v: real)
      ensures this.v == v
    {
      this.v := v;
    }
  }

  /** Never written after it is made: a new extreme is a new object. */
  class Extremum {
    const value: real
    const at: int

    constructor (value: real, at: int)
      ensures this.value == value && this.at == at
    {
      this.value, this.at := value, at;
    }
  }

  datatype Peak = Peak(value: real, at: int)

  ghost function PeakOf(e: Extremum?): Option<Peak>
  {
    if e == null then None else Some(Peak(e.value, e.at))
  }

  function MaxPeak(p: Option<Peak>, v: real, t: int): Option<Peak> {
    if p.None? || v > p.value.value then Some(Peak(v, t)) else p
  }

  function MinPeak(p: Option<Peak>, v: real, t: int): Option<Peak> {
    if p.None? || v < p.value.value then Some(Peak(v, t)) else p
  }

  method ObserveMax(e: Extremum?, v: real, t: int) returns (r: Extremum?)
    ensures r == e || fresh(r)
    ensures PeakOf(r) == MaxPeak(PeakOf(e), v, t)
  {
    r := e;
    if e == null || v > e.value {
      r := new Extremum(v, t);
    }
  }

  method ObserveMin(e: Extremum?, v: real, t: int) returns (r: Extremum?)
    ensures r == e || fresh(r)
    ensures PeakOf(r) == MinPeak(PeakOf(e), v, t)
  {
    r := e;
    if e == null || v < e.value {
      r := new Extremum(v, t);
    }
  }

  /** The extreme of a whole history of observations, folded one by one. */
  function MaxSeen(s: seq<Sample>): Option<Peak> {
    if s == [] then None else MaxPeak(MaxSeen(s[..|s| - 1]), s[|s| - 1].watts, s[|s| - 1].at)
  }

  /** The ratchet ends at the largest observation, credited to its first occurrence. */
  lemma {:induction false} MaxSeenIsFirstMaximum(s: seq<Sample>) returns (k: nat)
    requires s != []
    ensures k < |s| && MaxSeen(s) == Some(Peak(s[k].watts, s[k].at))
    ensures forall i :: 0 <= i < |s| ==> s[i].watts <= s[k].watts
    ensures forall i :: 0 <= i < k ==> s[i].watts < s[k].watts
  {
    var t := s[..|s| - 1];
    if t == [] {
      k := 0;
    } else {
      k := MaxSeenIsFirstMaximum(t);
      if s[|s| - 1].watts > t[k].watts {
        k := |s| - 1;
      }
    }
  }

  class Lifetime {
    var maxPower: Extremum?
    var minTemperature: Extremum?
    var maxTemperature: Extremum?
    var minHumidity: Extremum?
    var maxHumidity: Extremum?

    constructor (maxPower: Extremum?, minTemperature: Extremum?, maxTemperature: Extremum?, minHumidity: Extremum?,
                 maxHumidity: Extremum?)
      ensures this.maxPower == maxPower && this.minTemperature == minTemperature
              && this.maxTemperature == maxTemperature
      ensures this.minHumidity == minHumidity && this.maxHumidity == maxHumidity
    {
      this.maxPower, this.minTemperature, this.maxTemperature := maxPower, minTemperature, maxTemperature;
      this.minHumidity, this.maxHumidity := minHumidity, maxHumidity;
    }
  }

  datatype Peaks = Peaks(maxPower: Option<Peak>, minTemperature: Option<Peak>, maxTemperature: Option<Peak>,
                         minHumidity: Option<Peak>, maxHumidity: Option<Peak>)

  ghost function PeaksOf(l: Lifetime?): Peaks
    reads l
  {
    if l == null then Peaks(None, None, None, None, None)
    else Peaks(PeakOf(l.maxPower), PeakOf(l.minTemperature), PeakOf(l.maxTemperature), PeakOf(l.minHumidity),
               PeakOf(l.maxHumidity))
  }

  predicate TracksExtremes(r: Reading) { r.powerW.Some? || r.temperatureC.Some? || r.humidityPct.Some? }

  function ObservePeaks(p: Peaks, at: int, r: Reading): Peaks {
    Peaks(
      if r.powerW.Some? then MaxPeak(p.maxPower, r.powerW.value, at) else p.maxPower,
      if r.temperatureC.Some? then MinPeak(p.minTemperature, r.temperatureC.value, at) else p.minTemperature,
      if r.temperatureC.Some? then MaxPeak(p.maxTemperature, r.temperatureC.value, at) else p.maxTemperature,
      if r.humidityPct.Some? then MinPeak(p.minHumidity, r.humidityPct.value, at) else p.minHumidity,
      if r.humidityPct.Some? then MaxPeak(p.maxHumidity, r.humidityPct.value, at) else p.maxHumidity)
  }

  /** Copy-on-write: a fresh block holding the new extremes, the old one left as it is. */
  method Observed(l: Lifetime?, at: int, r: Reading) returns (lt: Lifetime)
    ensures fresh(lt) && PeaksOf(lt) == ObservePeaks(old(PeaksOf(l)), at, r)
  {
    var maxP, minT, maxT, minH, maxH: Extremum? := null, null, null, null, null;
    if l != null {
      maxP, minT, maxT, minH, maxH := l.maxPower, l.minTemperature, l.maxTemperature, l.minHumidity, l.maxHumidity;
    }
    if r.powerW.Some? {
      maxP := ObserveMax(maxP, r.powerW.value, at);
    }
    if r.temperatureC.Some? {
      minT := ObserveMin(minT, r.temperatureC.value, at);
      maxT := ObserveMax(maxT, r.temperatureC.value, at);
    }
    if r.humidityPct.Some? {
      minH := ObserveMin(minH, r.humidityPct.value, at);
      maxH := ObserveMax(maxH, r.humidityPct.value, at);
    }
    lt := new Lifetime(maxP, minT, maxT, minH, maxH);
  }

  datatype Latest = Latest(powerW: Cell?, energyKWh: Cell?, temperatureC: Cell?, humidityPct: Cell?, lastSeen: int)

  ghost function CellOf(c: Cell?): Option<real>
    reads c
  {
    if c == null then None else Some(c.v)
  }

  /** A carried value gets a cell of its own; the cell shown before is not written. */
  method Renewed(c: Cell?, x: Option<real>) returns (n: Cell?)
    ensures if x.Some? then fresh(n) && n != null && n.v == x.value else n == c
  {
    n := c;
    if x.Some? {
      n := new Cell(x.value);
    }
  }

  datatype Measures = Measures(powerW: Option<real>, energyKWh: Option<real>, temperatureC: Option<real>,
                               humidityPct: Option<real>, lastSeen: int)

  ghost function MeasuresOf(l: Latest): Measures
    reads l.powerW, l.energyKWh, l.temperatureC, l.humidityPct
  {
    Measures(CellOf(l.powerW), CellOf(l.energyKWh), CellOf(l.temperatureC), CellOf(l.humidityPct), l.lastSeen)
  }

  /** The latest measurements after a reading: what it carries, and what it does not as it was. */
  function Measure(m: Measures, at: int, r: Reading): Measures {
    Measures(if r.powerW.Some? then r.powerW else m.powerW, if r.energyKWh.Some? then r.energyKWh else m.energyKWh,
             if r.temperatureC.Some? then r.temperatureC else m.temperatureC,
             if r.humidityPct.Some? then r.humidityPct else m.humidityPct, at)
  }

  datatype PublicActivity = PublicActivity(state: Activity, since: int, lastChanged: int)

  /** What the resolver says about a device and the record carries along. */
  datatype Placement = Placement(displayName: string, room: string, floor: string, covers: string, location: string)

  function MergePlacement(a: Placement, b: Placement): Placement {
    Placement(Prefer(b.displayName, a.displayName), Prefer(b.room, a.room), Prefer(b.floor, a.floor),
              Prefer(b.covers, a.covers), Prefer(b.location, a.location))
  }

  /** The resolver's answer for an identity. */
  datatype Profile = Profile(cls: Class, placement: Placement, thresholds: Thresholds, strategy: Strategy,
                             unclassified: bool)

  const NO_ACTIVITY := PublicActivity(Unknown, 0, 0)

  const NOTHING_SEEN := Latest(null, null, null, null, 0)

  /** What a device is, as opposed to what was observed of it. */
  datatype About = About(id: string, cls: Class, placement: Placement, identity: Identity, unclassified: bool)

  datatype DeviceRecord = DeviceRecord(
    about: About,
    availability: Availability,
    activity: PublicActivity,
    latest: Latest,
    lifetime: Lifetime?,
    cycle: CycleRecord?)

  /** The record a discovery describes, before anything was observed. */
  function Described(id: string, i: Identity, prof: Profile): DeviceRecord {
    DeviceRecord(About(id, prof.cls, prof.placement, i, prof.unclassified), NotSeen, NO_ACTIVITY, NOTHING_SEEN, null,
                 null)
  }

  /** A stored record under a new description: absent fields overwrite nothing. */
  function Overlay(was: About, d: About): About {
    was.(cls := if d.cls == OtherClass("") then was.cls else d.cls,
         placement := MergePlacement(was.placement, d.placement),
         identity := Merge(was.identity, d.identity),
         unclassified := d.unclassified)
  }

  /** The record's cycle is a copy, which no runtime updates. */
  ghost predicate IsShown(d: DeviceRecord) { d.cycle == null || d.cycle.keeper == null }

  // ------------------------------------------------------------ availability

  datatype Link = Link(availability: Availability, offlineAt: Option<int>)

  function ReportOnline(l: Link): Link {
    if l.availability.Online? then l else Link(Online, None)
  }

  function ReportOffline(l: Link, now: int, debounce: int): Link {
    if debounce > 0 then
      if l.offlineAt.None? then Link(OfflinePending, Some(now))
      else if now - l.offlineAt.value >= debounce then l.(availability := Offline)
      else l
    else l.(availability := Offline)
  }

  function Mature(l: Link, now: int, debounce: int): Link {
    if l.offlineAt.Some? && l.availability.OfflinePending? && now - l.offlineAt.value >= debounce
    then l.(availability := Offline) else l
  }

  // ------------------------------------------------------------ energy warnings

  const STALE_MIN_KWH: real := 0.001
  const STALE_MIN_SECONDS := 30

  function Abs(x: real): real { if x < 0.0 then -x else x }

  function DivergencePct(counter: real, integrated: real): real {
    var a, b := Abs(counter), Abs(integrated);
    var denom := if a >= b then a else b;
    if denom == 0.0 then 0.0 else Abs(a - b) / denom * 100.0
  }

  predicate Diverges(strategy: Strategy, e: CycleEnergy, warnPct: real) {
    e.reported > 0.0 && strategy.CounterFirst? && DivergencePct(e.reported, e.integrated) >= warnPct
  }

  predicate CounterIsStale(strategy: Strategy, c: Cycle) {
    && strategy.CounterFirst? && c.energy.reported == 0.0
    && (c.energy.integrated >= STALE_MIN_KWH || c.durationSeconds >= STALE_MIN_SECONDS)
  }

  /** Warnings for a cycle that just finished, flagged on the runtime's own record. */
  function Flagged(s: Device.State, warnPct: real): Device.State {
    if s.cycle.None? then s
    else
      var e := s.cycle.value.energy;
      if Diverges(s.strategy, e, warnPct)
      then Device.Mark(s, Device.MarkDivergence(DivergencePct(e.reported, e.integrated)))
      else if CounterIsStale(s.strategy, s.cycle.value) then Device.Mark(s, Device.MarkStaleCounter)
      else s
  }

  /** The runtime's side of one ingest: seed, observe, then flag a cycle that finished badly. */
  function Observe(conf: Device.Conf, s: Device.State, at: int, r: Reading): (Device.State, Device.Outcome) {
    Device.OnReading(conf, if r.energyKWh.Some? then Device.SeedCounter(s, r.energyKWh.value) else s, at, r)
  }

  function Ingested(conf: Device.Conf, s: Device.State, at: int, r: Reading, warnPct: real): Device.State {
    var (t, o) := Observe(conf, s, at, r);
    if o.finished && o.cycle.Some? then Flagged(t, warnPct) else t
  }

  // ------------------------------------------------------------ the entry

  class DeviceEntry {
    var device: DeviceRecord
    var runtime: Runtime
    var offlineAt: Option<int>

    /** The machine is valid, its cycle is its own and what is shown is a copy. (The bound variable
        keeps the machine's invariant folded wherever only the entry's validity matters.) */
    ghost predicate Valid()
      reads this, runtime, runtime.integrator, runtime.counter, runtime.cycle
    {
      && (forall rt: Runtime :: rt == runtime ==> rt.Valid())
      && (runtime.cycle != null ==> runtime.cycle.keeper == runtime) && IsShown(device)
    }

    ghost function TheLink(): Link
      reads this
    {
      Link(device.availability, offlineAt)
    }

    constructor (device: DeviceRecord, runtime: Runtime)
      ensures this.device == device && this.runtime == runtime && offlineAt == None
    {
      this.device, this.runtime, this.offlineAt := device, runtime, None;
    }

    // -------------------------------------------------------- discovery

    /** A known device under a new profile: another class gets a new machine; the same class keeps
        its machine, thresholds included, under the profile's strategy. */
    method Adopt(prof: Profile, maxGap: int) returns (rt: Runtime)
      requires Valid()
      modifies this`runtime, runtime`strategy
      ensures Valid() && rt == runtime
      ensures prof.cls == old(runtime.cls) ==>
                runtime == old(runtime) && runtime.View() == old(runtime.View()).(strategy := prof.strategy)
      ensures prof.cls != old(runtime.cls) ==> fresh(runtime.Repr()) && IsNewFor(runtime, prof, maxGap)
    {
      assert runtime.Valid();
      if runtime.cls != prof.cls {
        runtime := new Runtime(prof.cls, prof.thresholds, prof.strategy, maxGap);
      } else {
        runtime.strategy := prof.strategy;
      }
      rt := runtime;
    }

    method Redescribe(d: About)
      modifies this`device
      ensures device == old(device).(about := Overlay(old(device).about, d))
    {
      device := device.(about := Overlay(device.about, d));
    }

    method SetDisplay(name: string)
      modifies this`device
      ensures var a := old(device).about; device == old(device).(about := a.(identity := a.identity.(display := name)))
    {
      device := device.(about := device.about.(identity := device.about.identity.(display := name)));
    }

    /** Forget what was shown under a phantom; the machine is not reset. */
    method ForgetShown()
      requires Valid()
      modifies this`device
      ensures Valid() && device == old(device).(activity := NO_ACTIVITY, cycle := null)
    {
      device := device.(activity := NO_ACTIVITY, cycle := null);
      ShownStaysValid(this);
    }

    // -------------------------------------------------------- ingest

    method SeeOnline()
      modifies this
      ensures TheLink() == ReportOnline(old(TheLink()))
      ensures runtime == old(runtime) && device == old(device).(availability := Online)
    {
      if !device.availability.Online? {
        device := device.(availability := Online);
        offlineAt := None;
      }
    }

    method UpdateLatest(at: int, r: Reading)
      modifies this
      ensures runtime == old(runtime) && offlineAt == old(offlineAt) && device == old(device).(latest := device.latest)
      ensures MeasuresOf(device.latest) == Measure(old(MeasuresOf(device.latest)), at, r)
    {
      var l := device.latest;
      var powerW := Renewed(l.powerW, r.powerW);
      var energyKWh := Renewed(l.energyKWh, r.energyKWh);
      var temperatureC := Renewed(l.temperatureC, r.temperatureC);
      var humidityPct := Renewed(l.humidityPct, r.humidityPct);
      device := device.(latest := Latest(powerW, energyKWh, temperatureC, humidityPct, at));
    }

    method ObserveLifetime(at: int, r: Reading)
      modifies this
      ensures runtime == old(runtime) && offlineAt == old(offlineAt)
              && device == old(device).(lifetime := device.lifetime)
      ensures !TracksExtremes(r) ==> device.lifetime == old(device.lifetime)
      ensures TracksExtremes(r) ==>
                fresh(device.lifetime) && PeaksOf(device.lifetime) == ObservePeaks(old(PeaksOf(device.lifetime)), at, r)
    {
      if TracksExtremes(r) {
        var lt := Observed(device.lifetime, at, r);
        device := device.(lifetime := lt);
      }
    }

    /** The public record gets its own copy of the runtime's cycle. */
    method PublishCycle()
      requires runtime.cycle != null
      modifies this
      ensures runtime == old(runtime) && offlineAt == old(offlineAt) && device == old(device).(cycle := device.cycle)
      ensures fresh(device.cycle) && IsShown(device) && device.cycle.Value() == runtime.cycle.Value()
    {
      var cc := new CycleRecord.Copy(runtime.cycle);
      device := device.(cycle := cc);
    }

    /** Warnings for a cycle that just finished; the flags reach runtime and record alike. */
    method WarnAboutEnergy(warnPct: real)
      requires runtime.Valid() && runtime.cycle != null && device.cycle != null && IsShown(device)
      requires device.cycle.Value() == runtime.cycle.Value()
      modifies this, runtime.cycle
      ensures runtime.Valid() && runtime == old(runtime) && offlineAt == old(offlineAt)
      ensures runtime.cycle == old(runtime.cycle)
      ensures device == old(device).(cycle := device.cycle)
              && (device.cycle == old(device.cycle) || fresh(device.cycle))
      ensures IsShown(device) && device.cycle.Value() == runtime.cycle.Value()
      ensures runtime.View() == Flagged(old(runtime.View()), warnPct)
    {
      var e := device.cycle.energy;
      if e.reported > 0.0 && runtime.strategy.CounterFirst? {
        var pct := DivergencePct(e.reported, e.integrated);
        if pct >= warnPct {
          runtime.MarkDivergence(pct);
          PublishCycle();
        }
      }
      if runtime.strategy.CounterFirst? && device.cycle.energy.reported == 0.0
         && (device.cycle.energy.integrated >= STALE_MIN_KWH || device.cycle.durationSeconds >= STALE_MIN_SECONDS) {
        runtime.MarkStaleCounter();
        PublishCycle();
      }
    }

    method SeedFrom(r: Reading)
      requires runtime.Valid()
      modifies runtime.counter
      ensures runtime.Valid()
      ensures runtime.View() == if r.energyKWh.Some? then Device.SeedCounter(old(runtime.View()), r.energyKWh.value)
                                else old(runtime.View())
    {
      if r.energyKWh.Some? {
        runtime.SeedCounter(r.energyKWh.value);
      }
    }

    method Drive(at: int, r: Reading) returns (out: Report)
      requires runtime.Valid()
      modifies runtime, runtime.integrator, runtime.counter, runtime.cycle
      ensures runtime.Valid() && if out.started then fresh(runtime.cycle) else runtime.cycle == old(runtime.cycle)
      ensures out.cycle == null || out.cycle == runtime.cycle
      ensures (runtime.View(), OutcomeOf(out)) == Observe(runtime.TheConf(), old(runtime.View()), at, r)
      ensures PeaksOf(device.lifetime) == old(PeaksOf(device.lifetime))
              && MeasuresOf(device.latest) == old(MeasuresOf(device.latest))
    {
      SeedFrom(r);
      out := runtime.OnReading(at, r);
    }

    method Record(at: int, r: Reading, prev: Activity, next: Activity)
      modifies this
      ensures runtime == old(runtime) && TheLink() == ReportOnline(old(TheLink()))
      ensures device == old(device).(availability := Online, latest := device.latest, lifetime := device.lifetime,
                                     activity := ActivityAfter(old(device.activity), prev, next, at))
      ensures !TracksExtremes(r) ==> device.lifetime == old(device.lifetime)
      ensures TracksExtremes(r) ==>
                fresh(device.lifetime) && PeaksOf(device.lifetime) == ObservePeaks(old(PeaksOf(device.lifetime)), at, r)
      ensures MeasuresOf(device.latest) == Measure(old(MeasuresOf(device.latest)), at, r)
    {
      SeeOnline();
      ObserveLifetime(at, r);
      UpdateLatest(at, r);
      device := device.(activity := ActivityAfter(device.activity, prev, next, at));
    }

    /** Copy the outcome's cycle out, and warn if it just finished. */
    method PublishOutcome(cycle: CycleRecord?, finished: bool, warnPct: real)
      requires runtime.Valid() && (cycle == null || cycle == runtime.cycle)
      requires cycle == null ==> IsShown(device)
      modifies this, runtime.cycle
      ensures Valid() && runtime == old(runtime) && runtime.cycle == old(runtime.cycle) && offlineAt == old(offlineAt)
      ensures device == old(device).(cycle := device.cycle)
      ensures runtime.View() == if cycle != null && finished then Flagged(old(runtime.View()), warnPct)
                                else old(runtime.View())
      ensures cycle == null ==> device.cycle == old(device.cycle)
      ensures cycle != null ==>
                device.cycle != null && fresh(device.cycle) && ValueOf(device.cycle) == runtime.View().cycle
      ensures PeaksOf(device.lifetime) == old(PeaksOf(device.lifetime))
              && MeasuresOf(device.latest) == old(MeasuresOf(device.latest))
    {
      if cycle != null {
        PublishCycle();
        if finished {
          WarnAboutEnergy(warnPct);
        }
      }
    }

    /** The locked body of IngestReading. */
    method Ingest(at: int, r: Reading, warnPct: real) returns (out: Report)
      requires Valid()
      modifies this, runtime, runtime.integrator, runtime.counter, runtime.cycle
      ensures Valid() && runtime == old(runtime)
      ensures if out.started then fresh(runtime.cycle) else runtime.cycle == old(runtime.cycle)
      ensures runtime.View() == Ingested(runtime.TheConf(), old(runtime.View()), at, r, warnPct)
      ensures var o := Observe(runtime.TheConf(), old(runtime.View()), at, r).1;
              && out.prev == o.prev && out.next == o.next && out.started == o.started && out.finished == o.finished
              && (out.cycle != null <==> o.cycle.Some?)
      ensures TheLink() == ReportOnline(old(TheLink()))
      ensures device == old(device).(availability := Online, latest := device.latest, lifetime := device.lifetime,
                                     cycle := device.cycle,
                                     activity := ActivityAfter(old(device.activity), out.prev, out.next, at))
      ensures out.cycle != null ==>
                device.cycle != null && fresh(device.cycle) && ValueOf(device.cycle) == runtime.View().cycle
      ensures out.cycle == null ==> device.cycle == old(device.cycle)
      ensures MeasuresOf(device.latest) == Measure(old(MeasuresOf(device.latest)), at, r)
      ensures !TracksExtremes(r) ==> device.lifetime == old(device.lifetime)
      ensures TracksExtremes(r) ==>
                fresh(device.lifetime) && PeaksOf(device.lifetime) == ObservePeaks(old(PeaksOf(device.lifetime)), at, r)
    {
      assert runtime.Valid();
      out := Drive(at, r);
      ghost var observed := runtime.View();
      Record(at, r, out.prev, out.next);
      assert runtime.View() == observed;
      PublishOutcome(out.cycle, out.finished, warnPct);
    }

    // -------------------------------------------------------- availability and ticks

    /** The locked body of SetAvailability; a change is reported to the sinks. */
    method SetAvailability(online: bool, now: int, debounce: int) returns (changed: Option<Availability>)
      modifies this
      ensures TheLink() == if online then ReportOnline(old(TheLink())) else ReportOffline(old(TheLink()), now, debounce)
      ensures changed == if device.availability != old(device.availability) then Some(device.availability) else None
      ensures runtime == old(runtime) && device == old(device).(availability := device.availability)
    {
      changed := None;
      if online {
        if !device.availability.Online? {
          device := device.(availability := Online);
          offlineAt := None;
          changed := Some(Online);
        }
      } else if debounce > 0 {
        if offlineAt.None? {
          offlineAt := Some(now);
          if !device.availability.OfflinePending? {
            device := device.(availability := OfflinePending);
            changed := Some(OfflinePending);
          }
        } else if now - offlineAt.value >= debounce {
          if !device.availability.Offline? {
            device := device.(availability := Offline);
            changed := Some(Offline);
          }
        }
      } else {
        if !device.availability.Offline? {
          device := device.(availability := Offline);
          changed := Some(Offline);
        }
      }
    }

    /** What Tick does to one entry under the lock. */
    method Tick(now: int, debounce: int) returns (matured: bool, out: Report)
      requires Valid()
      modifies this, runtime
      ensures Valid() && runtime == old(runtime) && runtime.cycle == old(runtime.cycle)
      ensures TheLink() == Mature(old(TheLink()), now, debounce)
      ensures matured == (device.availability != old(device.availability))
      ensures runtime.View() == Device.Tick(old(runtime.View()), now).0
      ensures device == old(device).(availability := device.availability, activity := device.activity)
      ensures device.activity == if runtime.View().activity != old(runtime.View().activity)
                                 then PublicActivity(runtime.View().activity, now, now) else old(device.activity)
    {
      assert runtime.Valid();
      matured := false;
      if offlineAt.Some? && device.availability.OfflinePending? && now - offlineAt.value >= debounce {
        device := device.(availability := Offline);
        matured := true;
      }
      out := runtime.Tick(now);
      if out.prev != out.next {
        device := device.(activity := PublicActivity(out.next, now, now));
      }
    }
  }

  /** Only what is shown of the entry changed, and only copies are shown. */
  twostate lemma ShownStaysValid(e: DeviceEntry)
    requires old(e.Valid()) && IsShown(e.device) && e.runtime == old(e.runtime)
    requires unchanged(e.runtime) && unchanged(e.runtime.integrator) && unchanged(e.runtime.counter)
    requires e.runtime.cycle != null ==> unchanged(e.runtime.cycle)
    ensures e.Valid()
  {
    assert old(e.runtime.Valid());
  }

  /** The machine the profile asks for, before anything was observed. */
  ghost predicate IsNewFor(rt: Runtime, prof: Profile, maxGap: int)
    reads rt, rt.integrator, rt.counter, rt.cycle
  {
    (rt.TheConf(), rt.View()) == (Device.Conf(prof.cls, prof.thresholds, maxGap), Device.Init(prof.strategy))
  }

  /** How the public activity follows an outcome. */
  function ActivityAfter(a: PublicActivity, prev: Activity, next: Activity, at: int): PublicActivity {
    if next != prev || (!next.Unknown? && a.state.Unknown?) then PublicActivity(next, at, at) else a
  }
}
