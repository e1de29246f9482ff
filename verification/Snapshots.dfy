/** Snapshot isolation: a record handed to a caller shares pointers with the store, yet nothing
    the engine does later changes anything the caller can reach through it. */
module Snapshots {
  import opened Common
  import opened Model
  import opened DeviceRuntime
  import opened Entry
  import Device
  import H = Hysteresis
  import Theory = DeviceTheory

  /** What the engine does to one entry under the store's lock, discovery aside. */
  datatype Op =
    | Read(at: int, reading: Reading, warnPct: real)
    | Report(online: bool, now: int, debounce: int)
    | Ticked(now: int, debounce: int)

  /** All that can be read through a copy of the record. */
  datatype Picture = Picture(about: About, availability: Availability, activity: PublicActivity,
                             latest: Measures, lifetime: Peaks, cycle: Option<Cycle>)

  ghost function PictureOf(d: DeviceRecord): Picture
    reads d.latest.powerW, d.latest.energyKWh, d.latest.temperatureC, d.latest.humidityPct, d.lifetime, d.cycle
  {
    Picture(d.about, d.availability, d.activity, MeasuresOf(d.latest), PeaksOf(d.lifetime), ValueOf(d.cycle))
  }

  /** What an entry may write from now on, it could write before or did not exist. */
  twostate predicate KeepsToItself(e: DeviceEntry)
    reads e, e.runtime
  {
    || (e.runtime == old(e.runtime) && (e.runtime.cycle == old(e.runtime.cycle) || fresh(e.runtime.cycle)))
    || fresh(e.runtime.Repr())
  }

  function LinkAfter(l: Link, op: Op): Link {
    match op
    case Read(_, _, _) => ReportOnline(l)
    case Report(online, now, debounce) => if online then ReportOnline(l) else ReportOffline(l, now, debounce)
    case Ticked(now, debounce) => Mature(l, now, debounce)
  }

  ghost function MachineAfter(conf: Device.Conf, s: Device.State, op: Op): Device.State {
    match op
    case Read(at, r, warnPct) => Ingested(conf, s, at, r, warnPct)
    case Report(_, _, _) => s
    case Ticked(now, _) => Device.Tick(s, now).0
  }

  method Apply(e: DeviceEntry, op: Op)
    requires e.Valid()
    modifies e, e.runtime, e.runtime.integrator, e.runtime.counter, e.runtime.cycle
    ensures e.Valid() && KeepsToItself(e) && e.device.about == old(e.device.about)
            && e.TheLink() == LinkAfter(old(e.TheLink()), op)
    ensures op.Read? ==> e.device.latest.lastSeen == op.at
    ensures e.runtime == old(e.runtime)
    ensures e.runtime.View() == MachineAfter(e.runtime.TheConf(), old(e.runtime.View()), op)
  {
    match op {
      case Read(at, r, warnPct) => var _ := e.Ingest(at, r, warnPct);
      case Report(online, now, debounce) => var _ := e.SetAvailability(online, now, debounce);
      case Ticked(now, debounce) => var _, _ := e.Tick(now, debounce);
    }
  }

  /** Two entries share nothing the engine writes; their cycles differ because their keepers do. */
  ghost predicate Apart(e: DeviceEntry, f: DeviceEntry)
    reads e, f, e.runtime, f.runtime
  {
    && e != f && e.runtime != f.runtime
    && e.runtime.integrator != f.runtime.integrator && e.runtime.counter != f.runtime.counter
  }

  /** What the engine may write for the entry. */
  ghost function Footprint(e: DeviceEntry): set<object>
    reads e, e.runtime
  {
    {e, e.runtime, e.runtime.integrator, e.runtime.counter} + if e.runtime.cycle == null then {} else {e.runtime.cycle}
  }

  /** The entries live, with all the engine may write for them, inside `foot`. */
  ghost predicate Housed(es: set<DeviceEntry>, foot: set<object>)
    reads es, foot
  {
    forall e :: e in es ==>
                  && e in foot && e.runtime in foot && e.runtime.integrator in foot && e.runtime.counter in foot
                  && (e.runtime.cycle != null ==> e.runtime.cycle in foot)
  }

  ghost predicate AllApart(es: set<DeviceEntry>, foot: set<object>)
    requires Housed(es, foot)
    reads es, foot
  {
    forall e, f :: e in es && f in es && e != f ==> Apart(e, f)
  }

  ghost predicate AllValid(es: set<DeviceEntry>, foot: set<object>)
    requires Housed(es, foot)
    reads es, foot
  {
    forall e :: e in es ==> e.Valid()
  }

  /** Any number of valid entries, pairwise apart. */
  ghost predicate Separate(es: set<DeviceEntry>, foot: set<object>)
    reads es, foot
  {
    Housed(es, foot) && AllApart(es, foot) && AllValid(es, foot)
  }

  /** Nothing the engine may write for the entry was written. */
  twostate predicate Untouched(f: DeviceEntry)
    reads f, f.runtime, f.runtime.integrator, f.runtime.counter, f.runtime.cycle
  {
    && unchanged(f) && unchanged(f.runtime) && unchanged(f.runtime.integrator) && unchanged(f.runtime.counter)
    && (f.runtime.cycle != null ==> unchanged(f.runtime.cycle))
  }

  twostate lemma UntouchedStaysValid(f: DeviceEntry)
    requires old(f.Valid()) && Untouched(f)
    ensures f.Valid()
  {
  }

  /** An operation on one entry writes nothing of the others, and no record ever shown. */
  method ApplyAmong(ghost es: set<DeviceEntry>, e: DeviceEntry, op: Op, ghost foot: set<object>,
                    ghost shown: DeviceRecord)
    requires e in es && Separate(es, foot) && IsShown(shown)
    modifies e, e.runtime, e.runtime.integrator, e.runtime.counter, e.runtime.cycle
    ensures e.Valid() && KeepsToItself(e) && e.device.about == old(e.device.about)
            && e.TheLink() == LinkAfter(old(e.TheLink()), op)
    ensures e.runtime == old(e.runtime)
    ensures e.runtime.View() == MachineAfter(e.runtime.TheConf(), old(e.runtime.View()), op)
    ensures PictureOf(shown) == old(PictureOf(shown))
    ensures forall f :: f in es && f != e ==> Untouched(f)
  {
    Apply(e, op);
  }

  twostate lemma StayHousedApart(new es: set<DeviceEntry>, e: DeviceEntry, new foot: set<object>)
    requires old(allocated(es)) && old(allocated(foot))
    requires e in es && old(Housed(es, foot)) && old(AllApart(es, foot)) && KeepsToItself(e)
    requires forall f :: f in es && f != e ==> Untouched(f)
    ensures Housed(es, foot + Footprint(e)) && AllApart(es, foot + Footprint(e))
  {
    forall f, g | f in es && g in es && f != g ensures Apart(f, g) {
      assert old(Apart(f, g));
    }
  }

  twostate lemma StaysSeparate(new es: set<DeviceEntry>, e: DeviceEntry, new foot: set<object>)
    requires old(allocated(es)) && old(allocated(foot))
    requires e in es && old(Separate(es, foot)) && e.Valid() && KeepsToItself(e)
    requires forall f :: f in es && f != e ==> Untouched(f)
    ensures Separate(es, foot + Footprint(e)) && fresh(Footprint(e) - foot)
  {
    StayHousedApart(es, e, foot);
    forall f | f in es ensures f.Valid() {
      if f != e {
        UntouchedStaysValid(f);
      }
    }
  }

  lemma FewerStaySeparate(es: set<DeviceEntry>, fewer: set<DeviceEntry>, foot: set<object>)
    requires Separate(es, foot) && fewer <= es
    ensures Separate(fewer, foot)
  {
  }

  /** A new entry with a new machine joins the others. */
  twostate lemma JoinsSeparate(es: set<DeviceEntry>, new e: DeviceEntry, new foot: set<object>)
    requires old(allocated(foot)) && old(Separate(es, foot)) && (forall f :: f in es ==> Untouched(f))
    requires fresh(Footprint(e)) && e.Valid()
    ensures Separate(es + {e}, foot + Footprint(e))
  {
    forall f | f in es ensures f.Valid() {
      UntouchedStaysValid(f);
    }
    StayApart(es, foot);
  }

  twostate lemma StayApart(es: set<DeviceEntry>, new foot: set<object>)
    requires old(allocated(foot)) && old(Housed(es, foot) && AllApart(es, foot))
             && (forall f :: f in es ==> Untouched(f))
    ensures Housed(es, foot) && AllApart(es, foot)
  {
    forall f, g | f in es && g in es && f != g ensures Apart(f, g) {
      assert old(Apart(f, g));
    }
  }

  // ------------------------------------------------------------ clearing what was shown

  /** Whether the reading starts a cycle on the machine. */
  ghost predicate Starts(conf: Device.Conf, s: Device.State, at: int, r: Reading) { Observe(conf, s, at, r).1.started }

  /** The record shows the machine's cycle c. */
  ghost predicate Shows(e: DeviceEntry, c: CycleRecord?)
    reads e, e.runtime, e.device.cycle, c
  {
    c != null && e.runtime.cycle == c && e.device.cycle != null && e.device.cycle.Value() == c.Value()
  }

  /** A reading reports a cycle exactly if the class has cycles and the machine holds or starts one. */
  lemma ReportsItsCycle(conf: Device.Conf, s: Device.State, at: int, r: Reading)
    requires Theory.Ok(conf, s)
    ensures Observe(conf, s, at, r).1.cycle.Some? <==> !IsPassive(conf.cls) && (s.cycle.Some? || Starts(conf, s, at, r))
  {
    var seeded := if r.energyKWh.Some? then Device.SeedCounter(s, r.energyKWh.value) else s;
    assert Theory.Ok(conf, seeded);
    Theory.StepLifecycle(conf, seeded, Device.Observe(at, r));
  }

  function StartOf(c: CycleRecord?): int
    reads c
  {
    if c == null then 0 else c.startedAt
  }

  ghost predicate BeganAt(s: Device.State, at: int) { s.cycle.Some? && s.cycle.value.startedAt == at }

  lemma SignalKeepsStart(conf: Device.Conf, s: Device.State, sig: H.Signal, quiet: bool, began: int)
    requires BeganAt(s, began)
    ensures var (t, edge) := Device.OnSignal(conf, s, sig, quiet);
            edge.Started? || BeganAt(t, began)
  {
  }

  lemma ObserveKeepsStart(conf: Device.Conf, s: Device.State, at: int, r: Reading, began: int)
    requires BeganAt(s, began) && !Device.OnReading(conf, s, at, r).1.started
    ensures BeganAt(Device.OnReading(conf, s, at, r).0, began)
  {
    var sig := Device.SignalOf(conf, at, r);
    if sig.Some? {
      SignalKeepsStart(conf, Device.Absorb(s, at, r), sig.value, Device.Quiet(conf, r), began);
    }
  }

  lemma FlagsKeepStart(s: Device.State, warnPct: real, began: int)
    requires BeganAt(s, began)
    ensures BeganAt(Flagged(s, warnPct), began)
  {
  }

  /** A reading that starts no cycle leaves the start of the present one alone. */
  lemma KeepsItsStart(conf: Device.Conf, s: Device.State, at: int, r: Reading, warnPct: real, began: int)
    requires BeganAt(s, began) && !Starts(conf, s, at, r)
    ensures BeganAt(Ingested(conf, s, at, r, warnPct), began)
  {
    var seeded := if r.energyKWh.Some? then Device.SeedCounter(s, r.energyKWh.value) else s;
    ObserveKeepsStart(conf, seeded, at, r, began);
    FlagsKeepStart(Observe(conf, s, at, r).0, warnPct, began);
  }

  /** A reading on a cleared record shows the machine's old cycle again exactly if the class has
      cycles, the machine holds one and the reading starts no other. */
  method ReadCleared(e: DeviceEntry, at: int, r: Reading, warnPct: real) returns (out: Report)
    requires e.Valid() && e.device.cycle == null
    modifies e, e.runtime, e.runtime.integrator, e.runtime.counter, e.runtime.cycle
    ensures e.Valid() && e.runtime == old(e.runtime) && e.device.about == old(e.device.about)
    ensures if out.started then fresh(e.runtime.cycle) else e.runtime.cycle == old(e.runtime.cycle)
    ensures Shows(e, old(e.runtime.cycle)) ==> e.device.cycle.startedAt == old(StartOf(e.runtime.cycle))
    ensures Shows(e, old(e.runtime.cycle))
            <==> !IsPassive(e.runtime.cls) && old(e.runtime.cycle) != null
                 && !Starts(e.runtime.TheConf(), old(e.runtime.View()), at, r)
  {
    assert e.runtime.Valid();
    ReportsItsCycle(e.runtime.TheConf(), e.runtime.View(), at, r);
    if e.runtime.cycle != null && !Starts(e.runtime.TheConf(), e.runtime.View(), at, r) {
      KeepsItsStart(e.runtime.TheConf(), e.runtime.View(), at, r, warnPct, e.runtime.cycle.startedAt);
    }
    out := e.Ingest(at, r, warnPct);
  }
}
