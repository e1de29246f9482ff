/** Concurrent ingests and house recomputes as the atomic steps their locks leave: writing a device,
    copying the map, aggregating, entering elecMu, storing the summary, deriving and replacing the
    house. A run is any sequence of steps of any processes. */
module Interleavings {
  import opened Common
  import opened Energy
  import opened Electricity
  import opened Model
  import opened WholeHouse

  type Pid = nat

  /** The three dimensions a house recompute derives. */
  datatype Dims = Dims(occupancy: string, activity: string, mode: string)

  /** How far a process is, and what it carries along. */
  datatype Proc =
    | Free
    | Stored(at: int, byMeter: bool, carried: Totals)
    | Copied(at: int, byMeter: bool, carried: Totals, copy: map<string, Device>)
    | Aggregated(at: int, byMeter: bool, carried: Totals, agg: Aggregate)
    | Holding(summary: Summary)  // inside elecMu, the integrators advanced, the store not yet written
    | Derived(dims: Dims)

  datatype House = House(dims: Dims, electricity: Option<Summary>)

  datatype System = System(
    devices: map<string, Device>,
    log: seq<Applied>,    // what the integrators, meter totals and lastElecAt are functions of
    lock: Option<Pid>,    // the holder of elecMu
    house: House,
    procs: map<Pid, Proc>)

  datatype Step =
    | WriteDevice(p: Pid, devices: map<string, Device>, at: int, byMeter: bool, carried: Totals)
    | CopyMap(p: Pid)
    | Aggregate(p: Pid, agg: Aggregate)
    | Enter(p: Pid)
    | StoreSummary(p: Pid)
    | Derive(p: Pid, dims: Dims)
    | SetHouse(p: Pid)

  function At(s: System, p: Pid): Proc { if p in s.procs then s.procs[p] else Free }

  function Goto(s: System, p: Pid, to: Proc): System { s.(procs := s.procs[p := to]) }

  /** A step that its process is not ready for changes nothing. */
  ghost function Next(gap: int, overrides: map<Class, int>, s: System, a: Step): System {
    var at := At(s, a.p);
    match a
    case WriteDevice(p, devices, now, byMeter, carried) =>
      if at.Free? && Keyed(devices) && now != 0
      then Goto(s, p, Stored(now, byMeter, carried)).(devices := devices) else s
    case CopyMap(p) =>
      if at.Stored? then Goto(s, p, Copied(at.at, at.byMeter, at.carried, s.devices)) else s
    case Aggregate(p, agg) =>
      if at.Copied? && IsAggregate(at.at, at.copy, overrides, agg)
      then Goto(s, p, if agg.grossSeen then Aggregated(at.at, at.byMeter, at.carried, agg) else Free) else s
    case Enter(p) =>
      if at.Aggregated? && s.lock.None? then
        if IsNewer(s.log, at.at) then
          var log := s.log + [Applied(at.at, at.agg, at.byMeter, at.carried)];
          Goto(s, p, Holding(SummaryOf(gap, log))).(log := log, lock := Some(p))
        else Goto(s, p, Free)
      else s
    case StoreSummary(p) =>
      if at.Holding? then Goto(s, p, Free).(house := s.house.(electricity := Some(at.summary)), lock := None) else s
    case Derive(p, dims) =>
      if at.Free? then Goto(s, p, Derived(dims)) else s
    case SetHouse(p) =>
      if at.Derived? then Goto(s, p, Free).(house := House(at.dims, s.house.electricity)) else s
  }

  function Start(dims: Dims): System { System(map[], [], None, House(dims, None), map[]) }

  ghost function Run(gap: int, overrides: map<Class, int>, s: System, steps: seq<Step>): System {
    if steps == [] then s else Next(gap, overrides, Run(gap, overrides, s, steps[..|steps| - 1]), steps[|steps| - 1])
  }

  // ------------------------------------------------------------ invariant

  function Mirror(gap: int, log: seq<Applied>): Option<Summary> {
    if log == [] then None else Some(SummaryOf(gap, log))
  }

  /** What a process carries is sound; only the lock's holder is inside. */
  ghost predicate ProcOk(lock: Option<Pid>, p: Pid, proc: Proc) {
    match proc
    case Stored(at, _, _) => at != 0
    case Copied(at, _, _, _) => at != 0
    case Aggregated(at, byMeter, carried, agg) => IsSound(Applied(at, agg, byMeter, carried))
    case Holding(_) => lock == Some(p)
    case _ => true
  }

  ghost predicate ProcsOk(lock: Option<Pid>, procs: map<Pid, Proc>) {
    forall p :: p in procs ==> ProcOk(lock, p, procs[p])
  }

  /** Outside elecMu the stored summary is the integrators' own; inside it lags by one. */
  ghost predicate Inv(gap: int, s: System) {
    && Rising(s.log)
    && ProcsOk(s.lock, s.procs)
    && match s.lock
       case None => s.house.electricity == Mirror(gap, s.log)
       case Some(p) =>
         && s.log != [] && At(s, p) == Holding(SummaryOf(gap, s.log))
         && s.house.electricity == Mirror(gap, s.log[..|s.log| - 1])
  }

  /** A process moves on; if it takes or drops the lock, nobody else was inside. */
  lemma GotoKeeps(lock: Option<Pid>, to: Option<Pid>, procs: map<Pid, Proc>, p: Pid, proc: Proc)
    requires ProcsOk(lock, procs) && ProcOk(to, p, proc) && (lock == to || lock == None || lock == Some(p))
    ensures ProcsOk(to, procs[p := proc])
  {
    var after := procs[p := proc];
    forall q | q in after ensures ProcOk(to, q, after[q]) {
      assert q in procs ==> ProcOk(lock, q, procs[q]);
    }
  }

  lemma EnterKeeps(gap: int, overrides: map<Class, int>, s: System, p: Pid)
    requires Inv(gap, s) && At(s, p).Aggregated? && s.lock.None?
    ensures Inv(gap, Next(gap, overrides, s, Enter(p)))
  {
    var at, t := At(s, p), Next(gap, overrides, s, Enter(p));
    assert ProcOk(s.lock, p, at);
    GotoKeeps(s.lock, t.lock, s.procs, p, At(t, p));
    assert IsNewer(s.log, at.at) ==> t.log[..|t.log| - 1] == s.log;
  }

  lemma StoreKeeps(gap: int, overrides: map<Class, int>, s: System, p: Pid)
    requires Inv(gap, s) && At(s, p).Holding?
    ensures Inv(gap, Next(gap, overrides, s, StoreSummary(p)))
  {
    assert ProcOk(s.lock, p, At(s, p));
    GotoKeeps(s.lock, None, s.procs, p, Free);
  }

  lemma StepKeeps(gap: int, overrides: map<Class, int>, s: System, a: Step)
    requires Inv(gap, s)
    ensures Inv(gap, Next(gap, overrides, s, a))
  {
    var at, t := At(s, a.p), Next(gap, overrides, s, a);
    if t == s {
    } else if a.Enter? {
      EnterKeeps(gap, overrides, s, a.p);
    } else if a.StoreSummary? {
      StoreKeeps(gap, overrides, s, a.p);
    } else {
      assert a.p in s.procs ==> ProcOk(s.lock, a.p, at);
      GotoKeeps(s.lock, s.lock, s.procs, a.p, t.procs[a.p]);
    }
  }

  lemma {:induction false} RunKeeps(gap: int, overrides: map<Class, int>, dims: Dims, steps: seq<Step>)
    ensures Inv(gap, Run(gap, overrides, Start(dims), steps))
  {
    if steps != [] {
      RunKeeps(gap, overrides, dims, steps[..|steps| - 1]);
      StepKeeps(gap, overrides, Run(gap, overrides, Start(dims), steps[..|steps| - 1]), steps[|steps| - 1]);
    }
  }

  // ------------------------------------------------------------ what every run guarantees

  /** In every reachable state the stored summary is the one the recomputes applied so far
      determine, short of at most the one being stored; outside elecMu it is exactly that. */
  lemma StoredIsApplied(gap: int, overrides: map<Class, int>, dims: Dims, steps: seq<Step>)
    ensures var s := Run(gap, overrides, Start(dims), steps);
            && (s.lock.None? ==> s.house.electricity == Mirror(gap, s.log))
            && (s.lock.Some? ==> s.log != [] && s.house.electricity == Mirror(gap, s.log[..|s.log| - 1]))
  {
    RunKeeps(gap, overrides, dims, steps);
  }

  /** The applied recomputes whose summary is in the store. */
  ghost function Shown(s: System): seq<Applied>
    requires s.lock.Some? ==> s.log != []
  {
    if s.lock.None? then s.log else s.log[..|s.log| - 1]
  }

  lemma StateBalances(gap: int, s: System)
    requires Inv(gap, s) && s.house.electricity.Some?
    ensures var e := s.house.electricity.value;
            && e.grossW == e.monitoredW + e.unmonitoredW
            && e.session.grossKWh == e.session.monitoredKWh + e.session.unmonitoredKWh
  {
    SummaryBalances(gap, Shown(s));
  }

  /** Whatever interleaving led here, the stored summary balances. */
  lemma RunBalances(gap: int, overrides: map<Class, int>, dims: Dims, steps: seq<Step>)
    requires Run(gap, overrides, Start(dims), steps).house.electricity.Some?
    ensures var e := Run(gap, overrides, Start(dims), steps).house.electricity.value;
            && e.grossW == e.monitoredW + e.unmonitoredW
            && e.session.grossKWh == e.session.monitoredKWh + e.session.unmonitoredKWh
  {
    RunKeeps(gap, overrides, dims, steps);
    StateBalances(gap, Run(gap, overrides, Start(dims), steps));
  }

  lemma StateIsBounded(gap: int, s: System, p: real)
    requires Inv(gap, s) && s.house.electricity.Some? && Within(GrossOf(s.log), p)
    ensures s.log != [] && forall i, j :: 0 <= i < j < |s.log| ==> s.log[i].at < s.log[j].at
    ensures var e := s.house.electricity.value;
            -Steady(p, e.computedAt - s.log[0].at) <= e.session.grossKWh <= Steady(p, e.computedAt - s.log[0].at)
  {
    var shown := Shown(s);
    assert forall i :: 0 <= i < |shown| ==> GrossOf(shown)[i] == GrossOf(s.log)[i];
    SessionIsBounded(gap, shown, p);
    RisingMeans(s.log);
  }

  /** No energy is counted twice in any interleaving: with every applied |gross| at most p, the
      session total stays within p times the time from the first applied recompute to ComputedAt,
      and successive recomputes are strictly apart, so no integrator ever sees time stand still. */
  lemma RunIsBounded(gap: int, overrides: map<Class, int>, dims: Dims, steps: seq<Step>, p: real)
    requires var s := Run(gap, overrides, Start(dims), steps); s.house.electricity.Some? && Within(GrossOf(s.log), p)
    ensures var s := Run(gap, overrides, Start(dims), steps);
            && s.log != []
            && (forall i, j :: 0 <= i < j < |s.log| ==> s.log[i].at < s.log[j].at)
            && var e := s.house.electricity.value;
               -Steady(p, e.computedAt - s.log[0].at) <= e.session.grossKWh <= Steady(p, e.computedAt - s.log[0].at)
  {
    RunKeeps(gap, overrides, dims, steps);
    StateIsBounded(gap, Run(gap, overrides, Start(dims), steps), p);
  }

  ghost predicate Forward(e: Option<Summary>, f: Option<Summary>) {
    e == f || (f.Some? && (e.Some? ==> e.value.computedAt < f.value.computedAt))
  }

  /** Only storing a newer summary changes the stored one: ComputedAt rises strictly, and a house
      recompute, however stale its derivation, keeps the summary stored meanwhile. */
  lemma StepForward(gap: int, overrides: map<Class, int>, s: System, a: Step)
    requires Inv(gap, s)
    ensures var t := Next(gap, overrides, s, a);
            && Forward(s.house.electricity, t.house.electricity)
            && (!a.StoreSummary? ==> t.house.electricity == s.house.electricity)
            && (a.SetHouse? && At(s, a.p).Derived? ==> t.house.dims == At(s, a.p).dims)
  {
    if a.StoreSummary? && At(s, a.p).Holding? {
      assert ProcOk(s.lock, a.p, At(s, a.p));
      RisingMeans(s.log);
    }
  }

  lemma RunExtends(gap: int, overrides: map<Class, int>, s: System, steps: seq<Step>, last: Step)
    ensures Run(gap, overrides, s, steps + [last]) == Next(gap, overrides, Run(gap, overrides, s, steps), last)
  {
    assert (steps + [last])[..|steps|] == steps;
  }

  /** Over any continuation of any run the summary never regresses and is never lost. */
  lemma {:induction false} RunForward(gap: int, overrides: map<Class, int>, dims: Dims, steps: seq<Step>,
                                      more: seq<Step>)
    ensures Forward(Run(gap, overrides, Start(dims), steps).house.electricity,
                    Run(gap, overrides, Start(dims), steps + more).house.electricity)
  {
    if more == [] {
      assert steps + more == steps;
    } else {
      var before, last := more[..|more| - 1], more[|more| - 1];
      RunForward(gap, overrides, dims, steps, before);
      RunKeeps(gap, overrides, dims, steps + before);
      assert steps + more == (steps + before) + [last];
      RunExtends(gap, overrides, Start(dims), steps + before, last);
      StepForward(gap, overrides, Run(gap, overrides, Start(dims), steps + before), last);
    }
  }

  /** A plug's recompute leaves the meter's period totals as the store has them. */
  lemma PlugsKeepTotals(gap: int, s: System, a: Step)
    requires Inv(gap, s) && a.StoreSummary? && At(s, a.p).Holding? && !s.log[|s.log| - 1].byMeter
    ensures At(s, a.p).summary.totals
            == if s.house.electricity.Some? then s.house.electricity.value.totals else Totals(None, None, None)
  {
    assert ProcOk(s.lock, a.p, At(s, a.p));
    assert TotalsOf(s.log) == TotalsOf(s.log[..|s.log| - 1]);
  }

  // ------------------------------------------------------------ an undisturbed ingest

  /** Process p is at this point with nothing else moved since s, the device map apart. */
  ghost predicate IsAt(s: System, t: System, p: Pid, at: Proc, devices: map<string, Device>) {
    At(t, p) == at && t.devices == devices && t.log == s.log && t.lock.None? && t.house == s.house
  }

  lemma WritesAndCopies(gap: int, overrides: map<Class, int>, s: System, p: Pid,
                        devices: map<string, Device>, now: int, byMeter: bool, carried: Totals)
    requires At(s, p).Free? && s.lock.None? && Keyed(devices) && now != 0
    ensures var t1 := Next(gap, overrides, s, WriteDevice(p, devices, now, byMeter, carried));
            IsAt(s, Next(gap, overrides, t1, CopyMap(p)), p, Copied(now, byMeter, carried, devices), devices)
  {
  }

  lemma AggregatesCopy(gap: int, overrides: map<Class, int>, s: System, t: System, p: Pid,
                       devices: map<string, Device>, now: int, byMeter: bool, carried: Totals, agg: Aggregate)
    requires IsAt(s, t, p, Copied(now, byMeter, carried, devices), devices) && IsAggregate(now, devices, overrides, agg)
    ensures IsAt(s, Next(gap, overrides, t, Step.Aggregate(p, agg)), p,
                 if agg.grossSeen then Aggregated(now, byMeter, carried, agg) else Free, devices)
  {
  }

  /** It held the lock and let it go again, and its recompute is in the log and in the store. */
  ghost predicate IsDone(gap: int, s: System, t: System, p: Pid, devices: map<string, Device>, e: Applied) {
    && At(t, p).Free? && t.devices == devices && t.lock.None? && t.log == s.log + [e]
    && t.house == s.house.(electricity := Some(SummaryOf(gap, t.log)))
  }

  lemma EntersAndStores(gap: int, overrides: map<Class, int>, s: System, t: System, p: Pid,
                        devices: map<string, Device>, now: int, byMeter: bool, carried: Totals, agg: Aggregate)
    requires IsAt(s, t, p, Aggregated(now, byMeter, carried, agg), devices)
    ensures var u := Next(gap, overrides, Next(gap, overrides, t, Enter(p)), StoreSummary(p));
            if s.log == [] || now > s.log[|s.log| - 1].at
            then IsDone(gap, s, u, p, devices, Applied(now, agg, byMeter, carried))
            else IsAt(s, u, p, Free, devices)
  {
  }

  lemma IdleStays(gap: int, overrides: map<Class, int>, s: System, t: System, p: Pid, devices: map<string, Device>)
    requires IsAt(s, t, p, Free, devices)
    ensures IsAt(s, Next(gap, overrides, Next(gap, overrides, t, Enter(p)), StoreSummary(p)), p, Free, devices)
  {
  }

  /** From any state with elecMu free, an ingest that nobody disturbs stores its devices, and with a
      meter among them and a time later than the last applied one, exactly its recompute. */
  lemma IngestAlone(gap: int, overrides: map<Class, int>, s: System, p: Pid,
                    devices: map<string, Device>, now: int, byMeter: bool, carried: Totals, agg: Aggregate)
    requires At(s, p).Free? && s.lock.None? && Keyed(devices) && now != 0 && IsAggregate(now, devices, overrides, agg)
    ensures var t1 := Next(gap, overrides, s, WriteDevice(p, devices, now, byMeter, carried));
            var t2 := Next(gap, overrides, Next(gap, overrides, t1, CopyMap(p)), Step.Aggregate(p, agg));
            var t := Next(gap, overrides, Next(gap, overrides, t2, Enter(p)), StoreSummary(p));
            if agg.grossSeen && (s.log == [] || now > s.log[|s.log| - 1].at)
            then IsDone(gap, s, t, p, devices, Applied(now, agg, byMeter, carried))
            else IsAt(s, t, p, Free, devices)
  {
    var t1 := Next(gap, overrides, s, WriteDevice(p, devices, now, byMeter, carried));
    var copied := Next(gap, overrides, t1, CopyMap(p));
    WritesAndCopies(gap, overrides, s, p, devices, now, byMeter, carried);
    AggregatesCopy(gap, overrides, s, copied, p, devices, now, byMeter, carried, agg);
    var t2 := Next(gap, overrides, copied, Step.Aggregate(p, agg));
    if agg.grossSeen {
      EntersAndStores(gap, overrides, s, t2, p, devices, now, byMeter, carried, agg);
    } else {
      IdleStays(gap, overrides, s, t2, p, devices);
    }
  }

  /** A house recompute that nobody disturbs stores its dimensions and keeps the electricity. */
  lemma HouseAlone(gap: int, overrides: map<Class, int>, s: System, p: Pid, dims: Dims)
    requires At(s, p).Free?
    ensures var t := Next(gap, overrides, Next(gap, overrides, s, Derive(p, dims)), SetHouse(p));
            && At(t, p).Free? && t.house == House(dims, s.house.electricity)
            && t.devices == s.devices && t.log == s.log && t.lock == s.lock
  {
  }
}
