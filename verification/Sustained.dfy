/** When a device's cycles start and finish, in terms of the configured thresholds and windows and
    of the readings themselves (internal/device/statemachine.go). */
module Sustained {
  import opened Common
  import opened Energy
  import opened Model
  import opened Device
  import opened DeviceTheory
  import H = Hysteresis

  // ------------------------------------------------------------ what a reading says

  /** The reading carries what its class looks at: ON or OFF, or a power. */
  predicate Reads(conf: Conf, e: Event) {
    match conf.cls
    case BinaryState => e.Observe? && (e.reading.state == Some("ON") || e.reading.state == Some("OFF"))
    case ShortBurst | CyclePower | Continuous | Media => e.Observe? && e.reading.powerW.Some?
    case _ => false
  }

  /** An absent threshold counts as zero watts. */
  predicate AtLeast(watts: real, threshold: Option<real>) {
    match threshold
    case Some(v) => watts >= v
    case None => watts >= 0.0
  }

  predicate AtMost(watts: real, threshold: Option<real>) {
    match threshold
    case Some(v) => watts <= v
    case None => watts <= 0.0
  }

  /** A compressor is on from its own line on, or lacking one from the common line on. */
  predicate Compresses(th: Thresholds, watts: real) {
    if th.compressorAboveW.Some? then AtLeast(watts, th.compressorAboveW) else AtLeast(watts, th.activeAboveW)
  }

  /** The reading speaks for leaving the present side: for being off inside a cycle, else on. */
  predicate Pulls(conf: Conf, inside: bool, e: Event)
    requires Reads(conf, e)
  {
    match conf.cls
    case BinaryState => e.reading.state == Some(if inside then "OFF" else "ON")
    case Continuous => Compresses(conf.th, e.reading.powerW.value) != inside
    case _ =>
      if inside then AtMost(e.reading.powerW.value, conf.th.idleBelowW)
      else AtLeast(e.reading.powerW.value, conf.th.activeAboveW)
  }

  /** The configured time has passed; an absent window is over at once. */
  predicate Outlasts(window: Option<int>, d: int) {
    match window
    case Some(w) => d >= w
    case None => d >= 0
  }

  function WindowOf(conf: Conf, inside: bool): Option<int> {
    if inside then conf.th.inactiveSustainedFor else conf.th.activeSustainedFor
  }

  // ------------------------------------------------------------ unbroken runs of readings

  ghost predicate NoneReads(conf: Conf, es: seq<Event>, from: nat, to: nat)
    requires to <= |es|
  {
    forall j :: from <= j < to ==> !Reads(conf, es[j])
  }

  /** The latest reading since `from`, looking back from n, does not pull. */
  ghost predicate Rests(conf: Conf, es: seq<Event>, from: nat, inside: bool, n: nat)
    requires n <= |es|
  {
    forall j: nat :: from <= j < n && Reads(conf, es[j]) && NoneReads(conf, es, j + 1, n) ==>
                       !Pulls(conf, inside, es[j])
  }

  ghost predicate AllPull(conf: Conf, es: seq<Event>, inside: bool, from: nat, to: nat)
    requires to <= |es|
  {
    forall j :: from <= j < to && Reads(conf, es[j]) ==> Pulls(conf, inside, es[j])
  }

  /** Event k begins the unbroken run of pulling readings since `from` that lasts up to n. */
  ghost predicate RunsSince(conf: Conf, es: seq<Event>, from: nat, inside: bool, k: nat, n: nat)
    requires n <= |es|
  {
    && from <= k < n && Reads(conf, es[k])
    && AllPull(conf, es, inside, k, n)
    && Rests(conf, es, from, inside, k)
  }

  /** Event n ends an unbroken run that began at least the configured window before it. */
  ghost predicate IsDue(conf: Conf, es: seq<Event>, from: nat, inside: bool, n: nat)
    requires n < |es|
  {
    Reads(conf, es[n]) && exists k: nat :: EndsRun(conf, es, from, inside, k, n)
  }

  ghost predicate EndsRun(conf: Conf, es: seq<Event>, from: nat, inside: bool, k: nat, n: nat)
    requires n < |es| && Reads(conf, es[n])
  {
    RunsSince(conf, es, from, inside, k, n + 1) && Outlasts(WindowOf(conf, inside), es[n].at - es[k].at)
  }

  lemma {:induction false} LatestRead(conf: Conf, es: seq<Event>, k: nat, n: nat) returns (j: nat)
    requires k < n <= |es| && Reads(conf, es[k])
    ensures k <= j < n && Reads(conf, es[j]) && NoneReads(conf, es, j + 1, n)
    decreases n
  {
    j := n - 1;
    if !Reads(conf, es[j]) {
      j := LatestRead(conf, es, k, n - 1);
    }
  }

  lemma RunStartIsUnique(conf: Conf, es: seq<Event>, from: nat, inside: bool, k: nat, l: nat, n: nat)
    requires n <= |es| && RunsSince(conf, es, from, inside, k, n) && RunsSince(conf, es, from, inside, l, n)
    ensures k == l
  {
    if k < l {
      var j := LatestRead(conf, es, k, l);
    } else if l < k {
      var j := LatestRead(conf, es, l, k);
    }
  }

  lemma RunShrinks(conf: Conf, es: seq<Event>, from: nat, inside: bool, k: nat, n: nat)
    requires k <= n < |es| && RunsSince(conf, es, from, inside, k, n + 1)
    ensures RunsSince(conf, es, from, inside, k, k + 1)
  {
  }

  lemma DueByItsRun(conf: Conf, es: seq<Event>, from: nat, inside: bool, k: nat, n: nat)
    requires n < |es| && Reads(conf, es[n]) && RunsSince(conf, es, from, inside, k, n + 1)
    ensures IsDue(conf, es, from, inside, n) <==> Outlasts(WindowOf(conf, inside), es[n].at - es[k].at)
  {
    if Outlasts(WindowOf(conf, inside), es[n].at - es[k].at) {
      assert EndsRun(conf, es, from, inside, k, n);
    }
    if IsDue(conf, es, from, inside, n) {
      var l: nat :| EndsRun(conf, es, from, inside, l, n);
      RunStartIsUnique(conf, es, from, inside, k, l, n + 1);
    }
  }

  // ------------------------------------------------------------ the machine remembers the run

  lemma SignalSays(conf: Conf, e: Event)
    ensures SignalIn(conf, e).Some? <==> Reads(conf, e)
    ensures Reads(conf, e) ==>
              var sig := SignalIn(conf, e).value;
              sig.at == e.at && sig.high == Pulls(conf, false, e) && sig.low == Pulls(conf, true, e)
  {
  }

  lemma WindowSays(conf: Conf, inside: bool, d: int)
    ensures d >= H.Window(WindowsOf(conf), inside) <==> Outlasts(WindowOf(conf, inside), d)
  {
  }

  /** The remembered timestamp is that of the run's first reading. */
  ghost predicate Remembers(conf: Conf, es: seq<Event>, from: nat, inside: bool, n: nat, cand: Option<int>)
    requires n <= |es|
  {
    match cand
    case None => Rests(conf, es, from, inside, n)
    case Some(at) => exists k: nat :: RunsSince(conf, es, from, inside, k, n) && es[k].at == at
  }

  lemma RestsOn(conf: Conf, es: seq<Event>, from: nat, inside: bool, n: nat)
    requires n < |es| && (Reads(conf, es[n]) ==> !Pulls(conf, inside, es[n]))
    requires !Reads(conf, es[n]) ==> Rests(conf, es, from, inside, n)
    ensures Rests(conf, es, from, inside, n + 1)
  {
    forall j: nat | from <= j < n + 1 && Reads(conf, es[j]) && NoneReads(conf, es, j + 1, n + 1)
      ensures !Pulls(conf, inside, es[j])
    {
      if j < n {
        assert !Reads(conf, es[n]);
        assert NoneReads(conf, es, j + 1, n);
      }
    }
  }

  /** The run that reaches a pulling reading, and the timestamp it is remembered by. */
  lemma RunReaches(conf: Conf, es: seq<Event>, from: nat, inside: bool, n: nat, cand: Option<int>) returns (k: nat)
    requires from <= n < |es| && Reads(conf, es[n]) && Pulls(conf, inside, es[n])
    requires Remembers(conf, es, from, inside, n, cand)
    ensures RunsSince(conf, es, from, inside, k, n + 1)
    ensures es[k].at == if cand.Some? then cand.value else es[n].at
  {
    if cand.Some? {
      k :| RunsSince(conf, es, from, inside, k, n) && es[k].at == cand.value;
      RunGrows(conf, es, from, inside, k, n);
    } else {
      k := n;
      assert AllPull(conf, es, inside, n, n + 1);
    }
  }

  lemma RunGrows(conf: Conf, es: seq<Event>, from: nat, inside: bool, k: nat, n: nat)
    requires n < |es| && RunsSince(conf, es, from, inside, k, n)
    requires Reads(conf, es[n]) ==> Pulls(conf, inside, es[n])
    ensures RunsSince(conf, es, from, inside, k, n + 1)
  {
  }

  lemma StepRemembers(conf: Conf, es: seq<Event>, from: nat, n: nat, st: H.State)
    requires from <= n < |es| && Remembers(conf, es, from, st.on, n, st.cand)
    ensures var sig := SignalIn(conf, es[n]);
            var (next, edge) := if sig.None? then (st, H.NoEdge) else H.Step(WindowsOf(conf), st, sig.value);
            && (edge.NoEdge? <==> !IsDue(conf, es, from, st.on, n))
            && (edge.NoEdge? ==> next.on == st.on && Remembers(conf, es, from, st.on, n + 1, next.cand))
            && (!edge.NoEdge? ==> next == H.State(!st.on, None) && edge == if st.on then H.Finished else H.Started)
  {
    SignalSays(conf, es[n]);
    if Reads(conf, es[n]) && Pulls(conf, st.on, es[n]) {
      var k := RunReaches(conf, es, from, st.on, n, st.cand);
      WindowSays(conf, st.on, es[n].at - es[k].at);
      DueByItsRun(conf, es, from, st.on, k, n);
    } else {
      NotPullingRemembers(conf, es, from, st.on, n, st.cand);
    }
  }

  lemma NotPullingRemembers(conf: Conf, es: seq<Event>, from: nat, inside: bool, n: nat, cand: Option<int>)
    requires from <= n < |es| && Remembers(conf, es, from, inside, n, cand)
    requires Reads(conf, es[n]) ==> !Pulls(conf, inside, es[n])
    ensures Remembers(conf, es, from, inside, n + 1, if Reads(conf, es[n]) then None else cand)
  {
    if Reads(conf, es[n]) || cand.None? {
      RestsOn(conf, es, from, inside, n);
    } else {
      var k: nat :| RunsSince(conf, es, from, inside, k, n) && es[k].at == cand.value;
      RunGrows(conf, es, from, inside, k, n);
    }
  }

  // ------------------------------------------------------------ over whole runs

  /** The last cycle event before event n is event from - 1, or there is none and from is 0. */
  ghost predicate IsSince(conf: Conf, strategy: Strategy, es: seq<Event>, from: nat, n: nat) {
    from <= n <= |es| && NoEdges(conf, strategy, es, from, n)
    && (from > 0 ==> IsEdge(OutcomeAt(conf, strategy, es, from - 1)))
  }

  /** That event was a start. */
  predicate IsInside(conf: Conf, strategy: Strategy, es: seq<Event>, from: nat)
    requires from <= |es|
  {
    from > 0 && OutcomeAt(conf, strategy, es, from - 1).started
  }

  lemma EdgeClears(conf: Conf, s: State, e: Event)
    requires Ok(conf, s) && IsEdge(Apply(conf, s, e).1)
    ensures var (t, o) := Apply(conf, s, e); InCycle(t.activity) == o.started && t.cand.None?
  {
    StepLifecycle(conf, s, e);
    StepSide(conf, s, e);
  }

  lemma QuietRemembers(conf: Conf, es: seq<Event>, from: nat, n: nat, s: State)
    requires from <= n < |es| && Ok(conf, s) && Remembers(conf, es, from, InCycle(s.activity), n, s.cand)
    requires !IsEdge(Apply(conf, s, es[n]).1)
    ensures var t := Apply(conf, s, es[n]).0;
            InCycle(t.activity) == InCycle(s.activity)
            && Remembers(conf, es, from, InCycle(s.activity), n + 1, t.cand)
  {
    StepSide(conf, s, es[n]);
    StepRemembers(conf, es, from, n, Side(s));
  }

  /** The machine is on the side `inside` and remembers the run there. */
  ghost predicate Keeps(conf: Conf, es: seq<Event>, from: nat, inside: bool, n: nat, s: State)
    requires n <= |es|
  {
    InCycle(s.activity) == inside && Remembers(conf, es, from, inside, n, s.cand)
  }

  lemma MemoryStays(conf: Conf, strategy: Strategy, es: seq<Event>, from: nat, inside: bool, n: nat)
    requires from <= n < |es| && !IsEdge(OutcomeAt(conf, strategy, es, n))
    requires Keeps(conf, es, from, inside, n, Run(conf, strategy, es[..n]))
    ensures Keeps(conf, es, from, inside, n + 1, Run(conf, strategy, es[..n + 1]))
  {
    RunOk(conf, strategy, es[..n]);
    RunTakes(conf, strategy, es, n);
    QuietRemembers(conf, es, from, n, Run(conf, strategy, es[..n]));
  }

  lemma MemoryBegins(conf: Conf, strategy: Strategy, es: seq<Event>, n: nat)
    requires n < |es| && IsEdge(OutcomeAt(conf, strategy, es, n))
    ensures Keeps(conf, es, n + 1, OutcomeAt(conf, strategy, es, n).started, n + 1, Run(conf, strategy, es[..n + 1]))
  {
    RunOk(conf, strategy, es[..n]);
    RunTakes(conf, strategy, es, n);
    EdgeClears(conf, Run(conf, strategy, es[..n]), es[n]);
  }

  lemma {:induction false} MemoryLasts(conf: Conf, strategy: Strategy, es: seq<Event>, from: nat, inside: bool, n: nat)
    requires from <= n <= |es| && NoEdges(conf, strategy, es, from, n)
    requires Keeps(conf, es, from, inside, from, Run(conf, strategy, es[..from]))
    ensures Keeps(conf, es, from, inside, n, Run(conf, strategy, es[..n]))
    decreases n
  {
    if n > from {
      var m := n - 1;
      assert NoEdges(conf, strategy, es, from, m) && !IsEdge(OutcomeAt(conf, strategy, es, m));
      MemoryLasts(conf, strategy, es, from, inside, m);
      MemoryStays(conf, strategy, es, from, inside, m);
    }
  }

  lemma RunRemembers(conf: Conf, strategy: Strategy, es: seq<Event>, from: nat, n: nat)
    requires IsSince(conf, strategy, es, from, n)
    ensures Keeps(conf, es, from, IsInside(conf, strategy, es, from), n, Run(conf, strategy, es[..n]))
  {
    if from > 0 {
      MemoryBegins(conf, strategy, es, from - 1);
    }
    MemoryLasts(conf, strategy, es, from, IsInside(conf, strategy, es, from), n);
  }

  /** Event n starts (finishes) a cycle exactly when the device is outside (inside) one and the
      event ends an unbroken run of readings, since the last start or finish, at or above the active
      threshold (at or below the idle one), that began at least the configured window before it. */
  lemma CyclesAreSustained(conf: Conf, strategy: Strategy, es: seq<Event>, from: nat, n: nat)
    requires n < |es| && IsSince(conf, strategy, es, from, n)
    ensures var o := OutcomeAt(conf, strategy, es, n);
            var inside := IsInside(conf, strategy, es, from);
            && (o.started <==> !inside && IsDue(conf, es, from, false, n))
            && (o.finished <==> inside && IsDue(conf, es, from, true, n))
  {
    RunRemembers(conf, strategy, es, from, n);
    var s := Run(conf, strategy, es[..n]);
    RunOk(conf, strategy, es[..n]);
    StepSide(conf, s, es[n]);
    StepRemembers(conf, es, from, n, Side(s));
  }

  predicate IsInstant(window: Option<int>) { window.None? || window.value <= 0 }

  /** Without a window a pulling reading is due at once, so none can be left waiting. */
  lemma {:induction false} DueAtOnce(conf: Conf, es: seq<Event>, from: nat, inside: bool, n: nat)
    requires from <= n < |es| && IsInstant(WindowOf(conf, inside))
    requires Reads(conf, es[n]) && Pulls(conf, inside, es[n])
    requires forall j: nat :: from <= j < n ==> !IsDue(conf, es, from, inside, j)
    ensures IsDue(conf, es, from, inside, n)
    decreases n
  {
    if Rests(conf, es, from, inside, n) {
      assert RunsSince(conf, es, from, inside, n, n + 1);
      assert EndsRun(conf, es, from, inside, n, n);
    } else {
      var j: nat :| from <= j < n && Reads(conf, es[j]) && NoneReads(conf, es, j + 1, n) && Pulls(conf, inside, es[j]);
      DueAtOnce(conf, es, from, inside, j);
    }
  }

  /** With no window configured, or none above zero, the first pulling reading does it. */
  lemma NoWindowNoDelay(conf: Conf, strategy: Strategy, es: seq<Event>, from: nat, n: nat)
    requires n < |es| && IsSince(conf, strategy, es, from, n)
    requires IsInstant(WindowOf(conf, IsInside(conf, strategy, es, from)))
    ensures IsEdge(OutcomeAt(conf, strategy, es, n))
            <==> Reads(conf, es[n]) && Pulls(conf, IsInside(conf, strategy, es, from), es[n])
  {
    var inside := IsInside(conf, strategy, es, from);
    CyclesAreSustained(conf, strategy, es, from, n);
    if Reads(conf, es[n]) && Pulls(conf, inside, es[n]) {
      forall j: nat | from <= j < n ensures !IsDue(conf, es, from, inside, j) {
        CyclesAreSustained(conf, strategy, es, from, j);
      }
      DueAtOnce(conf, es, from, inside, n);
    }
  }

  // ------------------------------------------------------------ the activity

  predicate Below(watts: real, threshold: Option<real>) {
    match threshold
    case Some(v) => watts < v
    case None => watts < 0.0
  }

  /** A reading that tells a device nothing has happened to yet that it is idle. */
  predicate Calms(conf: Conf, e: Event) {
    && Reads(conf, e)
    && match conf.cls
       case BinaryState => e.reading.state == Some("OFF")
       case Continuous => !Compresses(conf.th, e.reading.powerW.value)
       case _ => Below(e.reading.powerW.value, conf.th.idleBelowW)
  }

  /** The sensors and the meter, which have no cycles, report from their first reading on. */
  predicate Reports(conf: Conf, e: Event) {
    && e.Observe?
    && match conf.cls
       case EnvironmentalSensor | UPSSensor | EnergyMeter | FireAlarm | ApplianceProbe => true
       case _ => false
  }

  /** Before any cycle: unknown until the first reading that tells. */
  ghost predicate IsBeforeCycles(conf: Conf, es: seq<Event>, a: Activity) {
    if exists j :: 0 <= j < |es| && Reports(conf, es[j]) then a.Reporting?
    else if exists j :: 0 <= j < |es| && Calms(conf, es[j]) then a == if conf.cls.Continuous? then NormalIdle else Idle
    else a.Unknown?
  }

  predicate IsInCycle(c: Class, a: Activity) {
    match c
    case CyclePower => a.Running?
    case Continuous => a.ActiveCycle?
    case _ => a.Active?
  }

  /** Between cycles; how long finished_recently lasts is another matter. */
  predicate IsBetweenCycles(c: Class, a: Activity) {
    match c
    case CyclePower => a.FinishedRecently? || a.Idle?
    case Continuous => a.NormalIdle?
    case Media => a.Standby?
    case _ => a.Idle?
  }

  lemma StepActivity(conf: Conf, s: State, e: Event)
    requires Ok(conf, s)
    ensures var (t, o) := Apply(conf, s, e);
            && (o.started ==> IsInCycle(conf.cls, t.activity)) && (o.finished ==> IsBetweenCycles(conf.cls, t.activity))
            && (!IsEdge(o) ==>
                  t.activity == if !s.activity.Unknown? then
                                  if s.activity.FinishedRecently? && t.activity.Idle? then Idle else s.activity
                                else if Reports(conf, e) then Reporting
                                else if Calms(conf, e) then if conf.cls.Continuous? then NormalIdle else Idle
                                else Unknown)
  {
    StepLifecycle(conf, s, e);
    SignalSays(conf, e);
  }

  lemma {:induction false} RunBeforeCycles(conf: Conf, strategy: Strategy, es: seq<Event>)
    requires NoEdges(conf, strategy, es, 0, |es|)
    ensures IsBeforeCycles(conf, es, Run(conf, strategy, es).activity)
  {
    if es != [] {
      var n := |es| - 1;
      forall k: nat | k < n ensures !IsEdge(OutcomeAt(conf, strategy, es[..n], k)) {
        OutcomeIsLocal(conf, strategy, es, n, k);
      }
      RunBeforeCycles(conf, strategy, es[..n]);
      RunOk(conf, strategy, es[..n]);
      assert !IsEdge(OutcomeAt(conf, strategy, es, n));
      StepActivity(conf, Run(conf, strategy, es[..n]), es[n]);
    }
  }

  ghost predicate IsPhase(c: Class, inside: bool, a: Activity) {
    if inside then IsInCycle(c, a) else IsBetweenCycles(c, a)
  }

  lemma StepPhase(conf: Conf, s: State, e: Event, inside: bool)
    requires Ok(conf, s)
    ensures var (t, o) := Apply(conf, s, e);
            && (IsEdge(o) ==> IsPhase(conf.cls, o.started, t.activity))
            && (!IsEdge(o) && IsPhase(conf.cls, inside, s.activity) ==> IsPhase(conf.cls, inside, t.activity))
  {
    StepActivity(conf, s, e);
  }

  lemma PhaseStays(conf: Conf, strategy: Strategy, es: seq<Event>, inside: bool, n: nat)
    requires n < |es| && !IsEdge(OutcomeAt(conf, strategy, es, n))
    requires IsPhase(conf.cls, inside, Run(conf, strategy, es[..n]).activity)
    ensures IsPhase(conf.cls, inside, Run(conf, strategy, es[..n + 1]).activity)
  {
    RunOk(conf, strategy, es[..n]);
    RunTakes(conf, strategy, es, n);
    StepPhase(conf, Run(conf, strategy, es[..n]), es[n], inside);
  }

  lemma PhaseBegins(conf: Conf, strategy: Strategy, es: seq<Event>, n: nat)
    requires n < |es| && IsEdge(OutcomeAt(conf, strategy, es, n))
    ensures IsPhase(conf.cls, OutcomeAt(conf, strategy, es, n).started, Run(conf, strategy, es[..n + 1]).activity)
  {
    RunOk(conf, strategy, es[..n]);
    RunTakes(conf, strategy, es, n);
    StepPhase(conf, Run(conf, strategy, es[..n]), es[n], false);
  }

  lemma {:induction false} PhaseLasts(conf: Conf, strategy: Strategy, es: seq<Event>, from: nat, inside: bool, n: nat)
    requires from <= n <= |es| && NoEdges(conf, strategy, es, from, n)
    requires IsPhase(conf.cls, inside, Run(conf, strategy, es[..from]).activity)
    ensures IsPhase(conf.cls, inside, Run(conf, strategy, es[..n]).activity)
    decreases n
  {
    if n > from {
      var m := n - 1;
      assert NoEdges(conf, strategy, es, from, m) && !IsEdge(OutcomeAt(conf, strategy, es, m));
      PhaseLasts(conf, strategy, es, from, inside, m);
      PhaseStays(conf, strategy, es, inside, m);
    }
  }

  /** The activity after any history, read off its last cycle event: inside a cycle, between two, or
      before the first, when it is unknown exactly until a reading tells otherwise. */
  lemma ActivityMeans(conf: Conf, strategy: Strategy, es: seq<Event>, from: nat)
    requires IsSince(conf, strategy, es, from, |es|)
    ensures var a := Run(conf, strategy, es).activity;
            if from == 0 then IsBeforeCycles(conf, es, a) else IsPhase(conf.cls, IsInside(conf, strategy, es, from), a)
  {
    if from == 0 {
      RunBeforeCycles(conf, strategy, es);
    } else {
      PhaseBegins(conf, strategy, es, from - 1);
      PhaseLasts(conf, strategy, es, from, IsInside(conf, strategy, es, from), |es|);
      assert es[..|es|] == es;
    }
  }
}
