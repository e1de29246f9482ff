/** The meaning of internal/device/statemachine.go: one table-driven machine whose state keeps
    the full history of samples and counter values. `Runtime` (Runtime.dfy) is the program. */
module Device {
  import opened Common
  import opened Energy
  import opened Model
  import H = Hysteresis

  const FINISHED_LOW_READINGS := 3
  const FINISHED_TTL := 30 * 60 * NS_PER_SECOND

  /** What stays fixed for the life of a runtime. */
  datatype Conf = Conf(cls: Class, th: Thresholds, maxGap: int)

  datatype State = State(
    strategy: Strategy,
    activity: Activity,
    cand: Option<int>,         // first timestamp of the pending run
    lowCount: nat,             // consecutive low readings while finished_recently
    samples: seq<Sample>,      // every power reading so far
    session: seq<real>,        // counter values since the baseline was last set
    cycle: Option<Cycle>,
    base: seq<Sample>)         // the samples when the latest cycle started

  datatype Outcome = Outcome(prev: Activity, next: Activity, started: bool, finished: bool, cycle: Option<Cycle>)

  function Init(strategy: Strategy): State {
    State(strategy, Unknown, None, 0, [], [], None, [])
  }

  predicate InCycle(a: Activity) { a.Active? || a.Running? || a.ActiveCycle? }

  predicate HasCycles(c: Class) { c.ShortBurst? || c.CyclePower? || c.Continuous? || c.Media? || c.BinaryState? }

  function Entry(c: Class): Activity {
    match c
    case CyclePower => Running
    case Continuous => ActiveCycle
    case _ => Active
  }

  function Exit(c: Class): Activity {
    match c
    case CyclePower => FinishedRecently
    case Continuous => NormalIdle
    case Media => Standby
    case _ => Idle
  }

  function WindowsOf(conf: Conf): H.Windows {
    H.Windows(OrZeroDuration(conf.th.activeSustainedFor), OrZeroDuration(conf.th.inactiveSustainedFor))
  }

  function CompressorW(th: Thresholds): real {
    if th.compressorAboveW.Some? then th.compressorAboveW.value else OrZero(th.activeAboveW)
  }

  /** The signal a reading carries for its class, if any. */
  function SignalOf(conf: Conf, at: int, r: Reading): Option<H.Signal> {
    match conf.cls
    case BinaryState =>
      if r.state == Some("ON") then Some(H.Signal(at, true, false))
      else if r.state == Some("OFF") then Some(H.Signal(at, false, true))
      else None
    case Continuous =>
      if r.powerW.None? then None
      else Some(H.Signal(at, r.powerW.value >= CompressorW(conf.th), r.powerW.value < CompressorW(conf.th)))
    case _ =>
      if !HasCycles(conf.cls) || r.powerW.None? then None
      else
        var p := r.powerW.value;
        Some(H.Signal(at, p >= OrZero(conf.th.activeAboveW), p <= OrZero(conf.th.idleBelowW)))
  }

  /** A reading that settles a device outside a cycle: strictly below idle, off, or below the compressor line. */
  predicate Quiet(conf: Conf, r: Reading) {
    match conf.cls
    case BinaryState => r.state == Some("OFF")
    case Continuous => r.powerW.Some? && r.powerW.value < CompressorW(conf.th)
    case _ => r.powerW.Some? && r.powerW.value < OrZero(conf.th.idleBelowW)
  }

  /** How a device outside a cycle reacts to a signal that starts nothing. */
  function Settle(conf: Conf, s: State, quiet: bool): State {
    if conf.cls.CyclePower? && s.activity.FinishedRecently? then
      if !quiet then s.(lowCount := 0)
      else if s.lowCount + 1 >= FINISHED_LOW_READINGS then s.(activity := Idle, lowCount := 0)
      else s.(lowCount := s.lowCount + 1)
    else if conf.cls.Continuous? then if quiet then s.(activity := NormalIdle) else s
    else if s.activity.Unknown? && quiet then s.(activity := Idle)
    else s
  }

  function IntegratedSince(conf: Conf, s: State): real { Integrated(conf.maxGap, s.samples, s.base) }

  /** Energy of the samples since the base history, never negative. */
  function Integrated(maxGap: int, samples: seq<Sample>, base: seq<Sample>): real {
    var d := KWh(maxGap, samples) - KWh(maxGap, base);
    if d < 0.0 then 0.0 else d
  }

  function EnergyOf(strategy: Strategy, reported: real, integrated: real): CycleEnergy {
    var (selected, source) := SelectKWh(strategy, reported, integrated);
    CycleEnergy(source, reported, integrated, selected, 0.0, false, false)
  }

  function EnergyNow(conf: Conf, s: State): CycleEnergy {
    EnergyOf(s.strategy, Consumed(s.session), Integrated(conf.maxGap, s.samples, s.base))
  }

  predicate InProgress(s: State) { s.cycle.Some? && s.cycle.value.active }

  function Refresh(conf: Conf, s: State, at: int): State
  {
    if !InProgress(s) then s
    else s.(cycle := Some(s.cycle.value.(energy := EnergyNow(conf, s),
                                         durationSeconds := Seconds(at - s.cycle.value.startedAt))))
  }

  function Start(conf: Conf, s: State, at: int): State {
    s.(activity := Entry(conf.cls), cand := None, lowCount := 0, session := Rebaselined(s.session),
       base := s.samples, cycle := Some(Cycle(true, at, None, 0, NO_ENERGY)))
  }

  function Finish(conf: Conf, s: State, at: int): State {
    s.(activity := Exit(conf.cls), cand := None, cycle := Closed(s.cycle, at, EnergyNow(conf, s)))
  }

  function Closed(c: Option<Cycle>, at: int, energy: CycleEnergy): Option<Cycle> {
    if c.None? then None
    else Some(Cycle(false, c.value.startedAt, Some(at), Seconds(at - c.value.startedAt), energy))
  }

  /** The energy paths see every reading, whatever the activity. */
  function Absorb(s: State, at: int, r: Reading): State {
    s.(samples := s.samples + if r.powerW.Some? then [Sample(at, r.powerW.value)] else [],
       session := s.session + if r.energyKWh.Some? then [r.energyKWh.value] else [])
  }

  function OnSignal(conf: Conf, s: State, sig: H.Signal, quiet: bool): (State, H.Edge)
  {
    var (h, edge) := H.Step(WindowsOf(conf), H.State(InCycle(s.activity), s.cand), sig);
    match edge
    case Started => (Start(conf, s, sig.at), edge)
    case Finished => (Finish(conf, s, sig.at), edge)
    case NoEdge => (if InCycle(s.activity) then s.(cand := h.cand) else Settle(conf, s.(cand := h.cand), quiet), edge)
  }

  function OnReading(conf: Conf, s0: State, at: int, r: Reading): (State, Outcome)
  {
    var s := Absorb(s0, at, r);
    if IsPassive(conf.cls) then
      var t := if s.activity.Unknown? then s.(activity := Reporting) else s;
      (t, Outcome(s0.activity, t.activity, false, false, None))
    else
      match SignalOf(conf, at, r)
      case None =>
        var t := Refresh(conf, s, at);
        (t, Outcome(s0.activity, t.activity, false, false, t.cycle))
      case Some(sig) =>
        var (t0, edge) := OnSignal(conf, s, sig, Quiet(conf, r));
        var t := Refresh(conf, t0, at);
        (t, Outcome(s0.activity, t.activity, edge.Started?, edge.Finished?, t.cycle))
  }

  function SeedCounter(s: State, v: real): State {
    if InProgress(s) then s else s.(session := [v])
  }

  function Tick(s: State, at: int): (State, Outcome) {
    var t :=
      if s.activity.FinishedRecently? && s.cycle.Some? && s.cycle.value.finishedAt.Some?
         && at - s.cycle.value.finishedAt.value >= FINISHED_TTL
      then s.(activity := Idle, lowCount := 0) else s;
    (t, Outcome(s.activity, t.activity, false, false, None))
  }

  function Mark(s: State, e: Event): State
    requires e.MarkDivergence? || e.MarkStaleCounter?
  {
    if s.cycle.None? then s
    else
      var energy := s.cycle.value.energy;
      s.(cycle := Some(s.cycle.value.(energy :=
        if e.MarkDivergence? then energy.(divergencePct := e.pct, divergenceWarning := true)
        else energy.(staleCounter := true))))
  }

  /** Everything that can happen to a runtime. */
  datatype Event =
    | Observe(at: int, reading: Reading)
    | Seed(kwh: real)
    | Ticked(at: int)
    | Reprofile(strategy: Strategy)
    | MarkDivergence(pct: real)
    | MarkStaleCounter

  function Apply(conf: Conf, s: State, e: Event): (State, Outcome)
  {
    match e
    case Observe(at, r) => OnReading(conf, s, at, r)
    case Ticked(at) => Tick(s, at)
    case Seed(v) => (SeedCounter(s, v), Still(s))
    case Reprofile(strategy) => (s.(strategy := strategy), Still(s))
    case MarkDivergence(_) => (Mark(s, e), Still(s))
    case MarkStaleCounter => (Mark(s, e), Still(s))
  }

  function Still(s: State): Outcome { Outcome(s.activity, s.activity, false, false, None) }

  /** The state after a history of events. */
  function Run(conf: Conf, strategy: Strategy, es: seq<Event>): State
  {
    if es == [] then Init(strategy)
    else Apply(conf, Run(conf, strategy, es[..|es| - 1]), es[|es| - 1]).0
  }

  /** What the i-th event of a history reported. */
  function OutcomeAt(conf: Conf, strategy: Strategy, es: seq<Event>, i: nat): Outcome
    requires i < |es|
  {
    Apply(conf, Run(conf, strategy, es[..i]), es[i]).1
  }
}
