/** internal/device/statemachine.go as written: five step methods over one candidate, one
    integrator snapshot and one cycle record updated in place. Every method is proved against
    the history machine of Device.dfy, so all its run theorems hold of this program. */
module DeviceRuntime {
  import opened Common
  import opened Energy
  import opened Model
  import opened Device
  import H = Hysteresis
  import Theory = DeviceTheory

  class CycleRecord {
    ghost const keeper: Runtime?  // the runtime that updates it; null for a copy made to be shown
    var active: bool
    var startedAt: int
    var finishedAt: Option<int>
    var durationSeconds: int
    var energy: CycleEnergy

    constructor (startedAt: int, ghost keeper: Runtime)
      ensures Value() == Cycle(true, startedAt, None, 0, NO_ENERGY) && this.keeper == keeper
    {
      this.keeper := keeper;
      active, this.startedAt, finishedAt, durationSeconds, energy := true, startedAt, None, 0, NO_ENERGY;
    }

    constructor Copy(c: CycleRecord)
      ensures Value() == c.Value() && keeper == null
    {
      keeper := null;
      active, startedAt, finishedAt := c.active, c.startedAt, c.finishedAt;
      durationSeconds, energy := c.durationSeconds, c.energy;
    }

    ghost function Value(): Cycle
      reads this
    {
      Cycle(active, startedAt, finishedAt, durationSeconds, energy)
    }
  }

  ghost function ValueOf(c: CycleRecord?): Option<Cycle>
    reads c
  {
    if c == null then None else Some(c.Value())
  }

  /** The outcome handed to the engine; the record is the runtime's own. */
  datatype Report = Report(prev: Activity, next: Activity, started: bool, finished: bool, cycle: CycleRecord?)

  ghost function OutcomeOf(r: Report): Outcome
    reads r.cycle
  {
    Outcome(r.prev, r.next, r.started, r.finished, ValueOf(r.cycle))
  }

  datatype CandidateSample = CandidateSample(at: int, powerW: real, abovePrevHi: bool, belowPrevLo: bool)

  class Runtime {
    const cls: Class
    const thresholds: Thresholds
    const integrator: Integrator
    const counter: Counter
    var strategy: Strategy
    var activity: Activity
    var activeSince: int
    var candidate: Option<CandidateSample>
    var finishedLowCount: nat
    var cycle: CycleRecord?
    var snapTotal: real
    var snapGaps: nat
    ghost var base: seq<Sample>  // the samples behind the snapshot

    ghost function TheConf(): Conf { Conf(cls, thresholds, integrator.maxGap) }

    ghost function Repr(): set<object>
      reads this
    {
      {this, integrator, counter} + if cycle == null then {} else {cycle}
    }

    /** The fields mean what the history says. */
    ghost predicate Sound()
      reads this, integrator, counter
    {
      && integrator.Valid() && counter.Valid()
      && snapTotal == KWh(integrator.maxGap, base)
      && snapGaps == Gaps(integrator.maxGap, base)
    }

    ghost function View(): State
      reads this, integrator, counter, cycle
    {
      State(strategy, activity, if candidate.None? then None else Some(candidate.value.at), finishedLowCount,
            integrator.samples, counter.session, ValueOf(cycle), base)
    }

    /** A pending candidate is a start candidate outside a cycle and an end candidate inside; the
        cycle is nobody else's. */
    ghost predicate FlagsOk()
      reads this
    {
      && (cycle != null ==> cycle.keeper == this)
      && (candidate.Some? ==>
            candidate.value.abovePrevHi == !InCycle(activity) && candidate.value.belowPrevLo == InCycle(activity))
    }

    ghost predicate Valid()
      reads this, integrator, counter, cycle
    {
      Sound() && FlagsOk() && Theory.Ok(TheConf(), View())
    }

    constructor (cls: Class, thresholds: Thresholds, strategy: Strategy, maxGap: int)
      ensures Valid() && fresh(Repr())
      ensures TheConf() == Conf(cls, thresholds, maxGap) && View() == Init(strategy)
    {
      this.cls, this.thresholds, this.strategy := cls, thresholds, strategy;
      integrator := new Integrator(maxGap);
      counter := new Counter();
      activity, activeSince, candidate, finishedLowCount, cycle := Unknown, 0, None, 0, null;
      snapTotal, snapGaps, base := 0.0, 0, [];
    }

    // ---------------------------------------------------------- cycle bookkeeping

    method StartCycle(at: int)
      requires Sound()
      modifies this, counter
      ensures Sound() && fresh(cycle) && cycle.keeper == this && activity == old(activity)
              && candidate == old(candidate)
      ensures View() == old(View()).(lowCount := 0, session := Rebaselined(old(View()).session),
                                     base := old(View()).samples, cycle := Some(Cycle(true, at, None, 0, NO_ENERGY)))
    {
      finishedLowCount := 0;
      cycle := new CycleRecord(at, this);
      activeSince := at;
      counter.RebaselineAtLatest();
      snapTotal, snapGaps, base := integrator.total, integrator.gaps, integrator.samples;
    }

    method RefreshCycleEnergy(at: int)
      requires Sound()
      modifies cycle
      ensures cycle != null ==>
                cycle.Value() == old(cycle.Value()).(energy := EnergyNow(TheConf(), old(View())),
                  durationSeconds := if cycle.active then Seconds(at - old(cycle.startedAt))
                                     else old(cycle.durationSeconds))
    {
      if cycle == null {
        return;
      }
      var counterKWh := counter.Delta();
      var integratedKWh := integrator.total - snapTotal;
      if integratedKWh < 0.0 {
        integratedKWh := 0.0;
      }
      var (selected, source) := SelectKWh(strategy, counterKWh, integratedKWh);
      cycle.energy := CycleEnergy(source, counterKWh, integratedKWh, selected, 0.0, false, false);
      if cycle.active {
        cycle.durationSeconds := Seconds(at - cycle.startedAt);
      }
    }

    method RefreshIfActive(at: int)
      requires Sound()
      modifies cycle
      ensures View() == Refresh(TheConf(), old(View()), at)
    {
      if cycle != null && cycle.active {
        RefreshCycleEnergy(at);
      }
    }

    method FinishCycle(at: int)
      requires Sound()
      modifies cycle
      ensures View() == old(View()).(cycle := Closed(old(View()).cycle, at, EnergyNow(TheConf(), old(View()))))
    {
      if cycle == null {
        return;
      }
      cycle.active := false;
      cycle.finishedAt := Some(at);
      cycle.durationSeconds := Seconds(at - cycle.startedAt);
      RefreshCycleEnergy(at);
    }

    // ---------------------------------------------------------- hysteresis

    ghost function HystNow(sig: H.Signal): (H.State, H.Edge)
      reads this
    {
      var cand := if candidate.None? then None else Some(candidate.value.at);
      H.Step(WindowsOf(TheConf()), H.State(InCycle(activity), cand), sig)
    }

    method MaybeBegin(at: int, p: real, ghost sig: H.Signal) returns (fired: bool)
      requires FlagsOk() && sig.at == at && sig.high == (p >= OrZero(thresholds.activeAboveW))
      modifies this`candidate
      ensures FlagsOk()
      ensures InCycle(activity) ==> !fired && candidate == old(candidate)
      ensures !InCycle(activity) ==>
                fired == old(HystNow(sig)).1.Started? && View().cand == old(HystNow(sig)).0.cand
    {
      if activity.Active? || activity.Running? || activity.ActiveCycle? {
        return false;
      }
      var activeAboveW := OrZero(thresholds.activeAboveW);
      var activeSustainedFor := OrZeroDuration(thresholds.activeSustainedFor);
      if p < activeAboveW {
        if candidate.Some? && candidate.value.abovePrevHi {
          candidate := None;
        }
        return false;
      }
      if candidate.None? || !candidate.value.abovePrevHi {
        candidate := Some(CandidateSample(at, p, true, false));
        if activeSustainedFor <= 0 {
          candidate := None;
          return true;
        }
        return false;
      }
      if at - candidate.value.at >= activeSustainedFor {
        candidate := None;
        return true;
      }
      return false;
    }

    method MaybeEnd(at: int, p: real, ghost sig: H.Signal) returns (fired: bool)
      requires FlagsOk() && sig.at == at && sig.low == (p <= OrZero(thresholds.idleBelowW))
      modifies this`candidate
      ensures FlagsOk()
      ensures !InCycle(activity) ==> !fired && candidate == old(candidate)
      ensures InCycle(activity) ==>
                fired == old(HystNow(sig)).1.Finished? && View().cand == old(HystNow(sig)).0.cand
    {
      if !(activity.Active? || activity.Running? || activity.ActiveCycle?) {
        return false;
      }
      var idleBelowW := OrZero(thresholds.idleBelowW);
      var inactiveSustainedFor := OrZeroDuration(thresholds.inactiveSustainedFor);
      if p > idleBelowW {
        if candidate.Some? && candidate.value.belowPrevLo {
          candidate := None;
        }
        return false;
      }
      if candidate.None? || !candidate.value.belowPrevLo {
        candidate := Some(CandidateSample(at, p, false, true));
        if inactiveSustainedFor <= 0 {
          candidate := None;
          return true;
        }
        return false;
      }
      if at - candidate.value.at >= inactiveSustainedFor {
        candidate := None;
        return true;
      }
      return false;
    }

    // ---------------------------------------------------------- the five behaviours

    ghost predicate Ready()
      reads this, integrator, counter
    {
      Sound() && FlagsOk() && Theory.Visits(cls, activity)
    }

    /** What a step method must have done with the signal its reading carried. */
    twostate predicate Stepped(sig: H.Signal, quiet: bool, started: bool, finished: bool)
      reads this, integrator, counter, cycle
    {
      var (t, edge) := OnSignal(TheConf(), old(View()), sig, quiet);
      View() == t && started == edge.Started? && finished == edge.Finished?
    }

    /** The begin-or-end prologue that the three threshold behaviours share. */
    method Cross(at: int, p: real, enter: Activity, leave: Activity, ghost sig: H.Signal)
      returns (started: bool, finished: bool)
      requires Ready() && enter == Entry(cls) && leave == Exit(cls)
      requires cls.ShortBurst? || cls.CyclePower? || cls.Media?
      requires sig == H.Signal(at, p >= OrZero(thresholds.activeAboveW), p <= OrZero(thresholds.idleBelowW))
      modifies this, counter, cycle
      ensures Sound() && FlagsOk() && if started then fresh(cycle) else cycle == old(cycle)
      ensures var (h, edge) := old(HystNow(sig));
              && started == edge.Started? && finished == edge.Finished?
              && View() == match edge
                           case Started => Start(TheConf(), old(View()), at)
                           case Finished => Finish(TheConf(), old(View()), at)
                           case NoEdge => old(View()).(cand := h.cand)
    {
      started, finished := false, false;
      var begin := MaybeBegin(at, p, sig);
      if begin {
        activity := enter;
        StartCycle(at);
        return true, false;
      }
      var end := MaybeEnd(at, p, sig);
      if end {
        activity := leave;
        FinishCycle(at);
        return false, true;
      }
    }

    method StepShortBurst(at: int, p: real, ghost sig: H.Signal) returns (started: bool, finished: bool)
      requires Ready() && cls.ShortBurst?
      requires sig == H.Signal(at, p >= OrZero(thresholds.activeAboveW), p <= OrZero(thresholds.idleBelowW))
      modifies this, counter, cycle
      ensures Sound() && FlagsOk() && if started then fresh(cycle) else cycle == old(cycle)
      ensures Stepped(sig, p < OrZero(thresholds.idleBelowW), started, finished)
    {
      started, finished := Cross(at, p, Active, Idle, sig);
      if started || finished {
        return;
      }
      if activity.Unknown? && p < OrZero(thresholds.idleBelowW) {
        activity := Idle;
      }
    }

    method StepMedia(at: int, p: real, ghost sig: H.Signal) returns (started: bool, finished: bool)
      requires Ready() && cls.Media?
      requires sig == H.Signal(at, p >= OrZero(thresholds.activeAboveW), p <= OrZero(thresholds.idleBelowW))
      modifies this, counter, cycle
      ensures Sound() && FlagsOk() && if started then fresh(cycle) else cycle == old(cycle)
      ensures Stepped(sig, p < OrZero(thresholds.idleBelowW), started, finished)
    {
      started, finished := Cross(at, p, Active, Standby, sig);
      if started || finished {
        return;
      }
      if activity.Unknown? && p < OrZero(thresholds.idleBelowW) {
        activity := Idle;
      }
    }

    /** finished_recently decays on consecutive low readings; any other reading restarts the count. */
    method DecayFinished(p: real)
      requires Sound() && activity.FinishedRecently? && cls.CyclePower?
      modifies this`activity, this`finishedLowCount
      ensures View() == Settle(TheConf(), old(View()), p < OrZero(thresholds.idleBelowW))
      ensures !InCycle(activity)
    {
      if p < OrZero(thresholds.idleBelowW) {
        finishedLowCount := finishedLowCount + 1;
        if finishedLowCount >= FINISHED_LOW_READINGS {
          activity := Idle;
          finishedLowCount := 0;
        }
      } else {
        finishedLowCount := 0;
      }
    }

    method StepCycle(at: int, p: real, ghost sig: H.Signal) returns (started: bool, finished: bool)
      requires Ready() && cls.CyclePower?
      requires sig == H.Signal(at, p >= OrZero(thresholds.activeAboveW), p <= OrZero(thresholds.idleBelowW))
      modifies this, counter, cycle
      ensures Sound() && FlagsOk() && if started then fresh(cycle) else cycle == old(cycle)
      ensures Stepped(sig, p < OrZero(thresholds.idleBelowW), started, finished)
    {
      started, finished := Cross(at, p, Running, FinishedRecently, sig);
      if started || finished {
        return;
      }
      if activity.FinishedRecently? {
        DecayFinished(p);
        return;
      }
      if activity.Unknown? && p < OrZero(thresholds.idleBelowW) {
        activity := Idle;
      }
    }

    /** A running compressor: below the line for long enough, the cycle ends. */
    method ContinuousDown(at: int, p: real, ghost sig: H.Signal) returns (finished: bool)
      requires Ready() && cls.Continuous? && activity.ActiveCycle?
      requires sig == H.Signal(at, p >= CompressorW(thresholds), p < CompressorW(thresholds))
      modifies this, cycle
      ensures Sound() && FlagsOk() && cycle == old(cycle)
      ensures Stepped(sig, p < CompressorW(thresholds), false, finished)
    {
      finished := false;
      var highTh := if thresholds.compressorAboveW.Some? then thresholds.compressorAboveW.value
                    else OrZero(thresholds.activeAboveW);
      var inactiveSustainedFor := OrZeroDuration(thresholds.inactiveSustainedFor);
      if p < highTh {
        if candidate.None? || !candidate.value.belowPrevLo {
          candidate := Some(CandidateSample(at, p, false, true));
          if inactiveSustainedFor <= 0 {
            activity := NormalIdle;
            finished := true;
            FinishCycle(at);
            candidate := None;
          }
          return;
        }
        if at - candidate.value.at >= inactiveSustainedFor {
          activity := NormalIdle;
          finished := true;
          FinishCycle(at);
          candidate := None;
        }
      } else {
        candidate := None;
      }
    }

    /** A resting compressor: above the line for long enough, a cycle starts. */
    method ContinuousUp(at: int, p: real, ghost sig: H.Signal) returns (started: bool)
      requires Ready() && cls.Continuous? && !activity.ActiveCycle?
      requires sig == H.Signal(at, p >= CompressorW(thresholds), p < CompressorW(thresholds))
      modifies this, counter
      ensures Sound() && FlagsOk() && if started then fresh(cycle) else cycle == old(cycle)
      ensures Stepped(sig, p < CompressorW(thresholds), started, false)
    {
      started := false;
      var highTh := if thresholds.compressorAboveW.Some? then thresholds.compressorAboveW.value
                    else OrZero(thresholds.activeAboveW);
      var activeSustainedFor := OrZeroDuration(thresholds.activeSustainedFor);
      if p >= highTh {
        if candidate.None? || !candidate.value.abovePrevHi {
          candidate := Some(CandidateSample(at, p, true, false));
          if activeSustainedFor <= 0 {
            activity := ActiveCycle;
            started := true;
            StartCycle(at);
            candidate := None;
          }
          return;
        }
        if at - candidate.value.at >= activeSustainedFor {
          activity := ActiveCycle;
          started := true;
          StartCycle(at);
          candidate := None;
        }
      } else {
        activity := NormalIdle;
        candidate := None;
      }
    }

    method StepContinuous(at: int, p: real, ghost sig: H.Signal) returns (started: bool, finished: bool)
      requires Ready() && cls.Continuous?
      requires sig == H.Signal(at, p >= CompressorW(thresholds), p < CompressorW(thresholds))
      modifies this, counter, cycle
      ensures Sound() && FlagsOk() && if started then fresh(cycle) else cycle == old(cycle)
      ensures Stepped(sig, p < CompressorW(thresholds), started, finished)
    {
      started, finished := false, false;
      if activity.ActiveCycle? {
        finished := ContinuousDown(at, p, sig);
      } else {
        started := ContinuousUp(at, p, sig);
      }
    }

    /** A device that is on: off for long enough, the cycle ends. */
    method BinaryDown(at: int, state: string, ghost sig: H.Signal) returns (finished: bool)
      requires Ready() && cls.BinaryState? && activity.Active?
      requires sig == H.Signal(at, state == "ON", state == "OFF")
      modifies this, cycle
      ensures Sound() && FlagsOk() && cycle == old(cycle)
      ensures state == "ON" || state == "OFF" ==> Stepped(sig, state == "OFF", false, finished)
      ensures state != "ON" && state != "OFF" ==> View() == old(View()) && !finished
    {
      finished := false;
      var inactiveSustainedFor := OrZeroDuration(thresholds.inactiveSustainedFor);
      if state == "OFF" {
        if candidate.None? || !candidate.value.belowPrevLo {
          candidate := Some(CandidateSample(at, 0.0, false, true));
          if inactiveSustainedFor <= 0 {
            activity := Idle;
            finished := true;
            FinishCycle(at);
            candidate := None;
          }
          return;
        }
        if at - candidate.value.at >= inactiveSustainedFor {
          activity := Idle;
          finished := true;
          FinishCycle(at);
          candidate := None;
        }
      } else if state == "ON" {
        candidate := None;
      }
    }

    /** A device that is not: on for long enough, a cycle starts. */
    method BinaryUp(at: int, state: string, ghost sig: H.Signal) returns (started: bool)
      requires Ready() && cls.BinaryState? && !activity.Active?
      requires sig == H.Signal(at, state == "ON", state == "OFF")
      modifies this, counter
      ensures Sound() && FlagsOk() && if started then fresh(cycle) else cycle == old(cycle)
      ensures state == "ON" || state == "OFF" ==> Stepped(sig, state == "OFF", started, false)
      ensures state != "ON" && state != "OFF" ==> View() == old(View()) && !started
    {
      started := false;
      var activeSustainedFor := OrZeroDuration(thresholds.activeSustainedFor);
      if state == "ON" {
        if candidate.None? || !candidate.value.abovePrevHi {
          candidate := Some(CandidateSample(at, 0.0, true, false));
          if activeSustainedFor <= 0 {
            activity := Active;
            started := true;
            StartCycle(at);
            candidate := None;
          }
          return;
        }
        if at - candidate.value.at >= activeSustainedFor {
          activity := Active;
          started := true;
          StartCycle(at);
          candidate := None;
        }
      } else if state == "OFF" {
        if activity.Unknown? {
          activity := Idle;
        }
        candidate := None;
      }
    }

    method StepBinary(at: int, state: string, ghost sig: H.Signal) returns (started: bool, finished: bool)
      requires Ready() && cls.BinaryState?
      requires sig == H.Signal(at, state == "ON", state == "OFF")
      modifies this, counter, cycle
      ensures Sound() && FlagsOk() && if started then fresh(cycle) else cycle == old(cycle)
      ensures state == "ON" || state == "OFF" ==> Stepped(sig, state == "OFF", started, finished)
      ensures state != "ON" && state != "OFF" ==> View() == old(View()) && !started && !finished
    {
      started, finished := false, false;
      if activity.Active? {
        finished := BinaryDown(at, state, sig);
      } else {
        started := BinaryUp(at, state, sig);
      }
    }

    // ---------------------------------------------------------- entry points

    method AbsorbEnergy(at: int, r: Reading)
      requires Valid()
      modifies integrator, counter
      ensures Valid() && View() == Absorb(old(View()), at, r)
    {
      if r.powerW.Some? {
        integrator.Update(at, r.powerW.value);
      }
      assert Sound() && FlagsOk();
      if r.energyKWh.Some? {
        counter.Update(r.energyKWh.value);
      }
    }

    /** The reading drives the machine of its class; energy has been absorbed already. */
    method Dispatch(at: int, r: Reading) returns (started: bool, finished: bool)
      requires Ready() && !IsPassive(cls)
      modifies this, counter, cycle
      ensures Sound() && FlagsOk() && if started then fresh(cycle) else cycle == old(cycle)
      ensures match SignalOf(TheConf(), at, r)
              case None => View() == old(View()) && !started && !finished
              case Some(sig) => Stepped(sig, Quiet(TheConf(), r), started, finished)
    {
      started, finished := false, false;
      ghost var sig := SignalOf(TheConf(), at, r);
      if cls.BinaryState? {
        if r.state.Some? {
          started, finished := StepBinary(at, r.state.value,
                                          H.Signal(at, r.state.value == "ON", r.state.value == "OFF"));
        }
        return;
      }
      if r.powerW.None? {
        return;
      }
      var p := r.powerW.value;
      match cls {
        case ShortBurst => started, finished := StepShortBurst(at, p, sig.value);
        case CyclePower => started, finished := StepCycle(at, p, sig.value);
        case Continuous => started, finished := StepContinuous(at, p, sig.value);
        case Media => started, finished := StepMedia(at, p, sig.value);
        case _ =>
      }
    }

    method OnReading(at: int, r: Reading) returns (out: Report)
      requires Valid()
      modifies this, integrator, counter, cycle
      ensures Valid() && if out.started then fresh(cycle) else cycle == old(cycle)
      ensures View() == Device.OnReading(TheConf(), old(View()), at, r).0
      ensures OutcomeOf(out) == Device.OnReading(TheConf(), old(View()), at, r).1
      ensures out.cycle == null || out.cycle == cycle
    {
      var prev := activity;
      Theory.StepLifecycle(TheConf(), View(), Observe(at, r));
      AbsorbEnergy(at, r);
      if IsPassive(cls) {
        if activity.Unknown? {
          activity := Reporting;
        }
        return Report(prev, activity, false, false, null);
      }
      var started, finished := Dispatch(at, r);
      RefreshIfActive(at);
      return Report(prev, activity, started, finished, cycle);
    }

    method SeedCounter(v: real)
      requires Valid()
      modifies counter
      ensures Valid() && View() == Device.SeedCounter(old(View()), v)
    {
      if cycle != null && cycle.active {
        return;
      }
      counter.SetBaseline(v);
    }

    method Tick(at: int) returns (out: Report)
      requires Valid()
      modifies this
      ensures Valid() && Repr() == old(Repr())
      ensures View() == Device.Tick(old(View()), at).0 && OutcomeOf(out) == Device.Tick(old(View()), at).1
    {
      Theory.StepLifecycle(TheConf(), View(), Ticked(at));
      var prev := activity;
      if !activity.FinishedRecently? || cycle == null || cycle.finishedAt.None? {
        return Report(prev, prev, false, false, null);
      }
      if at - cycle.finishedAt.value >= FINISHED_TTL {
        activity := Idle;
        finishedLowCount := 0;
      }
      return Report(prev, activity, false, false, null);
    }

    method MarkDivergence(pct: real)
      requires Valid()
      modifies cycle
      ensures Valid() && View() == Mark(old(View()), Event.MarkDivergence(pct))
    {
      if cycle == null {
        return;
      }
      cycle.energy := cycle.energy.(divergencePct := pct, divergenceWarning := true);
    }

    method MarkStaleCounter()
      requires Valid()
      modifies cycle
      ensures Valid() && View() == Mark(old(View()), Event.MarkStaleCounter)
    {
      if cycle == null {
        return;
      }
      cycle.energy := cycle.energy.(staleCounter := true);
    }

    /** Intervals refused since the latest cycle start, from the two counters alone. */
    method IntegrationGapsClamped() returns (n: int)
      requires Valid()
      ensures n == Gaps(integrator.maxGap, integrator.samples) - Gaps(integrator.maxGap, base)
    {
      n := integrator.gaps - snapGaps;
    }
  }
}
