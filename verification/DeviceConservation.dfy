/** Energy conservation, frozen records and the decay of finished_recently, over every run. */
module DeviceConservation {
  import opened Common
  import opened Energy
  import opened Model
  import opened Device
  import opened DeviceTheory
  import H = Hysteresis

  // ------------------------------------------------------------ bounded by time

  /** c holds exactly its span's trapezoid sum, at most p times its own length. */
  ghost predicate HoldsAtMost(conf: Conf, span: seq<Sample>, c: Option<Cycle>, p: real) {
    && c.Some? && c.value.finishedAt.Some?
    && c.value.energy.integrated == KWh(conf.maxGap, span)
    && c.value.energy.integrated <= Steady(p, c.value.finishedAt.value - c.value.startedAt)
  }

  /** Non-negative, ordered power of at most p: a finished cycle holds at most p times its
      own length. */
  lemma CycleEnergyIsBounded(conf: Conf, strategy: Strategy, es: seq<Event>, i: nat, j: nat, p: real)
    requires j < |es| && OutcomeAt(conf, strategy, es, j).finished && PowerClass(conf.cls)
    requires i == LastStart(conf, strategy, es[..j])
    requires var span := Samples(es[i..j + 1]); NonNegative(span) && Ordered(span) && Within(span, p)
    ensures HoldsAtMost(conf, Samples(es[i..j + 1]), Run(conf, strategy, es[..j + 1]).cycle, p)
  {
    CycleEnergyIsItsSpan(conf, strategy, es, j);
    SpanIsBounded(conf, es, i, j, Run(conf, strategy, es[..j + 1]).cycle, p);
  }

  lemma SpanIsBounded(conf: Conf, es: seq<Event>, i: nat, j: nat, c: Option<Cycle>, p: real)
    requires j < |es| && SpansCycle(conf, es, i, j, c)
    requires var span := Samples(es[i..j + 1]); NonNegative(span) && Ordered(span) && Within(span, p)
    ensures HoldsAtMost(conf, Samples(es[i..j + 1]), c, p)
  {
    KWhNonNegative(conf.maxGap, Samples(es[i..j + 1]));
    KWhBounded(conf.maxGap, Samples(es[i..j + 1]), p);
  }

  // ------------------------------------------------------------ conservation, integrated

  function Credit(o: Outcome, t: State): real {
    if o.finished && t.cycle.Some? then t.cycle.value.energy.integrated else 0.0
  }

  /** Integrated energy of all the cycles a history finished. */
  function Spent(conf: Conf, strategy: Strategy, es: seq<Event>): real {
    if es == [] then 0.0
    else Spent(conf, strategy, es[..|es| - 1])
         + Credit(OutcomeAt(conf, strategy, es, |es| - 1), Run(conf, strategy, es))
  }

  function Current(s: State): real { if InProgress(s) then s.cycle.value.energy.integrated else 0.0 }

  ghost predicate Covered(conf: Conf, s: State, spent: real)
  {
    spent <= KWh(conf.maxGap, if InProgress(s) then s.base else s.samples)
  }

  lemma CoverOn(conf: Conf, s: State, t: State, o: Outcome, e: Event, spent: real)
    requires Books(conf, s, t, o, e) && !(o.started && o.finished)
    requires (o.started ==> !InProgress(s)) && (o.finished ==> InProgress(s) && !InProgress(t))
    requires !o.started && !o.finished ==> InProgress(s) == InProgress(t)
    requires Covered(conf, s, spent) && NonNegative(t.samples)
    requires s.base <= t.samples
    ensures Covered(conf, t, spent + Credit(o, t))
  {
    assert t.samples[..|s.samples|] == s.samples;
    assert t.samples[..|s.base|] == s.base;
    KWhGrows(conf.maxGap, t.samples, |s.samples|);
    KWhGrows(conf.maxGap, t.samples, |s.base|);
  }

  lemma StepRunning(conf: Conf, s: State, e: Event)
    requires Ok(conf, s)
    ensures var (t, o) := Apply(conf, s, e);
            && !(o.started && o.finished)
            && (o.started ==> !InProgress(s) && InProgress(t)) && (o.finished ==> InProgress(s) && !InProgress(t))
            && (!o.started && !o.finished ==> InProgress(s) == InProgress(t))
  {
    StepLifecycle(conf, s, e);
  }

  lemma CoverStep(conf: Conf, s: State, e: Event, spent: real)
    requires Ok(conf, s) && Covered(conf, s, spent)
    requires NonNegative(Apply(conf, s, e).0.samples)
    ensures var (t, o) := Apply(conf, s, e);
            Covered(conf, t, spent + Credit(o, t))
  {
    StepAccounts(conf, s, e);
    StepRunning(conf, s, e);
    var (t, o) := Apply(conf, s, e);
    CoverOn(conf, s, t, o, e, spent);
  }

  lemma {:induction false} SpentIsCovered(conf: Conf, strategy: Strategy, es: seq<Event>)
    requires NonNegative(Samples(es))
    ensures Covered(conf, Run(conf, strategy, es), Spent(conf, strategy, es))
  {
    if es != [] {
      var before := es[..|es| - 1];
      SamplesPrefix(es);
      SpentIsCovered(conf, strategy, before);
      RunOk(conf, strategy, before);
      RunAccounts(conf, strategy, es);
      CoverStep(conf, Run(conf, strategy, before), es[|es| - 1], Spent(conf, strategy, before));
    }
  }

  lemma SamplesPrefix(es: seq<Event>)
    requires es != []
    ensures Samples(es[..|es| - 1]) <= Samples(es)
  {
  }

  /** The cycles of a runtime never claim, together, more than the integrator measured. */
  lemma IntegratedIsConserved(conf: Conf, strategy: Strategy, es: seq<Event>)
    requires NonNegative(Samples(es))
    ensures Spent(conf, strategy, es) + Current(Run(conf, strategy, es)) <= KWh(conf.maxGap, Samples(es))
  {
    SpentIsCovered(conf, strategy, es);
    RunAccounts(conf, strategy, es);
    RunOk(conf, strategy, es);
    CoverEnds(conf, Run(conf, strategy, es), Spent(conf, strategy, es));
  }

  lemma CoverEnds(conf: Conf, s: State, spent: real)
    requires s.base <= s.samples && Covered(conf, s, spent) && Settled(conf, s) && NonNegative(s.samples)
    ensures spent + Current(s) <= KWh(conf.maxGap, s.samples)
  {
    assert s.samples[..|s.base|] == s.base;
    KWhGrows(conf.maxGap, s.samples, |s.base|);
  }

  // ------------------------------------------------------------ conservation, reported

  function CountIn(e: Event): seq<real> {
    match e
    case Observe(_, r) => if r.energyKWh.Some? then [r.energyKWh.value] else []
    case Seed(v) => [v]
    case _ => []
  }

  /** Every counter value a history presented, seeds included. */
  function CounterValues(es: seq<Event>): seq<real> {
    if es == [] then [] else CounterValues(es[..|es| - 1]) + CountIn(es[|es| - 1])
  }

  ghost predicate NonDecreasing(s: seq<real>) { forall i, j :: 0 <= i <= j < |s| ==> s[i] <= s[j] }

  function ReportedCredit(o: Outcome, t: State): real {
    if o.finished && t.cycle.Some? then t.cycle.value.energy.reported else 0.0
  }

  /** Counter deltas of all the cycles a history finished. */
  function Reported(conf: Conf, strategy: Strategy, es: seq<Event>): real {
    if es == [] then 0.0
    else Reported(conf, strategy, es[..|es| - 1])
         + ReportedCredit(OutcomeAt(conf, strategy, es, |es| - 1), Run(conf, strategy, es))
  }

  ghost predicate CounterCovered(s: State, counts: seq<real>, reported: real) {
    && NonDecreasing(s.session)
    && (s.session != [] ==> counts != [] && counts[0] <= s.session[0]
                            && s.session[|s.session| - 1] <= counts[|counts| - 1])
    && reported <= (if s.session == [] then 0.0
                    else if InProgress(s) then s.session[0] - counts[0]
                    else s.session[|s.session| - 1] - counts[0])
  }

  /** What an event does to the counter session. */
  lemma StepSession(conf: Conf, s: State, e: Event)
    requires Ok(conf, s)
    ensures var (t, o) := Apply(conf, s, e);
            t.session == (if e.Seed? then (if InProgress(s) then s.session else [e.kwh])
                          else if o.started then Rebaselined(s.session + CountIn(e))
                          else s.session + CountIn(e))
  {
    match e
    case Observe(at, r) =>
      var a := Absorb(s, at, r);
      assert Ok(conf, a);
      if !IsPassive(conf.cls) {
        var sig := SignalOf(conf, at, r);
        if sig.Some? {
          SignalAccounts(conf, a, sig.value, Quiet(conf, r));
          SignalStarts(conf, a, sig.value, Quiet(conf, r));
        }
      }
    case Seed(_) =>
    case _ => assert s.session + [] == s.session;
  }

  lemma SignalStarts(conf: Conf, s: State, sig: H.Signal, quiet: bool)
    ensures var (t, edge) := OnSignal(conf, s, sig, quiet);
            edge.Started? ==> t.session == Rebaselined(s.session)
  {
  }

  /** The books of one event as far as the counter is concerned. */
  ghost predicate CounterBooks(s: State, t: State, o: Outcome, e: Event) {
    && !(o.started && o.finished)
    && (o.started ==> !InProgress(s) && InProgress(t)) && (o.finished ==> InProgress(s) && !InProgress(t))
    && (!o.started && !o.finished ==> InProgress(s) == InProgress(t))
    && (e.Seed? ==> !o.started && !o.finished)
    && (o.finished ==> t.cycle.Some? && t.cycle.value.energy.reported == Consumed(t.session))
    && t.session == (if e.Seed? then (if InProgress(s) then s.session else [e.kwh])
                     else if o.started then Rebaselined(s.session + CountIn(e))
                     else s.session + CountIn(e))
  }

  /** The session after the event, before any rebaselining. */
  function SessionAfter(s: State, e: Event): seq<real> {
    if !e.Seed? then s.session + CountIn(e) else if InProgress(s) then s.session else [e.kwh]
  }

  /** Outside a cycle the spent deltas reach at most to the latest value, inside to the first. */
  ghost predicate Chained(session: seq<real>, counts: seq<real>) {
    && NonDecreasing(session)
    && (session != [] ==> counts != [] && counts[0] <= session[0] && session[|session| - 1] <= counts[|counts| - 1])
  }

  lemma ChainedOn(s: State, e: Event, counts: seq<real>)
    requires Chained(s.session, counts) && NonDecreasing(counts + CountIn(e))
    ensures Chained(SessionAfter(s, e), counts + CountIn(e))
    ensures s.session != [] && !e.Seed? ==> SessionAfter(s, e)[0] == s.session[0]
    ensures s.session != [] && SessionAfter(s, e) != [] ==>
              s.session[|s.session| - 1] <= SessionAfter(s, e)[|SessionAfter(s, e)| - 1]
    ensures counts != [] ==> (counts + CountIn(e))[0] == counts[0]
  {
    CounterValuesEnd(counts, CountIn(e));
    if CountIn(e) == [] {
      assert s.session + [] == s.session && counts + [] == counts;
    } else if !e.Seed? {
      assert CountIn(e) == [CountIn(e)[0]];
      SessionGrows(s.session, counts, CountIn(e)[0]);
    }
  }

  lemma CounterCoverOn(s: State, t: State, o: Outcome, e: Event, counts: seq<real>, reported: real)
    requires CounterBooks(s, t, o, e) && NonDecreasing(counts + CountIn(e)) && CounterCovered(s, counts, reported)
    ensures CounterCovered(t, counts + CountIn(e), reported + ReportedCredit(o, t))
  {
    ChainedOn(s, e, counts);
    assert t.session == if o.started then Rebaselined(SessionAfter(s, e)) else SessionAfter(s, e);
    if o.finished && t.session != [] {
      MinOfSorted(t.session);
    }
  }

  lemma CounterValuesEnd(counts: seq<real>, more: seq<real>)
    requires NonDecreasing(counts + more)
    ensures counts != [] ==>
              (counts + more)[0] == counts[0] && counts[|counts| - 1] <= (counts + more)[|counts + more| - 1]
    ensures more != [] ==> (counts + more)[0] <= more[0] <= (counts + more)[|counts + more| - 1]
  {
    var all := counts + more;
    assert counts != [] ==> all[|counts| - 1] == counts[|counts| - 1];
    assert more != [] ==> all[|counts|] == more[0];
  }

  lemma SessionGrows(session: seq<real>, counts: seq<real>, v: real)
    requires NonDecreasing(session) && NonDecreasing(counts + [v])
    requires session != [] ==> counts != [] && session[|session| - 1] <= counts[|counts| - 1]
    ensures NonDecreasing(session + [v])
  {
    if session != [] {
      var all := counts + [v];
      assert all[|counts| - 1] == counts[|counts| - 1] && all[|counts|] == v;
    }
  }

  lemma CounterCoverStep(conf: Conf, s: State, e: Event, counts: seq<real>, reported: real)
    requires Ok(conf, s) && CounterCovered(s, counts, reported) && NonDecreasing(counts + CountIn(e))
    ensures var (t, o) := Apply(conf, s, e);
            CounterCovered(t, counts + CountIn(e), reported + ReportedCredit(o, t))
  {
    StepAccounts(conf, s, e);
    StepRunning(conf, s, e);
    StepSession(conf, s, e);
    var (t, o) := Apply(conf, s, e);
    assert CounterBooks(s, t, o, e);
    CounterCoverOn(s, t, o, e, counts, reported);
  }

  lemma {:induction false} ReportedIsCovered(conf: Conf, strategy: Strategy, es: seq<Event>)
    requires NonDecreasing(CounterValues(es))
    ensures CounterCovered(Run(conf, strategy, es), CounterValues(es), Reported(conf, strategy, es))
  {
    if es != [] {
      var before := es[..|es| - 1];
      CounterValuesPrefix(es);
      ReportedIsCovered(conf, strategy, before);
      RunOk(conf, strategy, before);
      CounterCoverStep(conf, Run(conf, strategy, before), es[|es| - 1], CounterValues(before),
                       Reported(conf, strategy, before));
    }
  }

  lemma CounterValuesPrefix(es: seq<Event>)
    requires es != []
    ensures CounterValues(es[..|es| - 1]) <= CounterValues(es)
  {
  }

  function CurrentReported(s: State): real { if InProgress(s) then s.cycle.value.energy.reported else 0.0 }

  /** With a counter that never runs backwards, the reported deltas of all the cycles together, the
      current one included, never exceed what the counter itself advanced. */
  lemma ReportedIsConserved(conf: Conf, strategy: Strategy, es: seq<Event>)
    requires NonDecreasing(CounterValues(es))
    ensures var counts := CounterValues(es);
            Reported(conf, strategy, es) + CurrentReported(Run(conf, strategy, es))
            <= if counts == [] then 0.0 else counts[|counts| - 1] - counts[0]
  {
    ReportedIsCovered(conf, strategy, es);
    RunAccounts(conf, strategy, es);
    var s := Run(conf, strategy, es);
    if s.session != [] {
      MinOfSorted(s.session);
      assert s.session[0] <= s.session[|s.session| - 1];
    }
  }

  // ------------------------------------------------------------ frozen records

  /** Equal up to the divergence and stale-counter flags. */
  predicate SameFigures(c: Cycle, d: Cycle) {
    && c.active == d.active && c.startedAt == d.startedAt && c.finishedAt == d.finishedAt
    && c.durationSeconds == d.durationSeconds
    && c.energy.primarySource == d.energy.primarySource && c.energy.reported == d.energy.reported
    && c.energy.integrated == d.energy.integrated && c.energy.selected == d.energy.selected
  }

  lemma StepFrozen(conf: Conf, s: State, e: Event)
    requires Ok(conf, s) && s.cycle.Some? && !s.cycle.value.active
    requires !Apply(conf, s, e).1.started
    ensures var t := Apply(conf, s, e).0; t.cycle.Some? && SameFigures(s.cycle.value, t.cycle.value)
  {
    if e.Observe? {
      var a := Absorb(s, e.at, e.reading);
      assert Ok(conf, a);
      var sig := SignalOf(conf, e.at, e.reading);
      if !IsPassive(conf.cls) && sig.Some? {
        SignalAccounts(conf, a, sig.value, Quiet(conf, e.reading));
        SignalLifecycle(conf, a, sig.value, Quiet(conf, e.reading));
        var (t, edge) := OnSignal(conf, a, sig.value, Quiet(conf, e.reading));
        assert !InCycle(a.activity);
        assert edge.NoEdge?;
        RefreshSettles(conf, t, e.at);
      } else {
        RefreshSettles(conf, a, e.at);
      }
    }
  }

  /** The state after more events, from any state. */
  function Continue(conf: Conf, s: State, es: seq<Event>): State {
    if es == [] then s else Apply(conf, Continue(conf, s, es[..|es| - 1]), es[|es| - 1]).0
  }

  predicate StartsNothing(conf: Conf, s: State, es: seq<Event>) {
    es != [] ==>
      && StartsNothing(conf, s, es[..|es| - 1])
      && !Apply(conf, Continue(conf, s, es[..|es| - 1]), es[|es| - 1]).1.started
  }

  lemma {:induction false} ContinueOk(conf: Conf, s: State, es: seq<Event>)
    requires Ok(conf, s)
    ensures Ok(conf, Continue(conf, s, es))
  {
    if es != [] {
      ContinueOk(conf, s, es[..|es| - 1]);
      StepLifecycle(conf, Continue(conf, s, es[..|es| - 1]), es[|es| - 1]);
    }
  }

  ghost predicate Holds(s: State, c: Cycle) { s.cycle.Some? && SameFigures(c, s.cycle.value) }

  lemma {:induction false} FrozenFrom(conf: Conf, s: State, since: seq<Event>, c: Cycle)
    requires Ok(conf, s) && !c.active && Holds(s, c) && StartsNothing(conf, s, since)
    ensures Holds(Continue(conf, s, since), c)
  {
    if since != [] {
      var before := since[..|since| - 1];
      FrozenFrom(conf, s, before, c);
      ContinueOk(conf, s, before);
      StepFrozen(conf, Continue(conf, s, before), since[|since| - 1]);
    }
  }

  /** Once finished, a cycle's times and energy figures stay as they are until another starts. */
  lemma FinishedIsFrozen(conf: Conf, strategy: Strategy, es: seq<Event>, since: seq<Event>)
    requires var c := Run(conf, strategy, es).cycle; c.Some? && !c.value.active
    requires StartsNothing(conf, Run(conf, strategy, es), since)
    ensures Holds(Continue(conf, Run(conf, strategy, es), since), Run(conf, strategy, es).cycle.value)
  {
    RunOk(conf, strategy, es);
    FrozenFrom(conf, Run(conf, strategy, es), since, Run(conf, strategy, es).cycle.value);
  }

  // ------------------------------------------------------------ finished_recently

  /** Length of the run of quiet power readings at the end of a history; events without power
      neither count nor break it. */
  function TailQuiet(conf: Conf, es: seq<Event>): nat {
    if es == [] then 0
    else
      var e := es[|es| - 1];
      if !Powered(e) then TailQuiet(conf, es[..|es| - 1])
      else if Quiet(conf, e.reading) then TailQuiet(conf, es[..|es| - 1]) + 1
      else 0
  }

  /** The newest of the events since the finish decays it: a third quiet reading in a row, or
      a tick at least 30 minutes after the finish. */
  predicate Decays(conf: Conf, since: seq<Event>, finishedAt: int)
    requires since != []
  {
    var e := since[|since| - 1];
    (Powered(e) && TailQuiet(conf, since) >= 3) || (e.Ticked? && e.at - finishedAt >= 30 * 60 * 1_000_000_000)
  }

  ghost predicate HasDecayed(conf: Conf, since: seq<Event>, finishedAt: int) {
    exists k: nat :: 0 < k <= |since| && Decays(conf, since[..k], finishedAt)
  }

  ghost predicate After(conf: Conf, since: seq<Event>, finishedAt: int, s: State) {
    && s.cycle.Some? && s.cycle.value.finishedAt == Some(finishedAt)
    && (if HasDecayed(conf, since, finishedAt) then s.activity.Idle?
        else s.activity.FinishedRecently? && s.lowCount == TailQuiet(conf, since))
  }

  lemma StepDecay(conf: Conf, since: seq<Event>, finishedAt: int, s: State, e: Event)
    requires conf.cls.CyclePower? && Ok(conf, s) && After(conf, since, finishedAt, s)
    requires !Apply(conf, s, e).1.started
    ensures var t := Apply(conf, s, e).0;
            && t.cycle.Some? && t.cycle.value.finishedAt == Some(finishedAt)
            && (s.activity.Idle? ==> t.activity.Idle?)
            && (s.activity.FinishedRecently? ==>
                  if Decays(conf, since + [e], finishedAt) then t.activity.Idle?
                  else t.activity.FinishedRecently? && t.lowCount == TailQuiet(conf, since + [e]))
  {
    assert (since + [e])[..|since|] == since;
    StepFrozen(conf, s, e);
    StepLifecycle(conf, s, e);
  }

  lemma DecayBegins(conf: Conf, s: State, e: Event)
    requires conf.cls.CyclePower? && Ok(conf, s) && Apply(conf, s, e).1.finished
    ensures e.Observe? && After(conf, [], e.at, Apply(conf, s, e).0)
  {
    StepAccounts(conf, s, e);
    StepLifecycle(conf, s, e);
  }

  lemma DecayOn(conf: Conf, since: seq<Event>, finishedAt: int, s: State, e: Event)
    requires conf.cls.CyclePower? && Ok(conf, s) && After(conf, since, finishedAt, s)
    requires !Apply(conf, s, e).1.started
    ensures After(conf, since + [e], finishedAt, Apply(conf, s, e).0)
  {
    StepDecay(conf, since, finishedAt, s, e);
    DecayGrows(conf, since, e, finishedAt);
  }

  lemma {:induction false} DecayFrom(conf: Conf, s: State, finishedAt: int, since: seq<Event>)
    requires conf.cls.CyclePower? && Ok(conf, s) && After(conf, [], finishedAt, s)
    requires StartsNothing(conf, s, since)
    ensures After(conf, since, finishedAt, Continue(conf, s, since))
  {
    if since != [] {
      var before, last := since[..|since| - 1], since[|since| - 1];
      DecayFrom(conf, s, finishedAt, before);
      ContinueOk(conf, s, before);
      DecayOn(conf, before, finishedAt, Continue(conf, s, before), last);
      assert since == before + [last];
    }
  }

  /** After any run whose last event finishes a cycle, finished_recently lasts exactly until
      the first decaying event, unless a new cycle starts. */
  lemma DecayIsExact(conf: Conf, strategy: Strategy, es: seq<Event>, since: seq<Event>)
    requires conf.cls.CyclePower? && es != []
    requires OutcomeAt(conf, strategy, es, |es| - 1).finished
    requires StartsNothing(conf, Run(conf, strategy, es), since)
    ensures es[|es| - 1].Observe?
    ensures After(conf, since, es[|es| - 1].at, Continue(conf, Run(conf, strategy, es), since))
  {
    var n := |es| - 1;
    RunOk(conf, strategy, es[..n]);
    DecayBegins(conf, Run(conf, strategy, es[..n]), es[n]);
    RunOk(conf, strategy, es);
    DecayFrom(conf, Run(conf, strategy, es), es[n].at, since);
  }

  lemma DecayGrows(conf: Conf, since: seq<Event>, e: Event, finishedAt: int)
    ensures HasDecayed(conf, since + [e], finishedAt)
            <==> HasDecayed(conf, since, finishedAt) || Decays(conf, since + [e], finishedAt)
  {
    var all := since + [e];
    assert all[..|all|] == all;
    forall k: nat | k <= |since| ensures all[..k] == since[..k] {
    }
    if HasDecayed(conf, since, finishedAt) {
      var k: nat :| 0 < k <= |since| && Decays(conf, since[..k], finishedAt);
      assert Decays(conf, all[..k], finishedAt);
    }
    if HasDecayed(conf, all, finishedAt) {
      var k: nat :| 0 < k <= |all| && Decays(conf, all[..k], finishedAt);
      assert k <= |since| ==> Decays(conf, since[..k], finishedAt);
    }
  }
}
