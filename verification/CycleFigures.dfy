/** The figures a cycle record shows, over every run: which path's energy it selects, what its
    counter delta counts, and its length in seconds (internal/device/statemachine.go and
    internal/energy). */
module CycleFigures {
  import opened Common
  import opened Energy
  import opened Model
  import opened Device
  import opened DeviceConservation
  import opened DeviceTheory
  import H = Hysteresis

  // ------------------------------------------------------------ which energy is selected

  /** The primary path wins whenever it has anything; without a strategy the larger one does. */
  predicate IsSelection(strategy: Strategy, e: CycleEnergy) {
    match strategy
    case CounterFirst =>
      if e.reported > 0.0 then e.selected == e.reported && e.primarySource == FromCounter
      else
        e.selected == e.integrated && e.primarySource == if e.integrated > 0.0 then FromIntegration else FromCounter
    case IntegrationFirst =>
      if e.integrated > 0.0 then e.selected == e.integrated && e.primarySource == FromIntegration
      else e.selected == e.reported && e.primarySource == if e.reported > 0.0 then FromCounter else FromIntegration
    case Unset =>
      && e.selected >= e.reported && e.selected >= e.integrated
      && (if e.reported >= e.integrated then e.selected == e.reported && e.primarySource == FromCounter
          else e.selected == e.integrated && e.primarySource == FromIntegration)
  }

  lemma ConsumedIsNotNegative(session: seq<real>)
    ensures Consumed(session) >= 0.0
  {
    if session != [] {
      MinOfIsLeast(session);
    }
  }

  lemma EnergySelects(conf: Conf, s: State)
    ensures IsSelection(s.strategy, EnergyNow(conf, s))
  {
    ConsumedIsNotNegative(s.session);
  }

  /** d in whole seconds, cut off toward zero. */
  predicate IsSeconds(seconds: int, d: int) {
    if d >= 0 then seconds * 1_000_000_000 <= d < (seconds + 1) * 1_000_000_000
    else (seconds - 1) * 1_000_000_000 < d <= seconds * 1_000_000_000
  }

  lemma SecondsCut(d: int)
    ensures IsSeconds(Seconds(d), d)
  {
  }

  /** A record the reading at `at` brought up to date. */
  ghost predicate IsUpToDate(c: Cycle, at: int, strategy: Strategy) {
    && IsSelection(strategy, c.energy) && IsSeconds(c.durationSeconds, at - c.startedAt)
    && (if c.active then c.finishedAt.None? else c.finishedAt == Some(at))
  }

  lemma ReadingBringsUpToDate(conf: Conf, s: State, at: int, r: Reading)
    requires Ok(conf, s)
    ensures var (t, o) := OnReading(conf, s, at, r);
            InProgress(t) || o.finished ==> t.cycle.Some? && IsUpToDate(t.cycle.value, at, s.strategy)
  {
    var a := Absorb(s, at, r);
    assert Ok(conf, a);
    var t := a;
    if !IsPassive(conf.cls) {
      var sig := SignalOf(conf, at, r);
      if sig.Some? {
        SignalLifecycle(conf, a, sig.value, Quiet(conf, r));
        t := OnSignal(conf, a, sig.value, Quiet(conf, r)).0;
        FinishSelects(conf, a, sig.value, Quiet(conf, r), at);
      }
      EnergySelects(conf, t);
      if InProgress(t) {
        SecondsCut(at - t.cycle.value.startedAt);
      }
    }
  }

  lemma FinishSelects(conf: Conf, s: State, sig: H.Signal, quiet: bool, at: int)
    requires Ok(conf, s) && HasCycles(conf.cls) && sig.at == at
    ensures var (t, edge) := OnSignal(conf, s, sig, quiet);
            t.strategy == s.strategy
            && (edge.Finished? ==> t.cycle.Some? && !t.cycle.value.active && IsUpToDate(t.cycle.value, at, s.strategy))
  {
    EnergySelects(conf, s);
    if s.cycle.Some? {
      SecondsCut(at - s.cycle.value.startedAt);
    }
  }

  /** The strategy last set. */
  function StrategyAfter(strategy: Strategy, es: seq<Event>): Strategy {
    if es == [] then strategy
    else if es[|es| - 1].Reprofile? then es[|es| - 1].strategy
    else StrategyAfter(strategy, es[..|es| - 1])
  }

  lemma {:induction false} RunUsesStrategy(conf: Conf, strategy: Strategy, es: seq<Event>)
    ensures Run(conf, strategy, es).strategy == StrategyAfter(strategy, es)
  {
    if es != [] {
      RunUsesStrategy(conf, strategy, es[..|es| - 1]);
      StepUsesStrategy(conf, Run(conf, strategy, es[..|es| - 1]), es[|es| - 1]);
    }
  }

  lemma StepUsesStrategy(conf: Conf, s: State, e: Event)
    ensures Apply(conf, s, e).0.strategy == if e.Reprofile? then e.strategy else s.strategy
  {
  }

  /** Event j left the record of a running or just finished cycle up to date. */
  predicate Updates(conf: Conf, strategy: Strategy, es: seq<Event>, j: nat)
    requires j < |es|
  {
    es[j].Observe? && (InProgress(Run(conf, strategy, es[..j + 1])) || OutcomeAt(conf, strategy, es, j).finished)
  }

  /** After any reading in any run, the record of a running or just finished cycle selects by the
      strategy last set, and its duration is that up to the reading. */
  lemma CycleSelects(conf: Conf, strategy: Strategy, es: seq<Event>, i: nat)
    requires i < |es| && Updates(conf, strategy, es, i)
    ensures var c := Run(conf, strategy, es[..i + 1]).cycle;
            c.Some? && IsUpToDate(c.value, es[i].at, StrategyAfter(strategy, es[..i]))
  {
    RunTakes(conf, strategy, es, i);
    RunOk(conf, strategy, es[..i]);
    RunUsesStrategy(conf, strategy, es[..i]);
    ReadingBringsUpToDate(conf, Run(conf, strategy, es[..i]), es[i].at, es[i].reading);
  }

  // ------------------------------------------------------------ what the counter delta counts

  /** The counter values that readings carried. */
  function Carried(es: seq<Event>): seq<real> {
    if es == [] then []
    else
      var e := es[|es| - 1];
      Carried(es[..|es| - 1]) + if e.Observe? && e.reading.energyKWh.Some? then [e.reading.energyKWh.value] else []
  }

  /** The latest counter value heard: from a reading, or seeded outside a cycle. */
  function LastHeard(conf: Conf, strategy: Strategy, es: seq<Event>): seq<real> {
    if es == [] then []
    else
      var e, before := es[|es| - 1], es[..|es| - 1];
      if e.Observe? && e.reading.energyKWh.Some? then [e.reading.energyKWh.value]
      else if e.Seed? && !InCycle(Run(conf, strategy, before).activity) then [e.kwh]
      else LastHeard(conf, strategy, before)
  }

  /** d is how far the last value lies above the least; nothing counts as no advance. */
  ghost predicate IsAdvance(values: seq<real>, d: real) {
    if values == [] then d == 0.0
    else exists m :: 0 <= m < |values| && (forall k :: 0 <= k < |values| ==> values[m] <= values[k])
                     && d == values[|values| - 1] - values[m]
  }

  lemma ConsumedIsAdvance(session: seq<real>)
    ensures IsAdvance(session, Consumed(session))
  {
    if session != [] {
      MinOfIsLeast(session);
    }
  }

  function CarriedBy(e: Event): seq<real> {
    if e.Observe? && e.reading.energyKWh.Some? then [e.reading.energyKWh.value] else []
  }

  function HeardNext(e: Event, inside: bool, heard: seq<real>): seq<real> {
    if CarriedBy(e) != [] then CarriedBy(e) else if e.Seed? && !inside then [e.kwh] else heard
  }

  /** The session ends in the latest value heard, and inside a cycle it is the cycle's span. */
  ghost predicate IsSession(s: State, heard: seq<real>, span: seq<real>) {
    Rebaselined(s.session) == heard && (InProgress(s) ==> s.session == span)
  }

  lemma BooksSession(s: State, t: State, o: Outcome, e: Event, heard: seq<real>, span: seq<real>)
    requires CounterBooks(s, t, o, e) && IsSession(s, heard, span)
    ensures var next := HeardNext(e, InProgress(s), heard);
            && IsSession(t, next, if o.started then next else span + CarriedBy(e))
            && (o.finished ==> t.session == span + CarriedBy(e))
  {
    if e.Seed? {
      assert span + [] == span;
    }
  }

  lemma StepBooks(conf: Conf, s: State, e: Event)
    requires Ok(conf, s)
    ensures CounterBooks(s, Apply(conf, s, e).0, Apply(conf, s, e).1, e)
  {
    StepAccounts(conf, s, e);
    StepRunning(conf, s, e);
    StepSession(conf, s, e);
  }

  lemma CarriedOn(es: seq<Event>, i: nat, n: nat)
    requires i <= n < |es|
    ensures Carried(es[i..n + 1]) == Carried(es[i..n]) + CarriedBy(es[n])
  {
    assert es[i..n + 1][..n - i] == es[i..n];
  }

  lemma HeardOn(conf: Conf, strategy: Strategy, es: seq<Event>, n: nat)
    requires n < |es|
    ensures LastHeard(conf, strategy, es[..n + 1])
            == HeardNext(es[n], InProgress(Run(conf, strategy, es[..n])), LastHeard(conf, strategy, es[..n]))
  {
    assert es[..n + 1][..n] == es[..n];
    RunOk(conf, strategy, es[..n]);
  }

  lemma StartOn(conf: Conf, strategy: Strategy, es: seq<Event>, n: nat)
    requires n < |es|
    ensures LastStart(conf, strategy, es[..n + 1])
            == if OutcomeAt(conf, strategy, es, n).started then n else LastStart(conf, strategy, es[..n])
  {
    assert es[..n + 1][..n] == es[..n];
  }

  /** What the present cycle's counter values are: the one heard last at its start, and its own. */
  function SpanOf(conf: Conf, strategy: Strategy, es: seq<Event>, i: int, n: nat): seq<real>
    requires -1 <= i < n <= |es| || (i == -1 && n <= |es|)
  {
    LastHeard(conf, strategy, es[..i + 1]) + Carried(es[i + 1..n])
  }

  lemma SpanOn(conf: Conf, strategy: Strategy, es: seq<Event>, i: int, n: nat)
    requires -1 <= i < n < |es| || (i == -1 && n < |es|)
    ensures SpanOf(conf, strategy, es, i, n + 1) == SpanOf(conf, strategy, es, i, n) + CarriedBy(es[n])
  {
    CarriedOn(es, i + 1, n);
    var heard, carried := LastHeard(conf, strategy, es[..i + 1]), Carried(es[i + 1..n]);
    assert heard + (carried + CarriedBy(es[n])) == (heard + carried) + CarriedBy(es[n]);
  }

  lemma SpanBegins(conf: Conf, strategy: Strategy, es: seq<Event>, n: nat)
    requires n < |es|
    ensures SpanOf(conf, strategy, es, n, n + 1) == LastHeard(conf, strategy, es[..n + 1])
  {
    assert es[n + 1..n + 1] == [];
  }

  ghost predicate IsSessionAt(conf: Conf, strategy: Strategy, es: seq<Event>, n: nat)
    requires n <= |es|
  {
    IsSession(Run(conf, strategy, es[..n]), LastHeard(conf, strategy, es[..n]),
              SpanOf(conf, strategy, es, LastStart(conf, strategy, es[..n]), n))
  }

  lemma SessionGoesOn(conf: Conf, strategy: Strategy, es: seq<Event>, n: nat)
    requires n < |es| && IsSessionAt(conf, strategy, es, n)
    ensures IsSessionAt(conf, strategy, es, n + 1)
    ensures var now := es[..n + 1];
            OutcomeAt(conf, strategy, es, n).finished ==>
              Run(conf, strategy, now).session == SpanOf(conf, strategy, es, LastStart(conf, strategy, now), n + 1)
  {
    var s, i := Run(conf, strategy, es[..n]), LastStart(conf, strategy, es[..n]);
    RunOk(conf, strategy, es[..n]);
    StepBooks(conf, s, es[n]);
    RunTakes(conf, strategy, es, n);
    HeardOn(conf, strategy, es, n);
    StartOn(conf, strategy, es, n);
    SpanOn(conf, strategy, es, i, n);
    SpanBegins(conf, strategy, es, n);
    BooksSession(s, Run(conf, strategy, es[..n + 1]), OutcomeAt(conf, strategy, es, n), es[n],
                 LastHeard(conf, strategy, es[..n]), SpanOf(conf, strategy, es, i, n));
  }

  lemma {:induction false} RunIsSession(conf: Conf, strategy: Strategy, es: seq<Event>, n: nat)
    requires n <= |es|
    ensures IsSessionAt(conf, strategy, es, n)
  {
    if n > 0 {
      RunIsSession(conf, strategy, es, n - 1);
      SessionGoesOn(conf, strategy, es, n - 1);
    }
  }

  lemma SessionIsSpan(conf: Conf, strategy: Strategy, es: seq<Event>, j: nat)
    requires j < |es| && Updates(conf, strategy, es, j)
    ensures Run(conf, strategy, es[..j + 1]).session
            == SpanOf(conf, strategy, es, LastStart(conf, strategy, es[..j + 1]), j + 1)
  {
    RunIsSession(conf, strategy, es, j);
    SessionGoesOn(conf, strategy, es, j);
  }

  lemma ReportsConsumed(conf: Conf, strategy: Strategy, es: seq<Event>, j: nat)
    requires j < |es| && Updates(conf, strategy, es, j)
    ensures var t := Run(conf, strategy, es[..j + 1]);
            t.cycle.Some? && t.cycle.value.energy.reported == Consumed(t.session)
  {
    if OutcomeAt(conf, strategy, es, j).finished {
      RunTakes(conf, strategy, es, j);
      RunOk(conf, strategy, es[..j]);
      StepBooks(conf, Run(conf, strategy, es[..j]), es[j]);
    } else {
      RunAccounts(conf, strategy, es[..j + 1]);
    }
  }

  lemma BeganAtItsStart(conf: Conf, strategy: Strategy, es: seq<Event>)
    requires Run(conf, strategy, es).cycle.Some?
    ensures var i := LastStart(conf, strategy, es);
            i >= 0 && es[i].Observe? && Run(conf, strategy, es).cycle.value.startedAt == es[i].at
  {
    RunAccounts(conf, strategy, es);
  }

  /** A record begins at the latest start. The counter delta it shows is the advance, over the value
      heard last when the cycle started and those its own readings carried, of the last above the
      least. */
  lemma CycleCountsItsSpan(conf: Conf, strategy: Strategy, es: seq<Event>, j: nat)
    requires j < |es| && Updates(conf, strategy, es, j)
    ensures var i, c := LastStart(conf, strategy, es[..j + 1]), Run(conf, strategy, es[..j + 1]).cycle;
            && i >= 0 && c.Some? && es[i].Observe? && c.value.startedAt == es[i].at
            && IsAdvance(LastHeard(conf, strategy, es[..i + 1]) + Carried(es[i + 1..j + 1]), c.value.energy.reported)
  {
    SessionIsSpan(conf, strategy, es, j);
    ReportsConsumed(conf, strategy, es, j);
    BeganAtItsStart(conf, strategy, es[..j + 1]);
    ConsumedIsAdvance(Run(conf, strategy, es[..j + 1]).session);
  }
}
