/** What the device machine guarantees over every run. */
module DeviceTheory {
  import opened Common
  import opened Energy
  import opened Model
  import opened Device
  import H = Hysteresis

  // ------------------------------------------------------------ lifecycle

  /** The transition graph of each class. */
  predicate MayMove(c: Class, a: Activity, b: Activity) {
    match c
    case CyclePower =>
      || (a.Unknown? && (b.Idle? || b.Running?)) || (a.Idle? && b.Running?)
      || (a.Running? && b.FinishedRecently?) || (a.FinishedRecently? && (b.Idle? || b.Running?))
    case Continuous =>
      (a.Unknown? && (b.NormalIdle? || b.ActiveCycle?)) || (a.NormalIdle? && b.ActiveCycle?)
      || (a.ActiveCycle? && b.NormalIdle?)
    case Media =>
      || (a.Unknown? && (b.Idle? || b.Active?)) || (a.Idle? && b.Active?)
      || (a.Active? && b.Standby?) || (a.Standby? && b.Active?)
    case ShortBurst =>
      (a.Unknown? && (b.Idle? || b.Active?)) || (a.Idle? && b.Active?) || (a.Active? && b.Idle?)
    case BinaryState =>
      (a.Unknown? && (b.Idle? || b.Active?)) || (a.Idle? && b.Active?) || (a.Active? && b.Idle?)
    case _ => IsPassive(c) && a.Unknown? && b.Reporting?
  }

  /** The activities a class can be in; none can be `starting` or `finishing`. */
  predicate Visits(c: Class, a: Activity) {
    match c
    case CyclePower => a.Unknown? || a.Idle? || a.Running? || a.FinishedRecently?
    case Continuous => a.Unknown? || a.NormalIdle? || a.ActiveCycle?
    case Media => a.Unknown? || a.Idle? || a.Active? || a.Standby?
    case ShortBurst => a.Unknown? || a.Idle? || a.Active?
    case BinaryState => a.Unknown? || a.Idle? || a.Active?
    case _ => a.Unknown? || (IsPassive(c) && a.Reporting?)
  }

  ghost predicate Ok(conf: Conf, s: State) {
    && (InCycle(s.activity) <==> InProgress(s))
    && Visits(conf.cls, s.activity)
    && s.lowCount < FINISHED_LOW_READINGS
    && (s.lowCount > 0 ==> s.activity.FinishedRecently?)
    && (s.cycle.Some? ==> HasCycles(conf.cls) && (s.cycle.value.active <==> s.cycle.value.finishedAt.None?))
    && (s.activity.FinishedRecently? ==> s.cycle.Some?)
    && (s.cand.Some? ==> HasCycles(conf.cls))
    && s.base <= s.samples
  }

  ghost predicate OutcomeOk(c: Class, s: State, t: State, o: Outcome) {
    && o.prev == s.activity && o.next == t.activity
    && (o.prev == o.next || MayMove(c, o.prev, o.next))
    && !(o.started && o.finished)
    && (o.started <==> !InCycle(o.prev) && InCycle(o.next))
    && (o.finished <==> InCycle(o.prev) && !InCycle(o.next))
    && (o.started ==> o.next == Entry(c))
    && (o.finished ==> o.prev == Entry(c) && o.next == Exit(c))
  }

  lemma SignalLifecycle(conf: Conf, s: State, sig: H.Signal, quiet: bool)
    requires Ok(conf, s) && HasCycles(conf.cls)
    ensures var (t, edge) := OnSignal(conf, s, sig, quiet);
            && Ok(conf, t)
            && OutcomeOk(conf.cls, s, t, Outcome(s.activity, t.activity, edge.Started?, edge.Finished?, t.cycle))
  {
    var (h, edge) := H.Step(WindowsOf(conf), H.State(InCycle(s.activity), s.cand), sig);
    match edge
    case Started =>
    case Finished =>
    case NoEdge =>
      if !InCycle(s.activity) {
        SettleLifecycle(conf, s.(cand := h.cand), quiet);
      }
  }

  lemma SettleLifecycle(conf: Conf, s: State, quiet: bool)
    requires Ok(conf, s) && HasCycles(conf.cls) && !InCycle(s.activity)
    ensures var t := Settle(conf, s, quiet);
            && Ok(conf, t) && !InCycle(t.activity)
            && (s.activity == t.activity || MayMove(conf.cls, s.activity, t.activity))
  {
  }

  lemma StepLifecycle(conf: Conf, s: State, e: Event)
    requires Ok(conf, s)
    ensures Ok(conf, Apply(conf, s, e).0)
    ensures OutcomeOk(conf.cls, s, Apply(conf, s, e).0, Apply(conf, s, e).1)
  {
    if e.Observe? {
      var a := Absorb(s, e.at, e.reading);
      assert Ok(conf, a);
      if !IsPassive(conf.cls) {
        var sig := SignalOf(conf, e.at, e.reading);
        if sig.Some? {
          SignalLifecycle(conf, a, sig.value, Quiet(conf, e.reading));
        }
      }
    }
  }

  lemma {:induction false} RunOk(conf: Conf, strategy: Strategy, es: seq<Event>)
    ensures Ok(conf, Run(conf, strategy, es))
  {
    if es != [] {
      RunOk(conf, strategy, es[..|es| - 1]);
      StepLifecycle(conf, Run(conf, strategy, es[..|es| - 1]), es[|es| - 1]);
    }
  }

  lemma RunTakes(conf: Conf, strategy: Strategy, es: seq<Event>, n: nat)
    requires n < |es|
    ensures Apply(conf, Run(conf, strategy, es[..n]), es[n])
            == (Run(conf, strategy, es[..n + 1]), OutcomeAt(conf, strategy, es, n))
  {
    assert es[..n + 1][..n] == es[..n];
  }

  /** Every event of every run: the device stays in its class's graph, is in a cycle exactly
      when it holds an active one, and reports the transition it made. */
  lemma Lifecycle(conf: Conf, strategy: Strategy, es: seq<Event>, i: nat)
    requires i < |es|
    ensures var s, t := Run(conf, strategy, es[..i]), Run(conf, strategy, es[..i + 1]);
            Ok(conf, s) && Ok(conf, t) && OutcomeOk(conf.cls, s, t, OutcomeAt(conf, strategy, es, i))
  {
    RunOk(conf, strategy, es[..i]);
    assert es[..i + 1][..i] == es[..i];
    StepLifecycle(conf, Run(conf, strategy, es[..i]), es[i]);
  }

  predicate IsEdge(o: Outcome) { o.started || o.finished }

  ghost predicate NoEdges(conf: Conf, strategy: Strategy, es: seq<Event>, from: nat, to: nat)
    requires from <= to <= |es|
  {
    forall k: nat :: from <= k < to ==> !IsEdge(OutcomeAt(conf, strategy, es, k))
  }

  lemma NoEdgeKeepsSide(conf: Conf, strategy: Strategy, es: seq<Event>, k: nat)
    requires k < |es| && !IsEdge(OutcomeAt(conf, strategy, es, k))
    ensures InCycle(Run(conf, strategy, es[..k]).activity) == InCycle(Run(conf, strategy, es[..k + 1]).activity)
  {
    Lifecycle(conf, strategy, es, k);
  }

  lemma {:induction false} QuietStretch(conf: Conf, strategy: Strategy, es: seq<Event>, from: nat, to: nat)
    requires from <= to <= |es| && NoEdges(conf, strategy, es, from, to)
    ensures InCycle(Run(conf, strategy, es[..from]).activity) == InCycle(Run(conf, strategy, es[..to]).activity)
  {
    if from < to {
      var k := to - 1;
      QuietStretch(conf, strategy, es, from, k);
      NoEdgeKeepsSide(conf, strategy, es, k);
    }
  }

  /** The first edge of a run is a start. */
  lemma FirstEdgeStarts(conf: Conf, strategy: Strategy, es: seq<Event>, j: nat)
    requires j < |es| && IsEdge(OutcomeAt(conf, strategy, es, j)) && NoEdges(conf, strategy, es, 0, j)
    ensures OutcomeAt(conf, strategy, es, j).started
  {
    Lifecycle(conf, strategy, es, j);
    QuietStretch(conf, strategy, es, 0, j);
  }

  /** Starts and finishes strictly alternate. */
  lemma EdgesAlternate(conf: Conf, strategy: Strategy, es: seq<Event>, i: nat, j: nat)
    requires i < j < |es| && NoEdges(conf, strategy, es, i + 1, j)
    requires IsEdge(OutcomeAt(conf, strategy, es, i)) && IsEdge(OutcomeAt(conf, strategy, es, j))
    ensures OutcomeAt(conf, strategy, es, i).started == OutcomeAt(conf, strategy, es, j).finished
  {
    Lifecycle(conf, strategy, es, i);
    Lifecycle(conf, strategy, es, j);
    QuietStretch(conf, strategy, es, i + 1, j);
  }

  /** Change reports chain from unknown: each leaves from where the previous event arrived. */
  lemma ReportsChain(conf: Conf, strategy: Strategy, es: seq<Event>, j: nat)
    requires j < |es|
    ensures OutcomeAt(conf, strategy, es, j).prev
            == if j == 0 then Unknown else OutcomeAt(conf, strategy, es, j - 1).next
  {
    Lifecycle(conf, strategy, es, j);
    if j > 0 {
      Lifecycle(conf, strategy, es, j - 1);
    }
  }

  // ------------------------------------------------------------ hysteresis

  function SignalIn(conf: Conf, e: Event): Option<H.Signal> {
    if e.Observe? then SignalOf(conf, e.at, e.reading) else None
  }

  function Signals(conf: Conf, es: seq<Event>): seq<H.Signal> {
    if es == [] then []
    else
      var sig := SignalIn(conf, es[|es| - 1]);
      Signals(conf, es[..|es| - 1]) + if sig.Some? then [sig.value] else []
  }

  function Side(s: State): H.State { H.State(InCycle(s.activity), s.cand) }

  lemma StepSide(conf: Conf, s: State, e: Event)
    requires Ok(conf, s)
    ensures var sig := SignalIn(conf, e);
            var (t, o) := Apply(conf, s, e);
            if sig.None? then Side(t) == Side(s) && !IsEdge(o)
            else
              var (h, edge) := H.Step(WindowsOf(conf), Side(s), sig.value);
              Side(t) == h && o.started == edge.Started? && o.finished == edge.Finished?
  {
    StepLifecycle(conf, s, e);
    if e.Observe? && SignalIn(conf, e).Some? {
      var a := Absorb(s, e.at, e.reading);
      assert !IsPassive(conf.cls);
      assert Ok(conf, a);
      SignalSide(conf, a, SignalIn(conf, e).value, Quiet(conf, e.reading));
    }
  }

  lemma SignalSide(conf: Conf, s: State, sig: H.Signal, quiet: bool)
    requires Ok(conf, s) && HasCycles(conf.cls)
    ensures OnSignal(conf, s, sig, quiet).1 == H.Step(WindowsOf(conf), Side(s), sig).1
    ensures Side(OnSignal(conf, s, sig, quiet).0) == H.Step(WindowsOf(conf), Side(s), sig).0
  {
    var (h, edge) := H.Step(WindowsOf(conf), Side(s), sig);
    if edge.NoEdge? && !InCycle(s.activity) {
      SettleLifecycle(conf, s.(cand := h.cand), quiet);
    }
  }

  lemma {:induction false} RunSide(conf: Conf, strategy: Strategy, es: seq<Event>)
    ensures Side(Run(conf, strategy, es)) == H.Run(WindowsOf(conf), Signals(conf, es))
  {
    if es != [] {
      var n := |es| - 1;
      RunSide(conf, strategy, es[..n]);
      RunOk(conf, strategy, es[..n]);
      StepSide(conf, Run(conf, strategy, es[..n]), es[n]);
      var sigs, earlier := Signals(conf, es), Signals(conf, es[..n]);
      if SignalIn(conf, es[n]).Some? {
        assert sigs[..|sigs| - 1] == earlier && sigs[|sigs| - 1] == SignalIn(conf, es[n]).value;
      } else {
        assert sigs == earlier;
      }
    }
  }

  /** Hysteresis refines history, for every class, every event and whatever the order of
      timestamps: event i starts (finishes) a cycle exactly when it carries a signal, and that
      signal is the newest switch of the history's one schedule, at an even (odd) position;
      and the remembered candidate is the first timestamp of the current run. */
  lemma CyclesFollowTheSchedule(conf: Conf, strategy: Strategy, es: seq<Event>, i: nat, sw: seq<nat>)
    requires i < |es|
    requires H.IsSchedule(WindowsOf(conf), Signals(conf, es[..i + 1]), sw)
    ensures var sigs := Signals(conf, es[..i + 1]);
            var o := OutcomeAt(conf, strategy, es, i);
            var newest := SignalIn(conf, es[i]).Some? && sw != [] && sw[|sw| - 1] == |sigs| - 1;
            && (o.started <==> newest && |sw| % 2 == 1)
            && (o.finished <==> newest && |sw| % 2 == 0)
            && H.Since(sw, |sw|) <= |sigs|
            && H.IsPending(sigs, H.Since(sw, |sw|), |sw| % 2 == 1, Run(conf, strategy, es[..i + 1]).cand)
  {
    var w, before, now := WindowsOf(conf), es[..i], es[..i + 1];
    assert now[..i] == before;
    var sigs := Signals(conf, now);
    H.SwitchesAreTheSchedule(w, sigs);
    H.ScheduleUnique(w, sigs, sw, H.Switches(w, sigs));
    RunSide(conf, strategy, before);
    RunSide(conf, strategy, now);
    RunOk(conf, strategy, before);
    StepSide(conf, Run(conf, strategy, before), es[i]);
    if SignalIn(conf, es[i]).Some? {
      var earlier := Signals(conf, before);
      assert sigs[..|sigs| - 1] == earlier;
      H.SwitchesAreTheSchedule(w, earlier);
      assert H.Tracks(w, earlier, H.Switches(w, earlier), H.Run(w, earlier));
      var edge := H.Step(w, H.Run(w, earlier), sigs[|sigs| - 1]).1;
      assert sw == H.Switches(w, earlier) + if edge.NoEdge? then [] else [|sigs| - 1];
      H.SwitchesInside(w, earlier);
    }
  }

  // ------------------------------------------------------------ energy of a cycle

  function Samples(es: seq<Event>): seq<Sample> {
    if es == [] then []
    else
      var e := es[|es| - 1];
      Samples(es[..|es| - 1])
      + if e.Observe? && e.reading.powerW.Some? then [Sample(e.at, e.reading.powerW.value)] else []
  }

  lemma {:induction false} SamplesConcat(a: seq<Event>, b: seq<Event>)
    ensures Samples(a + b) == Samples(a) + Samples(b)
  {
    if b == [] {
      assert a + b == a;
    } else {
      var n := |b| - 1;
      SamplesConcat(a, b[..n]);
      assert (a + b)[..|a + b| - 1] == a + b[..n];
    }
  }

  /** Position of the latest event that started a cycle; -1 if there is none. */
  function LastStart(conf: Conf, strategy: Strategy, es: seq<Event>): (i: int)
    ensures -1 <= i < |es|
  {
    if es == [] then -1
    else if OutcomeAt(conf, strategy, es, |es| - 1).started then |es| - 1
    else LastStart(conf, strategy, es[..|es| - 1])
  }

  /** The energy figures of an active cycle are up to date. */
  ghost predicate Settled(conf: Conf, s: State)
  {
    InProgress(s) ==> Figures(conf, s)
  }

  ghost predicate Figures(conf: Conf, s: State)
    requires s.cycle.Some?
  {
    s.cycle.value.energy.integrated == IntegratedSince(conf, s) && s.cycle.value.energy.reported == Consumed(s.session)
  }

  lemma SignalAccounts(conf: Conf, s: State, sig: H.Signal, quiet: bool)
    requires Ok(conf, s) && HasCycles(conf.cls)
    ensures var (t, edge) := OnSignal(conf, s, sig, quiet);
            && t.samples == s.samples
            && (edge.Started? ==> InProgress(t) && t.base == t.samples && t.cycle.value.startedAt == sig.at)
            && (!edge.Started? ==> t.base == s.base && t.session == s.session)
            && (edge.NoEdge? ==> t.cycle == s.cycle)
            && (edge.Finished? ==> !InProgress(t) && FinishedWell(conf, s, t, sig.at))
  {
    var (h, edge) := H.Step(WindowsOf(conf), Side(s), sig);
    if edge.NoEdge? && !InCycle(s.activity) {
      SettleLifecycle(conf, s.(cand := h.cand), quiet);
    }
  }

  ghost predicate FinishedWell(conf: Conf, s: State, t: State, at: int) {
    && s.cycle.Some? && t.cycle.Some?
    && t.cycle.value.startedAt == s.cycle.value.startedAt
    && t.cycle.value.finishedAt == Some(at)
    && t.cycle.value.durationSeconds == Seconds(at - t.cycle.value.startedAt)
    && Figures(conf, t)
  }

  /** What one event does to the books. */
  ghost predicate Books(conf: Conf, s: State, t: State, o: Outcome, e: Event)
  {
    && t.samples == s.samples + Samples([e])
    && (o.started ==> e.Observe? && InProgress(t) && t.base == t.samples && t.cycle.value.startedAt == e.at)
    && (!o.started ==> t.base == s.base && t.cycle.Some? == s.cycle.Some?
                       && (t.cycle.Some? ==> t.cycle.value.startedAt == s.cycle.value.startedAt))
    && (Settled(conf, s) ==> Settled(conf, t))
    && (o.finished ==> e.Observe? && FinishedWell(conf, s, t, e.at))
  }

  lemma ObserveAccounts(conf: Conf, s: State, at: int, r: Reading)
    requires Ok(conf, s)
    ensures var (t, o) := OnReading(conf, s, at, r);
            Books(conf, s, t, o, Observe(at, r))
  {
    var e := Observe(at, r);
    assert [e][..0] == [];
    var a := Absorb(s, at, r);
    var sig := SignalOf(conf, at, r);
    assert a.samples == s.samples + Samples([e]);
    assert Ok(conf, a);
    if !IsPassive(conf.cls) {
      if sig.Some? {
        SignalAccounts(conf, a, sig.value, Quiet(conf, r));
        SignalLifecycle(conf, a, sig.value, Quiet(conf, r));
        var t := OnSignal(conf, a, sig.value, Quiet(conf, r)).0;
        RefreshSettles(conf, t, at);
        assert sig.value.at == at;
      } else {
        RefreshSettles(conf, a, at);
      }
    }
  }

  lemma StepAccounts(conf: Conf, s: State, e: Event)
    requires Ok(conf, s)
    ensures var (t, o) := Apply(conf, s, e);
            Books(conf, s, t, o, e)
  {
    if e.Observe? {
      ObserveAccounts(conf, s, e.at, e.reading);
    } else {
      assert [e][..0] == [];
      assert s.samples + [] == s.samples;
    }
  }

  lemma RefreshSettles(conf: Conf, s: State, at: int)
    ensures var t := Refresh(conf, s, at);
            && Settled(conf, t)
            && t.(cycle := s.cycle) == s
            && InProgress(t) == InProgress(s)
            && t.cycle.Some? == s.cycle.Some?
            && (t.cycle.Some? ==> t.cycle.value.startedAt == s.cycle.value.startedAt
                                  && t.cycle.value.finishedAt == s.cycle.value.finishedAt)
            && (!InProgress(s) ==> t == s)
  {
  }

  /** The held cycle in terms of the history, i being the latest start (-1 if none). */
  ghost predicate Accounted(conf: Conf, es: seq<Event>, s: State, i: int) {
    && s.samples == Samples(es)
    && (s.cycle.Some? <==> i >= 0)
    && (i < 0 ==> s.base == [])
    && -1 <= i < |es|
    && (i >= 0 ==> es[i].Observe? && s.cycle.value.startedAt == es[i].at && s.base == Samples(es[..i + 1]))
    && Settled(conf, s)
  }

  lemma AccountOn(conf: Conf, es: seq<Event>, s: State, i: int, e: Event)
    requires Ok(conf, s) && Accounted(conf, es, s, i)
    ensures var (t, o) := Apply(conf, s, e);
            Accounted(conf, es + [e], t, if o.started then |es| else i)
  {
    StepAccounts(conf, s, e);
    SamplesConcat(es, [e]);
    assert (es + [e])[..|es| + 1] == es + [e];
    if 0 <= i {
      assert (es + [e])[..i + 1] == es[..i + 1];
    }
  }

  lemma {:induction false} RunAccounts(conf: Conf, strategy: Strategy, es: seq<Event>)
    ensures Accounted(conf, es, Run(conf, strategy, es), LastStart(conf, strategy, es))
  {
    if es != [] {
      var before := es[..|es| - 1];
      RunAccounts(conf, strategy, before);
      RunOk(conf, strategy, before);
      AccountOn(conf, before, Run(conf, strategy, before), LastStart(conf, strategy, before), es[|es| - 1]);
      assert es == before + [es[|es| - 1]];
    }
  }

  predicate PowerClass(c: Class) { c.ShortBurst? || c.CyclePower? || c.Continuous? || c.Media? }

  function NotNegative(x: real): real { if x < 0.0 then 0.0 else x }

  /** c is the cycle of events i..j: its times are theirs and its integrated energy is the
      trapezoid sum over exactly the consecutive samples from i's to j's. */
  ghost predicate SpansCycle(conf: Conf, es: seq<Event>, i: int, j: nat, c: Option<Cycle>)
    requires j < |es|
  {
    && 0 <= i < j && Powered(es[i]) && Powered(es[j]) && c.Some?
    && c.value.startedAt == es[i].at
    && c.value.finishedAt == Some(es[j].at)
    && c.value.durationSeconds == Seconds(es[j].at - es[i].at)
    && var span := Samples(es[i..j + 1]);
       && span != []
       && span[0] == Sample(es[i].at, es[i].reading.powerW.value)
       && span[|span| - 1] == Sample(es[j].at, es[j].reading.powerW.value)
       && c.value.energy.integrated == NotNegative(KWh(conf.maxGap, span))
  }

  predicate Powered(e: Event) { e.Observe? && e.reading.powerW.Some? }

  /** Whatever finishes a power device's cycle, the record spans its latest start to this event. */
  lemma CycleEnergyIsItsSpan(conf: Conf, strategy: Strategy, es: seq<Event>, j: nat)
    requires j < |es| && OutcomeAt(conf, strategy, es, j).finished && PowerClass(conf.cls)
    ensures SpansCycle(conf, es, LastStart(conf, strategy, es[..j]), j, Run(conf, strategy, es[..j + 1]).cycle)
  {
    var before := es[..j];
    assert es[..j + 1][..j] == before;
    RunAccounts(conf, strategy, before);
    RunOk(conf, strategy, before);
    StartCarriesPower(conf, strategy, es, before, j);
    FinishSpans(conf, es, j, LastStart(conf, strategy, before), Run(conf, strategy, before));
  }

  lemma FinishSpans(conf: Conf, es: seq<Event>, j: nat, i: nat, s: State)
    requires j < |es| && Ok(conf, s) && Accounted(conf, es[..j], s, i)
    requires Powered(es[i]) && Powered(es[j]) && Apply(conf, s, es[j]).1.finished
    ensures SpansCycle(conf, es, i, j, Apply(conf, s, es[j]).0.cycle)
  {
    StepAccounts(conf, s, es[j]);
    StepLifecycle(conf, s, es[j]);
    var (t, o) := Apply(conf, s, es[j]);
    BooksSpan(conf, es, j, i, s, t, o);
  }

  lemma BooksSpan(conf: Conf, es: seq<Event>, j: nat, i: nat, s: State, t: State, o: Outcome)
    requires j < |es| && Accounted(conf, es[..j], s, i)
    requires Books(conf, s, t, o, es[j]) && o.finished && !o.started
    requires Powered(es[i]) && Powered(es[j])
    ensures SpansCycle(conf, es, i, j, t.cycle)
  {
    SpanOfSamples(es, i, j);
    SpanEnds(es[i..j + 1]);
    SpanKWh(conf.maxGap, es, i, j, t.samples, t.base);
  }

  lemma SpanKWh(maxGap: int, es: seq<Event>, i: nat, j: nat, samples: seq<Sample>, base: seq<Sample>)
    requires i < j < |es| && Powered(es[i])
    requires samples == Samples(es[..i]) + Samples(es[i..j + 1])
    requires base == Samples(es[..i]) + [Sample(es[i].at, es[i].reading.powerW.value)]
    requires Samples(es[i..j + 1]) != [] && Samples(es[i..j + 1])[0] == Sample(es[i].at, es[i].reading.powerW.value)
    ensures KWh(maxGap, samples) - KWh(maxGap, base) == KWh(maxGap, Samples(es[i..j + 1]))
  {
    var m := |Samples(es[..i])|;
    KWhSplits(maxGap, samples, m);
    assert samples[..m + 1] == base;
    assert samples[m..] == Samples(es[i..j + 1]);
  }

  /** The samples up to event j, cut where event i's own sample begins. */
  lemma SpanOfSamples(es: seq<Event>, i: nat, j: nat)
    requires i < j < |es| && es[i].Observe? && es[i].reading.powerW.Some?
    ensures Samples(es[..j]) + Samples([es[j]]) == Samples(es[..i]) + Samples(es[i..j + 1])
    ensures Samples(es[..j][..i + 1]) == Samples(es[..i]) + [Sample(es[i].at, es[i].reading.powerW.value)]
  {
    assert es[..j + 1] == es[..i] + es[i..j + 1] == es[..j] + [es[j]];
    SamplesConcat(es[..i], es[i..j + 1]);
    SamplesConcat(es[..j], [es[j]]);
    assert es[..j][..i + 1] == es[..i] + [es[i]];
    SamplesConcat(es[..i], [es[i]]);
    OneSample(es[i]);
  }

  lemma SpanEnds(span: seq<Event>)
    requires |span| > 1
    requires span[0].Observe? && span[0].reading.powerW.Some?
    requires span[|span| - 1].Observe? && span[|span| - 1].reading.powerW.Some?
    ensures Samples(span) != []
    ensures Samples(span)[0] == Sample(span[0].at, span[0].reading.powerW.value)
    ensures Samples(span)[|Samples(span)| - 1] == Sample(span[|span| - 1].at, span[|span| - 1].reading.powerW.value)
  {
    assert span == [span[0]] + span[1..];
    SamplesConcat([span[0]], span[1..]);
    OneSample(span[0]);
  }

  lemma OneSample(e: Event)
    requires e.Observe? && e.reading.powerW.Some?
    ensures Samples([e]) == [Sample(e.at, e.reading.powerW.value)]
  {
    assert [e][..0] == [];
  }

  lemma StartCarriesPower(conf: Conf, strategy: Strategy, es: seq<Event>, before: seq<Event>, j: nat)
    requires j < |es| && before == es[..j] && OutcomeAt(conf, strategy, es, j).finished && PowerClass(conf.cls)
    ensures var i := LastStart(conf, strategy, before);
            0 <= i && es[i].Observe? && es[i].reading.powerW.Some? && es[j].Observe? && es[j].reading.powerW.Some?
  {
    RunOk(conf, strategy, before);
    RunAccounts(conf, strategy, before);
    StepLifecycle(conf, Run(conf, strategy, before), es[j]);
    StepSide(conf, Run(conf, strategy, before), es[j]);
    var i := LastStart(conf, strategy, before);
    LastStartIsStart(conf, strategy, before);
    RunOk(conf, strategy, before[..i]);
    StepSide(conf, Run(conf, strategy, before[..i]), before[i]);
  }

  lemma OutcomeIsLocal(conf: Conf, strategy: Strategy, es: seq<Event>, m: nat, k: nat)
    requires k < m <= |es|
    ensures OutcomeAt(conf, strategy, es[..m], k) == OutcomeAt(conf, strategy, es, k)
  {
    assert es[..m][..k] == es[..k];
  }

  lemma {:induction false} LastStartIsStart(conf: Conf, strategy: Strategy, es: seq<Event>)
    ensures LastStart(conf, strategy, es) >= 0 ==> OutcomeAt(conf, strategy, es, LastStart(conf, strategy, es)).started
  {
    if es != [] && !OutcomeAt(conf, strategy, es, |es| - 1).started {
      var n := |es| - 1;
      LastStartIsStart(conf, strategy, es[..n]);
      var i := LastStart(conf, strategy, es[..n]);
      if i >= 0 {
        OutcomeIsLocal(conf, strategy, es, n, i);
      }
    }
  }
}
