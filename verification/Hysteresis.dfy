/** The debouncing shared by all behaviours of internal/device/statemachine.go: a small
    automaton that remembers one pending timestamp, and what it means in terms of the whole
    signal history. Timestamps need not be ordered. */
module Hysteresis {
  import opened Common

  /** One reading as the machine sees it: does it speak for being on, for being off? */
  datatype Signal = Signal(at: int, high: bool, low: bool)

  datatype Windows = Windows(rise: int, fall: int)

  datatype State = State(on: bool, cand: Option<int>)

  datatype Edge = NoEdge | Started | Finished

  function Window(w: Windows, on: bool): int { if on then w.fall else w.rise }

  /** The signal speaks for leaving the current side. */
  predicate Pulls(on: bool, s: Signal) { if on then s.low else s.high }

  function Step(w: Windows, st: State, s: Signal): (State, Edge) {
    if !Pulls(st.on, s) then (State(st.on, None), NoEdge)
    else
      var first := if st.cand.Some? then st.cand.value else s.at;
      if s.at - first >= Window(w, st.on) then (State(!st.on, None), if st.on then Finished else Started)
      else (State(st.on, Some(first)), NoEdge)
  }

  function Run(w: Windows, sigs: seq<Signal>): State {
    if sigs == [] then State(false, None)
    else Step(w, Run(w, sigs[..|sigs| - 1]), sigs[|sigs| - 1]).0
  }

  /** Positions at which the automaton changed side, in order. */
  function Switches(w: Windows, sigs: seq<Signal>): seq<nat> {
    if sigs == [] then []
    else
      var before := sigs[..|sigs| - 1];
      Switches(w, before)
      + if Step(w, Run(w, before), sigs[|sigs| - 1]).1.NoEdge? then [] else [|sigs| - 1]
  }

  // ------------------------------------------------------------ the declarative reading

  /** k starts the unbroken run of pulling signals that reaches n, looking no further back than `from`. */
  predicate RunsFrom(sigs: seq<Signal>, from: nat, on: bool, k: nat, n: nat) {
    && from <= k <= n < |sigs|
    && (forall i :: k <= i <= n ==> Pulls(on, sigs[i]))
    && (k == from || !Pulls(on, sigs[k - 1]))
  }

  /** The unbroken run reaching n began at least the sustained window before n. */
  ghost predicate Due(w: Windows, sigs: seq<Signal>, from: nat, on: bool, n: nat) {
    exists k: nat :: RunsFrom(sigs, from, on, k, n) && sigs[n].at - sigs[k].at >= Window(w, on)
  }

  function Since(sw: seq<nat>, j: nat): nat
    requires j <= |sw|
  {
    if j == 0 then 0 else sw[j - 1] + 1
  }

  /** n is the first signal due at or after `from`. */
  ghost predicate FirstDue(w: Windows, sigs: seq<Signal>, from: nat, on: bool, n: nat) {
    && from <= n < |sigs|
    && Due(w, sigs, from, on, n)
    && NoneDue(w, sigs, from, on, n)
  }

  ghost predicate NoneDue(w: Windows, sigs: seq<Signal>, from: nat, on: bool, end: nat) {
    forall n: nat :: from <= n < end ==> !Due(w, sigs, from, on, n)
  }

  ghost predicate SwitchesOnTime(w: Windows, sigs: seq<Signal>, sw: seq<nat>, j: nat)
    requires j < |sw|
  {
    FirstDue(w, sigs, Since(sw, j), j % 2 == 1, sw[j])
  }

  ghost predicate AllOnTime(w: Windows, sigs: seq<Signal>, sw: seq<nat>) {
    forall j: nat :: j < |sw| ==> SwitchesOnTime(w, sigs, sw, j)
  }

  /** sw is the history's schedule: each switch is the first signal due since the previous
      switch, and nothing is due after the last one. */
  ghost predicate IsSchedule(w: Windows, sigs: seq<Signal>, sw: seq<nat>) {
    && AllOnTime(w, sigs, sw)
    && NoneDue(w, sigs, Since(sw, |sw|), |sw| % 2 == 1, |sigs|)
  }

  /** The pending timestamp is exactly that of the first signal of the current run. */
  ghost predicate IsPending(sigs: seq<Signal>, from: nat, on: bool, cand: Option<int>) {
    match cand
    case None => |sigs| <= from || !Pulls(on, sigs[|sigs| - 1])
    case Some(at) => sigs != [] && exists k: nat :: RunsFrom(sigs, from, on, k, |sigs| - 1) && sigs[k].at == at
  }

  lemma RunStartUnique(sigs: seq<Signal>, from: nat, on: bool, k: nat, l: nat, n: nat)
    requires RunsFrom(sigs, from, on, k, n) && RunsFrom(sigs, from, on, l, n)
    ensures k == l
  {
  }

  lemma DueIsLocal(w: Windows, sigs: seq<Signal>, m: nat, from: nat, on: bool, n: nat)
    requires n < m <= |sigs|
    ensures Due(w, sigs[..m], from, on, n) <==> Due(w, sigs, from, on, n)
  {
    var t := sigs[..m];
    if Due(w, t, from, on, n) {
      var k: nat :| RunsFrom(t, from, on, k, n) && t[n].at - t[k].at >= Window(w, on);
      assert RunsFrom(sigs, from, on, k, n);
    }
    if Due(w, sigs, from, on, n) {
      var k: nat :| RunsFrom(sigs, from, on, k, n) && sigs[n].at - sigs[k].at >= Window(w, on);
      assert RunsFrom(t, from, on, k, n);
    }
  }

  /** The run reaching the newest signal starts where the pending one did, or right there. */
  lemma RunReachesNewest(sigs: seq<Signal>, from: nat, on: bool, cand: Option<int>, n: nat) returns (k: nat)
    requires |sigs| == n + 1 && from <= n && Pulls(on, sigs[n])
    requires IsPending(sigs[..n], from, on, cand)
    ensures RunsFrom(sigs, from, on, k, n)
    ensures sigs[k].at == if cand.Some? then cand.value else sigs[n].at
  {
    if cand.Some? {
      k :| RunsFrom(sigs[..n], from, on, k, n - 1) && sigs[..n][k].at == cand.value;
      assert forall i :: k <= i < n ==> Pulls(on, sigs[..n][i]);
    } else {
      k := n;
    }
  }

  /** One step decides exactly whether the newest signal is due, and keeps the pending time right. */
  lemma StepDecides(w: Windows, sigs: seq<Signal>, from: nat, st: State, n: nat)
    requires |sigs| == n + 1 && from <= n && IsPending(sigs[..n], from, st.on, st.cand)
    ensures var (next, edge) := Step(w, st, sigs[n]);
            && (edge.NoEdge? <==> !Due(w, sigs, from, st.on, n))
            && (edge.NoEdge? ==> next.on == st.on && IsPending(sigs, from, st.on, next.cand))
            && (!edge.NoEdge? ==> next == State(!st.on, None))
  {
    if Pulls(st.on, sigs[n]) {
      var k := RunReachesNewest(sigs, from, st.on, st.cand, n);
      forall l: nat | RunsFrom(sigs, from, st.on, l, n) ensures l == k {
        RunStartUnique(sigs, from, st.on, k, l, n);
      }
    }
  }

  lemma FirstDueIsLocal(w: Windows, sigs: seq<Signal>, m: nat, from: nat, on: bool, n: nat)
    requires m <= |sigs| && FirstDue(w, sigs[..m], from, on, n)
    ensures FirstDue(w, sigs, from, on, n)
  {
    DueIsLocal(w, sigs, m, from, on, n);
    NoneDueIsLocal(w, sigs, m, from, on, n);
  }

  lemma NoneDueIsLocal(w: Windows, sigs: seq<Signal>, m: nat, from: nat, on: bool, end: nat)
    requires end <= m <= |sigs| && NoneDue(w, sigs[..m], from, on, end)
    ensures NoneDue(w, sigs, from, on, end)
  {
    forall n: nat | from <= n < end ensures !Due(w, sigs, from, on, n) {
      DueIsLocal(w, sigs, m, from, on, n);
    }
  }

  /** st is where the automaton stands after a history whose schedule is sw. */
  ghost predicate Tracks(w: Windows, sigs: seq<Signal>, sw: seq<nat>, st: State) {
    && IsSchedule(w, sigs, sw)
    && Since(sw, |sw|) <= |sigs|
    && st.on == (|sw| % 2 == 1)
    && IsPending(sigs, Since(sw, |sw|), st.on, st.cand)
  }

  lemma ScheduleGrows(w: Windows, sigs: seq<Signal>, sw: seq<nat>, n: nat)
    requires |sigs| == n + 1 && IsSchedule(w, sigs[..n], sw) && Since(sw, |sw|) <= n
    ensures AllOnTime(w, sigs, sw)
    ensures NoneDue(w, sigs, Since(sw, |sw|), |sw| % 2 == 1, n)
  {
    forall j: nat | j < |sw| ensures SwitchesOnTime(w, sigs, sw, j) {
      assert SwitchesOnTime(w, sigs[..n], sw, j);
      FirstDueIsLocal(w, sigs, n, Since(sw, j), j % 2 == 1, sw[j]);
    }
    NoneDueIsLocal(w, sigs, n, Since(sw, |sw|), |sw| % 2 == 1, n);
  }

  lemma OnTimeSurvives(w: Windows, sigs: seq<Signal>, sw: seq<nat>, n: nat, j: nat)
    requires j < |sw| && SwitchesOnTime(w, sigs, sw, j)
    ensures SwitchesOnTime(w, sigs, sw + [n], j)
  {
    assert Since(sw + [n], j) == Since(sw, j);
  }

  lemma SwitchNow(w: Windows, sigs: seq<Signal>, sw: seq<nat>, n: nat)
    requires |sigs| == n + 1 && Since(sw, |sw|) <= n
    requires AllOnTime(w, sigs, sw) && NoneDue(w, sigs, Since(sw, |sw|), |sw| % 2 == 1, n)
    requires Due(w, sigs, Since(sw, |sw|), |sw| % 2 == 1, n)
    ensures IsSchedule(w, sigs, sw + [n])
  {
    var next := sw + [n];
    forall j: nat | j < |next| ensures SwitchesOnTime(w, sigs, next, j) {
      if j < |sw| {
        OnTimeSurvives(w, sigs, sw, n, j);
      } else {
        assert Since(next, j) == Since(sw, |sw|);
      }
    }
  }

  lemma TracksOn(w: Windows, sigs: seq<Signal>, sw: seq<nat>, st: State, n: nat)
    requires |sigs| == n + 1 && Tracks(w, sigs[..n], sw, st)
    ensures var (next, edge) := Step(w, st, sigs[n]);
            Tracks(w, sigs, sw + (if edge.NoEdge? then [] else [n]), next)
  {
    StepDecides(w, sigs, Since(sw, |sw|), st, n);
    var (next, edge) := Step(w, st, sigs[n]);
    if edge.NoEdge? {
      TracksQuietly(w, sigs, sw, st, next, n);
      assert sw + [] == sw;
    } else {
      ScheduleGrows(w, sigs, sw, n);
      SwitchNow(w, sigs, sw, n);
      assert Since(sw + [n], |sw| + 1) == n + 1;
    }
  }

  lemma TracksQuietly(w: Windows, sigs: seq<Signal>, sw: seq<nat>, st: State, next: State, n: nat)
    requires |sigs| == n + 1 && Tracks(w, sigs[..n], sw, st) && next.on == st.on
    requires !Due(w, sigs, Since(sw, |sw|), st.on, n)
    requires IsPending(sigs, Since(sw, |sw|), st.on, next.cand)
    ensures Tracks(w, sigs, sw, next)
  {
    ScheduleGrows(w, sigs, sw, n);
    NoneDueGrows(w, sigs, Since(sw, |sw|), st.on, n);
  }

  lemma NoneDueGrows(w: Windows, sigs: seq<Signal>, from: nat, on: bool, n: nat)
    requires NoneDue(w, sigs, from, on, n) && !Due(w, sigs, from, on, n)
    ensures NoneDue(w, sigs, from, on, n + 1)
  {
  }

  /** The automaton's switches are the schedule, its side is their parity and its one
      remembered timestamp starts the current run. */
  lemma {:induction false} SwitchesAreTheSchedule(w: Windows, sigs: seq<Signal>)
    ensures Tracks(w, sigs, Switches(w, sigs), Run(w, sigs))
  {
    if sigs != [] {
      var n := |sigs| - 1;
      SwitchesAreTheSchedule(w, sigs[..n]);
      TracksOn(w, sigs, Switches(w, sigs[..n]), Run(w, sigs[..n]), n);
    }
  }

  lemma {:induction false} SwitchesInside(w: Windows, sigs: seq<Signal>)
    ensures forall n :: n in Switches(w, sigs) ==> n < |sigs|
  {
    if sigs != [] {
      SwitchesInside(w, sigs[..|sigs| - 1]);
    }
  }

  /** A history has one schedule. */
  lemma {:induction false} ScheduleUnique(w: Windows, sigs: seq<Signal>, a: seq<nat>, b: seq<nat>)
    requires IsSchedule(w, sigs, a) && IsSchedule(w, sigs, b)
    ensures a == b
  {
    var m := if |a| <= |b| then |a| else |b|;
    AgreeUpTo(w, sigs, a, b, m);
    SameSince(a, b, m);
    NextIsDue(w, sigs, a, m);
    NextIsDue(w, sigs, b, m);
    assert |a| == m == |b|;
    assert a == a[..m] && b == b[..m];
  }

  lemma NextIsDue(w: Windows, sigs: seq<Signal>, sw: seq<nat>, m: nat)
    requires IsSchedule(w, sigs, sw) && m <= |sw|
    ensures m < |sw| <==> !NoneDue(w, sigs, Since(sw, m), m % 2 == 1, |sigs|)
  {
    if m < |sw| {
      assert SwitchesOnTime(w, sigs, sw, m);
    }
  }

  lemma SameSince(a: seq<nat>, b: seq<nat>, m: nat)
    requires m <= |a| && m <= |b| && a[..m] == b[..m]
    ensures Since(a, m) == Since(b, m)
  {
    if m > 0 {
      assert a[m - 1] == a[..m][m - 1] == b[..m][m - 1] == b[m - 1];
    }
  }

  lemma {:induction false} AgreeUpTo(w: Windows, sigs: seq<Signal>, a: seq<nat>, b: seq<nat>, m: nat)
    requires IsSchedule(w, sigs, a) && IsSchedule(w, sigs, b)
    requires m <= |a| && m <= |b|
    ensures a[..m] == b[..m]
  {
    if m > 0 {
      var j := m - 1;
      AgreeUpTo(w, sigs, a, b, j);
      SameSince(a, b, j);
      assert SwitchesOnTime(w, sigs, a, j) && SwitchesOnTime(w, sigs, b, j);
      assert a[j] == b[j];
    }
  }
}
