/** internal/energy: the trapezoid integrator, the resettable counter and the choice
    between the two. The classes keep a ghost history; `Valid` ties their few fields to
    functions of that history. */
module Energy {
  import opened Common

  // ---------------------------------------------------------------- integration

  datatype Sample = Sample(at: int, watts: real)

  const NS_PER_HOUR: real := 3600000000000.0

  function Hours(d: int): real { d as real / NS_PER_HOUR }

  /** A pair contributes when time moves forward by no more than the clamp. */
  predicate Counts(maxGap: int, a: Sample, b: Sample) {
    0 < b.at - a.at && (maxGap > 0 ==> b.at - a.at <= maxGap)
  }

  predicate Clamps(maxGap: int, a: Sample, b: Sample) {
    0 < b.at - a.at && maxGap > 0 && b.at - a.at > maxGap
  }

  function PairKWh(maxGap: int, a: Sample, b: Sample): real {
    if Counts(maxGap, a, b) then (a.watts + b.watts) / 2.0 * Hours(b.at - a.at) / 1000.0 else 0.0
  }

  /** Energy of a whole history: the sum over its consecutive pairs. */
  function KWh(maxGap: int, s: seq<Sample>): real {
    if |s| < 2 then 0.0
    else KWh(maxGap, s[..|s| - 1]) + PairKWh(maxGap, s[|s| - 2], s[|s| - 1])
  }

  function Gaps(maxGap: int, s: seq<Sample>): nat {
    if |s| < 2 then 0
    else Gaps(maxGap, s[..|s| - 1]) + if Clamps(maxGap, s[|s| - 2], s[|s| - 1]) then 1 else 0
  }

  ghost predicate Ordered(s: seq<Sample>) { forall i, j :: 0 <= i <= j < |s| ==> s[i].at <= s[j].at }

  ghost predicate NonNegative(s: seq<Sample>) { forall i :: 0 <= i < |s| ==> s[i].watts >= 0.0 }

  ghost predicate Within(s: seq<Sample>, p: real) { forall i :: 0 <= i < |s| ==> -p <= s[i].watts <= p }

  class Integrator {
    const maxGap: int
    var lastWatts: Option<real>
    var lastAt: int
    var total: real
    var gaps: nat
    ghost var samples: seq<Sample>

    ghost predicate Valid()
      reads this
    {
      && (lastWatts.None? <==> samples == [])
      && (samples != [] ==> Sample(lastAt, lastWatts.value) == samples[|samples| - 1])
      && total == KWh(maxGap, samples)
      && gaps == Gaps(maxGap, samples)
    }

    constructor (maxGap: int)
      ensures Valid() && samples == [] && this.maxGap == maxGap
    {
      this.maxGap := maxGap;
      lastWatts, lastAt, total, gaps := None, 0, 0.0, 0;
      samples := [];
    }

    method Update(at: int, watts: real)
      requires Valid()
      modifies this
      ensures Valid() && samples == old(samples) + [Sample(at, watts)]
    {
      ghost var next := samples + [Sample(at, watts)];
      assert next[..|next| - 1] == samples;
      samples := next;
      if lastWatts.None? {
        lastWatts, lastAt := Some(watts), at;
        return;
      }
      var dt := at - lastAt;
      if dt <= 0 {
        lastWatts, lastAt := Some(watts), at;
        return;
      }
      if maxGap > 0 && dt > maxGap {
        gaps := gaps + 1;
        lastWatts, lastAt := Some(watts), at;
        return;
      }
      var avgW := (lastWatts.value + watts) / 2.0;
      total := total + avgW * Hours(dt) / 1000.0;
      lastWatts, lastAt := Some(watts), at;
    }

    method Reset()
      modifies this
      ensures Valid() && samples == []
    {
      lastWatts, lastAt, total, gaps := None, 0, 0.0, 0;
      samples := [];
    }
  }

  lemma MulMono(a: real, b: real, c: real)
    requires a <= b && c >= 0.0
    ensures a * c <= b * c
  {
  }

  /** Cutting a history at a sample both parts keep loses nothing and counts nothing twice. */
  lemma {:induction false} KWhSplits(maxGap: int, s: seq<Sample>, i: nat)
    requires i < |s|
    ensures KWh(maxGap, s) == KWh(maxGap, s[..i + 1]) + KWh(maxGap, s[i..])
    decreases |s| - i
  {
    if i == |s| - 1 {
      assert s[..i + 1] == s;
    } else {
      var t, u := s[..|s| - 1], s[i..];
      KWhSplits(maxGap, t, i);
      assert t[..i + 1] == s[..i + 1];
      assert t[i..] == u[..|u| - 1];
      assert u[|u| - 2] == s[|s| - 2] && u[|u| - 1] == s[|s| - 1];
    }
  }

  lemma PairNonNegative(maxGap: int, a: Sample, b: Sample)
    requires a.watts >= 0.0 && b.watts >= 0.0
    ensures PairKWh(maxGap, a, b) >= 0.0
  {
    if Counts(maxGap, a, b) {
      MulMono(0.0, (a.watts + b.watts) / 2.0, Hours(b.at - a.at));
    }
  }

  lemma {:induction false} KWhNonNegative(maxGap: int, s: seq<Sample>)
    requires NonNegative(s)
    ensures KWh(maxGap, s) >= 0.0
  {
    if |s| >= 2 {
      KWhNonNegative(maxGap, s[..|s| - 1]);
      PairNonNegative(maxGap, s[|s| - 2], s[|s| - 1]);
    }
  }

  /** With non-negative power the running total only grows. */
  lemma KWhGrows(maxGap: int, s: seq<Sample>, i: nat)
    requires i <= |s| && NonNegative(s)
    ensures KWh(maxGap, s[..i]) <= KWh(maxGap, s)
  {
    if i == 0 {
      KWhNonNegative(maxGap, s);
    } else {
      KWhSplits(maxGap, s, i - 1);
      KWhNonNegative(maxGap, s[i - 1..]);
    }
  }

  /** The energy of constant power p over duration d. */
  function Steady(p: real, d: int): real { p * Hours(d) / 1000.0 }

  lemma PairWithin(maxGap: int, a: Sample, b: Sample, p: real)
    requires a.at <= b.at && -p <= a.watts <= p && -p <= b.watts <= p
    ensures -Steady(p, b.at - a.at) <= PairKWh(maxGap, a, b) <= Steady(p, b.at - a.at)
  {
    var h, avg := Hours(b.at - a.at), (a.watts + b.watts) / 2.0;
    assert h >= 0.0;
    MulMono(avg, p, h);
    MulMono(-p, avg, h);
    MulMono(0.0, p, h);
  }

  lemma SteadyAdds(p: real, a: int, b: int)
    ensures Steady(p, a + b) == Steady(p, a) + Steady(p, b)
  {
    assert Hours(a + b) == Hours(a) + Hours(b);
    assert p * (Hours(a) + Hours(b)) == p * Hours(a) + p * Hours(b);
  }

  /** Power bounded by p over ordered samples integrates to at most p times the elapsed time,
      so no stretch of time is ever credited twice. */
  lemma {:induction false} KWhBounded(maxGap: int, s: seq<Sample>, p: real)
    requires s != [] && Ordered(s) && Within(s, p)
    ensures -Steady(p, s[|s| - 1].at - s[0].at) <= KWh(maxGap, s) <= Steady(p, s[|s| - 1].at - s[0].at)
  {
    if |s| >= 2 {
      var t, a, b := s[..|s| - 1], s[|s| - 2], s[|s| - 1];
      KWhBounded(maxGap, t, p);
      PairWithin(maxGap, a, b, p);
      BoundsAdd(p, a.at - s[0].at, b.at - a.at, KWh(maxGap, t), PairKWh(maxGap, a, b));
    }
  }

  lemma BoundsAdd(p: real, d: int, e: int, x: real, y: real)
    requires -Steady(p, d) <= x <= Steady(p, d)
    requires -Steady(p, e) <= y <= Steady(p, e)
    ensures -Steady(p, d + e) <= x + y <= Steady(p, d + e)
  {
    SteadyAdds(p, d, e);
  }

  /** b and c are lockstep histories whose powers add up to those of a. */
  ghost predicate AddsUp(a: seq<Sample>, b: seq<Sample>, c: seq<Sample>) {
    && |a| == |b| == |c|
    && forall i :: 0 <= i < |a| ==> a[i].at == b[i].at == c[i].at && a[i].watts == b[i].watts + c[i].watts
  }

  lemma PairAdds(maxGap: int, a0: Sample, a1: Sample, b0: Sample, b1: Sample, c0: Sample, c1: Sample)
    requires a0.at == b0.at == c0.at && a1.at == b1.at == c1.at
    requires a0.watts == b0.watts + c0.watts && a1.watts == b1.watts + c1.watts
    ensures PairKWh(maxGap, a0, a1) == PairKWh(maxGap, b0, b1) + PairKWh(maxGap, c0, c1)
  {
    var h := Hours(a1.at - a0.at);
    var x, y := (b0.watts + b1.watts) / 2.0, (c0.watts + c1.watts) / 2.0;
    assert (a0.watts + a1.watts) / 2.0 == x + y;
    assert (x + y) * h == x * h + y * h;
  }

  lemma {:induction false} KWhAdds(maxGap: int, a: seq<Sample>, b: seq<Sample>, c: seq<Sample>)
    requires AddsUp(a, b, c)
    ensures KWh(maxGap, a) == KWh(maxGap, b) + KWh(maxGap, c)
  {
    var n := |a|;
    if n >= 2 {
      KWhAdds(maxGap, a[..n - 1], b[..n - 1], c[..n - 1]);
      PairAdds(maxGap, a[n - 2], a[n - 1], b[n - 2], b[n - 1], c[n - 2], c[n - 1]);
    }
  }

  // ---------------------------------------------------------------- units

  /** What two samples enclose: nothing when time stands still, runs back or leaves too wide a gap,
      else the trapezoid under them. With KWhSplits this fixes the energy of every history. */
  lemma PairEncloses(maxGap: int, a: Sample, b: Sample)
    ensures KWh(maxGap, [a, b])
            == if b.at <= a.at || (maxGap > 0 && b.at - a.at > maxGap) then 0.0
               else (a.watts + b.watts) * (b.at - a.at) as real / (2.0 * 3_600_000_000_000_000.0)
  {
    assert [a, b][..1] == [a];
    assert KWh(maxGap, [a, b]) == PairKWh(maxGap, a, b);
    var d := (b.at - a.at) as real;
    assert (a.watts + b.watts) / 2.0 * (d / 3600000000000.0) / 1000.0
           == (a.watts + b.watts) * d / (2.0 * 3_600_000_000_000_000.0);
  }

  /** The interval before sample i is wider than a positive maximum. */
  predicate IsWide(maxGap: int, s: seq<Sample>, i: nat)
    requires 1 <= i < |s|
  {
    0 < maxGap < s[i].at - s[i - 1].at
  }

  /** Those and no others are the refused ones. */
  lemma {:induction false} GapsAreCounted(maxGap: int, s: seq<Sample>)
    ensures Gaps(maxGap, s) == |set i: nat | 1 <= i < |s| && IsWide(maxGap, s, i)|
  {
    var wide := set i: nat | 1 <= i < |s| && IsWide(maxGap, s, i);
    if |s| >= 2 {
      var t, n := s[..|s| - 1], |s| - 1;
      GapsAreCounted(maxGap, t);
      var before := set i: nat | 1 <= i < |t| && IsWide(maxGap, t, i);
      assert forall i: nat :: 1 <= i < n ==> IsWide(maxGap, s, i) == IsWide(maxGap, t, i);
      assert wide == before + if IsWide(maxGap, s, n) then {n} else {};
    } else {
      assert wide == {};
    }
  }

  /** Power on a straight line, a watts at first and b more each nanosecond. */
  ghost predicate OnLine(s: seq<Sample>, a: real, b: real) {
    forall i :: 0 <= i < |s| ==> s[i].watts == a + b * (s[i].at - s[0].at) as real
  }

  predicate IsJoined(maxGap: int, a: Sample, b: Sample) { a.at < b.at && (maxGap > 0 ==> b.at - a.at <= maxGap) }

  ghost predicate Unclamped(maxGap: int, s: seq<Sample>) {
    forall i: nat :: i + 1 < |s| ==> IsJoined(maxGap, s[i], s[i + 1])
  }

  /** The energy under the line up to x nanoseconds. */
  function UnderLine(a: real, b: real, x: real): real { (2.0 * a * x + b * x * x) / (2.0 * 3_600_000_000_000_000.0) }

  lemma Strip(a: real, b: real, x: real, y: real)
    ensures ((a + b * x) + (a + b * y)) * (y - x) == (2.0 * a * y + b * y * y) - (2.0 * a * x + b * x * x)
  {
    assert ((a + b * x) + (a + b * y)) * (y - x) == 2.0 * a * (y - x) + b * ((x + y) * (y - x));
    assert (x + y) * (y - x) == y * y - x * x;
  }

  lemma PairOnLine(maxGap: int, p: Sample, q: Sample, a: real, b: real, x: real, y: real)
    requires IsJoined(maxGap, p, q) && (q.at - p.at) as real == y - x
    requires p.watts == a + b * x && q.watts == a + b * y
    ensures KWh(maxGap, [p, q]) == UnderLine(a, b, y) - UnderLine(a, b, x)
  {
    PairEncloses(maxGap, p, q);
    Strip(a, b, x, y);
  }

  lemma {:induction false} KWhTelescopes(maxGap: int, s: seq<Sample>, f: seq<real>)
    requires s != [] && |f| == |s|
    requires forall i: nat :: i + 1 < |s| ==> KWh(maxGap, [s[i], s[i + 1]]) == f[i + 1] - f[i]
    ensures KWh(maxGap, s) == f[|s| - 1] - f[0]
  {
    if |s| >= 2 {
      var n := |s| - 2;
      KWhTelescopes(maxGap, s[..n + 1], f[..n + 1]);
      KWhSplits(maxGap, s, n);
      assert s[n..] == [s[n], s[n + 1]];
    }
  }

  /** For power on a line the sum is exact, however often it was sampled. */
  lemma {:induction false} LineIsExact(maxGap: int, s: seq<Sample>, a: real, b: real)
    requires s != [] && OnLine(s, a, b) && Unclamped(maxGap, s)
    ensures KWh(maxGap, s) == UnderLine(a, b, (s[|s| - 1].at - s[0].at) as real)
  {
    var f := seq(|s|, i requires 0 <= i < |s| => UnderLine(a, b, (s[i].at - s[0].at) as real));
    forall i: nat | i + 1 < |s| ensures KWh(maxGap, [s[i], s[i + 1]]) == f[i + 1] - f[i] {
      PairOnLine(maxGap, s[i], s[i + 1], a, b, (s[i].at - s[0].at) as real, (s[i + 1].at - s[0].at) as real);
    }
    KWhTelescopes(maxGap, s, f);
    NothingUnderLine(a, b);
  }

  lemma NothingUnderLine(a: real, b: real)
    ensures UnderLine(a, b, 0.0) == 0.0
  {
  }

  // ---------------------------------------------------------------- counter

  function MinOf(s: seq<real>): real
    requires s != []
  {
    if |s| == 1 then s[0] else RealMin(MinOf(s[..|s| - 1]), s[|s| - 1])
  }

  lemma {:induction false} MinOfIsLeast(s: seq<real>)
    requires s != []
    ensures MinOf(s) in s
    ensures forall i :: 0 <= i < |s| ==> MinOf(s) <= s[i]
  {
    if |s| > 1 {
      MinOfIsLeast(s[..|s| - 1]);
    }
  }

  lemma {:induction false} MinOfSorted(s: seq<real>)
    requires s != [] && forall i, j :: 0 <= i <= j < |s| ==> s[i] <= s[j]
    ensures MinOf(s) == s[0]
  {
    MinOfIsLeast(s);
  }

  /** What a session of counter values consumed: the latest value above the lowest one. */
  function Consumed(session: seq<real>): real {
    if session == [] then 0.0 else session[|session| - 1] - MinOf(session)
  }

  function Rebaselined(session: seq<real>): seq<real> {
    if session == [] then [] else [session[|session| - 1]]
  }

  class Counter {
    var baseline: Option<real>
    var latest: Option<real>
    ghost var session: seq<real>  // the values since the baseline was last set, it included

    ghost predicate Valid()
      reads this
    {
      && (baseline.None? <==> session == [])
      && (latest.None? <==> session == [])
      && (session != [] ==> baseline.value == MinOf(session) && latest.value == session[|session| - 1])
    }

    constructor ()
      ensures Valid() && session == []
    {
      baseline, latest, session := None, None, [];
    }

    method SetBaseline(v: real)
      modifies this
      ensures Valid() && session == [v]
    {
      baseline, latest, session := Some(v), Some(v), [v];
    }

    method Update(v: real)
      requires Valid()
      modifies this
      ensures Valid() && session == old(session) + [v]
    {
      ghost var next := session + [v];
      assert next[..|next| - 1] == session;
      session := next;
      if baseline.None? {
        baseline := Some(v);
      }
      if v < baseline.value {
        baseline := Some(v);
      }
      latest := Some(v);
    }

    method Delta() returns (d: real)
      requires Valid()
      ensures d == Consumed(session) && d >= 0.0
    {
      if session != [] {
        MinOfIsLeast(session);
      }
      if baseline.None? || latest.None? {
        return 0.0;
      }
      d := latest.value - baseline.value;
      if d < 0.0 {
        return 0.0;
      }
    }

    method RebaselineAtLatest()
      requires Valid()
      modifies this
      ensures Valid() && session == Rebaselined(old(session))
    {
      if latest.None? {
        return;
      }
      baseline := latest;
      session := [latest.value];
    }
  }

  // ---------------------------------------------------------------- strategy

  datatype Strategy = CounterFirst | IntegrationFirst | Unset

  datatype Source = NoSource | FromCounter | FromIntegration

  function SelectKWh(strategy: Strategy, counter: real, integrated: real): (real, Source) {
    match strategy
    case CounterFirst =>
      if counter > 0.0 then (counter, FromCounter)
      else if integrated > 0.0 then (integrated, FromIntegration)
      else (0.0, FromCounter)
    case IntegrationFirst =>
      if integrated > 0.0 then (integrated, FromIntegration)
      else if counter > 0.0 then (counter, FromCounter)
      else (0.0, FromIntegration)
    case Unset =>
      if counter >= integrated then (counter, FromCounter) else (integrated, FromIntegration)
  }

  /** The selection never invents energy, and reports nothing only when both paths are silent. */
  lemma SelectionIsHonest(strategy: Strategy, counter: real, integrated: real)
    requires counter >= 0.0 && integrated >= 0.0
    ensures var (kwh, source) := SelectKWh(strategy, counter, integrated);
            && source != NoSource
            && kwh == (if source == FromCounter then counter else integrated)
            && (kwh == 0.0 <==> counter == 0.0 && integrated == 0.0)
  {
  }
}
