/** What the house derivation says of concrete devices, signals and instants (internal/state/house.go),
    and what the stored record remembers of a run of derivations (setHouse, internal/state/store.go). */
module HouseTheory {
  import opened Model
  import opened Signals
  import opened House

  // ------------------------------------------------------------ facts

  /** A device whose use shows that somebody is at home. */
  predicate TellsOccupancy(d: Device) {
    match d.cls
    case ShortBurst | CyclePower | Media | BinaryState => true
    case _ => false
  }

  predicate IsBusy(d: Device) {
    match d.activity
    case Active | Running | Starting | Finishing | FinishedRecently | ActiveCycle => true
    case _ => false
  }

  /** Compressor cycles run by themselves and do not count. */
  predicate CountsAsActive(d: Device) { d.cls != Continuous && IsBusy(d) }

  lemma KindsMean(ds: map<string, Device>, k: string)
    requires k in ds
    ensures k in Relevant(ds) <==> TellsOccupancy(ds[k])
    ensures IsActiveState(ds[k].activity) <==> IsBusy(ds[k])
    ensures k in ActiveIDs(ds) <==> CountsAsActive(ds[k])
  {
  }

  /** The instant is left by a device that tells, a live signal or the mark. */
  ghost predicate IsTrace(ds: map<string, Device>, signals: seq<Signal>, lastAt: int, at: int) {
    || at == lastAt || (exists k :: k in ds && TellsOccupancy(ds[k]) && at == ds[k].lastChanged)
    || exists j :: 0 <= j < |signals| && at == signals[j].since
  }

  /** The facts in terms of the devices and signals themselves. */
  lemma FactsMean(ds: map<string, Device>, signals: seq<Signal>, lastAt: int, f: Facts)
    requires IsFacts(ds, signals, lastAt, f)
    ensures f.none <==> |ds| == 0 && |signals| == 0 && lastAt == 0
    ensures f.occupied <==> |signals| > 0 || exists k :: k in ds && TellsOccupancy(ds[k]) && IsBusy(ds[k])
    ensures forall k :: k in f.active <==> k in ds && CountsAsActive(ds[k])
    ensures f.count == |set k | k in ds && CountsAsActive(ds[k])| + |signals|
    ensures f.recent == 0 || IsTrace(ds, signals, lastAt, f.recent)
    ensures f.recent >= 0 && forall at :: IsTrace(ds, signals, lastAt, at) ==> at <= f.recent
  {
    forall k | k in ds
      ensures k in Relevant(ds) <==> TellsOccupancy(ds[k])
      ensures IsActiveState(ds[k].activity) <==> IsBusy(ds[k])
      ensures k in ActiveIDs(ds) <==> CountsAsActive(ds[k])
    {
      KindsMean(ds, k);
    }
    assert ActiveIDs(ds) == set k | k in ds && CountsAsActive(ds[k]);
  }

  // ------------------------------------------------------------ decisions

  /** Occupied while something that tells is busy and until quietAfter past the latest activity,
      unknown from there until emptyAfter past it, and empty from then on. */
  lemma OccupancyMeans(cfg: Config, now: int, night: bool, f: Facts, h: House)
    requires IsHouse(cfg, now, night, f, h)
    ensures h.occupancy
            == if f.none then OccupancyUnknown
               else if f.occupied then Occupied
               else if f.recent == 0 then OccupancyUnknown
               else if cfg.quietAfter > 0 && now < f.recent + cfg.quietAfter then Occupied
               else if cfg.emptyAfter > 0 && now < f.recent + cfg.emptyAfter then OccupancyUnknown
               else Empty
  {
  }

  /** At rest with nothing active, quiet with one, lively with two or three, busy with four. */
  lemma BustleMeans(cfg: Config, now: int, night: bool, f: Facts, h: House)
    requires IsHouse(cfg, now, night, f, h)
    ensures match h.bustle
            case BustleUnknown => f.none
            case AtRest => !f.none && f.count == 0
            case Quiet => !f.none && f.count == 1
            case Lively => !f.none && (f.count == 2 || f.count == 3)
            case Busy => !f.none && f.count >= 4
  {
  }

  /** The latest activity is over by more than the window; nothing ever happened counts as now. */
  predicate IsPast(window: int, now: int, f: Facts) {
    if f.recent == 0 then window < 0 else f.recent + window < now
  }

  predicate IsShortOf(window: int, now: int, f: Facts) {
    if f.recent == 0 then window > 0 else now < f.recent + window
  }

  /** Each mode and when it is chosen; night and day differ by the hour only in a house at rest. */
  lemma ModeMeans(cfg: Config, now: int, night: bool, f: Facts, h: House)
    requires IsHouse(cfg, now, night, f, h)
    ensures h.mode == Away <==> h.occupancy == Empty && cfg.emptyAfter > 0 && IsPast(cfg.emptyAfter, now, f)
    ensures h.mode == Sleeping <==>
            h.occupancy != Empty && (h.bustle == AtRest || h.bustle == Quiet)
            && cfg.sleepingAfter > 0 && IsPast(cfg.sleepingAfter, now, f)
    ensures h.mode == Night || (h.mode == Day && h.bustle == AtRest) <==>
            h.occupancy != Empty && h.bustle == AtRest
            && (cfg.sleepingAfter == 0 || IsShortOf(cfg.sleepingAfter, now, f))
    ensures h.mode == Night ==> night
    ensures h.mode == Day && h.bustle == AtRest ==> !night
    ensures h.mode == Day && h.bustle != AtRest <==>
            h.occupancy == Occupied && h.mode != Sleeping
            && (h.bustle == Quiet || h.bustle == Lively || h.bustle == Busy)
  {
  }

  // ------------------------------------------------------------ the stored record

  datatype Update<T> = Update(state: T, at: int)

  function Kept<T(==)>(d: Dimension<T>, us: seq<Update<T>>): Dimension<T> {
    if us == [] then d else Changed(Kept(d, us[..|us| - 1]), us[|us| - 1].state, us[|us| - 1].at)
  }

  function StateBefore<T>(d: Dimension<T>, us: seq<Update<T>>, k: nat): T
    requires k <= |us|
  {
    if k == 0 then d.state else us[k - 1].state
  }

  /** Update k changed the state and none after it did. */
  ghost predicate IsLastChange<T>(d: Dimension<T>, us: seq<Update<T>>, k: nat) {
    && k < |us| && us[k].state != StateBefore(d, us, k)
    && forall j: nat :: k < j < |us| ==> us[j].state == StateBefore(d, us, j)
  }

  ghost predicate NothingChanges<T>(d: Dimension<T>, us: seq<Update<T>>) {
    forall j: nat :: j < |us| ==> us[j].state == StateBefore(d, us, j)
  }

  /** After any run of updates a dimension holds the last state and the time of the last change. */
  lemma {:induction false} DimensionMeans<T>(d: Dimension<T>, us: seq<Update<T>>)
    ensures Kept(d, us).state == StateBefore(d, us, |us|)
    ensures if NothingChanges(d, us) then Kept(d, us).lastChanged == d.lastChanged
            else exists k: nat :: IsLastChange(d, us, k) && Kept(d, us).lastChanged == us[k].at
  {
    if us != [] {
      var n := |us| - 1;
      var t := us[..n];
      DimensionMeans(d, t);
      assert forall j: nat :: j <= n ==> StateBefore(d, us, j) == StateBefore(d, t, j);
      if us[n].state != StateBefore(d, us, n) {
        assert IsLastChange(d, us, n);
      } else if !NothingChanges(d, t) {
        var k: nat :| IsLastChange(d, t, k) && Kept(d, t).lastChanged == t[k].at;
        assert IsLastChange(d, us, k);
        var j: nat :| j < |t| && t[j].state != StateBefore(d, t, j);
        assert us[j].state != StateBefore(d, us, j);
      } else {
        assert forall j: nat :: j < n ==> us[j].state == t[j].state;
      }
    }
  }
}
