/** internal/state/house.go: occupancy, activity and mode of the house, derived from the device
    states and the live signals; and the record the store keeps of them. */
module House {
  import opened Model
  import opened Order
  import opened Signals

  datatype Device = Device(id: string, cls: Class, activity: Activity, lastChanged: int)

  datatype Config = Config(quietAfter: int, emptyAfter: int, sleepingAfter: int)

  datatype Occupancy = OccupancyUnknown | Occupied | Empty

  datatype Bustle = BustleUnknown | AtRest | Quiet | Lively | Busy

  datatype Mode = ModeUnknown | Away | Sleeping | Day | Night

  datatype House = House(occupancy: Occupancy, bustle: Bustle, mode: Mode, activeDevices: seq<string>)

  predicate IsOccupancyRelevant(c: Class) { c.ShortBurst? || c.CyclePower? || c.Media? || c.BinaryState? }

  predicate IsActiveState(a: Activity) {
    a.Active? || a.Running? || a.Starting? || a.Finishing? || a.FinishedRecently? || a.ActiveCycle?
  }

  predicate IsIdleState(a: Activity) { a.Idle? || a.NormalIdle? || a.Unknown? || a.Reporting? || a.Standby? }

  // ------------------------------------------------------------ what the scan establishes

  datatype Facts = Facts(none: bool, recent: int, occupied: bool, count: nat, active: seq<string>)

  ghost predicate Keyed(ds: map<string, Device>) { forall k :: k in ds ==> ds[k].id == k }

  ghost function Relevant(ds: map<string, Device>): set<string> { set k | k in ds && IsOccupancyRelevant(ds[k].cls) }

  ghost function ActiveIDs(ds: map<string, Device>): set<string> {
    set k | k in ds && !ds[k].cls.Continuous? && IsActiveState(ds[k].activity)
  }

  /** The latest of the mark, the live signals' starts and the relevant devices' last changes;
      zero when there is none. */
  ghost predicate IsLatest(recent: int, ds: map<string, Device>, relevant: set<string>, signals: seq<Signal>,
                           lastAt: int)
    requires relevant <= ds.Keys
  {
    && recent >= 0 && recent >= lastAt
    && (forall k :: k in relevant ==> recent >= ds[k].lastChanged)
    && (forall j :: 0 <= j < |signals| ==> recent >= signals[j].since)
    && (recent == 0 || recent == lastAt || (exists k :: k in relevant && recent == ds[k].lastChanged)
        || exists j :: 0 <= j < |signals| && recent == signals[j].since)
  }

  ghost predicate IsFacts(ds: map<string, Device>, signals: seq<Signal>, lastAt: int, f: Facts) {
    && f.none == (ds == map[] && signals == [] && lastAt == 0)
    && IsLatest(f.recent, ds, Relevant(ds), signals, lastAt)
    && (f.occupied <==> signals != [] || exists k :: k in Relevant(ds) && IsActiveState(ds[k].activity))
    && f.count == |ActiveIDs(ds)| + |signals|
    && Ascending(f.active) && forall k :: k in f.active <==> k in ActiveIDs(ds)
  }

  // ------------------------------------------------------------ the decision

  function OccupancyOf(cfg: Config, now: int, f: Facts): Occupancy {
    if f.none then OccupancyUnknown
    else if f.occupied then Occupied
    else if f.recent == 0 then OccupancyUnknown
    else if cfg.quietAfter > 0 && now - f.recent < cfg.quietAfter then Occupied
    else if cfg.emptyAfter > 0 && now - f.recent < cfg.emptyAfter then OccupancyUnknown
    else Empty
  }

  function BustleOf(f: Facts): Bustle {
    if f.none then BustleUnknown
    else if f.count == 0 then AtRest
    else if f.count == 1 then Quiet
    else if f.count <= 3 then Lively
    else Busy
  }

  function QuietFor(now: int, f: Facts): int { if f.recent == 0 then 0 else now - f.recent }

  function ModeOf(cfg: Config, now: int, night: bool, f: Facts): Mode {
    var occ, bustle, quiet := OccupancyOf(cfg, now, f), BustleOf(f), QuietFor(now, f);
    if occ.Empty? && cfg.emptyAfter > 0 && quiet > cfg.emptyAfter then Away
    else if !occ.Empty? && (bustle.AtRest? || bustle.Quiet?) && cfg.sleepingAfter > 0 && quiet > cfg.sleepingAfter
    then Sleeping
    else if occ.Occupied? && (bustle.Quiet? || bustle.Lively? || bustle.Busy?) then Day
    else if !occ.Empty? && bustle.AtRest? && (cfg.sleepingAfter == 0 || quiet < cfg.sleepingAfter)
    then if night then Night else Day
    else ModeUnknown
  }

  function HouseOf(cfg: Config, now: int, night: bool, f: Facts): House {
    House(OccupancyOf(cfg, now, f), BustleOf(f), ModeOf(cfg, now, night, f), f.active)
  }

  // ------------------------------------------------------------ what the decision means

  /** The latest activity lies inside the window; a window of zero is switched off. */
  predicate IsWithin(window: int, now: int, f: Facts) { window > 0 && f.recent != 0 && now - f.recent < window }

  predicate IsOccupancy(cfg: Config, now: int, f: Facts, o: Occupancy) {
    && (o.Occupied? <==> !f.none && (f.occupied || IsWithin(cfg.quietAfter, now, f)))
    && (o.Empty? <==> !f.none && !f.occupied && f.recent != 0
                      && !IsWithin(cfg.quietAfter, now, f) && !IsWithin(cfg.emptyAfter, now, f))
  }

  predicate IsBustle(f: Facts, b: Bustle) {
    && (b.BustleUnknown? <==> f.none) && (b.AtRest? <==> !f.none && f.count == 0)
    && (b.Quiet? <==> !f.none && f.count == 1) && (b.Lively? <==> !f.none && 1 < f.count <= 3)
  }

  /** Quiet for longer than it takes to be asleep; too short a time for that. */
  predicate IsAsleep(cfg: Config, now: int, f: Facts) { cfg.sleepingAfter > 0 && QuietFor(now, f) > cfg.sleepingAfter }

  predicate IsAwake(cfg: Config, now: int, f: Facts) { cfg.sleepingAfter == 0 || QuietFor(now, f) < cfg.sleepingAfter }

  predicate IsMode(cfg: Config, now: int, night: bool, f: Facts, o: Occupancy, b: Bustle, m: Mode) {
    && (m.Away? <==> o.Empty? && cfg.emptyAfter > 0 && QuietFor(now, f) > cfg.emptyAfter)
    && (m.Sleeping? <==> !o.Empty? && (b.AtRest? || b.Quiet?) && IsAsleep(cfg, now, f))
    && (m.Night? <==> !o.Empty? && b.AtRest? && IsAwake(cfg, now, f) && night)
    && (m.Day? <==> || (o.Occupied? && (b.Lively? || b.Busy? || (b.Quiet? && !IsAsleep(cfg, now, f))))
                    || (!o.Empty? && b.AtRest? && IsAwake(cfg, now, f) && !night))
  }

  predicate IsHouse(cfg: Config, now: int, night: bool, f: Facts, h: House) {
    && IsOccupancy(cfg, now, f, h.occupancy) && IsBustle(f, h.bustle)
    && IsMode(cfg, now, night, f, h.occupancy, h.bustle, h.mode) && h.activeDevices == f.active
  }

  /** The facts admit one house only. */
  lemma HouseIsUnique(cfg: Config, now: int, night: bool, f: Facts, h: House)
    ensures IsHouse(cfg, now, night, f, h) <==> h == HouseOf(cfg, now, night, f)
  {
    var k := HouseOf(cfg, now, night, f);
    assert IsOccupancy(cfg, now, f, k.occupancy) && IsBustle(f, k.bustle);
    assert IsMode(cfg, now, night, f, k.occupancy, k.bustle, k.mode);
  }

  method DecideOccupancy(now: int, cfg: Config, none: bool, occupied: bool, recent: int) returns (occ: Occupancy)
    ensures forall f: Facts :: f.none == none && f.occupied == occupied && f.recent == recent ==>
              IsOccupancy(cfg, now, f, occ)
  {
    if none {
      return OccupancyUnknown;
    } else if occupied {
      return Occupied;
    } else if recent == 0 {
      return OccupancyUnknown;
    }
    var since := now - recent;
    if cfg.quietAfter > 0 && since < cfg.quietAfter {
      return Occupied;
    } else if cfg.emptyAfter > 0 && since < cfg.emptyAfter {
      return OccupancyUnknown;
    }
    return Empty;
  }

  method DecideBustle(none: bool, count: nat) returns (act: Bustle)
    ensures forall f: Facts :: f.none == none && f.count == count ==> IsBustle(f, act)
  {
    if none {
      return BustleUnknown;
    } else if count == 0 {
      return AtRest;
    } else if count == 1 {
      return Quiet;
    } else if count <= 3 {
      return Lively;
    }
    return Busy;
  }

  method DecideMode(now: int, cfg: Config, night: bool, recent: int, occ: Occupancy, act: Bustle) returns (mode: Mode)
    ensures forall f: Facts :: f.recent == recent ==> IsMode(cfg, now, night, f, occ, act, mode)
  {
    var quiet := 0;
    if recent != 0 {
      quiet := now - recent;
    }
    if occ.Empty? && cfg.emptyAfter > 0 && quiet > cfg.emptyAfter {
      return Away;
    } else if (occ.Occupied? || occ.OccupancyUnknown?) && (act.AtRest? || act.Quiet?)
              && cfg.sleepingAfter > 0 && quiet > cfg.sleepingAfter {
      return Sleeping;
    } else if occ.Occupied? && (act.Quiet? || act.Lively? || act.Busy?) {
      return Day;
    } else if (occ.Occupied? || occ.OccupancyUnknown?) && act.AtRest?
              && (cfg.sleepingAfter == 0 || quiet < cfg.sleepingAfter) {
      return if night then Night else Day;
    }
    return ModeUnknown;
  }

  // ------------------------------------------------------------ the scan

  /** The latest change among the devices in ks; zero when there is none. */
  ghost predicate IsLatestOf(recent: int, ds: map<string, Device>, ks: set<string>)
    requires ks <= ds.Keys
  {
    && recent >= 0 && (forall k :: k in ks ==> recent >= ds[k].lastChanged)
    && (recent == 0 || exists k :: k in ks && recent == ds[k].lastChanged)
  }

  ghost predicate AnyActive(ds: map<string, Device>, ks: set<string>)
    requires ks <= ds.Keys
  {
    exists k :: k in ks && IsActiveState(ds[k].activity)
  }

  ghost predicate Lists(active: seq<string>, ks: set<string>) {
    |active| == |ks| && forall k :: multiset(active)[k] == if k in ks then 1 else 0
  }

  lemma LatestOfMore(recent: int, ds: map<string, Device>, ks: set<string>, k: string)
    requires ks <= ds.Keys && k in ds && IsLatestOf(recent, ds, ks)
    ensures IsLatestOf(if ds[k].lastChanged > recent then ds[k].lastChanged else recent, ds, ks + {k})
  {
    var next := if ds[k].lastChanged > recent then ds[k].lastChanged else recent;
    assert next == recent || (k in ks + {k} && next == ds[k].lastChanged);
    if recent != 0 {
      var j :| j in ks && recent == ds[j].lastChanged;
      assert j in ks + {k};
    }
  }

  lemma AnyActiveOfMore(ds: map<string, Device>, ks: set<string>, k: string)
    requires ks <= ds.Keys && k in ds
    ensures AnyActive(ds, ks + {k}) <==> AnyActive(ds, ks) || IsActiveState(ds[k].activity)
  {
    assert k in ks + {k};
    if AnyActive(ds, ks) {
      var j :| j in ks && IsActiveState(ds[j].activity);
      assert j in ks + {k};
    }
  }

  lemma Visited(ds: map<string, Device>, done: set<string>, k: string)
    requires k in ds && k !in done
    ensures Relevant(ds) * (done + {k}) == if k in Relevant(ds) then Relevant(ds) * done + {k} else Relevant(ds) * done
    ensures ActiveIDs(ds) * (done + {k})
            == if k in ActiveIDs(ds) then ActiveIDs(ds) * done + {k} else ActiveIDs(ds) * done
  {
  }

  lemma ListOfMore(active: seq<string>, ks: set<string>, k: string)
    requires Lists(active, ks) && k !in ks
    ensures Lists(active + [k], ks + {k})
  {
  }

  function AfterVisit(d: Device, recent: int, occupied: bool, active: seq<string>): (int, bool, seq<string>) {
    (if IsOccupancyRelevant(d.cls) && d.lastChanged > recent then d.lastChanged else recent,
     occupied || (IsOccupancyRelevant(d.cls) && IsActiveState(d.activity)),
     if !d.cls.Continuous? && IsActiveState(d.activity) then active + [d.id] else active)
  }

  /** What the accumulators hold once the devices in `done` have been visited. */
  ghost predicate Scanned(ds: map<string, Device>, done: set<string>, recent: int, occupied: bool,
                          active: seq<string>) {
    && IsLatestOf(recent, ds, Relevant(ds) * done) && occupied == AnyActive(ds, Relevant(ds) * done)
    && Lists(active, ActiveIDs(ds) * done)
  }

  lemma DeviceScanned(ds: map<string, Device>, done: set<string>, recent: int, occupied: bool, active: seq<string>,
                      k: string, recent1: int, occupied1: bool, active1: seq<string>)
    requires k in ds && ds[k].id == k && k !in done && Scanned(ds, done, recent, occupied, active)
    requires (recent1, occupied1, active1) == AfterVisit(ds[k], recent, occupied, active)
    ensures Scanned(ds, done + {k}, recent1, occupied1, active1)
  {
    Visited(ds, done, k);
    LatestOfMore(recent, ds, Relevant(ds) * done, k);
    AnyActiveOfMore(ds, Relevant(ds) * done, k);
    if k in ActiveIDs(ds) {
      ListOfMore(active, ActiveIDs(ds) * done, k);
    }
  }

  lemma AllScanned(ds: map<string, Device>, recent: int, occupied: bool, active: seq<string>)
    requires Scanned(ds, ds.Keys, recent, occupied, active)
    ensures IsLatestOf(recent, ds, Relevant(ds)) && occupied == AnyActive(ds, Relevant(ds))
            && Lists(active, ActiveIDs(ds))
  {
    assert Relevant(ds) * ds.Keys == Relevant(ds) && ActiveIDs(ds) * ds.Keys == ActiveIDs(ds);
  }

  lemma NothingScanned(ds: map<string, Device>)
    ensures Scanned(ds, {}, 0, false, [])
  {
    assert Relevant(ds) * {} == {} && ActiveIDs(ds) * {} == {};
  }

  /** The body of the scan's loop. */
  method VisitDevice(d: Device, recent0: int, occupied0: bool, active0: seq<string>)
    returns (recent: int, occupied: bool, active: seq<string>)
    requires recent0 >= 0
    ensures (recent, occupied, active) == AfterVisit(d, recent0, occupied0, active0)
  {
    recent, occupied, active := recent0, occupied0, active0;
    if !d.cls.Continuous? && IsActiveState(d.activity) {
      active := active + [d.id];
    }
    if !IsOccupancyRelevant(d.cls) {
      return;
    }
    if IsActiveState(d.activity) {
      occupied := true;
    }
    if !IsIdleState(d.activity) {
      if d.lastChanged != 0 && d.lastChanged > recent {
        recent := d.lastChanged;
      }
    } else if d.lastChanged != 0 && d.lastChanged > recent {
      recent := d.lastChanged;
    }
  }

  /** One pass over the devices in any order. */
  method ScanDevices(ds: map<string, Device>) returns (recent: int, occupied: bool, active: seq<string>)
    requires Keyed(ds)
    ensures IsLatestOf(recent, ds, Relevant(ds)) && occupied == AnyActive(ds, Relevant(ds))
            && Lists(active, ActiveIDs(ds))
  {
    recent, occupied, active := 0, false, [];
    var todo := ds.Keys;
    ghost var done := {};
    NothingScanned(ds);
    while todo != {}
      invariant recent >= 0 && done !! todo && done + todo == ds.Keys && Scanned(ds, done, recent, occupied, active)
      decreases todo
    {
      var k :| k in todo;
      var recent1, occupied1, active1 := VisitDevice(ds[k], recent, occupied, active);
      DeviceScanned(ds, done, recent, occupied, active, k, recent1, occupied1, active1);
      todo, done := todo - {k}, done + {k};
      recent, occupied, active := recent1, occupied1, active1;
    }
    assert done == ds.Keys;
    AllScanned(ds, recent, occupied, active);
  }

  /** The signals one after another, then the mark. */
  method AddSignals(from: int, signals: seq<Signal>, lastAt: int) returns (recent: int)
    ensures recent >= from && recent >= lastAt && forall j :: 0 <= j < |signals| ==> recent >= signals[j].since
    ensures recent == from || recent == lastAt || exists j :: 0 <= j < |signals| && recent == signals[j].since
  {
    recent := from;
    for j := 0 to |signals|
      invariant recent >= from && forall i :: 0 <= i < j ==> recent >= signals[i].since
      invariant recent == from || exists i :: 0 <= i < j && recent == signals[i].since
    {
      if signals[j].since > recent {
        recent := signals[j].since;
      }
    }
    if lastAt > recent {
      recent := lastAt;
    }
  }

  lemma ListSorts(active: seq<string>, ks: set<string>)
    requires Lists(active, ks)
    ensures Ascending(Sort(active)) && forall k :: k in Sort(active) <==> k in ks
  {
    var sorted := Sort(active);
    SortIsSorted(active);
    SortedAscends(sorted);
    forall k ensures k in sorted <==> k in ks {
      assert k in sorted <==> multiset(sorted)[k] > 0;
    }
  }

  /** The whole derivation: the facts of the scan and the house they ask for; `night` is whether the
      local hour is 22 or later, or before 7. */
  method DeriveHouseState(now: int, cfg: Config, night: bool, ds: map<string, Device>, signals: seq<Signal>,
                          lastAt: int)
    returns (h: House, f: Facts)
    requires Keyed(ds)
    ensures IsFacts(ds, signals, lastAt, f) && IsHouse(cfg, now, night, f, h)
  {
    var recent, occupied, active := ScanDevices(ds);
    recent := AddSignals(recent, signals, lastAt);
    occupied := occupied || signals != [];
    var none, count := ds == map[] && signals == [] && lastAt == 0, |active| + |signals|;
    var occ := DecideOccupancy(now, cfg, none, occupied, recent);
    var act := DecideBustle(none, count);
    var mode := DecideMode(now, cfg, night, recent, occ, act);
    ListSorts(active, ActiveIDs(ds));
    f := Facts(none, recent, occupied, count, Sort(active));
    h := House(occ, act, mode, f.active);
  }

  // ------------------------------------------------------------ what the derivation guarantees

  lemma FactsAreUnique(ds: map<string, Device>, a: seq<Signal>, b: seq<Signal>, lastAt: int, f: Facts, g: Facts)
    requires |a| == |b| && (forall s :: s in a <==> s in b)
    requires IsFacts(ds, a, lastAt, f) && IsFacts(ds, b, lastAt, g)
    ensures f == g
  {
    AscendingIsUnique(f.active, g.active);
    assert forall j :: 0 <= j < |a| ==> a[j] in b;
    assert forall j :: 0 <= j < |b| ==> b[j] in a;
  }

  /** The house does not depend on the order devices or signals come in. */
  lemma OrderIsImmaterial(cfg: Config, now: int, night: bool, ds: map<string, Device>, a: seq<Signal>, b: seq<Signal>,
                          lastAt: int, f: Facts, g: Facts, h: House, k: House)
    requires |a| == |b| && (forall s :: s in a <==> s in b)
    requires IsFacts(ds, a, lastAt, f) && IsFacts(ds, b, lastAt, g)
    requires IsHouse(cfg, now, night, f, h) && IsHouse(cfg, now, night, g, k)
    ensures h == k
  {
    FactsAreUnique(ds, a, b, lastAt, f, g);
    HouseIsUnique(cfg, now, night, f, h);
    HouseIsUnique(cfg, now, night, g, k);
  }

  /** For a store that has only ever been used as a store, the live signals add nothing: the most
      recent activity is the later of the devices' and the mark. */
  lemma MarkStandsForSignals(ds: map<string, Device>, st: State, now: int, signals: seq<Signal>, f: Facts)
    requires Marked(st) && IsActive(signals, st.signals, now) && IsFacts(ds, signals, st.lastAt, f)
    ensures IsLatest(f.recent, ds, Relevant(ds), [], st.lastAt)
  {
    forall j | 0 <= j < |signals| ensures signals[j].since <= st.lastAt {
      assert signals[j] in signals;
    }
  }

  /** Asserting, clearing or pruning signals never moves the most recent activity backwards. */
  lemma RecentNeverFalls(ds: map<string, Device>, st: State, e: Event, next: State,
                         t0: int, before: seq<Signal>, f: Facts, t1: int, after: seq<Signal>, g: Facts)
    requires Marked(st) && Step(st, e, next)
    requires IsActive(before, st.signals, t0) && IsFacts(ds, before, st.lastAt, f)
    requires IsActive(after, next.signals, t1) && IsFacts(ds, after, next.lastAt, g)
    ensures f.recent <= g.recent
  {
    StepKeepsMark(st, e, next);
    MarkStandsForSignals(ds, st, t0, before, f);
  }

  function Rank(o: Occupancy): nat { match o case Occupied => 2 case OccupancyUnknown => 1 case Empty => 0 }

  /** With nothing relevant active, no live signal and nothing new, time alone only takes the
      house from occupied through unknown to empty. */
  lemma OccupancyOnlyDeclines(cfg: Config, ds: map<string, Device>, lastAt: int, t0: int, f: Facts, t1: int, g: Facts)
    requires IsFacts(ds, [], lastAt, f) && IsFacts(ds, [], lastAt, g) && !f.occupied && t0 <= t1
    ensures Rank(OccupancyOf(cfg, t1, g)) <= Rank(OccupancyOf(cfg, t0, f))
  {
    FactsAreUnique(ds, [], [], lastAt, f, g);
  }

  const LINGERING := map["call" := Signal("call", 10, 20)]

  /** A signal that has expired but is not pruned yet escapes that: pruning it raises the mark to
      its expiry, and a house already unknown is occupied again although nothing happened. */
  lemma LatePruneRevives(cfg: Config, next: State, f: Facts, g: Facts)
    requires cfg == Config(5, 100, 0) && IsPruned(State(LINGERING, 10), 21, next)
    requires IsFacts(map[], [], 10, f) && IsFacts(map[], [], next.lastAt, g)
    ensures IsActive([], LINGERING, 21) && IsActive([], next.signals, 21)
    ensures OccupancyOf(cfg, 21, f).OccupancyUnknown? && OccupancyOf(cfg, 21, g).Occupied?
  {
    assert Expired(LINGERING, 21) == {"call"};
    assert next.signals == map[];
    assert next.lastAt == 20;
  }

  /** A prune moves the most recent activity exactly when a signal it removes expired later, and
      then to the latest such expiry. */
  lemma PruneMovesRecentIff(ds: map<string, Device>, st: State, now: int, signals: seq<Signal>, next: State, f: Facts,
                            g: Facts)
    requires Marked(st) && IsPruned(st, now, next) && IsActive(signals, st.signals, now)
    requires IsFacts(ds, signals, st.lastAt, f) && IsFacts(ds, signals, next.lastAt, g)
    ensures g.recent > f.recent <==> exists id :: id in Expired(st.signals, now) && st.signals[id].expiresAt > f.recent
    ensures g.recent >= f.recent && forall id :: id in Expired(st.signals, now) ==> g.recent >= st.signals[id].expiresAt
    ensures g.recent == f.recent || exists id :: id in Expired(st.signals, now) && g.recent == st.signals[id].expiresAt
  {
    MarkStandsForSignals(ds, st, now, signals, f);
    if g.recent > f.recent {
      assert g.recent == next.lastAt;
    }
  }

  /** Taken as the latest activity instead of r, the later instant e lifts the house: back into the
      quiet window from outside it, or from empty into the window before that. */
  predicate Lifts(cfg: Config, now: int, r: int, e: int) {
    if r == 0 then e > 0 && cfg.quietAfter > 0 && now - e < cfg.quietAfter
    else
      || (cfg.quietAfter > 0 && now - e < cfg.quietAfter <= now - r)
      || (cfg.emptyAfter > 0 && now - e < cfg.emptyAfter <= now - r
          && !(cfg.quietAfter > 0 && now - r < cfg.quietAfter))
  }

  /** The house under a later activity, all else being equal. */
  lemma LaterRaisesIff(cfg: Config, now: int, f: Facts, g: Facts)
    requires f.none ==> f.recent == 0 && !f.occupied
    requires !g.none && g.occupied == f.occupied && g.recent > f.recent >= 0
    ensures Rank(OccupancyOf(cfg, now, g)) > Rank(OccupancyOf(cfg, now, f))
            <==> !f.occupied && Lifts(cfg, now, f.recent, g.recent)
  {
  }

  /** A prune raises the occupancy exactly when nothing is active and a signal it removes expired
      inside a window that the most recent activity so far has left. */
  lemma PruneRaisesIff(cfg: Config, ds: map<string, Device>, st: State, now: int, signals: seq<Signal>, next: State,
                       f: Facts, g: Facts)
    requires Marked(st) && IsPruned(st, now, next) && IsActive(signals, st.signals, now)
    requires IsFacts(ds, signals, st.lastAt, f) && IsFacts(ds, signals, next.lastAt, g)
    ensures Rank(OccupancyOf(cfg, now, g)) > Rank(OccupancyOf(cfg, now, f))
            <==> !f.occupied
                 && exists id :: id in Expired(st.signals, now) && Lifts(cfg, now, f.recent, st.signals[id].expiresAt)
  {
    MarkStandsForSignals(ds, st, now, signals, f);
    PruneMovesRecentIff(ds, st, now, signals, next, f, g);
    if g.recent > f.recent {
      LaterRaisesIff(cfg, now, f, g);
    }
  }

  /** The mode is undecided in exactly these cases; for an empty house with EmptyAfter set, and for
      one at rest with SleepingAfter set, that is exact equality with the window. */
  lemma ModeIsUnknownIff(cfg: Config, now: int, night: bool, f: Facts)
    requires cfg.quietAfter >= 0 && cfg.emptyAfter >= 0 && cfg.sleepingAfter >= 0
    ensures var occ, bustle, quiet := OccupancyOf(cfg, now, f), BustleOf(f), QuietFor(now, f);
            ModeOf(cfg, now, night, f).ModeUnknown?
            <==> match occ
                 case Empty => cfg.emptyAfter == 0 || quiet == cfg.emptyAfter
                 case Occupied => bustle.AtRest? && cfg.sleepingAfter > 0 && quiet == cfg.sleepingAfter
                 case OccupancyUnknown =>
                   match bustle
                   case AtRest => cfg.sleepingAfter > 0 && quiet == cfg.sleepingAfter
                   case Quiet => cfg.sleepingAfter == 0 || quiet <= cfg.sleepingAfter
                   case _ => true
  {
  }

  // ------------------------------------------------------------ the stored record

  datatype Dimension<T> = Dimension(state: T, lastChanged: int)

  function Changed<T(==)>(d: Dimension<T>, state: T, now: int): Dimension<T> {
    if d.state != state then Dimension(state, now) else d
  }

  /** Store.house under setHouse and setHouseElectricity. */
  class Record<E> {
    var occupancy: Dimension<Occupancy>
    var bustle: Dimension<Bustle>
    var mode: Dimension<Mode>
    var activeDevices: seq<string>
    var electricity: E

    constructor (none: E)
      ensures occupancy == Dimension(OccupancyUnknown, 0) && bustle == Dimension(BustleUnknown, 0)
              && mode == Dimension(ModeUnknown, 0)
      ensures activeDevices == [] && electricity == none
    {
      occupancy, bustle, mode := Dimension(OccupancyUnknown, 0), Dimension(BustleUnknown, 0), Dimension(ModeUnknown, 0);
      activeDevices, electricity := [], none;
    }

    method SetElectricity(e: E)
      modifies this`electricity
      ensures electricity == e
    {
      electricity := e;
    }

    /** Replaces everything but the electricity; an unchanged dimension keeps its time. */
    method SetHouse(h: House, now: int) returns (changed: bool)
      modifies this
      ensures electricity == old(electricity) && activeDevices == h.activeDevices
      ensures occupancy == Changed(old(occupancy), h.occupancy, now) && bustle == Changed(old(bustle), h.bustle, now)
      ensures mode == Changed(old(mode), h.mode, now)
      ensures changed
              <==> (occupancy.state, bustle.state, mode.state) != old((occupancy.state, bustle.state, mode.state))
    {
      changed := false;
      var occ := Dimension(h.occupancy, occupancy.lastChanged);
      var bus := Dimension(h.bustle, bustle.lastChanged);
      var mod := Dimension(h.mode, mode.lastChanged);
      if occupancy.state != h.occupancy {
        occ := occ.(lastChanged := now);
        changed := true;
      }
      if bustle.state != h.bustle {
        bus := bus.(lastChanged := now);
        changed := true;
      }
      if mode.state != h.mode {
        mod := mod.(lastChanged := now);
        changed := true;
      }
      occupancy, bustle, mode, activeDevices := occ, bus, mod, h.activeDevices;
    }
  }
}
