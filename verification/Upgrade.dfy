/** What becomes of a phantom's cycle when its stable key turns up (EnsureDiscovered of
    internal/state/engine.go clears the record), once the next reading has come in. */
module Upgrade {
  import opened Common
  import opened Energy
  import opened Model
  import opened IdentityIndex
  import opened Entry
  import opened Snapshots
  import opened StateStore
  import Device

  /** The machine goes on under the new profile, holds a cycle, and the reading starts no other. */
  ghost predicate GoesOn(conf: Device.Conf, s: Device.State, prof: Profile, at: int, r: Reading) {
    prof.cls == conf.cls && !IsPassive(conf.cls) && s.cycle.Some? && !Starts(conf, s.(strategy := prof.strategy), at, r)
  }

  ghost predicate IsStored(s: Store, id: string, e: DeviceEntry)
    reads s
  {
    id in s.dev && s.dev[id] == e
  }

  predicate Names(ix: Index, id: string, i: Identity) { id in ix.ids && ix.ids[id] == i }

  /** EnsureDiscovered on a known device, as far as its entry goes. */
  method Rediscover(s: Store, id: string, e: DeviceEntry, i: Identity, configured: string, prof: Profile, maxGap: int,
                    ghost foot: set<object>)
    returns (ghost more: set<object>)
    requires s.Valid(foot) && IsStored(s, id, e) && id == ChooseID(s.View(), i, configured)
    modifies s, e`device, e`runtime, e.runtime`strategy
    ensures s.Valid(more) && foot <= more && fresh(more - foot)
    ensures IsStored(s, id, e) && s.View() == Discover(old(s.View()), i, configured)
    ensures Refreshed(e, prof, maxGap, IsUpgrade(old(s.ids)[id], i))
  {
    var known;
    known, more := s.EnsureDiscovered(i, configured, prof, maxGap, foot);
  }

  /** The upgrade itself: the record is cleared, the machine only if the class changed. */
  method MeetStableKey(s: Store, id: string, e: DeviceEntry, i: Identity, configured: string, prof: Profile,
                       maxGap: int, ghost foot: set<object>)
    returns (ghost more: set<object>)
    requires s.Valid(foot) && id == ChooseID(s.View(), i, configured)
    requires IsStored(s, id, e) && IsUpgrade(s.ids[id], i)
    modifies s, e`device, e`runtime, e.runtime`strategy
    ensures e.Valid() && e.device.cycle == null && Housed({e}, more) && fresh(more - foot)
    ensures Names(Discover(old(s.View()), i, configured), id, e.device.about.identity)
    ensures e.device.activity == PublicActivity(Unknown, 0, 0)
    ensures prof.cls == old(e.runtime.cls) ==> e.runtime == old(e.runtime) && e.runtime.strategy == prof.strategy
    ensures prof.cls != old(e.runtime.cls) ==> fresh(e.runtime) && e.runtime.cycle == null
  {
    more := Rediscover(s, id, e, i, configured, prof, maxGap, foot);
    FewerStaySeparate(s.dev.Values, {e}, more);
  }

  /** The purge on upgrade does not last: the cycle from before is shown again by the next reading
      exactly if the class is unchanged and has cycles, the machine holds one and the reading
      starts no other. Under another class the machine is new and the purge does last. */
  method UpgradeThenRead(s: Store, id: string, e: DeviceEntry, i: Identity, configured: string, prof: Profile,
                         maxGap: int, at: int, r: Reading, warnPct: real, ghost foot: set<object>)
    requires s.Valid(foot) && id == ChooseID(s.View(), i, configured)
    requires IsStored(s, id, e) && IsUpgrade(s.ids[id], i)
    modifies s, foot
    ensures Names(Discover(old(s.View()), i, configured), id, e.device.about.identity)
    ensures Shows(e, old(e.runtime.cycle)) ==> e.device.cycle.startedAt == old(StartOf(e.runtime.cycle))
    ensures Shows(e, old(e.runtime.cycle)) <==> GoesOn(old(e.runtime.TheConf()), old(e.runtime.View()), prof, at, r)
  {
    ghost var more := MeetStableKey(s, id, e, i, configured, prof, maxGap, foot);
    assert prof.cls == old(e.runtime.cls) ==> e.runtime.View() == old(e.runtime.View()).(strategy := prof.strategy);
    var _ := ReadCleared(e, at, r, warnPct);
  }

  // ------------------------------------------------------------ it does happen

  const PHANTOM := Identity("z", "lamp", "lamp")
  const KEYED := Identity("z", "0x1", "lamp")
  const LAMP := Profile(BinaryState, Placement("", "", "", "", ""), Thresholds(None, None, None, None, None),
                        CounterFirst, false)
  const ON := Reading(None, None, Some("ON"), None, None)

  const MET := Index(map["lamp" := PHANTOM], map[PKey(PHANTOM) := "lamp"], map[DKey(PHANTOM) := "lamp"])

  lemma PhantomIsMet()
    ensures Discover(EMPTY, PHANTOM, "") == MET && ChooseID(EMPTY, PHANTOM, "") == "lamp"
  {
    assert Upsert(EMPTY, "lamp", PHANTOM) == MET;
  }

  lemma KeyIsMet()
    ensures ChooseID(MET, KEYED, "") == "lamp" && Names(Discover(MET, KEYED, ""), "lamp", KEYED)
  {
    assert Upsert(MET, "lamp", KEYED).ids["lamp"] == KEYED;
  }

  /** A switch in the cycle that began at 1. */
  ghost predicate IsOn(conf: Device.Conf, s: Device.State) {
    conf.cls.BinaryState? && s.activity.Active? && s.cycle.Some? && s.cycle.value.startedAt == 1
  }

  lemma OnStarts(conf: Device.Conf, s: Device.State)
    requires conf.cls.BinaryState? && conf.th == LAMP.thresholds && s == Device.Init(CounterFirst)
    ensures IsOn(conf, Ingested(conf, s, 1, ON, 0.0))
  {
  }

  lemma StillOn(conf: Device.Conf, s: Device.State)
    requires IsOn(conf, s)
    ensures !Starts(conf, s, 2, ON)
  {
  }

  /** A switch known by its name alone. */
  method MeetPhantom() returns (s: Store, e: DeviceEntry, ghost foot: set<object>)
    ensures fresh(s) && fresh(foot) && s.Valid(foot) && s.View() == MET && IsStored(s, "lamp", e)
    ensures s.dev.Keys == {"lamp"} && IsNewFor(e.runtime, LAMP, 0)
  {
    PhantomIsMet();
    s := new Store();
    var id;
    id, foot := s.EnsureDiscovered(PHANTOM, "", LAMP, 0, {});
    e := s.dev[id];
  }

  /** It is switched on, which starts a cycle. */
  method SwitchOn(s: Store, e: DeviceEntry, ghost foot: set<object>) returns (ghost more: set<object>)
    requires s.Valid(foot) && IsStored(s, "lamp", e) && s.dev.Keys == {"lamp"} && IsNewFor(e.runtime, LAMP, 0)
    modifies foot
    ensures unchanged(s) && s.Valid(more) && fresh(more - foot)
    ensures IsOn(e.runtime.TheConf(), e.runtime.View())
  {
    ghost var es := s.dev.Values;
    assert es == {e};
    OnStarts(e.runtime.TheConf(), e.runtime.View());
    TurnOn(e);
    StaysSeparate(es, e, foot);
    more := foot + Footprint(e);
  }

  method TurnOn(e: DeviceEntry)
    requires e.Valid() && IsOn(e.runtime.TheConf(), Ingested(e.runtime.TheConf(), e.runtime.View(), 1, ON, 0.0))
    modifies e, e.runtime, e.runtime.integrator, e.runtime.counter, e.runtime.cycle
    ensures e.Valid() && KeepsToItself(e) && e.device.about == old(e.device.about)
    ensures IsOn(e.runtime.TheConf(), e.runtime.View())
  {
    var _ := e.Ingest(1, ON, 0.0);
  }

  /** The run: the switch gets its stable key, and the next reading shows the cycle of before. */
  method PhantomCycleReturns() returns (e: DeviceEntry)
    ensures e.device.about.identity == KEYED
    ensures e.device.cycle != null && e.device.cycle.startedAt == 1
  {
    var s;
    ghost var foot;
    s, e, foot := MeetPhantom();
    foot := SwitchOn(s, e, foot);
    KeyIsMet();
    StillOn(e.runtime.TheConf(), e.runtime.View().(strategy := LAMP.strategy));
    UpgradeThenRead(s, "lamp", e, KEYED, "", LAMP, 0, 2, ON, 0.0, foot);
  }
}
