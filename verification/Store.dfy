/** internal/state/store.go and EnsureDiscovered of internal/state/engine.go: the map of entries and
    its two indexes, updated in place, follow the index of Identity.dfy. */
module StateStore {
  import opened Common
  import opened IdentityIndex
  import opened DeviceRuntime
  import opened Entry
  import opened Snapshots

  class Store {
    var dev: map<string, DeviceEntry>
    var byPrimary: map<Key, string>
    var byDisplay: map<Key, string>
    ghost var ids: map<string, Identity>  // the identities of the stored records

    /** Every record is stored under its own id, with the identity in `ids`. */
    ghost predicate Indexed()
      reads this, dev.Values
    {
      && ids.Keys == dev.Keys
      && forall i :: i in dev ==> dev[i].device.about.identity == ids[i] && dev[i].device.about.id == i
    }

    ghost function View(): Index
      reads this
    {
      Index(ids, byPrimary, byDisplay)
    }

    /** The index holds, and the entries are valid and share nothing that is ever written; all that
        is written for them lies in `foot`. */
    ghost predicate Valid(foot: set<object>)
      reads this, dev.Values, foot
    {
      Indexed() && this !in foot && Separate(dev.Values, foot)
    }

    /** The entry stored under the id, and its machine, if there is one. */
    ghost function Known(id: string): set<DeviceEntry>
      reads this
    {
      if id in dev then {dev[id]} else {}
    }

    ghost function KnownMachine(id: string): set<Runtime>
      reads this, Known(id)
    {
      if id in dev then {dev[id].runtime} else {}
    }

    constructor ()
      ensures Valid({}) && View() == EMPTY && dev == map[]
    {
      dev, byPrimary, byDisplay, ids := map[], map[], map[], map[];
    }

    // ---------------------------------------------------------- index maintenance

    function LookupID(i: Identity): (id: string)
      reads this
      ensures id == Lookup(View(), i)
    {
      if i.scheme != "" && i.primary != "" && PKey(i) in byPrimary then byPrimary[PKey(i)]
      else if i.scheme != "" && i.display != "" && DKey(i) in byDisplay then byDisplay[DKey(i)]
      else ""
    }

    /** Insert the record, or merge it into the stored one. */
    method Install(id: string, d: DeviceRecord, rt: Runtime)
      requires Indexed() && d.about.id == id
      modifies this`dev, this`ids, Known(id)`device
      ensures Indexed() && ids == old(ids)[id := Merged(old(View()), id, d.about.identity)]
      ensures id in dev && dev == old(dev)[id := dev[id]]
      ensures id in old(dev) ==>
                var was := old(dev[id].device);
                dev[id] == old(dev[id]) && dev[id].device == was.(about := Overlay(was.about, d.about))
      ensures id !in old(dev) ==>
                fresh(dev[id]) && dev[id].runtime == rt && dev[id].device == d && dev[id].offlineAt == None
    {
      if id !in dev {
        var entry := new DeviceEntry(d, rt);
        dev := dev[id := entry];
      } else {
        var entry := dev[id];
        entry.Redescribe(d.about);
      }
      ids := ids[id := dev[id].device.about.identity];
    }

    /** Drop the index keys the device no longer has and file its stable key. */
    method Refile(id: string, prev: Identity, merged: Identity)
      modifies this`byPrimary, this`byDisplay
      ensures byPrimary == var p := if prev.scheme != "" && prev.primary != "" && PKey(prev) != PKey(merged)
                                    then Without(old(byPrimary), PKey(prev)) else old(byPrimary);
                           if merged.scheme != "" && merged.primary != "" then p[PKey(merged) := id] else p
      ensures byDisplay == if prev.scheme != "" && prev.display != "" && DKey(prev) != DKey(merged)
                           then Without(old(byDisplay), DKey(prev)) else old(byDisplay)
    {
      if prev.scheme != "" && prev.primary != "" && (prev.scheme != merged.scheme || prev.primary != merged.primary) {
        byPrimary := byPrimary - {PKey(prev)};
      }
      if prev.scheme != "" && prev.display != "" && (prev.scheme != merged.scheme || prev.display != merged.display) {
        byDisplay := byDisplay - {DKey(prev)};
      }
      if merged.scheme != "" && merged.primary != "" {
        byPrimary := byPrimary[PKey(merged) := id];
      }
    }

    /** A phantom loses its record and its own key; a device with a stable key loses nothing. */
    method Tombstone(id: string)
      requires Indexed()
      modifies this`dev, this`byPrimary, this`ids
      ensures Indexed() && forall j :: j in dev ==> j in old(dev) && dev[j] == old(dev)[j]
      ensures var gone := id in old(ids) && IsPhantom(old(ids)[id]);
              && ids == (if gone then Without(old(ids), id) else old(ids))
              && byPrimary == (if gone then Without(old(byPrimary), PKey(old(ids)[id])) else old(byPrimary))
    {
      if id in dev {
        var oid := dev[id].device.about.identity;
        if oid.primary != "" && oid.primary == oid.display {
          byPrimary := byPrimary - {PKey(oid)};
          dev := dev - {id};
          ids := ids - {id};
        }
      }
    }

    /** File the display name, removing a phantom that held it. */
    method Claim(id: string)
      requires Indexed() && id in dev
      modifies this`dev, this`byPrimary, this`byDisplay, this`ids
      ensures Indexed() && View() == ClaimDisplay(old(View()), id)
      ensures id in dev && forall j :: j in dev ==> j in old(dev) && dev[j] == old(dev)[j]
    {
      var merged := dev[id].device.about.identity;
      if merged.scheme != "" && merged.display != "" {
        var displayKey := DKey(merged);
        if displayKey in byDisplay && byDisplay[displayKey] != id {
          Tombstone(byDisplay[displayKey]);
          assert id in ids;
        }
        byDisplay := byDisplay[displayKey := id];
      }
    }

    /** The first half of Upsert: the record and its stable key. */
    method StoreRecord(id: string, d: DeviceRecord, rt: Runtime)
      requires Indexed() && d.about.id == id
      modifies this`dev, this`byPrimary, this`byDisplay, this`ids, Known(id)`device
      ensures Indexed() && View() == Reindex(old(View()), id, d.about.identity)
      ensures id in dev && dev == old(dev)[id := dev[id]]
      ensures id in old(dev) ==>
                var was := old(dev[id].device);
                dev[id] == old(dev[id]) && dev[id].device == was.(about := Overlay(was.about, d.about))
      ensures id !in old(dev) ==>
                fresh(dev[id]) && dev[id].runtime == rt && dev[id].device == d && dev[id].offlineAt == None
    {
      var prev := if id in dev then dev[id].device.about.identity else Identity("", "", "");
      Install(id, d, rt);
      Refile(id, prev, dev[id].device.about.identity);
    }

    method Upsert(id: string, d: DeviceRecord, rt: Runtime)
      requires Indexed() && d.about.id == id
      modifies this`dev, this`byPrimary, this`byDisplay, this`ids, Known(id)`device
      ensures Indexed() && View() == IdentityIndex.Upsert(old(View()), id, d.about.identity)
      ensures id in dev && forall j :: j in dev && j != id ==> j in old(dev) && dev[j] == old(dev)[j]
      ensures id in old(dev) ==>
                var was := old(dev[id].device);
                dev[id] == old(dev[id]) && dev[id].device == was.(about := Overlay(was.about, d.about))
      ensures id !in old(dev) ==>
                fresh(dev[id]) && dev[id].runtime == rt && dev[id].device == d && dev[id].offlineAt == None
    {
      StoreRecord(id, d, rt);
      Claim(id);
    }

    method Rename(id: string, oldDisplay: string, newDisplay: string)
      requires Indexed()
      modifies this`byDisplay, this`ids, Known(id)`device
      ensures Indexed() && View() == IdentityIndex.Rename(old(View()), id, oldDisplay, newDisplay)
      ensures id in dev ==> dev[id].device == old(dev[id].device).(about := dev[id].device.about)
    {
      if id !in dev {
        return;
      }
      var entry := dev[id];
      var scheme := entry.device.about.identity.scheme;
      if oldDisplay != "" && scheme != "" {
        byDisplay := byDisplay - {Key(scheme, oldDisplay)};
      }
      if newDisplay != "" && scheme != "" {
        byDisplay := byDisplay[Key(scheme, newDisplay) := id];
        entry.SetDisplay(newDisplay);
        ids := ids[id := entry.device.about.identity];
      }
    }

    // ---------------------------------------------------------- discovery

    /** Store the description, and re-file the display name if it changed. */
    method Describe(id: string, e: DeviceEntry, d: DeviceRecord, rt: Runtime, prevDisplay: string)
      requires Indexed() && id in dev && dev[id] == e && e.Valid() && d.about.id == id && prevDisplay == ids[id].display
      modifies this`dev, this`byPrimary, this`byDisplay, this`ids, e`device
      ensures e.Valid() && Indexed() && View() == IdentityIndex.Describe(old(View()), id, d.about.identity)
      ensures id in dev && dev[id] == e && e.device == old(e.device).(about := e.device.about)
      ensures forall j :: j in dev ==> j in old(dev) && dev[j] == old(dev)[j]
    {
      Upsert(id, d, rt);
      if d.about.identity.display != "" && prevDisplay != "" && d.about.identity.display != prevDisplay {
        Rename(id, prevDisplay, d.about.identity.display);
      }
      ShownStaysValid(e);
    }

    /** Its machine first, then its record and keys. */
    method Reprofile(id: string, e: DeviceEntry, i: Identity, prof: Profile, maxGap: int)
      requires Indexed() && id in dev && dev[id] == e && e.Valid()
      modifies this`dev, this`byPrimary, this`byDisplay, this`ids, e`device, e`runtime, e.runtime`strategy
      ensures e.Valid() && Indexed() && View() == IdentityIndex.Describe(old(View()), id, i)
      ensures id in dev && dev[id] == e && Refreshed(e, prof, maxGap, false)
      ensures forall j :: j in dev ==> j in old(dev) && dev[j] == old(dev)[j]
    {
      var prevDisplay := e.device.about.identity.display;
      var rt := e.Adopt(prof, maxGap);
      ghost var machine := e.runtime.View();
      Describe(id, e, Described(id, i, prof), rt, prevDisplay);
      assert e.runtime == rt && e.runtime.View() == machine;
    }

    method ClearShown(e: DeviceEntry)
      requires Indexed() && e.Valid()
      modifies e`device
      ensures Indexed() && e.Valid() && e.device == old(e.device).(activity := NO_ACTIVITY, cycle := null)
    {
      e.ForgetShown();
    }

    /** A known device is described again; a phantom's upgrade forgets what was shown of it. */
    method Rediscover(id: string, e: DeviceEntry, i: Identity, prof: Profile, maxGap: int)
      requires Indexed() && id in dev && dev[id] == e && e.Valid()
      modifies this`dev, this`byPrimary, this`byDisplay, this`ids, e`device, e`runtime, e.runtime`strategy
      ensures e.Valid() && Indexed() && View() == IdentityIndex.Describe(old(View()), id, i)
      ensures id in dev && dev[id] == e && Refreshed(e, prof, maxGap, IsUpgrade(old(ids)[id], i))
      ensures forall j :: j in dev ==> j in old(dev) && dev[j] == old(dev)[j]
    {
      var wasPhantom := IsUpgrade(e.device.about.identity, i);
      Reprofile(id, e, i, prof, maxGap);
      if wasPhantom {
        ClearShown(e);
      }
    }

    function Choose(i: Identity, configured: string): (id: string)
      reads this
      ensures id == ChooseID(View(), i, configured)
    {
      var known := LookupID(i);
      if known != "" then known else if configured != "" then configured else DeriveID(i)
    }

    /** A new record and a new machine. */
    method Create(id: string, i: Identity, prof: Profile, maxGap: int) returns (ghost e: DeviceEntry)
      requires Indexed() && id !in dev
      modifies this`dev, this`byPrimary, this`byDisplay, this`ids
      ensures Indexed() && View() == IdentityIndex.Describe(old(View()), id, i)
      ensures id in dev && dev[id] == e && e.Valid() && fresh(Footprint(e)) && IsBeginning(e, id, i, prof, maxGap)
      ensures forall j :: j in dev && j != id ==> j in old(dev) && dev[j] == old(dev)[j]
    {
      var rt := new Runtime(prof.cls, prof.thresholds, prof.strategy, maxGap);
      Upsert(id, Described(id, i, prof), rt);
      e := dev[id];
      assert e.runtime.Valid();
    }

    /** A device not seen before. */
    method AddDevice(id: string, i: Identity, prof: Profile, maxGap: int, ghost foot: set<object>)
      returns (ghost more: set<object>)
      requires Valid(foot) && id !in dev
      modifies this`dev, this`byPrimary, this`byDisplay, this`ids
      ensures Valid(more) && foot <= more && fresh(more - foot)
      ensures View() == IdentityIndex.Describe(old(View()), id, i)
      ensures id in dev && fresh(Footprint(dev[id])) && IsBeginning(dev[id], id, i, prof, maxGap)
      ensures forall j :: j in dev && j != id ==> j in old(dev) && dev[j] == old(dev)[j]
      ensures forall f :: f in old(dev.Values) ==> Untouched(f)
    {
      ghost var es := dev.Values;
      ghost var e := Create(id, i, prof, maxGap);
      more := foot + Footprint(e);
      ValuesKept(old(dev), dev, id);
      forall f | f in es ensures Untouched(f) {
      }
      JoinsSeparate(es, e, foot);
      FewerStaySeparate(es + {e}, dev.Values, more);
    }

    /** A known device under a new profile. */
    method UpdateDevice(id: string, e: DeviceEntry, i: Identity, prof: Profile, maxGap: int, ghost foot: set<object>)
      returns (ghost more: set<object>)
      requires Valid(foot) && id in dev && dev[id] == e
      modifies this`dev, this`byPrimary, this`byDisplay, this`ids, e`device, e`runtime, e.runtime`strategy
      ensures Valid(more) && foot <= more && fresh(more - foot)
      ensures View() == IdentityIndex.Describe(old(View()), id, i)
      ensures id in dev && dev[id] == e && Refreshed(e, prof, maxGap, IsUpgrade(old(ids)[id], i))
      ensures forall j :: j in dev ==> j in old(dev) && dev[j] == old(dev)[j]
      ensures forall f :: f in old(dev.Values) && f != e ==> Untouched(f)
    {
      ghost var es := dev.Values;
      Rediscover(id, e, i, prof, maxGap);
      more := foot + Footprint(e);
      ValuesKept(old(dev), dev, id);
      forall f | f in es && f != e ensures Untouched(f) {
        assert old(Apart(f, e));
      }
      RefreshedStaysSeparate(es, e, foot);
      FewerStaySeparate(es + {e}, dev.Values, more);
    }

    /** Create the device or bring it up to date. */
    method Settle(id: string, i: Identity, prof: Profile, maxGap: int, ghost foot: set<object>)
      returns (ghost more: set<object>)
      requires Valid(foot)
      modifies this`dev, this`byPrimary, this`byDisplay, this`ids
      modifies Known(id)`device, Known(id)`runtime, KnownMachine(id)`strategy
      ensures Valid(more) && foot <= more && fresh(more - foot)
      ensures View() == IdentityIndex.Describe(old(View()), id, i) && id in dev
      ensures id !in old(dev) ==> fresh(Footprint(dev[id])) && IsBeginning(dev[id], id, i, prof, maxGap)
      ensures id in old(dev) ==>
                dev[id] == old(dev)[id] && Refreshed(old(dev)[id], prof, maxGap, IsUpgrade(old(ids)[id], i))
      ensures forall j :: j in dev && j != id ==> j in old(dev) && dev[j] == old(dev)[j]
      ensures forall f :: f in old(dev.Values - Known(id)) ==> Untouched(f)
    {
      if id !in dev {
        more := AddDevice(id, i, prof, maxGap, foot);
      } else {
        more := UpdateDevice(id, dev[id], i, prof, maxGap, foot);
      }
    }

    /** EnsureDiscovered: the id an identity is stored under, created or brought up to date. The
        store stays valid. */
    method EnsureDiscovered(i: Identity, configured: string, prof: Profile, maxGap: int, ghost foot: set<object>)
      returns (id: string, ghost more: set<object>)
      requires Valid(foot)
      modifies this`dev, this`byPrimary, this`byDisplay, this`ids
      modifies Known(ChooseID(View(), i, configured))`device, Known(ChooseID(View(), i, configured))`runtime
      modifies KnownMachine(ChooseID(View(), i, configured))`strategy
      ensures Valid(more) && foot <= more && fresh(more - foot)
      ensures View() == Discover(old(View()), i, configured)
      ensures id == ChooseID(old(View()), i, configured) && id in dev
      ensures id !in old(dev) ==> fresh(Footprint(dev[id])) && IsBeginning(dev[id], id, i, prof, maxGap)
      ensures id in old(dev) ==>
                dev[id] == old(dev)[id] && Refreshed(old(dev)[id], prof, maxGap, IsUpgrade(old(ids)[id], i))
      ensures forall j :: j in dev && j != id ==> j in old(dev) && dev[j] == old(dev)[j]
      ensures forall f :: f in old(dev.Values - Known(id)) ==> Untouched(f)
    {
      id := Choose(i, configured);
      more := Settle(id, i, prof, maxGap, foot);
    }
  }

  lemma ValuesKept<K, V>(was: map<K, V>, now: map<K, V>, k: K)
    requires k in now && forall j :: j in now && j != k ==> j in was && now[j] == was[j]
    ensures now.Values <= was.Values + {now[k]}
  {
  }

  /** Bringing one entry up to date leaves all of them separate. */
  twostate lemma RefreshedStaysSeparate(es: set<DeviceEntry>, new e: DeviceEntry, new foot: set<object>)
    requires old(allocated(e) && allocated(foot)) && e in es && old(Separate(es, foot)) && e.Valid() && KeepsToItself(e)
    requires forall f :: f in es && f != e ==> Untouched(f)
    ensures Separate(es + {e}, foot + Footprint(e)) && fresh(Footprint(e) - foot)
  {
    assert es + {e} == es;
    StaysSeparate(es, e, foot);
  }

  /** A record known by its name alone meets the stable key behind the name. */
  predicate IsUpgrade(was: Identity, i: Identity) {
    was.primary != "" && was.display != "" && was.primary == was.display && i.primary != "" && i.primary != i.display
  }

  /** A known entry under a new profile: only another class replaces its machine (of the old one
      only the strategy may be written), and only a phantom's upgrade clears what was shown. */
  twostate predicate Refreshed(e: DeviceEntry, prof: Profile, maxGap: int, upgraded: bool)
    reads e, e.runtime, e.runtime.integrator, e.runtime.counter, e.runtime.cycle
  {
    && (prof.cls == old(e.runtime.cls) ==>
          e.runtime == old(e.runtime) && e.runtime.View() == old(e.runtime.View()).(strategy := prof.strategy))
    && (prof.cls != old(e.runtime.cls) ==> fresh(e.runtime.Repr()) && IsNewFor(e.runtime, prof, maxGap))
    && e.offlineAt == old(e.offlineAt)
    && e.device == old(e.device).(about := e.device.about,
                                  activity := if upgraded then NO_ACTIVITY else old(e.device.activity),
                                  cycle := if upgraded then null else old(e.device.cycle))
  }

  /** A device just discovered, with a machine of its own. */
  ghost predicate IsBeginning(e: DeviceEntry, id: string, i: Identity, prof: Profile, maxGap: int)
    reads e, e.runtime, e.runtime.integrator, e.runtime.counter, e.runtime.cycle
  {
    e.device == Described(id, i, prof) && e.offlineAt == None && IsNewFor(e.runtime, prof, maxGap)
  }
}
