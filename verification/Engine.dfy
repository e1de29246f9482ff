/** The engine's entry points (internal/state/engine.go) over a whole store of any size: each keeps
    the store valid and its index consistent, and none ever writes to what a caller was handed. */
module Engine {
  import opened Common
  import opened Model
  import opened DeviceRuntime
  import opened IdentityIndex
  import opened Entry
  import opened Snapshots
  import opened StateStore
  import Device
  import Energy

  /** The resolver under whatever configuration is loaded: a configured id ("" for none) and a
      profile for each identity, and the integration gap. */
  datatype Config = Config(idOf: Identity -> string, profileOf: Identity -> Profile, maxGap: int) {
    function IdFor(i: Identity): string { idOf(i) }

    function ProfileFor(i: Identity): Profile { profileOf(i) }
  }

  /** Consistency is carried over. */
  ghost predicate Carries(a: Index, b: Index) { Consistent(a) ==> Consistent(b) }

  /** What decides how an entry goes on: its availability, and its machine. */
  datatype Status = Status(link: Link, conf: Device.Conf, machine: Device.State)

  ghost function StatusOf(e: DeviceEntry): Status
    reads e, e.runtime, e.runtime.integrator, e.runtime.counter, e.runtime.cycle
  {
    Status(e.TheLink(), e.runtime.TheConf(), e.runtime.View())
  }

  ghost function StatusAfter(st: Status, op: Op): Status {
    Status(LinkAfter(st.link, op), st.conf, MachineAfter(st.conf, st.machine, op))
  }

  // ------------------------------------------------------------ one call at a time

  twostate lemma UntouchedStatus(f: DeviceEntry)
    requires Untouched(f)
    ensures StatusOf(f) == old(StatusOf(f))
  {
  }

  /** Entries are stored under their own ids. */
  lemma IsAnother(s: Store, f: string, id: string, foot: set<object>)
    requires s.Valid(foot)
    ensures f in s.dev && f != id ==> s.dev[f] in s.dev.Values - s.Known(id)
  {
  }

  /** Where an entry stands: its availability, and the profile its machine follows. */
  datatype Standing = Standing(link: Link, cls: Class, strategy: Energy.Strategy)

  ghost function StandingOf(e: DeviceEntry): Standing
    reads e, e.runtime
  {
    Standing(e.TheLink(), e.runtime.cls, e.runtime.strategy)
  }

  ghost predicate IsKnown(s: Store, id: string, es: set<DeviceEntry>, rs: set<Runtime>)
    reads s, s.Known(id)
  {
    es == s.Known(id) && rs == s.KnownMachine(id)
  }

  /** EnsureDiscovered under a configuration; `f` is any stored device. */
  method Ensure(s: Store, i: Identity, c: Config, ghost es: set<DeviceEntry>, ghost rs: set<Runtime>,
                ghost foot: set<object>, ghost f: string)
    returns (id: string, ghost more: set<object>)
    requires s.Valid(foot) && IsKnown(s, ChooseID(s.View(), i, c.IdFor(i)), es, rs)
    modifies s, es, rs`strategy
    ensures s.Valid(more) && foot <= more && fresh(more - foot)
    ensures s.View() == IdentityIndex.Discover(old(s.View()), i, c.IdFor(i))
    ensures id == ChooseID(old(s.View()), i, c.IdFor(i)) && id in s.dev
    ensures StandingOf(s.dev[id])
         == Standing(if id in old(s.dev) then old(s.dev[id].TheLink()) else Link(NotSeen, None),
                     c.ProfileFor(i).cls, c.ProfileFor(i).strategy)
    ensures f in s.dev && f != id ==> f in old(s.dev) && StandingOf(s.dev[f]) == old(StandingOf(s.dev[f]))
  {
    IsAnother(s, f, ChooseID(s.View(), i, c.IdFor(i)), foot);
    id, more := s.EnsureDiscovered(i, c.IdFor(i), c.ProfileFor(i), c.maxGap, foot);
  }

  /** The same, and no record ever shown is written to. */
  method Preserve(s: Store, i: Identity, c: Config, ghost es: set<DeviceEntry>, ghost rs: set<Runtime>,
                  ghost foot: set<object>, ghost shown: DeviceRecord, ghost f: string)
    returns (id: string, ghost more: set<object>)
    requires s.Valid(foot) && IsShown(shown) && IsKnown(s, ChooseID(s.View(), i, c.IdFor(i)), es, rs)
    modifies s, es, rs`strategy
    ensures s.Valid(more) && foot <= more && fresh(more - foot)
    ensures s.View() == IdentityIndex.Discover(old(s.View()), i, c.IdFor(i))
    ensures id == ChooseID(old(s.View()), i, c.IdFor(i)) && id in s.dev
    ensures StandingOf(s.dev[id])
         == Standing(if id in old(s.dev) then old(s.dev[id].TheLink()) else Link(NotSeen, None),
                     c.ProfileFor(i).cls, c.ProfileFor(i).strategy)
    ensures f in s.dev && f != id ==> f in old(s.dev) && StandingOf(s.dev[f]) == old(StandingOf(s.dev[f]))
    ensures PictureOf(shown) == old(PictureOf(shown))
  {
    id, more := Ensure(s, i, c, es, rs, foot, f);
  }

  /** The same, and no record ever shown is written to. */
  method Discover(s: Store, i: Identity, c: Config, ghost foot: set<object>, ghost shown: DeviceRecord, ghost f: string)
    returns (id: string, ghost more: set<object>)
    requires s.Valid(foot) && IsShown(shown)
    modifies s, foot
    ensures s.Valid(more) && foot <= more && fresh(more - foot)
    ensures s.View() == IdentityIndex.Discover(old(s.View()), i, c.IdFor(i))
    ensures id == ChooseID(old(s.View()), i, c.IdFor(i)) && id in s.dev
    ensures StandingOf(s.dev[id])
         == Standing(if id in old(s.dev) then old(s.dev[id].TheLink()) else Link(NotSeen, None),
                     c.ProfileFor(i).cls, c.ProfileFor(i).strategy)
    ensures f in s.dev && f != id ==> f in old(s.dev) && StandingOf(s.dev[f]) == old(StandingOf(s.dev[f]))
    ensures PictureOf(shown) == old(PictureOf(shown))
  {
    ghost var known := ChooseID(s.View(), i, c.IdFor(i));
    id, more := Preserve(s, i, c, s.Known(known), s.KnownMachine(known), foot, shown, f);
  }

  lemma DiscoverCarries(ix: Index, i: Identity, configured: string)
    ensures Keyed(i) ==> Carries(ix, IdentityIndex.Discover(ix, i, configured))
  {
    if Keyed(i) && Consistent(ix) {
      DiscoverKeeps(ix, i, configured);
    }
  }

  /** An operation on one of any number of separate entries; `g` is any of them. */
  method Operate(ghost es: set<DeviceEntry>, e: DeviceEntry, op: Op, ghost foot: set<object>, ghost shown: DeviceRecord,
                 ghost g: DeviceEntry)
    returns (ghost more: set<object>)
    requires e in es && g in es && Separate(es, foot) && IsShown(shown)
    modifies e, e.runtime, e.runtime.integrator, e.runtime.counter, e.runtime.cycle
    ensures Separate(es, more) && foot <= more && fresh(more - foot)
    ensures e.device.about == old(e.device.about) && PictureOf(shown) == old(PictureOf(shown))
    ensures StatusOf(g) == if g == e then StatusAfter(old(StatusOf(e)), op) else old(StatusOf(g))
  {
    ApplyAmong(es, e, op, foot, shown);
    if g != e {
      UntouchedStatus(g);
    }
    StaysSeparate(es, e, foot);
    more := foot + Footprint(e);
  }

  /** withEntry: an operation on the entry stored under the id, if there is one, and on no other; `f`
      is any stored device. */
  method WithEntry(s: Store, id: string, op: Op, ghost foot: set<object>, ghost shown: DeviceRecord, ghost f: string)
    returns (ghost more: set<object>)
    requires s.Valid(foot) && IsShown(shown)
    modifies foot
    ensures s.Valid(more) && foot <= more && fresh(more - foot)
    ensures unchanged(s) && PictureOf(shown) == old(PictureOf(shown))
    ensures f in s.dev ==>
              var was := old(StatusOf(s.dev[f])); StatusOf(s.dev[f]) == if f == id then StatusAfter(was, op) else was
  {
    more := foot;
    if id in s.dev {
      var e := s.dev[id];
      assert forall j :: j in s.dev && s.dev[j] == e ==> j == id;
      more := Operate(s.dev.Values, e, op, foot, shown, if f in s.dev then s.dev[f] else e);
      assert forall j :: j in s.dev ==> s.dev[j].device.about == old(s.dev[j].device.about);
    }
  }

  /** IngestReading and SetAvailability: the device is discovered (and `found` under its profile),
      then operated on. */
  method Receive(s: Store, i: Identity, c: Config, op: Op, ghost foot: set<object>, ghost shown: DeviceRecord)
    returns (id: string, ghost found: Status, ghost more: set<object>)
    requires s.Valid(foot) && IsShown(shown)
    modifies s, foot
    ensures s.Valid(more) && foot <= more && fresh(more - foot)
    ensures s.View() == IdentityIndex.Discover(old(s.View()), i, c.IdFor(i))
    ensures id == ChooseID(old(s.View()), i, c.IdFor(i)) && id in s.dev
    ensures found.link == if id in old(s.dev) then old(s.dev[id].TheLink()) else Link(NotSeen, None)
    ensures found.conf.cls == c.ProfileFor(i).cls && found.machine.strategy == c.ProfileFor(i).strategy
    ensures StatusOf(s.dev[id]) == StatusAfter(found, op)
    ensures PictureOf(shown) == old(PictureOf(shown))
  {
    id, more := Discover(s, i, c, foot, shown, "");
    found := StatusOf(s.dev[id]);
    assert StandingOf(s.dev[id]) == Standing(found.link, found.conf.cls, found.machine.strategy);
    assert found.link == if id in old(s.dev) then old(s.dev[id].TheLink()) else Link(NotSeen, None);
    more := WithEntry(s, id, op, more, shown, id);
  }

  /** Tick: every stored entry in turn, in any order, each once; `f` is any stored device. */
  method Tick(s: Store, now: int, debounce: int, ghost foot: set<object>, ghost shown: DeviceRecord, ghost f: string)
    returns (ghost more: set<object>)
    requires s.Valid(foot) && IsShown(shown)
    modifies foot
    ensures s.Valid(more) && foot <= more && fresh(more - foot)
    ensures unchanged(s) && PictureOf(shown) == old(PictureOf(shown))
    ensures f in s.dev ==> StatusOf(s.dev[f]) == StatusAfter(old(StatusOf(s.dev[f])), Ticked(now, debounce))
  {
    more := foot;
    var todo := s.dev.Keys;
    while todo != {}
      invariant s.Valid(more) && foot <= more && fresh(more - foot)
      invariant unchanged(s) && PictureOf(shown) == old(PictureOf(shown))
      invariant f in s.dev ==>
                  var was := old(StatusOf(s.dev[f]));
                  StatusOf(s.dev[f]) == if f in todo then was else StatusAfter(was, Ticked(now, debounce))
      decreases todo
    {
      var id :| id in todo;
      todo := todo - {id};
      more := WithEntry(s, id, Ticked(now, debounce), more, shown, f);
    }
  }

  /** Every device with a name is the one filed under it. */
  ghost predicate HoldNames(ix: Index) {
    forall id :: id in ix.ids && ix.ids[id].display != "" ==>
                   DKey(ix.ids[id]) in ix.byDisplay && ix.byDisplay[DKey(ix.ids[id])] == id
  }

  lemma MeetsItself(ix: Index, id: string, configured: string)
    requires Consistent(ix) && HoldNames(ix) && id in ix.ids
    ensures ChooseID(ix, ix.ids[id], configured) == id && IdentityIndex.Discover(ix, ix.ids[id], configured) == ix
  {
    assert Merged(ix, id, ix.ids[id]) == ix.ids[id];
    assert Reindex(ix, id, ix.ids[id]) == ix;
  }

  function Following(st: Standing, prof: Profile): Standing { st.(cls := prof.cls, strategy := prof.strategy) }

  ghost predicate IsSettled(ix: Index) { Consistent(ix) && HoldNames(ix) }

  /** One stored device under the new config; any stored device `f` stood at `was` before. */
  method Reload(s: Store, id: string, i: Identity, c: Config, ghost foot: set<object>, ghost shown: DeviceRecord,
                ghost f: string, ghost was: Standing, ghost settled: bool)
    returns (ghost more: set<object>)
    requires s.Valid(foot) && IsShown(shown)
    requires settled ==> IsSettled(s.View()) && id in s.ids && s.ids[id] == i
    requires settled && f in s.dev ==> StandingOf(s.dev[f]) == was
    modifies s, foot
    ensures s.Valid(more) && foot <= more && fresh(more - foot)
    ensures Keyed(i) ==> Carries(old(s.View()), s.View())
    ensures PictureOf(shown) == old(PictureOf(shown))
    ensures settled ==> s.View() == old(s.View())
    ensures settled && f in s.dev ==>
              StandingOf(s.dev[f]) == if f == id then Following(was, c.ProfileFor(i)) else was
  {
    DiscoverCarries(s.View(), i, c.IdFor(i));
    if settled {
      MeetsItself(s.View(), id, c.IdFor(i));
    }
    var found;
    found, more := Discover(s, i, c, foot, shown, f);
  }

  /** ReloadConfig: every device known at the start is discovered again under the new config. If each
      holds its own name, the index stays as it is and every device follows the new profile; `f` is
      any stored device. */
  method ReloadConfig(s: Store, c: Config, ghost foot: set<object>, ghost shown: DeviceRecord, ghost f: string)
    returns (ghost more: set<object>)
    requires s.Valid(foot) && IsShown(shown)
    modifies s, foot
    ensures s.Valid(more) && foot <= more && fresh(more - foot)
    ensures Carries(old(s.View()), s.View())
    ensures PictureOf(shown) == old(PictureOf(shown))
    ensures IsSettled(old(s.View())) ==> s.View() == old(s.View())
    ensures IsSettled(old(s.View())) && f in s.dev ==>
              StandingOf(s.dev[f]) == Following(old(StandingOf(s.dev[f])), c.ProfileFor(s.ids[f]))
  {
    more := foot;
    var devices := map id | id in s.dev :: s.dev[id].device.about.identity;
    var todo := devices.Keys;
    ghost var settled := IsSettled(s.View());
    ghost var was: Standing := *;
    if f in s.dev {
      was := StandingOf(s.dev[f]);
    }
    ghost var now := was;
    while todo != {}
      invariant todo <= devices.Keys
      invariant s.Valid(more) && foot <= more && fresh(more - foot)
      invariant Carries(old(s.View()), s.View())
      invariant PictureOf(shown) == old(PictureOf(shown))
      invariant settled ==> s.View() == old(s.View())
      invariant settled && f in s.dev ==> StandingOf(s.dev[f]) == now
      invariant f in devices ==> now == if f in todo then was else Following(was, c.ProfileFor(devices[f]))
      decreases todo
    {
      var id :| id in todo;
      todo := todo - {id};
      ghost var next := if f == id then Following(now, c.ProfileFor(devices[id])) else now;
      assert f in devices ==> next == if f in todo then was else Following(was, c.ProfileFor(devices[f]));
      more := Reload(s, id, devices[id], c, more, shown, f, now, settled);
      now := next;
    }
  }

  // ------------------------------------------------------------ runs

  /** Everything that reaches the store. */
  datatype Call =
    | Discovered(identity: Identity, config: Config)
    | Received(identity: Identity, config: Config, op: Op)
    | Ticking(now: int, debounce: int)
    | Reloaded(config: Config)

  /** The call names its device by a full stable key, if it names one. */
  predicate IsKeyed(call: Call) { call.Ticking? || call.Reloaded? || Keyed(call.identity) }

  /** What a call makes of the index. */
  ghost predicate Indexes(ix: Index, call: Call, next: Index) {
    match call
    case Discovered(i, c) => next == IdentityIndex.Discover(ix, i, c.IdFor(i))
    case Received(i, c, _) => next == IdentityIndex.Discover(ix, i, c.IdFor(i))
    case Ticking(_, _) => next == ix
    case Reloaded(_) => Carries(ix, next) && (IsSettled(ix) ==> next == ix)
  }

  ghost predicate Leads(ix: Index, calls: seq<Call>, last: Index)
    decreases |calls|
  {
    if calls == [] then last == ix
    else exists next :: Indexes(ix, calls[0], next) && Leads(next, calls[1..], last)
  }

  lemma {:induction false} RunCarries(ix: Index, calls: seq<Call>, last: Index)
    requires Leads(ix, calls, last) && forall k :: 0 <= k < |calls| ==> IsKeyed(calls[k])
    ensures Carries(ix, last)
    decreases |calls|
  {
    if calls != [] {
      var next :| Indexes(ix, calls[0], next) && Leads(next, calls[1..], last);
      if !calls[0].Ticking? && !calls[0].Reloaded? {
        DiscoverCarries(ix, calls[0].identity, calls[0].config.IdFor(calls[0].identity));
      }
      RunCarries(next, calls[1..], last);
    }
  }

  /** One call; `f` is any stored device, and `found` what an operation was done on. */
  method Perform(s: Store, call: Call, ghost foot: set<object>, ghost shown: DeviceRecord, ghost f: string)
    returns (ghost found: Status, ghost more: set<object>)
    requires s.Valid(foot) && IsShown(shown)
    modifies s, foot
    ensures s.Valid(more) && foot <= more && fresh(more - foot)
    ensures Indexes(old(s.View()), call, s.View())
    ensures PictureOf(shown) == old(PictureOf(shown))
    ensures call.Received? ==>
              var id := ChooseID(old(s.View()), call.identity, call.config.IdFor(call.identity));
              && id in s.dev && StatusOf(s.dev[id]) == StatusAfter(found, call.op)
              && found.link == if id in old(s.dev) then old(s.dev[id].TheLink()) else Link(NotSeen, None)
    ensures call.Ticking? && f in s.dev ==>
              StatusOf(s.dev[f]) == StatusAfter(old(StatusOf(s.dev[f])), Ticked(call.now, call.debounce))
    ensures call.Reloaded? && IsSettled(old(s.View())) && f in s.dev ==>
              StandingOf(s.dev[f]) == Following(old(StandingOf(s.dev[f])), call.config.ProfileFor(s.ids[f]))
  {
    found := *;
    match call {
      case Discovered(i, c) =>
        var id;
        id, more := Discover(s, i, c, foot, shown, f);
      case Received(i, c, op) =>
        var id;
        id, found, more := Receive(s, i, c, op, foot, shown);
      case Ticking(now, debounce) => more := Tick(s, now, debounce, foot, shown, f);
      case Reloaded(c) => more := ReloadConfig(s, c, foot, shown, f);
    }
  }

  /** Over any run of discoveries, readings, availability reports, ticks and reloads, on a store of
      any size: a record handed out before reads the same afterwards, the store stays valid, and
      its index is what the calls make of it, so it stays consistent. */
  method Replay(s: Store, calls: seq<Call>, ghost foot: set<object>, ghost shown: DeviceRecord)
    returns (ghost more: set<object>)
    requires s.Valid(foot) && IsShown(shown)
    modifies s, foot
    ensures s.Valid(more)
    ensures PictureOf(shown) == old(PictureOf(shown))
    ensures Leads(old(s.View()), calls, s.View())
    ensures (forall k :: 0 <= k < |calls| ==> IsKeyed(calls[k])) ==> Carries(old(s.View()), s.View())
    decreases |calls|
  {
    more := foot;
    if calls != [] {
      ghost var ix := s.View();
      ghost var found;
      found, more := Perform(s, calls[0], more, shown, "");
      assert Indexes(ix, calls[0], s.View());
      more := Replay(s, calls[1..], more, shown);
    }
    if forall k :: 0 <= k < |calls| ==> IsKeyed(calls[k]) {
      RunCarries(old(s.View()), calls, s.View());
    }
  }

  /** What a caller is handed is a record of a stored device, so the run theorem speaks of it. */
  method Get(s: Store, id: string, ghost foot: set<object>) returns (d: Option<DeviceRecord>)
    requires s.Valid(foot)
    ensures d == if id in s.dev then Some(s.dev[id].device) else None
    ensures d.Some? ==> IsShown(d.value)
  {
    assert id in s.dev ==> s.dev[id] in s.dev.Values && s.dev[id].Valid();
    d := if id in s.dev then Some(s.dev[id].device) else None;
  }
}
