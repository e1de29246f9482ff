/** The identity index of internal/state/store.go as a value: which device owns which key,
    what each operation does to that, and when it stays consistent. */
module IdentityIndex {
  datatype Identity = Identity(scheme: string, primary: string, display: string)

  datatype Key = Key(scheme: string, name: string)

  /** The stored text of a key. */
  function Text(k: Key): string { k.scheme + ":" + k.name }

  datatype Index = Index(ids: map<string, Identity>, byPrimary: map<Key, string>, byDisplay: map<Key, string>)

  const EMPTY := Index(map[], map[], map[])

  predicate Keyed(i: Identity) { i.scheme != "" && i.primary != "" }

  function PKey(i: Identity): Key { Key(i.scheme, i.primary) }

  function DKey(i: Identity): Key { Key(i.scheme, i.display) }

  function Prefer(a: string, b: string): string { if a != "" then a else b }

  function Merge(prev: Identity, next: Identity): Identity {
    Identity(Prefer(next.scheme, prev.scheme), Prefer(next.primary, prev.primary), Prefer(next.display, prev.display))
  }

  /** A record made from a display name alone, before the stable key was known. */
  predicate IsPhantom(i: Identity) { i.primary != "" && i.primary == i.display }

  function Merged(ix: Index, id: string, ident: Identity): Identity {
    if id in ix.ids then Merge(ix.ids[id], ident) else ident
  }

  function Without<K, V>(m: map<K, V>, k: K): map<K, V> { m - {k} }

  /** Store the merged identity, drop the keys it no longer has and file its stable key. */
  function Reindex(ix: Index, id: string, ident: Identity): Index {
    var prev := if id in ix.ids then ix.ids[id] else Identity("", "", "");
    var m := Merged(ix, id, ident);
    var p0 := if prev.scheme != "" && prev.primary != "" && PKey(prev) != PKey(m)
              then Without(ix.byPrimary, PKey(prev)) else ix.byPrimary;
    var d0 := if prev.scheme != "" && prev.display != "" && DKey(prev) != DKey(m)
              then Without(ix.byDisplay, DKey(prev)) else ix.byDisplay;
    Index(ix.ids[id := m], if m.scheme != "" && m.primary != "" then p0[PKey(m) := id] else p0, d0)
  }

  /** File the display name; a phantom that held it is removed with its own key. */
  function ClaimDisplay(ix: Index, id: string): Index
    requires id in ix.ids
  {
    var m, k := ix.ids[id], DKey(ix.ids[id]);
    if m.scheme == "" || m.display == "" then ix
    else if k in ix.byDisplay && ix.byDisplay[k] != id
            && ix.byDisplay[k] in ix.ids && IsPhantom(ix.ids[ix.byDisplay[k]])
    then
      var orphan := ix.byDisplay[k];
      Index(Without(ix.ids, orphan), Without(ix.byPrimary, PKey(ix.ids[orphan])), ix.byDisplay[k := id])
    else ix.(byDisplay := ix.byDisplay[k := id])
  }

  function Upsert(ix: Index, id: string, ident: Identity): Index { ClaimDisplay(Reindex(ix, id, ident), id) }

  function Rename(ix: Index, id: string, oldDisplay: string, newDisplay: string): Index {
    if id !in ix.ids then ix
    else
      var i := ix.ids[id];
      var d0 := if oldDisplay != "" && i.scheme != ""
                then Without(ix.byDisplay, Key(i.scheme, oldDisplay)) else ix.byDisplay;
      if newDisplay != "" && i.scheme != ""
      then Index(ix.ids[id := i.(display := newDisplay)], ix.byPrimary, d0[Key(i.scheme, newDisplay) := id])
      else ix.(byDisplay := d0)
  }

  /** The stored id for an identity: by stable key, else by display name, else "". */
  function Lookup(ix: Index, i: Identity): string {
    if i.scheme != "" && i.primary != "" && PKey(i) in ix.byPrimary then ix.byPrimary[PKey(i)]
    else if i.scheme != "" && i.display != "" && DKey(i) in ix.byDisplay then ix.byDisplay[DKey(i)]
    else ""
  }

  function DeriveID(i: Identity): (id: string)
    ensures id != ""
  {
    if i.display != "" then i.display
    else
      var p := if |i.primary| > 2 && (i.primary[..2] == "0x" || i.primary[..2] == "0X")
               then i.primary[2..] else i.primary;
      if p != "" then "dev_" + p else "dev_unknown"
  }

  /** The id EnsureDiscovered settles on; `configured` is the resolver's answer, "" for none. */
  function ChooseID(ix: Index, i: Identity, configured: string): (id: string)
    ensures "" !in ix.byPrimary.Values && "" !in ix.byDisplay.Values ==> id != ""
  {
    var found := Lookup(ix, i);
    if found != "" then found else if configured != "" then configured else DeriveID(i)
  }

  /** Upsert, then re-file the display name if it changed. */
  function Describe(ix: Index, id: string, i: Identity): Index {
    var next := Upsert(ix, id, i);
    if id in ix.ids && i.display != "" && ix.ids[id].display != "" && i.display != ix.ids[id].display
    then Rename(next, id, ix.ids[id].display, i.display)
    else next
  }

  function Discover(ix: Index, i: Identity, configured: string): Index { Describe(ix, ChooseID(ix, i, configured), i) }

  // ------------------------------------------------------------ consistency

  /** byPrimary is a bijection onto the stored devices and every display entry is truthful. */
  ghost predicate Consistent(ix: Index) {
    && "" !in ix.ids
    && (forall k :: k in ix.byPrimary ==> ix.byPrimary[k] in ix.ids && PKey(ix.ids[ix.byPrimary[k]]) == k)
    && (forall id :: id in ix.ids ==>
                       Keyed(ix.ids[id]) && PKey(ix.ids[id]) in ix.byPrimary && ix.byPrimary[PKey(ix.ids[id])] == id)
    && (forall k :: k in ix.byDisplay ==>
                      k.name != "" && ix.byDisplay[k] in ix.ids && DKey(ix.ids[ix.byDisplay[k]]) == k)
  }

  /** The merged key is free, or already this device's. */
  predicate MayTake(ix: Index, id: string, ident: Identity) {
    var m := Merged(ix, id, ident);
    Keyed(m) && (PKey(m) in ix.byPrimary ==> ix.byPrimary[PKey(m)] == id)
  }

  lemma ReindexKeeps(ix: Index, id: string, ident: Identity)
    requires Consistent(ix) && id != "" && MayTake(ix, id, ident)
    ensures Consistent(Reindex(ix, id, ident))
  {
    var next, m := Reindex(ix, id, ident), Merged(ix, id, ident);
    forall k | k in next.byPrimary ensures next.byPrimary[k] in next.ids && PKey(next.ids[next.byPrimary[k]]) == k {
    }
    forall j | j in next.ids
      ensures Keyed(next.ids[j]) && PKey(next.ids[j]) in next.byPrimary && next.byPrimary[PKey(next.ids[j])] == j
    {
      assert j != id ==> PKey(ix.ids[j]) != PKey(m);
    }
  }

  lemma ClaimKeeps(ix: Index, id: string)
    requires Consistent(ix) && id in ix.ids
    ensures var next := ClaimDisplay(ix, id);
            && Consistent(next)
            && id in next.ids && next.ids[id] == ix.ids[id]
            && (ix.ids[id].display != "" ==>
                  DKey(ix.ids[id]) in next.byDisplay && next.byDisplay[DKey(ix.ids[id])] == id)
  {
    var next := ClaimDisplay(ix, id);
    forall k | k in next.byPrimary ensures next.byPrimary[k] in next.ids && PKey(next.ids[next.byPrimary[k]]) == k {
      assert ix.byPrimary[k] in ix.ids;
    }
    forall k | k in next.byDisplay
      ensures k.name != "" && next.byDisplay[k] in next.ids && DKey(next.ids[next.byDisplay[k]]) == k
    {
      assert k != DKey(ix.ids[id]) ==> ix.byDisplay[k] in ix.ids;
    }
  }

  lemma UpsertKeeps(ix: Index, id: string, ident: Identity)
    requires Consistent(ix) && id != "" && MayTake(ix, id, ident)
    ensures var next := Upsert(ix, id, ident);
            && Consistent(next)
            && id in next.ids && next.ids[id] == Merged(ix, id, ident)
            && (next.ids[id].display != "" ==>
                  DKey(next.ids[id]) in next.byDisplay && next.byDisplay[DKey(next.ids[id])] == id)
  {
    ReindexKeeps(ix, id, ident);
    ClaimKeeps(Reindex(ix, id, ident), id);
  }

  /** An upsert keeps a consistent index consistent exactly when it takes no other device's
      stable key; the phantom it may tombstone is never one it still needs. */
  lemma UpsertKeepsIff(ix: Index, id: string, ident: Identity)
    requires Consistent(ix) && id != ""
    ensures Consistent(Upsert(ix, id, ident)) <==> MayTake(ix, id, ident)
  {
    var m := Merged(ix, id, ident);
    var next := Upsert(ix, id, ident);
    if MayTake(ix, id, ident) {
      UpsertKeeps(ix, id, ident);
    } else if Keyed(m) {
      var other := ix.byPrimary[PKey(m)];
      assert other in ix.ids && other != id;
      if other in next.ids {
        assert next.ids[other] == ix.ids[other];
        assert PKey(next.ids[other]) == PKey(m);
      } else {
        assert PKey(ix.ids[other]) !in next.byPrimary;
        assert next.ids[id] == m;
      }
    } else {
      assert next.ids[id] == m;
    }
  }

  /** No entry under the device's present name would survive the rename. */
  predicate LeavesNothingStale(ix: Index, id: string, oldDisplay: string, newDisplay: string)
    requires id in ix.ids
  {
    var i := ix.ids[id];
    newDisplay == "" || newDisplay == i.display || oldDisplay == i.display
    || !(DKey(i) in ix.byDisplay && ix.byDisplay[DKey(i)] == id)
  }

  lemma RenameKeeps(ix: Index, id: string, oldDisplay: string, newDisplay: string)
    requires Consistent(ix) && id in ix.ids && LeavesNothingStale(ix, id, oldDisplay, newDisplay)
    ensures Consistent(Rename(ix, id, oldDisplay, newDisplay))
  {
    var next, i := Rename(ix, id, oldDisplay, newDisplay), ix.ids[id];
    forall k | k in next.byDisplay
      ensures k.name != "" && next.byDisplay[k] in next.ids && DKey(next.ids[next.byDisplay[k]]) == k
    {
      if k in ix.byDisplay {
        assert ix.byDisplay[k] in ix.ids;
      }
    }
  }

  /** A rename keeps the index consistent exactly when it leaves no stale entry behind: it
      names no new display, or the device's own, or drops the one the device is filed under. */
  lemma RenameKeepsIff(ix: Index, id: string, oldDisplay: string, newDisplay: string)
    requires Consistent(ix) && id in ix.ids
    ensures Consistent(Rename(ix, id, oldDisplay, newDisplay)) <==> LeavesNothingStale(ix, id, oldDisplay, newDisplay)
  {
    if LeavesNothingStale(ix, id, oldDisplay, newDisplay) {
      RenameKeeps(ix, id, oldDisplay, newDisplay);
    } else {
      var next, k := Rename(ix, id, oldDisplay, newDisplay), DKey(ix.ids[id]);
      assert k in next.byDisplay && next.byDisplay[k] == id;
      assert DKey(next.ids[id]) != k;
    }
  }

  lemma ChosenMayTake(ix: Index, i: Identity, configured: string)
    requires Consistent(ix) && Keyed(i)
    ensures var id := ChooseID(ix, i, configured); id != "" && MayTake(ix, id, i)
  {
  }

  lemma DiscoverKeeps(ix: Index, i: Identity, configured: string)
    requires Consistent(ix) && Keyed(i)
    ensures Consistent(Discover(ix, i, configured))
    ensures var id := ChooseID(ix, i, configured);
            var next := Discover(ix, i, configured);
            id in next.ids && next.ids[id] == Merged(ix, id, i) && Lookup(next, i) == id
  {
    var id := ChooseID(ix, i, configured);
    ChosenMayTake(ix, i, configured);
    UpsertKeeps(ix, id, i);
    var next := Upsert(ix, id, i);
    if id in ix.ids && i.display != "" && ix.ids[id].display != "" && i.display != ix.ids[id].display {
      RenameKeeps(next, id, ix.ids[id].display, i.display);
    }
  }

  /** One call of EnsureDiscovered under whatever configuration is then loaded. */
  datatype Contact = Contact(identity: Identity, configured: string)

  function RunContacts(cs: seq<Contact>): Index {
    if cs == [] then EMPTY
    else Discover(RunContacts(cs[..|cs| - 1]), cs[|cs| - 1].identity, cs[|cs| - 1].configured)
  }

  /** Over every sequential run of discoveries: renames, phantom upgrades, tombstones, id
      collisions and reloads leave the index consistent. */
  lemma {:induction false} RunIsConsistent(cs: seq<Contact>)
    requires forall c :: c in cs ==> Keyed(c.identity)
    ensures Consistent(RunContacts(cs))
  {
    if cs != [] {
      RunIsConsistent(cs[..|cs| - 1]);
      DiscoverKeeps(RunContacts(cs[..|cs| - 1]), cs[|cs| - 1].identity, cs[|cs| - 1].configured);
    }
  }

  /** What a consistent index is good for: every stored identity looks itself up, keys and
      devices pair off one to one, and display entries never outnumber devices. */
  lemma ConsistentIndexResolves(ix: Index)
    requires Consistent(ix)
    ensures forall id :: id in ix.ids ==> Lookup(ix, ix.ids[id]) == id
    ensures ix.byPrimary.Values == ix.ids.Keys
    ensures |ix.byPrimary| == |ix.ids|
    ensures |ix.byDisplay| <= |ix.ids|
  {
    forall id | id in ix.ids ensures id in ix.byPrimary.Values {
      assert ix.byPrimary[PKey(ix.ids[id])] == id;
    }
    InjectiveSize(ix.byPrimary);
    InjectiveSize(ix.byDisplay);
    SubsetSize(ix.byDisplay.Values, ix.ids.Keys);
  }

  lemma SubsetSize<T>(a: set<T>, b: set<T>)
    requires a <= b
    ensures |a| <= |b|
  {
    assert b == a + (b - a);
  }

  lemma {:induction false} InjectiveSize<K, V>(m: map<K, V>)
    requires forall j, k :: j in m && k in m && m[j] == m[k] ==> j == k
    ensures |m| == |m.Values|
    decreases |m|
  {
    if m.Keys != {} {
      var k :| k in m.Keys;
      var rest := m - {k};
      InjectiveSize(rest);
      assert m.Values == rest.Values + {m[k]} by {
        forall v | v in m.Values ensures v in rest.Values + {m[k]} {
          var j :| j in m && m[j] == v;
          if j != k {
            assert j in rest && rest[j] == v;
          }
        }
      }
      assert m[k] !in rest.Values;
      assert m.Keys == rest.Keys + {k};
    } else {
      assert m.Values == {};
    }
  }

  /** The index already says all that this contact can tell about device id. */
  ghost predicate Settled(ix: Index, id: string, i: Identity) {
    && id in ix.ids && id != ""
    && ix.ids[id] == Merge(ix.ids[id], i)
    && Keyed(ix.ids[id]) && PKey(ix.ids[id]) in ix.byPrimary && ix.byPrimary[PKey(ix.ids[id])] == id
    && (ix.ids[id].display != "" ==> DKey(ix.ids[id]) in ix.byDisplay && ix.byDisplay[DKey(ix.ids[id])] == id)
  }

  lemma SettledStays(ix: Index, id: string, i: Identity, configured: string)
    requires Settled(ix, id, i) && Lookup(ix, i) == id
    ensures ChooseID(ix, i, configured) == id && Discover(ix, i, configured) == ix
  {
    var m := ix.ids[id];
    assert ix.ids[id := m] == ix.ids;
    assert ix.byPrimary[PKey(m) := id] == ix.byPrimary;
    assert Reindex(ix, id, i) == ix;
    if m.display != "" {
      assert ix.byDisplay[DKey(m) := id] == ix.byDisplay;
    }
  }

  /** Discovery is idempotent, as its documentation says: the same contact again, under any
      configuration, changes nothing and answers the same id. */
  lemma DiscoverIsIdempotent(ix: Index, i: Identity, configured: string, reconfigured: string)
    requires Consistent(ix) && Keyed(i)
    ensures var next := Discover(ix, i, configured);
            ChooseID(next, i, reconfigured) == ChooseID(ix, i, configured) && Discover(next, i, reconfigured) == next
  {
    var id, next := ChooseID(ix, i, configured), Discover(ix, i, configured);
    ChosenMayTake(ix, i, configured);
    DiscoverKeeps(ix, i, configured);
    DisplayIsFiled(ix, i, configured);
    SettledStays(next, id, i, reconfigured);
  }

  lemma DisplayIsFiled(ix: Index, i: Identity, configured: string)
    requires Consistent(ix) && Keyed(i)
    ensures var id := ChooseID(ix, i, configured);
            var next := Discover(ix, i, configured);
            id in next.ids && (next.ids[id].display != "" ==>
                                 DKey(next.ids[id]) in next.byDisplay && next.byDisplay[DKey(next.ids[id])] == id)
  {
    var id := ChooseID(ix, i, configured);
    ChosenMayTake(ix, i, configured);
    UpsertKeeps(ix, id, i);
  }

  /** Keys may be compared as pairs: for schemes without a colon, which all adapters use, the
      joined text determines both parts. */
  lemma {:induction false} JoinIsInjective(a: Key, b: Key)
    requires ':' !in a.scheme && ':' !in b.scheme && Text(a) == Text(b)
    ensures a == b
  {
    var t := Text(a);
    assert forall i :: 0 <= i < |a.scheme| ==> t[i] == a.scheme[i] && t[i] != ':';
    assert forall i :: 0 <= i < |b.scheme| ==> t[i] == b.scheme[i] && t[i] != ':';
    assert t[|a.scheme|] == ':' && t[|b.scheme|] == ':';
    assert a.scheme == t[..|a.scheme|] && b.scheme == t[..|b.scheme|];
    assert a.name == t[|a.scheme| + 1..] && b.name == t[|b.scheme| + 1..];
  }
}
