/** The display half of the identity index (internal/state/store.go): what it answers is true, and
    exactly when a discovery makes it forget a device that is still stored under its name. */
module DisplayNames {
  import opened IdentityIndex

  /** Whatever the display index answers is a device filed under that very name. */
  lemma DisplayAnswersAreTrue(ix: Index, scheme: string, display: string)
    requires Consistent(ix) && Lookup(ix, Identity(scheme, "", display)) != ""
    ensures var id := Lookup(ix, Identity(scheme, "", display));
            id in ix.ids && ix.ids[id].scheme == scheme && ix.ids[id].display == display
  {
  }

  /** Every stored device with a name is found under a device of that name. */
  ghost predicate Complete(ix: Index) {
    forall id :: id in ix.ids && ix.ids[id].display != "" ==> DKey(ix.ids[id]) in ix.byDisplay
  }

  /** The display keys a discovery deletes without filing them again: the one the device had, and on
      a change of name the one it would have had under its present scheme. */
  function Dropped(ix: Index, id: string, i: Identity): set<Key> {
    if id !in ix.ids || ix.ids[id].display == "" then {}
    else
      var was, now := ix.ids[id], Merged(ix, id, i);
      var renamed := if i.display != "" && i.display != was.display then {Key(now.scheme, was.display)} else {};
      {DKey(was)} + renamed - {DKey(now)}
  }

  function Given(ix: Index, id: string): set<Key> {
    if id in ix.ids && ix.ids[id].display != "" then {DKey(ix.ids[id])} else {}
  }

  /** The first half of the upsert drops the name the device had, unless it keeps it. */
  lemma ReindexDisplays(ix: Index, id: string, i: Identity)
    requires Consistent(ix)
    ensures Reindex(ix, id, i).byDisplay.Keys
            == ix.byDisplay.Keys - (Given(ix, id) - {DKey(Merged(ix, id, i))})
  {
  }

  function Filed(i: Identity): set<Key> { if i.display == "" then {} else {DKey(i)} }

  lemma ClaimDisplays(ix: Index, id: string)
    requires id in ix.ids && ix.ids[id].scheme != ""
    ensures ClaimDisplay(ix, id).byDisplay.Keys == ix.byDisplay.Keys + Filed(ix.ids[id])
  {
  }

  lemma RenameDisplays(ix: Index, id: string, oldDisplay: string, newDisplay: string)
    requires id in ix.ids && ix.ids[id].scheme != "" && oldDisplay != "" && newDisplay != ""
    ensures Rename(ix, id, oldDisplay, newDisplay).byDisplay.Keys
            == ix.byDisplay.Keys - {Key(ix.ids[id].scheme, oldDisplay)} + {Key(ix.ids[id].scheme, newDisplay)}
  {
  }

  lemma UpsertDisplays(ix: Index, id: string, i: Identity)
    requires Consistent(ix) && Keyed(i)
    ensures Upsert(ix, id, i).byDisplay.Keys
            == ix.byDisplay.Keys - (Given(ix, id) - {DKey(Merged(ix, id, i))}) + Filed(Merged(ix, id, i))
  {
    ReindexDisplays(ix, id, i);
    ClaimDisplays(Reindex(ix, id, i), id);
  }

  lemma DisplaysAfter(ix: Index, id: string, i: Identity)
    requires Consistent(ix) && Keyed(i) && id != "" && MayTake(ix, id, i)
    ensures IdentityIndex.Describe(ix, id, i).byDisplay.Keys
            == ix.byDisplay.Keys - Dropped(ix, id, i) + Filed(Merged(ix, id, i))
  {
    UpsertDisplays(ix, id, i);
    if id in ix.ids && i.display != "" && ix.ids[id].display != "" && i.display != ix.ids[id].display {
      UpsertKeeps(ix, id, i);
      RenameDisplays(Upsert(ix, id, i), id, ix.ids[id].display, i.display);
      assert Filed(Merged(ix, id, i)) == {Key(Merged(ix, id, i).scheme, i.display)};
    } else {
      assert Dropped(ix, id, i) == Given(ix, id) - {DKey(Merged(ix, id, i))};
    }
  }

  lemma ClaimSpares(ix: Index, id: string, j: string)
    requires Consistent(ix) && id in ix.ids && j != id
    ensures var next := ClaimDisplay(ix, id);
            && (j in next.ids ==> j in ix.ids && next.ids[j] == ix.ids[j])
            && (j in ix.ids && j !in next.ids ==> DKey(ix.ids[j]) == DKey(ix.ids[id]))
  {
  }

  /** Of the other devices, only one filed under the name just claimed can be gone. */
  lemma OthersAfter(ix: Index, id: string, i: Identity, j: string)
    requires Consistent(ix) && Keyed(i) && id != "" && MayTake(ix, id, i) && j != id
    ensures var next := IdentityIndex.Describe(ix, id, i);
            && (j in next.ids ==> j in ix.ids && next.ids[j] == ix.ids[j])
            && (j in ix.ids && j !in next.ids ==> DKey(ix.ids[j]) == DKey(Merged(ix, id, i)))
  {
    ReindexKeeps(ix, id, i);
    ClaimSpares(Reindex(ix, id, i), id, j);
  }

  /** No other device is stored under a name that is dropped. */
  ghost predicate SparesOthers(ix: Index, id: string, i: Identity) {
    forall j :: j in ix.ids && j != id && ix.ids[j].display != "" ==> DKey(ix.ids[j]) !in Dropped(ix, id, i)
  }

  /** A discovery keeps the display index complete exactly when no other device goes by a name it
      drops. */
  lemma CompleteIff(ix: Index, i: Identity, configured: string)
    requires Consistent(ix) && Complete(ix) && Keyed(i)
    ensures Complete(Discover(ix, i, configured)) <==> SparesOthers(ix, ChooseID(ix, i, configured), i)
  {
    var id, next := ChooseID(ix, i, configured), Discover(ix, i, configured);
    DiscoverKeeps(ix, i, configured);
    ChosenMayTake(ix, i, configured);
    DisplaysAfter(ix, id, i);
    forall j | j != id
      ensures j in next.ids ==> j in ix.ids && next.ids[j] == ix.ids[j]
      ensures j in ix.ids && j !in next.ids ==> DKey(ix.ids[j]) == DKey(Merged(ix, id, i))
    {
      OthersAfter(ix, id, i, j);
    }
  }

  /** Along a run no discovery drops a name another device goes by. */
  ghost predicate NeverDrops(cs: seq<Contact>) {
    cs != [] ==>
      var before, c := cs[..|cs| - 1], cs[|cs| - 1];
      var ix := RunContacts(before);
      NeverDrops(before) && SparesOthers(ix, ChooseID(ix, c.identity, c.configured), c.identity)
  }

  lemma {:induction false} RunIsComplete(cs: seq<Contact>)
    requires (forall c :: c in cs ==> Keyed(c.identity)) && NeverDrops(cs)
    ensures Complete(RunContacts(cs))
  {
    if cs != [] {
      var before, c := cs[..|cs| - 1], cs[|cs| - 1];
      RunIsComplete(before);
      RunIsConsistent(before);
      CompleteIff(RunContacts(before), c.identity, c.configured);
    }
  }

  // ------------------------------------------------------------ whom a contact is taken for

  /** Device id is stored under this stable key; under this name. */
  predicate Owns(ix: Index, id: string, scheme: string, primary: string) {
    id in ix.ids && ix.ids[id].scheme == scheme && ix.ids[id].primary == primary
  }

  predicate GoesBy(ix: Index, id: string, scheme: string, display: string) {
    id in ix.ids && ix.ids[id].scheme == scheme && ix.ids[id].display == display
  }

  ghost predicate IsOwned(ix: Index, i: Identity) {
    i.scheme != "" && i.primary != "" && exists id :: Owns(ix, id, i.scheme, i.primary)
  }

  ghost predicate IsNamed(ix: Index, i: Identity) {
    i.scheme != "" && i.display != "" && exists id :: GoesBy(ix, id, i.scheme, i.display)
  }

  lemma OwnerIsIndexed(ix: Index, id: string, i: Identity)
    requires Consistent(ix) && Owns(ix, id, i.scheme, i.primary)
    ensures PKey(i) in ix.byPrimary && ix.byPrimary[PKey(i)] == id
  {
    assert PKey(ix.ids[id]) == PKey(i);
  }

  lemma NameIsIndexed(ix: Index, id: string, i: Identity)
    requires Consistent(ix) && Complete(ix) && i.display != "" && GoesBy(ix, id, i.scheme, i.display)
    ensures DKey(i) in ix.byDisplay && GoesBy(ix, ix.byDisplay[DKey(i)], i.scheme, i.display)
  {
    assert DKey(ix.ids[id]) == DKey(i);
  }

  /** A lookup answers the device that owns the stable key; else, whatever the stable key, one that
      goes by the name; and nobody exactly if there is neither. */
  lemma LookupMeans(ix: Index, i: Identity)
    requires Consistent(ix) && Complete(ix)
    ensures var id := Lookup(ix, i);
            if IsOwned(ix, i) then Owns(ix, id, i.scheme, i.primary)
            else if IsNamed(ix, i) then GoesBy(ix, id, i.scheme, i.display)
            else id == ""
  {
    if IsOwned(ix, i) {
      var id :| Owns(ix, id, i.scheme, i.primary);
      OwnerIsIndexed(ix, id, i);
    } else {
      if i.scheme != "" && i.primary != "" && PKey(i) in ix.byPrimary {
        assert Owns(ix, ix.byPrimary[PKey(i)], i.scheme, i.primary);
        assert false;
      }
      if IsNamed(ix, i) {
        var id :| GoesBy(ix, id, i.scheme, i.display);
        NameIsIndexed(ix, id, i);
      } else if i.scheme != "" && i.display != "" && DKey(i) in ix.byDisplay {
        assert GoesBy(ix, ix.byDisplay[DKey(i)], i.scheme, i.display);
        assert false;
      }
    }
  }

  /** The identity on record after a contact: the contact's own, its name only if it brings one. */
  predicate IsUpdated(was: Identity, i: Identity, now: Identity) {
    && now.scheme == i.scheme && now.primary == i.primary
    && now.display == if i.display != "" then i.display else was.display
  }

  /** A contact whose stable key is new, but whose name some device goes by, is taken for such a
      device, which gets the stable key: no second record appears. */
  lemma NameFindsItsDevice(ix: Index, i: Identity, configured: string)
    requires Consistent(ix) && Complete(ix) && Keyed(i) && !IsOwned(ix, i) && IsNamed(ix, i)
    ensures var id, next := ChooseID(ix, i, configured), Discover(ix, i, configured);
            && GoesBy(ix, id, i.scheme, i.display) && next.ids.Keys <= ix.ids.Keys
            && id in next.ids && IsUpdated(ix.ids[id], i, next.ids[id])
  {
    LookupMeans(ix, i);
    DiscoverKeeps(ix, i, configured);
    NoOtherIsAdded(ix, i, configured);
  }

  lemma NoOtherIsAdded(ix: Index, i: Identity, configured: string)
    requires Consistent(ix) && Keyed(i)
    ensures Discover(ix, i, configured).ids.Keys <= ix.ids.Keys + {ChooseID(ix, i, configured)}
  {
    ChosenMayTake(ix, i, configured);
    var id := ChooseID(ix, i, configured);
    forall j | j in Discover(ix, i, configured).ids && j != id ensures j in ix.ids {
      OthersAfter(ix, id, i, j);
    }
  }

  /** A contact whose stable key is known is taken for its owner, whatever its name. */
  lemma KeyFindsItsDevice(ix: Index, i: Identity, configured: string)
    requires Consistent(ix) && Complete(ix) && Keyed(i) && IsOwned(ix, i)
    ensures var id, next := ChooseID(ix, i, configured), Discover(ix, i, configured);
            && Owns(ix, id, i.scheme, i.primary) && next.ids.Keys <= ix.ids.Keys
            && id in next.ids && IsUpdated(ix.ids[id], i, next.ids[id])
  {
    LookupMeans(ix, i);
    DiscoverKeeps(ix, i, configured);
    NoOtherIsAdded(ix, i, configured);
  }

  /** The id of a device nobody knew: the configured one, else its name, else its stable key
      without a hex prefix. */
  predicate IsNewID(i: Identity, configured: string, id: string) {
    if configured != "" then id == configured
    else if i.display != "" then id == i.display
    else if |i.primary| > 2 && i.primary[0] == '0' && (i.primary[1] == 'x' || i.primary[1] == 'X')
    then id == "dev_" + i.primary[2..]
    else id == "dev_" + i.primary
  }

  /** A new id appears only for a contact with neither a known stable key nor a known name, and is
      then the one it asks for. */
  lemma OnlyStrangersAreAdded(ix: Index, i: Identity, configured: string)
    requires Consistent(ix) && Complete(ix) && Keyed(i)
    ensures var id, next := ChooseID(ix, i, configured), Discover(ix, i, configured);
            && (!(next.ids.Keys <= ix.ids.Keys) ==> !IsOwned(ix, i) && !IsNamed(ix, i))
            && (!IsOwned(ix, i) && !IsNamed(ix, i) ==>
                  IsNewID(i, configured, id) && next.ids.Keys <= ix.ids.Keys + {id}
                  && id in next.ids && (id !in ix.ids ==> next.ids[id] == i))
  {
    LookupMeans(ix, i);
    DiscoverKeeps(ix, i, configured);
    NoOtherIsAdded(ix, i, configured);
    if IsOwned(ix, i) {
      KeyFindsItsDevice(ix, i, configured);
    } else if IsNamed(ix, i) {
      NameFindsItsDevice(ix, i, configured);
    } else if i.display == "" {
      HexPrefix(i.primary);
    }
  }

  lemma HexPrefix(s: string)
    ensures |s| > 2 ==>
              (s[..2] == "0x" <==> s[0] == '0' && s[1] == 'x') && (s[..2] == "0X" <==> s[0] == '0' && s[1] == 'X')
  {
  }

  /** Device j is the one filed under the name. */
  predicate IsFiled(ix: Index, named: Identity, j: string) {
    named.display != "" && DKey(named) in ix.byDisplay && ix.byDisplay[DKey(named)] == j
  }

  ghost predicate IsGone(was: Index, now: Index, j: string)
    requires j in was.ids
  {
    j !in now.ids && PKey(was.ids[j]) !in now.byPrimary
  }

  lemma ReindexSpares(ix: Index, id: string, i: Identity, j: string)
    requires j in ix.ids && j != id
    ensures var next := Reindex(ix, id, i);
            && j in next.ids && next.ids[j] == ix.ids[j] && id in next.ids && next.ids[id] == Merged(ix, id, i)
            && (IsFiled(next, Merged(ix, id, i), j) <==> IsFiled(ix, Merged(ix, id, i), j))
  {
  }

  lemma ClaimDrops(ix: Index, id: string, j: string)
    requires Consistent(ix) && id in ix.ids && j in ix.ids && j != id
    ensures var next := ClaimDisplay(ix, id);
            if IsFiled(ix, ix.ids[id], j) && ix.ids[j].primary == ix.ids[j].display then IsGone(ix, next, j)
            else j in next.ids && next.ids[j] == ix.ids[j]
  {
  }

  /** A device known by its name alone is dropped, record and key, when another device is filed
      under that name; a device with a stable key of its own never is. */
  lemma OnlyPhantomsGo(ix: Index, i: Identity, configured: string, j: string)
    requires Consistent(ix) && Keyed(i) && j in ix.ids && j != ChooseID(ix, i, configured)
    ensures var named, next := Merged(ix, ChooseID(ix, i, configured), i), Discover(ix, i, configured);
            if IsFiled(ix, named, j) && ix.ids[j].primary == ix.ids[j].display then IsGone(ix, next, j)
            else j in next.ids && next.ids[j] == ix.ids[j]
  {
    var id := ChooseID(ix, i, configured);
    ChosenMayTake(ix, i, configured);
    ReindexKeeps(ix, id, i);
    ReindexSpares(ix, id, i, j);
    ClaimDrops(Reindex(ix, id, i), id, j);
  }

  // ------------------------------------------------------------ both ways of forgetting

  /** A consistent index with a device stored under a display name that no longer finds it. */
  ghost predicate Forgets(ix: Index, id: string) {
    && Consistent(ix) && id in ix.ids && ix.ids[id].display != ""
    && Lookup(ix, Identity(ix.ids[id].scheme, "", ix.ids[id].display)) == ""
    && Lookup(ix, ix.ids[id]) == id
  }

  /** Device A under identity a and device B under b, with this display index. */
  function Pair(a: Identity, b: Identity, byDisplay: map<Key, string>): Index {
    Index(map["A" := a, "B" := b], map[PKey(a) := "A", PKey(b) := "B"], byDisplay)
  }

  const FIRST := Identity("z", "1", "n")
  const SECOND := Identity("z", "2", "m")
  const SHARING := SECOND.(display := "n")
  const MOVED := SECOND.(display := "k")

  /** Two devices not seen before. */
  lemma TwoAreMet(a: Identity, b: Identity)
    requires Keyed(a) && Keyed(b) && PKey(a) != PKey(b) && DKey(a) != DKey(b)
    requires a.display != "" && b.display != "" && !IsPhantom(a)
    ensures Discover(Discover(EMPTY, a, "A"), b, "B") == Pair(a, b, map[DKey(a) := "A", DKey(b) := "B"])
  {
    var ix := Discover(EMPTY, a, "A");
    assert ix == Index(map["A" := a], map[PKey(a) := "A"], map[DKey(a) := "A"]);
    assert ChooseID(ix, b, "B") == "B";
  }

  lemma SecondTakesTheName(ix: Index)
    requires ix == Pair(FIRST, SECOND, map[DKey(FIRST) := "A", DKey(SECOND) := "B"])
    ensures Discover(ix, SHARING, "") == Pair(FIRST, SHARING, map[DKey(SHARING) := "B"])
  {
    assert ChooseID(ix, SHARING, "") == "B";
  }

  lemma SecondMovesOn(ix: Index)
    requires ix == Pair(FIRST, SHARING, map[DKey(SHARING) := "B"])
    ensures Discover(ix, MOVED, "") == Pair(FIRST, MOVED, map[DKey(MOVED) := "B"])
  {
    assert ChooseID(ix, MOVED, "") == "B";
  }

  lemma TheFirstIsForgotten(ix: Index)
    requires ix == Pair(FIRST, MOVED, map[DKey(MOVED) := "B"])
    ensures Forgets(ix, "A")
  {
  }

  /** Two devices share a name; when the one filed under it moves on, the entry goes, and the other,
      still stored under that name, is no longer found by it (it still is by its stable key). */
  lemma DisplayIndexForgets(ix2: Index, ix3: Index, ix4: Index)
    requires ix2 == Discover(Discover(EMPTY, FIRST, "A"), SECOND, "B")
    requires ix3 == Discover(ix2, SHARING, "") && ix4 == Discover(ix3, MOVED, "")
    ensures Forgets(ix4, "A")
  {
    TwoAreMet(FIRST, SECOND);
    SecondTakesTheName(ix2);
    SecondMovesOn(ix3);
    TheFirstIsForgotten(ix4);
  }

  const HERE := Identity("x", "1", "n")
  const THERE := Identity("y", "2", "n")
  const CROSSED := Identity("y", "3", "m")

  lemma OneIsLeft(k: Key, l: Key)
    requires k != l
    ensures Without(map[k := "A", l := "B"], k) == map[l := "B"]
  {
  }

  lemma FirstIsReindexed(a: Identity, b: Identity, c: Identity)
    requires Keyed(a) && Keyed(c) && a.display != "" && c.display != ""
    requires PKey(a) != PKey(b) && PKey(a) != PKey(c) && PKey(b) != PKey(c)
    requires DKey(a) != DKey(b) && DKey(a) != DKey(c)
    ensures Reindex(Pair(a, b, map[DKey(a) := "A", DKey(b) := "B"]), "A", c) == Pair(c, b, map[DKey(b) := "B"])
  {
    var ix := Pair(a, b, map[DKey(a) := "A", DKey(b) := "B"]);
    assert Merged(ix, "A", c) == c;
    OneIsLeft(PKey(a), PKey(b));
    OneIsLeft(DKey(a), DKey(b));
    assert map[PKey(b) := "B"][PKey(c) := "A"] == map[PKey(c) := "A", PKey(b) := "B"];
  }

  lemma FirstIsClaimed(ix: Index)
    requires ix == Pair(CROSSED, THERE, map[DKey(THERE) := "B"])
    ensures ClaimDisplay(ix, "A") == Pair(CROSSED, THERE, map[DKey(THERE) := "B", DKey(CROSSED) := "A"])
  {
  }

  lemma FirstIsRenamed(ix: Index)
    requires ix == Pair(CROSSED, THERE, map[DKey(THERE) := "B", DKey(CROSSED) := "A"])
    ensures Rename(ix, "A", "n", "m") == Pair(CROSSED, THERE, map[DKey(CROSSED) := "A"])
  {
  }

  lemma FirstCrosses(ix: Index)
    requires ix == Pair(HERE, THERE, map[DKey(HERE) := "A", DKey(THERE) := "B"])
    ensures Discover(ix, CROSSED, "A") == Pair(CROSSED, THERE, map[DKey(CROSSED) := "A"])
  {
    assert ChooseID(ix, CROSSED, "A") == "A";
    FirstIsReindexed(HERE, THERE, CROSSED);
    FirstIsClaimed(Reindex(ix, "A", CROSSED));
    FirstIsRenamed(Upsert(ix, "A", CROSSED));
  }

  lemma TheSecondIsForgotten(ix: Index)
    requires ix == Pair(CROSSED, THERE, map[DKey(CROSSED) := "A"])
    ensures Forgets(ix, "B")
  {
  }

  /** A device that changes scheme and name at once deletes a key it was never filed under: its old
      name in the new scheme, which belongs to another device. */
  lemma CrossingForgets(ix2: Index, ix3: Index)
    requires ix2 == Discover(Discover(EMPTY, HERE, "A"), THERE, "B") && ix3 == Discover(ix2, CROSSED, "A")
    ensures Forgets(ix3, "B")
  {
    TwoAreMet(HERE, THERE);
    FirstCrosses(ix2);
    TheSecondIsForgotten(ix3);
  }
}
