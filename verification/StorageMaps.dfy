/** Storage maps of validated ops and their merge, on values and on the shared mutable objects of the source. */
module StorageMaps {

  /** Per address either a storage root or a map of slot values. */
  datatype Storage = Root(hash: string) | Slots(slots: map<string, string>)

  type StorageMap = map<string, Storage>

  /** What one address holds after a merge. */
  function MergeEntry(m: StorageMap, address: string, e: Storage): Storage {
    match e
    case Root(_) => e
    case Slots(slots) =>
      if address in m && m[address].Root? then m[address]
      else if address in m then Slots(m[address].slots + slots)
      else Slots(slots)
  }

  function Merge(m: StorageMap, v: StorageMap): StorageMap {
    m + map a | a in v :: MergeEntry(m, a, v[a])
  }

  function MergeAll(m: StorageMap, vs: seq<StorageMap>): StorageMap {
    if vs == [] then m else Merge(MergeAll(m, vs[..|vs| - 1]), vs[|vs| - 1])
  }

  // ---------- what a fold of merges yields ----------

  /** The two entries agree: equal roots, or equal values in common slots. */
  predicate Agree(d: Storage, e: Storage) {
    && (d.Root? && e.Root? ==> d == e)
    && (d.Slots? && e.Slots? ==> forall s :: s in d.slots && s in e.slots ==> d.slots[s] == e.slots[s])
  }

  predicate Compatible(u: StorageMap, v: StorageMap) {
    forall a :: a in u && a in v ==> Agree(u[a], v[a])
  }

  ghost predicate Consistent(vs: seq<StorageMap>) {
    forall u, v :: u in vs && v in vs ==> Compatible(u, v)
  }

  ghost predicate HasAddress(vs: seq<StorageMap>, a: string) { exists v :: v in vs && a in v }

  ghost predicate HasRoot(vs: seq<StorageMap>, a: string, h: string) { exists v :: v in vs && a in v && v[a] == Root(h) }

  predicate Holds(v: StorageMap, a: string, s: string, x: string) {
    a in v && v[a].Slots? && s in v[a].slots && v[a].slots[s] == x
  }

  ghost predicate HasSlot(vs: seq<StorageMap>, a: string, s: string, x: string) {
    exists v :: v in vs && Holds(v, a, s, x)
  }

  /** `r` holds, for address `a`, the root if any map of the family has one, else the union of all slots. */
  ghost predicate UnionAt(r: StorageMap, vs: seq<StorageMap>, a: string) {
    && (a in r <==> HasAddress(vs, a))
    && (a in r ==>
          match r[a]
          case Root(h) => HasRoot(vs, a, h) && forall g :: HasRoot(vs, a, g) ==> g == h
          case Slots(m) => (forall h :: !HasRoot(vs, a, h)) && forall s, x :: HasSlot(vs, a, s, x) <==> s in m && m[s] == x)
  }

  ghost predicate IsUnion(r: StorageMap, vs: seq<StorageMap>) { forall a :: UnionAt(r, vs, a) }

  lemma HasSnoc(vs: seq<StorageMap>, v: StorageMap, a: string)
    ensures HasAddress(vs + [v], a) <==> HasAddress(vs, a) || a in v
    ensures forall h :: HasRoot(vs + [v], a, h) <==> HasRoot(vs, a, h) || (a in v && v[a] == Root(h))
    ensures forall s, x :: HasSlot(vs + [v], a, s, x) <==> HasSlot(vs, a, s, x) || Holds(v, a, s, x)
  {
    assert v in vs + [v];
    assert forall u :: u in vs ==> u in vs + [v];
  }

  /** Every entry at `a` in the family agrees with the one of `v`. */
  lemma AgreesWithAll(vs: seq<StorageMap>, v: StorageMap, a: string)
    requires Consistent(vs + [v]) && a in v
    ensures forall h, g :: HasRoot(vs, a, h) && v[a] == Root(g) ==> g == h
    ensures forall s, x, y :: HasSlot(vs, a, s, x) && Holds(v, a, s, y) ==> x == y
  {
    assert v in vs + [v];
    forall u | u in vs ensures Compatible(u, v) {
      assert u in vs + [v];
    }
  }

  lemma MergeKeepsUnion(r: StorageMap, vs: seq<StorageMap>, v: StorageMap, a: string)
    requires UnionAt(r, vs, a) && Consistent(vs + [v])
    ensures UnionAt(Merge(r, v), vs + [v], a)
  {
    HasSnoc(vs, v, a);
    assert (forall h :: HasRoot(vs, a, h) ==> HasAddress(vs, a)) && forall s, x :: HasSlot(vs, a, s, x) ==> HasAddress(vs, a);
    if a in v {
      AgreesWithAll(vs, v, a);
      var e := Merge(r, v)[a];
      if e.Slots? {
        forall s, x ensures HasSlot(vs + [v], a, s, x) <==> s in e.slots && e.slots[s] == x {
          assert HasSlot(vs, a, s, x) <==> a in r && s in r[a].slots && r[a].slots[s] == x;
          if s in v[a].slots { assert Holds(v, a, s, v[a].slots[s]); }
        }
      }
    }
  }

  lemma {:induction false} MergeAllIsUnion(vs: seq<StorageMap>)
    requires Consistent(vs)
    ensures IsUnion(MergeAll(map[], vs), vs)
  {
    if vs != [] {
      var n := |vs| - 1;
      assert forall v :: v in vs[..n] ==> v in vs;
      MergeAllIsUnion(vs[..n]);
      assert vs == vs[..n] + [vs[n]];
      forall a ensures UnionAt(MergeAll(map[], vs), vs, a) {
        MergeKeepsUnion(MergeAll(map[], vs[..n]), vs[..n], vs[n], a);
      }
    }
  }

  lemma UnionIsUnique(r: StorageMap, q: StorageMap, vs: seq<StorageMap>)
    requires IsUnion(r, vs) && IsUnion(q, vs)
    ensures r == q
  {
    forall a ensures a in r <==> a in q { assert UnionAt(r, vs, a) && UnionAt(q, vs, a); }
    forall a | a in r ensures r[a] == q[a] {
      assert UnionAt(r, vs, a) && UnionAt(q, vs, a);
      if r[a].Slots? && q[a].Slots? {
        var m, n := r[a].slots, q[a].slots;
        assert forall s :: s in m ==> HasSlot(vs, a, s, m[s]);
        assert forall s :: s in n ==> HasSlot(vs, a, s, n[s]);
        assert m == n;
      }
    }
  }

  lemma SameMembersSameUnion(r: StorageMap, vs: seq<StorageMap>, ws: seq<StorageMap>)
    requires IsUnion(r, vs) && forall v :: v in vs <==> v in ws
    ensures IsUnion(r, ws)
  {
    forall a ensures UnionAt(r, ws, a) {
      assert UnionAt(r, vs, a);
      assert HasAddress(vs, a) <==> HasAddress(ws, a);
      assert forall h :: HasRoot(vs, a, h) <==> HasRoot(ws, a, h);
      assert forall s, x :: HasSlot(vs, a, s, x) <==> HasSlot(ws, a, s, x);
    }
  }

  /** Of a consistent family, neither the order nor repetitions matter. */
  lemma OrderIndependent(vs: seq<StorageMap>, ws: seq<StorageMap>)
    requires Consistent(vs) && forall v :: v in vs <==> v in ws
    ensures MergeAll(map[], vs) == MergeAll(map[], ws)
  {
    MergeAllIsUnion(vs);
    MergeAllIsUnion(ws);
    SameMembersSameUnion(MergeAll(map[], vs), vs, ws);
    UnionIsUnique(MergeAll(map[], vs), MergeAll(map[], ws), ws);
  }

  /** Two maps may be merged in either order exactly when they are compatible. */
  lemma OrderMattersOtherwise(u: StorageMap, v: StorageMap)
    ensures Merge(Merge(map[], u), v) == Merge(Merge(map[], v), u) <==> Compatible(u, v)
  {
    var p, q := Merge(Merge(map[], u), v), Merge(Merge(map[], v), u);
    MergeIntoEmpty(u);
    MergeIntoEmpty(v);
    forall a | a in u && a in v ensures p[a] == q[a] <==> Agree(u[a], v[a]) {
      if u[a].Slots? && v[a].Slots? {
        if Agree(u[a], v[a]) {
          assert u[a].slots + v[a].slots == v[a].slots + u[a].slots;
        } else {
          var s :| s in u[a].slots && s in v[a].slots && u[a].slots[s] != v[a].slots[s];
          assert p[a].slots[s] != q[a].slots[s];
        }
      }
    }
    if Compatible(u, v) {
      assert p == q;
    }
  }

  lemma MergeIntoEmpty(u: StorageMap)
    ensures Merge(map[], u) == u
  {
  }
}

/** `mergeStorageMap` as it runs: it writes into the slot objects of the merged map and copies from the other. */
module StorageMerge {
  import opened StorageMaps

  class SlotMap {
    var slots: map<string, string>

    constructor ()
      ensures slots == map[]
    {
      slots := map[];
    }
  }

  datatype Ref = RootRef(hash: string) | SlotsRef(obj: SlotMap)

  class StorageObject {
    var entries: map<string, Ref>

    constructor ()
      ensures entries == map[]
    {
      entries := map[];
    }

    ghost function Objects(): set<SlotMap>
      reads this
    {
      set a | a in entries && entries[a].SlotsRef? :: entries[a].obj
    }

    /** No two addresses share a slot object. */
    ghost predicate Valid()
      reads this
    {
      forall a, b :: a in entries && b in entries && entries[a].SlotsRef? && entries[a] == entries[b] ==> a == b
    }

    ghost function View(): StorageMap
      reads this, Objects()
    {
      map a | a in entries :: Load(entries[a])
    }
  }

  ghost function Load(r: Ref): Storage
    reads if r.SlotsRef? then {r.obj} else {}
  {
    match r
    case RootRef(h) => Root(h)
    case SlotsRef(o) => Slots(o.slots)
  }

  function Only<V>(m: map<string, V>, keys: set<string>): map<string, V> { map a | a in m && a in keys :: m[a] }

  /** Copies every slot of `from` into `into`. */
  method CopySlots(into: SlotMap, from: map<string, string>)
    modifies into
    ensures into.slots == old(into.slots) + from
  {
    var todo := from.Keys;
    assert Only(from, todo) == from;
    while todo != {}
      invariant todo <= from.Keys
      invariant into.slots + Only(from, todo) == old(into.slots) + from
      decreases todo
    {
      var slot :| slot in todo;
      CopyOne(into.slots, from, todo, slot);
      into.slots := into.slots[slot := from[slot]];
      todo := todo - {slot};
    }
    assert Only(from, {}) == map[];
    assert into.slots + map[] == into.slots;
  }

  lemma CopyOne(m: map<string, string>, from: map<string, string>, todo: set<string>, slot: string)
    requires slot in todo && slot in from
    ensures m + Only(from, todo) == m[slot := from[slot]] + Only(from, todo - {slot})
  {
  }

  /** Copies slots into the object that the address owns; no other address sees them. */
  method CopyInto(merged: StorageObject, address: string, from: map<string, string>)
    requires merged.Valid() && address in merged.entries && merged.entries[address].SlotsRef?
    modifies merged.entries[address].obj
    ensures merged.Valid()
    ensures merged.View() == old(merged.View())[address := Slots(old(merged.entries[address].obj.slots) + from)]
  {
    ghost var was, view := merged.entries, merged.View();
    CopySlots(merged.entries[address].obj, from);
    forall a | a in was && a != address ensures merged.View()[a] == view[a] {
      assert merged.entries[a] == was[a] && merged.entries[a] != merged.entries[address];
    }
  }

  /** Gives an address that has nothing yet an empty slot object of its own. */
  method OwnSlots(merged: StorageObject, address: string)
    requires merged.Valid() && address !in merged.entries
    modifies merged
    ensures merged.Valid() && fresh(merged.Objects() - old(merged.Objects()))
    ensures address in merged.entries && merged.entries[address].SlotsRef?
    ensures merged.View() == old(merged.View())[address := Slots(map[])]
  {
    var slots := new SlotMap();
    merged.entries := merged.entries[address := SlotsRef(slots)];
  }

  /** Merges slot values into one address: a root wins, else the address gets its own slot object and copies. */
  method MergeSlots(merged: StorageObject, address: string, from: map<string, string>)
    requires merged.Valid()
    modifies merged, merged.Objects()
    ensures merged.Valid() && fresh(merged.Objects() - old(merged.Objects()))
    ensures merged.View() == old(merged.View())[address := MergeEntry(old(merged.View()), address, Slots(from))]
  {
    if address !in merged.entries {
      OwnSlots(merged, address);
      assert map[] + from == from;
    } else if merged.entries[address].RootRef? {
      assert merged.View()[address] == Load(merged.entries[address]);
      assert merged.View()[address := merged.View()[address]] == merged.View();
      return;
    }
    assert address in merged.View() && merged.View()[address] == Load(merged.entries[address]);
    CopyInto(merged, address, from);
  }

  /** A root overrides whatever the address held. */
  method MergeRoot(merged: StorageObject, address: string, h: string)
    requires merged.Valid()
    modifies merged
    ensures merged.Valid() && merged.Objects() <= old(merged.Objects())
    ensures merged.View() == old(merged.View())[address := Root(h)]
  {
    merged.entries := merged.entries[address := RootRef(h)];
  }

  /** One round of the merge. */
  method MergeAddress(merged: StorageObject, validation: StorageObject, address: string)
    requires merged != validation && merged.Valid() && merged.Objects() !! validation.Objects() && address in validation.entries
    modifies merged, merged.Objects()
    ensures merged.Valid() && fresh(merged.Objects() - old(merged.Objects())) && merged.Objects() !! validation.Objects()
    ensures validation.entries == old(validation.entries) && validation.View() == old(validation.View())
    ensures merged.View() == old(merged.View())[address := MergeEntry(old(merged.View()), address, old(validation.View())[address])]
  {
    assert Load(validation.entries[address]) == validation.View()[address];
    match validation.entries[address] {
      case RootRef(h) => MergeRoot(merged, address, h);
      case SlotsRef(o) => MergeSlots(merged, address, o.slots);
    }
  }

  method MergeStorageMap(merged: StorageObject, validation: StorageObject)
    requires merged != validation && merged.Valid() && merged.Objects() !! validation.Objects()
    modifies merged, merged.Objects()
    ensures merged.Valid() && fresh(merged.Objects() - old(merged.Objects())) && merged.Objects() !! validation.Objects()
    ensures validation.entries == old(validation.entries) && validation.View() == old(validation.View())
    ensures merged.View() == Merge(old(merged.View()), old(validation.View()))
  {
    ghost var v := validation.View();
    var todo := validation.entries.Keys;
    assert Only(v, todo) == v;
    hide Only, Merge, MergeEntry;
    while todo != {}
      invariant todo <= validation.entries.Keys
      invariant merged.Valid() && fresh(merged.Objects() - old(merged.Objects())) && merged.Objects() !! validation.Objects()
      invariant validation.entries == old(validation.entries) && validation.View() == v
      invariant Merge(merged.View(), Only(v, todo)) == Merge(old(merged.View()), v)
      decreases todo
    {
      var address :| address in todo;
      MergeOne(merged.View(), v, todo, address);
      MergeAddress(merged, validation, address);
      todo := todo - {address};
    }
    MergeNone(merged.View(), v);
  }

  lemma MergeNone(m: StorageMap, v: StorageMap)
    ensures Merge(m, Only(v, {})) == m
  {
    assert Only(v, {}) == map[];
  }

  lemma MergeOne(m: StorageMap, v: StorageMap, todo: set<string>, address: string)
    requires address in v && address in todo
    ensures Merge(m, Only(v, todo)) == Merge(m[address := MergeEntry(m, address, v[address])], Only(v, todo - {address}))
  {
  }

  /** `family` holds the values `views`, and the merged map shares nothing with it. */
  ghost predicate Apart(merged: StorageObject, family: seq<StorageObject>, views: seq<StorageMap>)
    reads merged, family, set f, o | f in family && o in f.Objects() :: o
  {
    && merged.Valid() && |views| == |family|
    && forall i :: 0 <= i < |family| ==>
         merged != family[i] && merged.Objects() !! family[i].Objects() && family[i].View() == views[i]
  }

  /** Folding the merge over a family, as the builder does over the ops it charges, leaves every member as it was. */
  method MergeFamily(merged: StorageObject, family: seq<StorageObject>, ghost views: seq<StorageMap>)
    requires Apart(merged, family, views)
    modifies merged, merged.Objects()
    ensures Apart(merged, family, views)
    ensures merged.View() == MergeAll(old(merged.View()), views)
  {
    for n := 0 to |family|
      invariant Apart(merged, family, views) && fresh(merged.Objects() - old(merged.Objects()))
      invariant merged.View() == MergeAll(old(merged.View()), views[..n])
    {
      MergeStorageMap(merged, family[n]);
      assert views[..n + 1][..n] == views[..n];
    }
    assert views[..|family|] == views;
  }
}
