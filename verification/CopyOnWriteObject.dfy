/** The operations of AVSMap as in-place updates of the shared, reference-counted memory. */
module CopyOnWriteObject {
  import opened CopyOnWrite

  // ------------------------------------------------------------- lemmas

  lemma StoreAdded(h: Heap, s: Sid, st: Store)
    requires ArraysOk(h) && s !in h.stores && st.data == map[]
    ensures ArraysOk(h.(stores := h.stores[s := st]))
  {
    var r := h.(stores := h.stores[s := st]);
    assert forall a :: Slots(r, a) == Slots(h, a);
    assert forall a :: a in h.arrays ==> ArrayExact(h, a) && ArrayExact(r, a);
  }

  lemma StoreRemoved(h: Heap, s: Sid)
    requires ArraysOk(h) && s in h.stores && h.stores[s].data == map[]
    ensures ArraysOk(h.(stores := h.stores - {s}))
  {
    var r := h.(stores := h.stores - {s});
    assert forall a :: Slots(r, a) == Slots(h, a);
    assert forall a :: a in h.arrays ==> ArrayExact(h, a) && ArrayExact(r, a);
  }

  /** Array counts do not depend on handles or storage counts. */
  lemma ArraysOnly(h: Heap, r: Heap)
    requires ArraysOk(h) && r.arrays == h.arrays && r.loose == h.loose && r.stores.Keys == h.stores.Keys
    requires forall s :: s in h.stores ==> r.stores[s].data == h.stores[s].data
    ensures ArraysOk(r)
  {
    assert forall a :: Slots(r, a) == Slots(h, a);
    assert forall a :: a in h.arrays ==> ArrayExact(h, a) && ArrayExact(r, a);
  }

  lemma UsersPointed(h: Heap, r: Heap, x: Hid, s: Sid)
    requires r.handles == h.handles[x := s] && x !in h.handles
    ensures forall t :: Users(r, t) == Users(h, t) + (if t == s then {x} else {})
    ensures forall t :: x !in Users(h, t)
  {
  }

  lemma UsersDropped(h: Heap, r: Heap, x: Hid)
    requires x in h.handles && r.handles == h.handles - {x}
    ensures forall t :: Users(r, t) == Users(h, t) - {x}
    ensures forall t :: x in Users(h, t) <==> t == h.handles[x]
  {
  }

  /** Storages other than those listed keep view, counts and content. */
  ghost predicate Kept(h: Heap, r: Heap, except: set<Sid>) {
    && r.loose == h.loose
    && (forall t :: t in h.stores && t !in except ==> t in r.stores && r.stores[t] == h.stores[t])
    && (forall b :: b in h.arrays && b in r.arrays ==> r.arrays[b].elems == h.arrays[b].elems)
  }

  lemma KeptView(h: Heap, r: Heap, except: set<Sid>, t: Sid)
    requires ArraysOk(h) && ArraysOk(r) && Kept(h, r, except) && t in h.stores && t !in except
    ensures t in r.stores && StoreView(r, t) == StoreView(h, t)
  {
    assert Live(h.arrays, h.stores[t].data) && Live(r.arrays, r.stores[t].data);
    SameContents(h.arrays, r.arrays, h.stores[t].data);
  }

  /** A handle gives up its storage: its reference becomes a temporary one. */
  lemma HandleDrops(h: Heap, x: Hid)
    requires Valid(h, multiset{}) && x in h.handles
    ensures Valid(h.(handles := h.handles - {x}), multiset{h.handles[x]})
  {
    var r := h.(handles := h.handles - {x});
    ArraysOnly(h, r);
    UsersDropped(h, r, x);
  }

  /** A new handle takes over a temporary reference. */
  lemma HandleAdopts(h: Heap, x: Hid, s: Sid)
    requires Valid(h, multiset{s}) && x !in h.handles
    ensures Valid(h.(handles := h.handles[x := s]), multiset{})
  {
    var r := h.(handles := h.handles[x := s]);
    ArraysOnly(h, r);
    UsersPointed(h, r, x, s);
  }

  lemma AddRefOk(h: Heap, s: Sid)
    requires Valid(h, multiset{}) && s in h.stores
    ensures Valid(h.(stores := h.stores[s := h.stores[s].(refs := h.stores[s].refs + 1)]), multiset{s})
  {
    var r := h.(stores := h.stores[s := h.stores[s].(refs := h.stores[s].refs + 1)]);
    ArraysOnly(h, r);
    assert forall t :: Users(r, t) == Users(h, t);
  }

  /** A storage fresh from the allocator is held by a temporary. */
  lemma FreshStoreOk(h: Heap, r: Heap, s: Sid)
    requires StoresOk(h, multiset{}) && s !in h.stores && r.handles == h.handles
    requires r.stores.Keys == h.stores.Keys + {s} && r.stores[s].refs == 1
    requires forall t :: t in h.stores ==> r.stores[t].refs == h.stores[t].refs
    ensures StoresOk(r, multiset{s})
  {
    assert forall t :: Users(r, t) == Users(h, t);
    assert Users(h, s) == {};
  }

  /** A handle of a shared storage moves to the new one. */
  lemma SwitchOk(h: Heap, x: Hid, s: Sid)
    requires Valid(h, multiset{s}) && x in h.handles && h.handles[x] != s && h.stores[h.handles[x]].refs >= 2
    ensures var from := h.handles[x];
      Valid(h.(handles := h.handles[x := s], stores := h.stores[from := h.stores[from].(refs := h.stores[from].refs - 1)]), multiset{})
  {
    hide ArraysOk, Users;
    var o := h.handles[x];
    var r := h.(handles := h.handles[x := s], stores := h.stores[o := h.stores[o].(refs := h.stores[o].refs - 1)]);
    ArraysOnly(h, r);
    UsersSwitched(h, r, x, s);
  }

  lemma UsersSwitched(h: Heap, r: Heap, x: Hid, s: Sid)
    requires x in h.handles && r.handles == h.handles[x := s] && s != h.handles[x]
    ensures var o := h.handles[x];
      && |Users(r, o)| == |Users(h, o)| - 1 && |Users(r, s)| == |Users(h, s)| + 1
      && forall t :: t != o && t != s ==> Users(r, t) == Users(h, t)
  {
    var o := h.handles[x];
    assert Users(r, o) == Users(h, o) - {x} && x in Users(h, o);
    assert Users(r, s) == Users(h, s) + {x} && x !in Users(h, s);
  }

  /** Changing the storage that only x uses is invisible through every other handle. */
  lemma UniqueChange(h: Heap, r: Heap, x: Hid)
    requires Valid(h, multiset{}) && x in h.handles && h.stores[h.handles[x]].refs == 1
    requires ArraysOk(r) && Elsewhere(h, r, h.handles[x])
    ensures Valid(r, multiset{})
    ensures forall y :: y in h.handles && y != x ==> View(r, y) == View(h, y)
  {
    var s := h.handles[x];
    assert forall t :: Users(r, t) == Users(h, t);
    forall y | y in h.handles && y != x ensures h.handles[y] != s && View(r, y) == View(h, y) {
      NotShared(h, x, y);
      SameView(h, r, s, h.handles[y]);
    }
  }

  lemma NotShared(h: Heap, x: Hid, y: Hid)
    requires Valid(h, multiset{}) && x in h.handles && y in h.handles && x != y && h.stores[h.handles[x]].refs == 1
    ensures h.handles[y] != h.handles[x]
  {
    var s := h.handles[x];
    assert h.handles[y] == s ==> {x, y} <= Users(h, s);
    assert |{x, y}| == 2;
    if {x, y} <= Users(h, s) {
      SubsetSize({x, y}, Users(h, s));
    }
  }

  lemma ValidHandle(h: Heap, y: Hid)
    requires Valid(h, multiset{}) && y in h.handles
    ensures h.handles[y] in h.stores && h.stores[h.handles[y]].refs >= 1
  {
  }

  /** Handles that keep their storage, with the same slots and array contents, keep their view. */
  lemma ViewsKept(h: Heap, r: Heap, y: Hid)
    requires ArraysOk(h) && ArraysOk(r) && y in h.handles && y in r.handles
    requires h.handles[y] in h.stores && r.handles[y] in r.stores
    requires r.stores[r.handles[y]].data == h.stores[h.handles[y]].data
    requires r.stores[r.handles[y]].error == h.stores[h.handles[y]].error
    requires forall b :: b in h.arrays && b in r.arrays ==> r.arrays[b].elems == h.arrays[b].elems
    ensures View(r, y) == View(h, y)
  {
    var data := h.stores[h.handles[y]].data;
    assert Live(h.arrays, data) && Live(r.arrays, data);
    SameContents(h.arrays, r.arrays, data);
  }

  lemma ShareOk(h: Heap, x: Hid, y: Hid)
    requires Valid(h, multiset{}) && x !in h.handles && y in h.handles && h.handles[y] in h.stores
    ensures var s := h.handles[y];
      var r := h.(handles := h.handles[x := s], stores := h.stores[s := h.stores[s].(refs := h.stores[s].refs + 1)]);
      Valid(r, multiset{}) && Isolated(h, r, x) && View(r, x) == View(h, y)
  {
    hide StoresOk;
    var s := h.handles[y];
    var m := h.(stores := h.stores[s := h.stores[s].(refs := h.stores[s].refs + 1)]);
    AddRefOk(h, s);
    HandleAdopts(m, x, s);
    var r := m.(handles := h.handles[x := s]);
    hide ArraysOk;
    forall z | z in h.handles ensures View(r, z) == View(h, z) {
      ValidHandle(h, z);
      ViewsKept(h, r, z);
    }
    assert View(r, x) == View(r, y);
  }

  lemma CreateOk(h: Heap, x: Hid, news: Sid)
    requires Valid(h, multiset{}) && x !in h.handles && news !in h.stores
    ensures var r := h.(stores := h.stores[news := Store(1, map[], false)], handles := h.handles[x := news]);
      Valid(r, multiset{}) && Isolated(h, r, x) && View(r, x) == Props(map[], false)
  {
    hide StoresOk, ArraysOk, View;
    var m := h.(stores := h.stores[news := Store(1, map[], false)]);
    StoreAdded(h, news, Store(1, map[], false));
    FreshStoreOk(h, m, news);
    HandleAdopts(m, x, news);
    var r := m.(handles := h.handles[x := news]);
    forall y | y in h.handles ensures View(r, y) == View(h, y) {
      ValidHandle(h, y);
      ViewsKept(h, r, y);
    }
    EmptyView(r, x);
  }

  lemma DropHandleOk(h: Heap, x: Hid)
    requires Valid(h, multiset{}) && x in h.handles
    ensures var r := h.(handles := h.handles - {x}); Valid(r, multiset{h.handles[x]}) && Isolated(h, r, x)
  {
    hide ArraysOk, StoresOk;
    HandleDrops(h, x);
  }

  /** x now shows p through a storage of its own; all other handles are as in h. */
  ghost predicate Changed(h: Heap, r: Heap, x: Hid, p: Props) {
    && Valid(r, multiset{}) && Isolated(h, r, x)
    && x in r.handles && r.handles[x] in r.stores && r.stores[r.handles[x]].refs == 1
    && View(r, x) == p
  }

  ghost predicate Sole(h: Heap, x: Hid) {
    Valid(h, multiset{}) && x in h.handles && h.handles[x] in h.stores && h.stores[h.handles[x]].refs == 1
  }

  lemma EraseOk(h: Heap, x: Hid, k: Name)
    requires Sole(h, x) && k in h.stores[h.handles[x]].data && h.stores[h.handles[x]].data[k] in h.arrays
    ensures Changed(h, DropSlot(h, h.handles[x], k), x, Props(View(h, x).values - {k}, View(h, x).error))
  {
    var s := h.handles[x];
    var r := DropSlot(h, s, k);
    DropSlotOk(h, s, k);
    UniqueChange(h, r, x);
    DropContents(h.arrays, r.arrays, h.stores[s].data, k);
  }

  lemma DropContents(before: map<Aid, Arr>, after: map<Aid, Arr>, data: map<Name, Aid>, k: Name)
    requires Live(before, data) && Live(after, data - {k})
    requires forall b :: b in before && b in after ==> after[b].elems == before[b].elems
    ensures Contents(after, data - {k}) == Contents(before, data) - {k}
  {
    SameContents(before, after, data - {k});
  }

  lemma AddContents(before: map<Aid, Arr>, after: map<Aid, Arr>, data: map<Name, Aid>, k: Name, a: Aid)
    requires Live(before, data) && Live(after, data[k := a]) && a in before && k !in data
    requires forall b :: b in before && b in after ==> after[b].elems == before[b].elems
    ensures Contents(after, data[k := a]) == Contents(before, data)[k := before[a].elems]
  {
    var d := data[k := a];
    var was, now := Contents(before, data)[k := before[a].elems], Contents(after, d);
    forall j | j in d ensures now[j] == was[j] {
      assert d[j] in after;
    }
  }

  lemma MoveInSole(h: Heap, x: Hid, k: Name, a: Aid)
    requires Sole(h, x) && k !in h.stores[h.handles[x]].data && a in h.loose && a in h.arrays
    ensures Changed(h, MoveIn(h, h.handles[x], k, a), x, Props(View(h, x).values[k := h.arrays[a].elems], View(h, x).error))
  {
    var s := h.handles[x];
    var r := MoveIn(h, s, k, a);
    MoveInOk(h, s, k, a);
    UniqueChange(h, r, x);
    AddContents(h.arrays, r.arrays, h.stores[s].data, k, a);
  }

  lemma SetSlotSole(h: Heap, x: Hid, k: Name, a: Aid)
    requires Sole(h, x) && k !in h.stores[h.handles[x]].data && a in h.arrays && a !in h.loose
    ensures Changed(h, SetSlot(h, h.handles[x], k, a), x, Props(View(h, x).values[k := h.arrays[a].elems], View(h, x).error))
  {
    var s := h.handles[x];
    var r := SetSlot(h, s, k, a);
    SetSlotOk(h, s, k, a);
    UniqueChange(h, r, x);
    AddContents(h.arrays, r.arrays, h.stores[s].data, k, a);
  }

  lemma IsolatedTrans(h: Heap, m: Heap, r: Heap, x: Hid)
    requires Isolated(h, m, x) && Isolated(m, r, x)
    ensures Isolated(h, r, x)
  {
    assert forall y :: y in h.handles && y != x ==> y in h.handles.Keys - {x};
  }

  method Pick<T>(names: set<T>) returns (k: T)
    requires names != {}
    ensures k in names
  {
    k :| k in names;
  }

  /** r is h with one more storage, whose slots share the arrays of storage s. */
  ghost predicate Cloned(h: Heap, r: Heap, s: Sid, news: Sid) {
    && s in h.stores && ArraysOk(r) && Kept(h, r, {}) && r.handles == h.handles && r.arrays.Keys == h.arrays.Keys
    && r.stores == h.stores[news := Store(1, h.stores[s].data, h.stores[s].error)]
  }

  /** The copy in progress: the names in todo are still missing from the new storage. */
  ghost predicate Partial(h: Heap, c: Heap, s: Sid, news: Sid, todo: set<Name>) {
    && s in h.stores && news !in h.stores && todo <= h.stores[s].data.Keys
    && ArraysOk(c) && c.handles == h.handles && c.loose == h.loose && c.arrays.Keys == h.arrays.Keys
    && c.stores == h.stores[news := Store(1, h.stores[s].data - todo, h.stores[s].error)]
    && forall b :: b in h.arrays && b in c.arrays ==> c.arrays[b].elems == h.arrays[b].elems
  }

  lemma PartialStart(h: Heap, s: Sid, news: Sid)
    requires ArraysOk(h) && s in h.stores && news !in h.stores
    ensures Partial(h, h.(stores := h.stores[news := Store(1, map[], h.stores[s].error)]), s, news, h.stores[s].data.Keys)
  {
    hide ArraysOk;
    StoreAdded(h, news, Store(1, map[], h.stores[s].error));
    assert h.stores[s].data - h.stores[s].data.Keys == map[];
  }

  lemma PartialStep(h: Heap, c: Heap, s: Sid, news: Sid, todo: set<Name>, k: Name)
    requires Partial(h, c, s, news, todo) && k in todo
    ensures ArraysOk(c) && s in c.stores && news in c.stores && k in c.stores[s].data && k !in c.stores[news].data
    ensures c.stores[s].data[k] in c.arrays && c.stores[s].data[k] !in c.loose
    ensures Partial(h, SetSlot(c, news, k, c.stores[s].data[k]), s, news, todo - {k})
  {
    hide ArraysOk;
    SlotNotLoose(c, s, k);
    SetSlotOk(c, news, k, c.stores[s].data[k]);
    var data := h.stores[s].data;
    assert (data - todo)[k := data[k]] == data - (todo - {k});
  }

  lemma PartialEnd(h: Heap, c: Heap, s: Sid, news: Sid)
    requires Partial(h, c, s, news, {})
    ensures Cloned(h, c, s, news)
  {
    hide ArraysOk;
    assert h.stores[s].data - {} == h.stores[s].data;
  }

  class PropertyMemory {
    var handles: map<Hid, Sid>
    var stores: map<Sid, Store>
    var arrays: map<Aid, Arr>
    ghost var loose: set<Aid>

    ghost function Abs(): Heap
      reads this
    {
      Heap(handles, stores, arrays, loose)
    }

    /** it->second = a or an insertion: add_ref. */
    method AddSlot(s: Sid, k: Name, a: Aid)
      requires ArraysOk(Abs()) && s in stores && k !in stores[s].data && a in arrays && a !in loose
      modifies this
      ensures Abs() == SetSlot(old(Abs()), s, k, a)
      ensures ArraysOk(Abs()) && Elsewhere(old(Abs()), Abs(), s) && loose == old(loose)
    {
      hide ArraysOk, Elsewhere;
      SetSlotOk(Abs(), s, k, a);
      arrays := arrays[a := arrays[a].(refs := arrays[a].refs + 1)];
      stores := stores[s := stores[s].(data := stores[s].data[k := a])];
    }

    /** Erasing a slot releases its array. */
    method RemoveSlot(s: Sid, k: Name)
      requires ArraysOk(Abs()) && s in stores && k in stores[s].data && stores[s].data[k] in arrays
      modifies this
      ensures Abs() == DropSlot(old(Abs()), s, k)
      ensures ArraysOk(Abs()) && Elsewhere(old(Abs()), Abs(), s) && loose == old(loose)
    {
      hide ArraysOk, Elsewhere;
      DropSlotOk(Abs(), s, k);
      var a := stores[s].data[k];
      var refs := arrays[a].refs - 1;
      stores := stores[s := stores[s].(data := stores[s].data - {k})];
      arrays := if refs == 0 then arrays - {a} else arrays[a := arrays[a].(refs := refs)];
    }

    /** new VSMapStorage(*s): the arrays are shared, not copied. */
    method CloneStore(s: Sid, news: Sid)
      requires ArraysOk(Abs()) && s in stores && news !in stores
      modifies this
      ensures Cloned(old(Abs()), Abs(), s, news) && handles == old(handles)
    {
      hide ArraysOk, Partial, Elsewhere, SetSlot;
      ghost var h := Abs();
      PartialStart(h, s, news);
      stores := stores[news := Store(1, map[], stores[s].error)];
      var todo := stores[s].data.Keys;
      while todo != {}
        invariant Partial(h, Abs(), s, news, todo)
        decreases todo
      {
        var k := Pick(todo);
        PartialStep(h, Abs(), s, news, todo, k);
        AddSlot(news, k, stores[s].data[k]);
        todo := todo - {k};
      }
      PartialEnd(h, Abs(), s, news);
    }

    /** ~VSMapStorage and clear: every slot is released. */
    method EmptyStore(s: Sid)
      requires ArraysOk(Abs()) && s in stores
      modifies this
      ensures ArraysOk(Abs()) && Kept(old(Abs()), Abs(), {s}) && handles == old(handles)
      ensures stores == old(stores)[s := Store(old(stores[s].refs), map[], old(stores[s].error))]
    {
      hide ArraysOk;
      ghost var data := stores[s].data;
      var todo := stores[s].data.Keys;
      ghost var gone: set<Name> := {};
      assert data - {} == data;
      while todo != {}
        invariant todo <= data.Keys && gone == data.Keys - todo
        invariant ArraysOk(Abs()) && handles == old(handles) && loose == old(loose)
        invariant stores == old(stores)[s := Store(old(stores[s].refs), data - gone, old(stores[s].error))]
        invariant forall b :: b in old(arrays) && b in arrays ==> arrays[b].elems == old(arrays)[b].elems
        decreases todo
      {
        var k := Pick(todo);
        SlotNotLoose(Abs(), s, k);
        RemoveSlot(s, k);
        todo, gone := todo - {k}, gone + {k};
        assert data - gone == (data - (gone - {k})) - {k};
      }
      assert data - gone == map[];
    }
  
    // ------------------------------------------------------- AVSMap itself

    /** Drop one temporary reference to s; the last one destroys the storage. */
    method ReleaseStore(s: Sid)
      requires Valid(Abs(), multiset{s})
      modifies this
      ensures Valid(Abs(), multiset{}) && handles == old(handles)
      ensures Kept(old(Abs()), Abs(), {s})
      ensures s in stores ==> stores[s].data == old(stores[s].data) && stores[s].error == old(stores[s].error)
      ensures forall x :: x in handles ==> View(Abs(), x) == View(old(Abs()), x)
    {
      hide ArraysOk, StoresOk, Valid, Kept, View, Live;
      ghost var h := Abs();
      TempStore(h, s);
      if stores[s].refs == 1 {
        EmptyStore(s);
        ReleaseLast(h, Abs(), s);
        stores := stores - {s};
      } else {
        ReleaseShared(h, s);
        stores := stores[s := stores[s].(refs := stores[s].refs - 1)];
      }
    }

    constructor ()
      ensures Valid(Abs(), multiset{}) && handles == map[]
    {
      handles, stores, arrays, loose := map[], map[], map[], {};
    }

    /** AVSMap(): a handle on a new, empty storage. */
    method Create(x: Hid, news: Sid)
      requires Valid(Abs(), multiset{}) && x !in handles && news !in stores
      modifies this
      ensures Valid(Abs(), multiset{}) && Isolated(old(Abs()), Abs(), x)
      ensures x in handles && View(Abs(), x) == Props(map[], false)
    {
      hide Valid, Isolated, View;
      CreateOk(Abs(), x, news);
      stores := stores[news := Store(1, map[], false)];
      handles := handles[x := news];
    }

    /** AVSMap(&map): a new handle on the same storage. */
    method Share(x: Hid, y: Hid)
      requires Valid(Abs(), multiset{}) && x !in handles && y in handles
      modifies this
      ensures Valid(Abs(), multiset{}) && Isolated(old(Abs()), Abs(), x)
      ensures x in handles && View(Abs(), x) == View(old(Abs()), y)
      ensures handles == old(handles)[x := old(handles)[y]] && arrays == old(arrays) && stores.Keys == old(stores).Keys
    {
      hide Valid, Isolated, View;
      ValidHandle(Abs(), y);
      ShareOk(Abs(), x, y);
      var s := handles[y];
      stores := stores[s := stores[s].(refs := stores[s].refs + 1)];
      handles := handles[x := s];
    }

    /** ~AVSMap. */
    method Destroy(x: Hid)
      requires Valid(Abs(), multiset{}) && x in handles
      modifies this
      ensures Valid(Abs(), multiset{}) && Isolated(old(Abs()), Abs(), x)
      ensures handles == old(handles) - {x}
    {
      hide Valid, View;
      DropHandleOk(Abs(), x);
      var s := handles[x];
      handles := handles - {x};
      ReleaseStore(s);
    }

    /** operator=: release, point, add_ref; x and y are different handles. */
    method Assign(x: Hid, y: Hid)
      requires Valid(Abs(), multiset{}) && x in handles && y in handles && x != y
      modifies this
      ensures Valid(Abs(), multiset{}) && Isolated(old(Abs()), Abs(), x)
      ensures x in handles && View(Abs(), x) == View(old(Abs()), y)
      ensures handles == old(handles)[x := old(handles)[y]]
    {
      hide Valid, View;
      Destroy(x);
      ghost var m := Abs();
      Share(x, y);
      IsolatedTrans(old(Abs()), m, Abs(), x);
    }

    /**
      operator= of a handle to itself: the reference is released before it is
      read again. That is safe exactly when another handle shares the storage;
      otherwise the storage is gone and the handle dangles.
     */
    method AssignSelf(x: Hid) returns (dangling: bool)
      requires Valid(Abs(), multiset{}) && x in handles
      modifies this
      ensures handles == old(handles) && (dangling <==> Alone(handles, x))
      ensures !dangling ==> Abs() == old(Abs())
      ensures dangling ==> stores == old(stores) - {handles[x]} && ArraysOk(Abs())
    {
      ValidHandle(Abs(), x);
      OnlyUser(Abs(), x);
      hide Valid;
      var s := handles[x];
      var refs := stores[s].refs - 1;
      dangling := refs == 0;
      if dangling {
        ValidArrays(Abs());
        hide ArraysOk;
        EmptyStore(s);
        StoreRemoved(Abs(), s);
        stores := stores - {s};
        assert stores == old(stores) - {s};
      } else {
        stores := stores[s := stores[s].(refs := refs)];
        stores := stores[s := stores[s].(refs := stores[s].refs + 1)];
      }
    }

    /** detach(): afterwards x alone uses its storage, and nobody sees a difference. */
    method Detach(x: Hid, news: Sid) returns (copied: bool)
      requires Valid(Abs(), multiset{}) && x in handles && news !in stores
      modifies this
      ensures Detached(old(Abs()), Abs(), x)
      ensures old(handles[x]) in old(stores) && copied == (old(stores)[old(handles[x])].refs != 1)
      ensures if copied then handles == old(handles)[x := news] else Abs() == old(Abs())
    {
      hide Valid, Detached, ArraysOk, Cloned, Live, Slots, Users;
      ghost var h := Abs();
      ValidHandle(h, x);
      ValidArrays(h);
      var s := handles[x];
      copied := stores[s].refs != 1;
      if copied {
        CloneStore(s, news);
        DetachOk(h, Abs(), x, news);
        handles := handles[x := news];
        stores := stores[s := stores[s].(refs := stores[s].refs - 1)];
      } else {
        AlreadyUnique(h, x);
      }
    }

    /** erase(): a missing key changes nothing, not even the sharing. */
    method Erase(x: Hid, k: Name, news: Sid) returns (found: bool)
      requires Valid(Abs(), multiset{}) && x in handles && news !in stores
      modifies this
      ensures found == (k in View(old(Abs()), x).values)
      ensures !found ==> Abs() == old(Abs())
      ensures found ==> Changed(old(Abs()), Abs(), x, Props(View(old(Abs()), x).values - {k}, View(old(Abs()), x).error))
    {
      hide Valid, Changed, ArraysOk, Isolated;
      ghost var h := Abs();
      ValidHandle(h, x);
      ViewKeys(h, x);
      found := k in stores[handles[x]].data;
      if found {
        var _ := Detach(x, news);
        ghost var d := Abs();
        DetachedSole(h, d, x);
        SlotNotLoose(d, handles[x], k);
        EraseOk(d, x, k);
        RemoveSlot(handles[x], k);
        ChangedTrans(h, d, Abs(), x, View(d, x), Props(View(d, x).values - {k}, View(d, x).error));
      }
    }

    /** insert(): the caller's array replaces whatever the key held. */
    method Insert(x: Hid, k: Name, a: Aid, news: Sid)
      requires Valid(Abs(), multiset{}) && x in handles && news !in stores && a in loose && a in arrays
      modifies this
      ensures Changed(old(Abs()), Abs(), x, Props(View(old(Abs()), x).values[k := old(arrays[a].elems)], View(old(Abs()), x).error))
      ensures loose == old(loose) - {a}
    {
      hide Valid, Changed, ArraysOk, Isolated, View, Elsewhere;
      ghost var h := Abs();
      var _ := Detach(x, news);
      ghost var d := Abs();
      ghost var p := View(d, x);
      DetachedSole(h, d, x);
      FreeSlot(x, k);
      ghost var m := Abs();
      ChangedTrans(h, d, m, x, p, Props(p.values - {k}, p.error));
      MoveInSole(m, x, k, a) by { ChangedSole(d, m, x, Props(p.values - {k}, p.error)); }
      var s := handles[x];
      stores := stores[s := stores[s].(data := stores[s].data[k := a])];
      loose := loose - {a};
      ghost var e := h.arrays[a].elems;
      ChangedView(d, m, x, Props(p.values - {k}, p.error));
      assert (p.values - {k})[k := e] == p.values[k := e];
      ChangedTrans(h, m, Abs(), x, Props(p.values - {k}, p.error), Props(p.values[k := e], p.error));
    }

    /** Make sure x's own storage has no slot for k. */
    method FreeSlot(x: Hid, k: Name)
      requires Sole(Abs(), x)
      modifies this
      ensures Changed(old(Abs()), Abs(), x, Props(View(old(Abs()), x).values - {k}, View(old(Abs()), x).error))
      ensures handles == old(handles) && loose == old(loose) && x in handles && handles[x] in stores && k !in stores[handles[x]].data
      ensures forall t :: t in old(stores) && t != handles[x] ==> t in stores && stores[t] == old(stores)[t]
      ensures forall b :: b in old(arrays) && b in arrays ==> arrays[b].elems == old(arrays)[b].elems
      ensures forall b :: b in loose ==> b in arrays
    {
      ghost var h := Abs();
      hide Valid, Changed, ArraysOk;
      SoleFacts(h, x);
      if k in stores[handles[x]].data {
        SlotNotLoose(h, handles[x], k);
        EraseOk(h, x, k);
        RemoveSlot(handles[x], k);
      } else {
        ViewKeys(h, x);
        assert View(h, x).values - {k} == View(h, x).values;
        UnchangedSole(h, x);
      }
      LooseLive(Abs());
    }

    /** copy(src): every slot of y replaces the one of x; copying to oneself does nothing. */
    method CopyFrom(x: Hid, y: Hid, news: Sid)
      requires Valid(Abs(), multiset{}) && x in handles && y in handles && news !in stores
      modifies this
      ensures x == y ==> Abs() == old(Abs())
      ensures x != y ==> Changed(old(Abs()), Abs(), x, Props(View(old(Abs()), x).values + View(old(Abs()), y).values, View(old(Abs()), x).error))
    {
      hide Valid, Changed, ArraysOk, Isolated, View;
      if x == y {
        return;
      }
      ghost var h := Abs();
      ghost var p := View(h, x);
      var _ := Detach(x, news);
      DetachedSole(h, Abs(), x);
      OtherStore(h, Abs(), x, y, p);
      var t := handles[y];
      ghost var src := View(h, y).values;
      var todo := stores[t].data.Keys;
      assert p.values + (src - src.Keys) == p.values;
      while todo != {}
        invariant y in handles && handles[y] == t && t in stores && todo <= stores[t].data.Keys
        invariant Changed(h, Abs(), x, Props(p.values + (src - todo), p.error))
        decreases todo
      {
        var k := Pick(todo);
        CopySlot(x, y, k, h, Props(p.values + (src - todo), p.error));
        assert (p.values + (src - todo))[k := src[k]] == p.values + (src - (todo - {k}));
        todo := todo - {k};
      }
      assert src - {} == src;
    }

    /** data[k] = src's array: release the old one, share the new one. */
    method CopySlot(x: Hid, y: Hid, k: Name, ghost h: Heap, ghost p: Props)
      requires x != y && x in h.handles && y in h.handles && Changed(h, Abs(), x, p)
      requires y in handles && handles[y] in stores && k in stores[handles[y]].data
      modifies this
      ensures handles == old(handles) && handles[y] in stores && stores[handles[y]] == old(stores)[handles[y]]
      ensures k in View(h, y).values && Changed(h, Abs(), x, Props(p.values[k := View(h, y).values[k]], p.error))
    {
      hide Valid, Changed, ArraysOk, Isolated;
      ghost var c := Abs();
      ChangedSole(h, c, x, p);
      ChangedView(h, c, x, p);
      SlotSeen(h, c, x, y, p, k);
      SoleFacts(c, x);
      NotShared(c, x, y);
      FreeSlot(x, k);
      ghost var m := Abs();
      ghost var q := Props(p.values - {k}, p.error);
      ChangedSole(c, m, x, q);
      ChangedView(c, m, x, q);
      SoleFacts(m, x);
      var a := stores[handles[y]].data[k];
      SlotNotLoose(m, handles[y], k);
      SetSlotSole(m, x, k, a);
      AddSlot(handles[x], k, a);
      ghost var e := m.arrays[a].elems;
      assert (p.values - {k})[k := e] == p.values[k := e];
      ChangedTrans(h, c, m, x, p, q);
      ChangedTrans(h, m, Abs(), x, q, Props(p.values[k := e], p.error));
    }

    /** clear(): emptied in place if unique, replaced by a new storage if shared. */
    method Clear(x: Hid, news: Sid)
      requires Valid(Abs(), multiset{}) && x in handles && news !in stores
      modifies this
      ensures Changed(old(Abs()), Abs(), x, Props(map[], false))
    {
      hide Valid, Changed, ArraysOk, Isolated;
      ghost var h := Abs();
      ValidHandle(h, x);
      ValidArrays(h);
      var s := handles[x];
      if stores[s].refs == 1 {
        EmptyStore(s);
        ClearedInPlace(h, Abs(), x);
        stores := stores[s := stores[s].(error := false)];
      } else {
        ClearedShared(h, x, news);
        stores := stores[news := Store(1, map[], false)];
        handles := handles[x := news];
        stores := stores[s := stores[s].(refs := stores[s].refs - 1)];
      }
    }

    /** new VSArray: one reference, held by the caller. */
    method NewArray(a: Aid, elems: seq<int>)
      requires Valid(Abs(), multiset{}) && a !in arrays
      modifies this
      ensures Valid(Abs(), multiset{}) && loose == old(loose) + {a} && arrays == old(arrays)[a := Arr(1, elems)]
      ensures handles == old(handles) && stores == old(stores) && forall x :: x in handles ==> View(Abs(), x) == View(old(Abs()), x)
    {
      NewArrayOk(Abs(), a, elems);
      arrays := arrays[a := Arr(1, elems)];
      loose := loose + {a};
    }

    /** detach(key): x's own array for k, copied first if any other slot shares it; no array for a missing key. */
    method DetachKey(x: Hid, k: Name, news: Sid, newa: Aid) returns (found: bool, a: Aid)
      requires Valid(Abs(), multiset{}) && x in handles && news !in stores && newa !in arrays
      modifies this
      ensures Changed(old(Abs()), Abs(), x, View(old(Abs()), x))
      ensures found == (k in View(old(Abs()), x).values)
      ensures found ==> x in handles && handles[x] in stores && k in stores[handles[x]].data
      ensures found ==> a == stores[handles[x]].data[k] && a in arrays && arrays[a].refs == 1 && a !in loose
    {
      hide Valid, Changed, ArraysOk, Isolated, Elsewhere;
      ghost var h := Abs();
      var _ := Detach(x, news);
      ghost var d := Abs();
      DetachedSole(h, d, x);
      SoleFacts(d, x);
      ViewKeys(d, x);
      found, a := k in stores[handles[x]].data, 0;
      if found {
        SlotNotLoose(d, handles[x], k);
        a := stores[handles[x]].data[k];
        if arrays[a].refs != 1 {
          SplitArray(x, k, newa);
          a := newa;
          ChangedTrans(h, d, Abs(), x, View(h, x), View(h, x));
        }
      }
    }

    /** it->second = it->second->copy(). */
    method SplitArray(x: Hid, k: Name, newa: Aid)
      requires Sole(Abs(), x) && k in stores[handles[x]].data && stores[handles[x]].data[k] in arrays && newa !in arrays
      modifies this
      ensures Changed(old(Abs()), Abs(), x, View(old(Abs()), x))
      ensures x in handles && handles[x] in stores && k in stores[handles[x]].data && stores[handles[x]].data[k] == newa
      ensures newa in arrays && arrays[newa].refs == 1 && newa !in loose
    {
      hide Valid, Changed, ArraysOk, Isolated, Elsewhere, View;
      ghost var h := Abs();
      ghost var p := View(h, x);
      SoleView(h, x, k);
      SoleFacts(h, x);
      var elems := arrays[stores[handles[x]].data[k]].elems;
      NewArray(newa, elems);
      ghost var m1 := Abs();
      NewArraySole(h, m1, x);
      FreeSlot(x, k);
      ghost var m2 := Abs();
      ghost var q := Props(p.values - {k}, p.error);
      ChangedSole(m1, m2, x, q);
      ChangedView(m1, m2, x, q);
      SoleFacts(m2, x);
      LooseRefs(m2, newa);
      MoveInSole(m2, x, k, newa);
      var s := handles[x];
      stores := stores[s := stores[s].(data := stores[s].data[k := newa])];
      loose := loose - {newa};
      assert (p.values - {k})[k := elems] == p.values;
      ChangedTrans(h, m1, m2, x, p, q);
      ChangedTrans(h, m2, Abs(), x, q, p);
    }

    /** Appending through detach(key): nobody else sees the new element. */
    method Append(x: Hid, k: Name, v: int, news: Sid, newa: Aid)
      requires Valid(Abs(), multiset{}) && x in handles && news !in stores && newa !in arrays
      requires k in View(Abs(), x).values
      modifies this
      ensures Changed(old(Abs()), Abs(), x,
                      Props(View(old(Abs()), x).values[k := View(old(Abs()), x).values[k] + [v]], View(old(Abs()), x).error))
    {
      hide Valid, Changed, ArraysOk, Isolated, Elsewhere, View;
      ghost var h := Abs();
      ghost var p := View(h, x);
      var _, a := DetachKey(x, k, news, newa);
      ghost var m := Abs();
      ChangedSole(h, m, x, p);
      ChangedView(h, m, x, p);
      PushOk(m, x, k, v);
      arrays := arrays[a := arrays[a].(elems := arrays[a].elems + [v])];
      ChangedTrans(h, m, Abs(), x, p, Props(p.values[k := p.values[k] + [v]], p.error));
    }
  }

  /** No other handle has x's storage. */
  ghost predicate Alone(handles: map<Hid, Sid>, x: Hid)
    requires x in handles
  {
    forall y :: y in handles && handles[y] == handles[x] ==> y == x
  }

  lemma OnlyUser(h: Heap, x: Hid)
    requires Valid(h, multiset{}) && x in h.handles && h.handles[x] in h.stores
    ensures h.stores[h.handles[x]].refs == 1 <==> Alone(h.handles, x)
    ensures h.stores[h.handles[x]].refs >= 1
  {
    var users := Users(h, h.handles[x]);
    assert users == {x} + (users - {x});
    assert |users| == 1 + |users - {x}|;
    assert Alone(h.handles, x) <==> users - {x} == {} by {
      forall y | y in h.handles && h.handles[y] == h.handles[x] ensures y in users {}
      assert forall y :: y in users - {x} ==> y in h.handles && h.handles[y] == h.handles[x] && y != x;
      assert users - {x} == {} ==> forall y :: y in users ==> y == x;
    }
  }

  lemma NewArrayOk(h: Heap, a: Aid, elems: seq<int>)
    requires Valid(h, multiset{}) && a !in h.arrays
    ensures var r := h.(arrays := h.arrays[a := Arr(1, elems)], loose := h.loose + {a});
      Valid(r, multiset{}) && forall x :: x in h.handles ==> View(r, x) == View(h, x)
  {
    var r := h.(arrays := h.arrays[a := Arr(1, elems)], loose := h.loose + {a});
    assert Slots(h, a) == {} by {
      forall s, k | s in h.stores && k in h.stores[s].data ensures h.stores[s].data[k] != a {
        assert Live(h.arrays, h.stores[s].data);
      }
    }
    assert forall b :: Slots(r, b) == Slots(h, b);
    forall b | b in r.arrays ensures ArrayExact(r, b) {
      if b != a { assert ArrayExact(h, b); }
    }
    forall s | s in r.stores ensures Live(r.arrays, r.stores[s].data) { assert Live(h.arrays, h.stores[s].data); }
    assert forall s :: Users(r, s) == Users(h, s);
    forall x | x in h.handles ensures View(r, x) == View(h, x) { ViewsKept(h, r, x); }
  }

  lemma NewArraySole(h: Heap, m: Heap, x: Hid)
    requires Sole(h, x) && Valid(m, multiset{}) && m.handles == h.handles && m.stores == h.stores
    requires forall y :: y in h.handles ==> View(m, y) == View(h, y)
    ensures Sole(m, x) && Changed(h, m, x, View(h, x)) && View(m, x) == View(h, x)
  {
  }

  lemma SoleView(h: Heap, x: Hid, k: Name)
    requires Sole(h, x) && k in h.stores[h.handles[x]].data
    ensures k in View(h, x).values && h.stores[h.handles[x]].data[k] in h.arrays
    ensures View(h, x).values[k] == h.arrays[h.stores[h.handles[x]].data[k]].elems
  {
    assert Live(h.arrays, h.stores[h.handles[x]].data);
  }

  lemma LooseRefs(h: Heap, a: Aid)
    requires ArraysOk(h) && a in h.loose
    ensures a in h.arrays && h.arrays[a].refs == 1
  {
    assert ArrayExact(h, a);
  }

  /** A unique array of a unique storage changes one slot of one handle. */
  lemma PushOk(h: Heap, x: Hid, k: Name, v: int)
    requires Sole(h, x) && k in h.stores[h.handles[x]].data
    requires var a := h.stores[h.handles[x]].data[k]; a in h.arrays && h.arrays[a].refs == 1 && a !in h.loose
    ensures var a := h.stores[h.handles[x]].data[k];
      var r := h.(arrays := h.arrays[a := h.arrays[a].(elems := h.arrays[a].elems + [v])]);
      k in View(h, x).values && Changed(h, r, x, Props(View(h, x).values[k := View(h, x).values[k] + [v]], View(h, x).error))
  {
    var s := h.handles[x];
    var a := h.stores[s].data[k];
    var r := h.(arrays := h.arrays[a := h.arrays[a].(elems := h.arrays[a].elems + [v])]);
    SoleView(h, x, k);
    PushValid(h, r, a);
    forall y | y in h.handles && y != x ensures View(r, y) == View(h, y) {
      NotShared(h, x, y);
      PushElsewhere(h, r, s, k, h.handles[y]);
    }
    PushHere(h, r, x, k, v);
  }

  lemma PushValid(h: Heap, r: Heap, a: Aid)
    requires Valid(h, multiset{}) && a in h.arrays && a in r.arrays && r == h.(arrays := r.arrays)
    requires r.arrays == h.arrays[a := h.arrays[a].(elems := r.arrays[a].elems)]
    ensures Valid(r, multiset{})
  {
    assert forall b :: Slots(r, b) == Slots(h, b);
    assert forall b :: b in h.arrays ==> ArrayExact(h, b) && ArrayExact(r, b);
    assert forall s :: s in h.stores ==> Live(h.arrays, h.stores[s].data) && Live(r.arrays, r.stores[s].data);
    assert forall s :: Users(r, s) == Users(h, s);
  }

  lemma OneSlot(h: Heap, s: Sid, k: Name, t: Sid, j: Name)
    requires ArraysOk(h) && s in h.stores && k in h.stores[s].data && t in h.stores && j in h.stores[t].data
    requires h.stores[s].data[k] == h.stores[t].data[j] && h.stores[s].data[k] in h.arrays && h.arrays[h.stores[s].data[k]].refs == 1
    ensures s == t && k == j
  {
    var a := h.stores[s].data[k];
    assert ArrayExact(h, a);
    assert {(s, k), (t, j)} <= Slots(h, a);
    SubsetSize({(s, k), (t, j)}, Slots(h, a));
    assert (s, k) != (t, j) ==> |{(s, k), (t, j)}| == 2;
  }

  lemma PushElsewhere(h: Heap, r: Heap, s: Sid, k: Name, t: Sid)
    requires ArraysOk(h) && s in h.stores && k in h.stores[s].data && t in h.stores && t != s
    requires var a := h.stores[s].data[k]; a in h.arrays && h.arrays[a].refs == 1 && a in r.arrays
    requires var a := h.stores[s].data[k]; r == h.(arrays := r.arrays) && r.arrays == h.arrays[a := r.arrays[a]]
    ensures StoreView(r, t) == StoreView(h, t)
  {
    var a, data := h.stores[s].data[k], h.stores[t].data;
    assert Live(h.arrays, data) && Live(r.arrays, data);
    forall j | j in data ensures data[j] != a {
      if data[j] == a { OneSlot(h, s, k, t, j); }
    }
    assert Contents(r.arrays, data) == Contents(h.arrays, data);
  }

  lemma PushHere(h: Heap, r: Heap, x: Hid, k: Name, v: int)
    requires Sole(h, x) && k in h.stores[h.handles[x]].data
    requires var a := h.stores[h.handles[x]].data[k]; a in h.arrays && h.arrays[a].refs == 1
    requires var a := h.stores[h.handles[x]].data[k]; r == h.(arrays := h.arrays[a := h.arrays[a].(elems := h.arrays[a].elems + [v])])
    ensures k in View(h, x).values
    ensures View(r, x) == Props(View(h, x).values[k := View(h, x).values[k] + [v]], View(h, x).error)
  {
    var s := h.handles[x];
    var a, data := h.stores[s].data[k], h.stores[s].data;
    assert Live(h.arrays, data) && Live(r.arrays, data);
    forall j | j in data && j != k ensures data[j] != a {
      if data[j] == a { OneSlot(h, s, k, s, j); }
    }
    assert Contents(r.arrays, data) == Contents(h.arrays, data)[k := h.arrays[a].elems + [v]];
  }

  // ------------------------------------------------------------ whole runs

  /** What any client can do with its maps. */
  datatype Op =
    | New(x: Hid)
    | Copy(x: Hid, y: Hid)
    | Let(x: Hid, y: Hid)
    | Delete(x: Hid)
    | Erasing(x: Hid, k: Name)
    | Set(x: Hid, k: Name, elems: seq<int>)
    | Push(x: Hid, k: Name, v: int)
    | Merge(x: Hid, y: Hid)
    | Wipe(x: Hid)
    | Unshare(x: Hid)
    | UnshareKey(x: Hid, k: Name)

  predicate Legal(m: map<Hid, Props>, op: Op) {
    match op
    case New(x) => x !in m
    case Copy(x, y) => x !in m && y in m
    case Let(x, y) => x in m && y in m && x != y
    case Push(x, k, _) => x in m && k in m[x].values
    case Merge(x, y) => x in m && y in m
    case _ => op.x in m
  }

  /** The reference semantics: every handle owns a private map. */
  function Apply(m: map<Hid, Props>, op: Op): map<Hid, Props>
    requires Legal(m, op)
  {
    match op
    case New(x) => m[x := Props(map[], false)]
    case Copy(x, y) => m[x := m[y]]
    case Let(x, y) => m[x := m[y]]
    case Delete(x) => m - {x}
    case Erasing(x, k) => m[x := Props(m[x].values - {k}, m[x].error)]
    case Set(x, k, elems) => m[x := Props(m[x].values[k := elems], m[x].error)]
    case Push(x, k, v) => m[x := Props(m[x].values[k := m[x].values[k] + [v]], m[x].error)]
    case Merge(x, y) => m[x := Props(m[x].values + m[y].values, m[x].error)]
    case Wipe(x) => m[x := Props(map[], false)]
    case Unshare(_) => m
    case UnshareKey(_, _) => m
  }

  ghost predicate LegalRun(m: map<Hid, Props>, ops: seq<Op>)
    decreases |ops|
  {
    |ops| == 0 || (Legal(m, ops[0]) && LegalRun(Apply(m, ops[0]), ops[1..]))
  }

  ghost function ApplyAll(m: map<Hid, Props>, ops: seq<Op>): map<Hid, Props>
    requires LegalRun(m, ops)
    decreases |ops|
  {
    if |ops| == 0 then m else ApplyAll(Apply(m, ops[0]), ops[1..])
  }

  ghost function Meaning(h: Heap): map<Hid, Props> {
    map x | x in h.handles :: View(h, x)
  }

  lemma MeaningChanged(h: Heap, r: Heap, x: Hid, p: Props)
    requires Isolated(h, r, x) && x in r.handles && View(r, x) == p
    ensures Meaning(r) == Meaning(h)[x := p]
  {
    assert forall y :: y in r.handles <==> y == x || y in h.handles by {
      assert forall y :: y != x ==> (y in r.handles <==> y in r.handles.Keys - {x}) && (y in h.handles <==> y in h.handles.Keys - {x});
    }
  }

  /** An identifier the allocator could return. */
  method FreshId(used: set<nat>) returns (n: nat)
    ensures n !in used
  {
    n := 0;
    var todo := used;
    while todo != {}
      invariant todo <= used && forall j :: j in used && j !in todo ==> j < n
      decreases todo
    {
      var k := Pick(todo);
      if k >= n {
        n := k + 1;
      }
      todo := todo - {k};
    }
  }

  method Step(memory: PropertyMemory, op: Op)
    requires Valid(memory.Abs(), multiset{}) && Legal(Meaning(memory.Abs()), op)
    modifies memory
    ensures Valid(memory.Abs(), multiset{}) && Meaning(memory.Abs()) == Apply(Meaning(old(memory.Abs())), op)
  {
    hide Valid, View, Isolated, Changed;
    ghost var h := memory.Abs();
    var s := FreshId(memory.stores.Keys);
    var a := FreshId(memory.arrays.Keys);
    match op
    case New(x) => memory.Create(x, s); MeaningChanged(h, memory.Abs(), x, Props(map[], false));
    case Copy(x, y) => memory.Share(x, y); MeaningChanged(h, memory.Abs(), x, View(h, y));
    case Let(x, y) => memory.Assign(x, y); MeaningChanged(h, memory.Abs(), x, View(h, y));
    case Delete(x) => memory.Destroy(x); MeaningDropped(h, memory.Abs(), x);
    case Erasing(x, k) =>
      var found := memory.Erase(x, k, s);
      if found {
        MeaningOf(h, memory.Abs(), x, Props(View(h, x).values - {k}, View(h, x).error));
      } else {
        assert View(h, x).values - {k} == View(h, x).values;
        assert Meaning(h)[x := View(h, x)] == Meaning(h);
      }
    case Set(x, k, elems) =>
      memory.NewArray(a, elems);
      ghost var m := memory.Abs();
      assert Meaning(m) == Meaning(h);
      memory.Insert(x, k, a, s);
      MeaningOf(m, memory.Abs(), x, Props(View(h, x).values[k := elems], View(h, x).error));
    case Push(x, k, v) =>
      memory.Append(x, k, v, s, a);
      MeaningOf(h, memory.Abs(), x, Props(View(h, x).values[k := View(h, x).values[k] + [v]], View(h, x).error));
    case Merge(x, y) =>
      memory.CopyFrom(x, y, s);
      if x == y {
        assert View(h, x).values + View(h, x).values == View(h, x).values;
        assert Meaning(h)[x := View(h, x)] == Meaning(h);
      } else {
        MeaningOf(h, memory.Abs(), x, Props(View(h, x).values + View(h, y).values, View(h, x).error));
      }
    case Wipe(x) =>
      memory.Clear(x, s);
      MeaningOf(h, memory.Abs(), x, Props(map[], false));
    case Unshare(x) =>
      var _ := memory.Detach(x, s);
      DetachedSole(h, memory.Abs(), x);
      MeaningOf(h, memory.Abs(), x, View(h, x));
      assert Meaning(h)[x := View(h, x)] == Meaning(h);
    case UnshareKey(x, k) =>
      var _, _ := memory.DetachKey(x, k, s, a);
      MeaningOf(h, memory.Abs(), x, View(h, x));
      assert Meaning(h)[x := View(h, x)] == Meaning(h);
  }

  lemma MeaningOf(h: Heap, r: Heap, x: Hid, p: Props)
    requires Changed(h, r, x, p)
    ensures Valid(r, multiset{}) && Meaning(r) == Meaning(h)[x := p]
  {
    MeaningChanged(h, r, x, p);
  }

  lemma MeaningDropped(h: Heap, r: Heap, x: Hid)
    requires Isolated(h, r, x) && x !in r.handles
    ensures Meaning(r) == Meaning(h) - {x}
  {
    assert forall y :: y != x ==> (y in r.handles <==> y in r.handles.Keys - {x}) && (y in h.handles <==> y in h.handles.Keys - {x});
  }

  /**
    Copy-on-write refines private copies: after any sequence of operations on
    any number of handles, every handle shows exactly what it would show if it
    had owned its map alone; all reference counts are exact throughout.
   */
  method Run(memory: PropertyMemory, ops: seq<Op>)
    requires Valid(memory.Abs(), multiset{}) && LegalRun(Meaning(memory.Abs()), ops)
    modifies memory
    ensures Valid(memory.Abs(), multiset{}) && Meaning(memory.Abs()) == ApplyAll(Meaning(old(memory.Abs())), ops)
    decreases |ops|
  {
    hide Valid, Meaning, Legal;
    ghost var m := Meaning(memory.Abs());
    for i := 0 to |ops|
      invariant Valid(memory.Abs(), multiset{})
      invariant LegalRun(Meaning(memory.Abs()), ops[i..])
      invariant ApplyAll(Meaning(memory.Abs()), ops[i..]) == ApplyAll(m, ops)
    {
      assert ops[i..][0] == ops[i] && ops[i..][1..] == ops[i + 1..];
      Step(memory, ops[i]);
    }
  }

  /** y's storage is not x's own, and holds what y showed from the start. */
  lemma OtherStore(h: Heap, c: Heap, x: Hid, y: Hid, p: Props)
    requires Valid(h, multiset{}) && x != y && y in h.handles && Changed(h, c, x, p)
    ensures y in c.handles && c.handles[y] in c.stores && c.stores[c.handles[y]].data.Keys == View(h, y).values.Keys
  {
    assert y in h.handles.Keys - {x};
    ValidHandle(c, y);
    ViewKeys(c, y);
  }

  lemma SlotSeen(h: Heap, c: Heap, x: Hid, y: Hid, p: Props, k: Name)
    requires x != y && y in h.handles && Changed(h, c, x, p) && y in c.handles && c.handles[y] in c.stores
    requires k in c.stores[c.handles[y]].data
    ensures c.stores[c.handles[y]].data[k] in c.arrays && k in View(h, y).values
    ensures View(h, y).values[k] == c.arrays[c.stores[c.handles[y]].data[k]].elems
  {
    assert Live(c.arrays, c.stores[c.handles[y]].data);
    assert View(c, y) == View(h, y);
  }

  lemma ClearedInPlace(h: Heap, m: Heap, x: Hid)
    requires Sole(h, x) && ArraysOk(m) && Kept(h, m, {h.handles[x]}) && m.handles == h.handles
    requires var s := h.handles[x]; m.stores == h.stores[s := Store(h.stores[s].refs, map[], h.stores[s].error)]
    ensures var s := h.handles[x];
      s in m.stores && Changed(h, m.(stores := m.stores[s := m.stores[s].(error := false)]), x, Props(map[], false))
  {
    hide ArraysOk, StoresOk, View;
    var s := h.handles[x];
    var r := m.(stores := m.stores[s := m.stores[s].(error := false)]);
    ArraysOnly(m, r);
    UniqueChange(h, r, x);
    EmptyView(r, x);
  }

  lemma ClearedShared(h: Heap, x: Hid, news: Sid)
    requires Valid(h, multiset{}) && x in h.handles && news !in h.stores && h.handles[x] in h.stores && h.stores[h.handles[x]].refs >= 2
    ensures Changed(h, Switched(h.(stores := h.stores[news := Store(1, map[], false)]), x, news), x, Props(map[], false))
  {
    hide ArraysOk, StoresOk, View;
    var c := h.(stores := h.stores[news := Store(1, map[], false)]);
    StoreAdded(h, news, Store(1, map[], false));
    FreshStoreOk(h, c, news);
    SwitchOk(c, x, news);
    var r := Switched(c, x, news);
    forall y | y in h.handles && y != x ensures View(r, y) == View(h, y) {
      ValidHandle(h, y);
      ViewsKept(h, r, y);
    }
    EmptyView(r, x);
  }

  lemma EmptyView(r: Heap, x: Hid)
    requires x in r.handles && r.handles[x] in r.stores
    requires r.stores[r.handles[x]].data == map[] && !r.stores[r.handles[x]].error
    ensures View(r, x) == Props(map[], false)
  {
    assert Contents(r.arrays, map[]) == map[];
  }

  lemma SoleFacts(h: Heap, x: Hid)
    requires Sole(h, x)
    ensures ArraysOk(h) && Valid(h, multiset{})
  {
  }

  lemma UnchangedSole(h: Heap, x: Hid)
    requires Sole(h, x)
    ensures Changed(h, h, x, View(h, x))
  {
  }

  lemma ChangedSole(h: Heap, r: Heap, x: Hid, p: Props)
    requires Changed(h, r, x, p)
    ensures Sole(r, x)
  {
  }

  lemma ChangedView(h: Heap, r: Heap, x: Hid, p: Props)
    requires Changed(h, r, x, p)
    ensures View(r, x) == p
  {
  }

  lemma DetachedSole(h: Heap, d: Heap, x: Hid)
    requires Detached(h, d, x)
    ensures Sole(d, x) && ArraysOk(d) && Changed(h, d, x, View(h, x)) && View(d, x) == View(h, x)
    ensures d.arrays.Keys == h.arrays.Keys
  {
  }

  lemma ChangedTrans(h: Heap, m: Heap, r: Heap, x: Hid, p: Props, q: Props)
    requires Changed(h, m, x, p) && Changed(m, r, x, q)
    ensures Changed(h, r, x, q)
  {
    IsolatedTrans(h, m, r, x);
  }

  lemma ViewKeys(h: Heap, x: Hid)
    requires Valid(h, multiset{}) && x in h.handles && h.handles[x] in h.stores
    ensures View(h, x).values.Keys == h.stores[h.handles[x]].data.Keys
  {
  }

  /** x has a storage of its own with the same slots; all views are unchanged. */
  ghost predicate Detached(h: Heap, r: Heap, x: Hid) {
    && Valid(r, multiset{}) && Isolated(h, r, x)
    && x in h.handles && h.handles[x] in h.stores && x in r.handles && r.handles[x] in r.stores
    && View(r, x) == View(h, x)
    && r.stores[r.handles[x]].refs == 1 && r.stores[r.handles[x]].data == h.stores[h.handles[x]].data
    && r.loose == h.loose && r.arrays.Keys == h.arrays.Keys
    && forall a :: a in h.loose ==> a in h.arrays && a in r.arrays && r.arrays[a].elems == h.arrays[a].elems
  }

  lemma AlreadyUnique(h: Heap, x: Hid)
    requires Valid(h, multiset{}) && x in h.handles && h.handles[x] in h.stores && h.stores[h.handles[x]].refs == 1
    ensures Detached(h, h, x)
  {
    LooseLive(h);
  }

  lemma ValidArrays(h: Heap)
    requires Valid(h, multiset{})
    ensures ArraysOk(h)
  {
  }

  /** The state after `data = new VSMapStorage(*data)` on a shared storage, c being the state with the copy made. */
  function Switched(c: Heap, x: Hid, news: Sid): Heap
    requires x in c.handles && c.handles[x] in c.stores
  {
    var s := c.handles[x];
    c.(handles := c.handles[x := news], stores := c.stores[s := c.stores[s].(refs := c.stores[s].refs - 1)])
  }

  lemma DetachOk(h: Heap, c: Heap, x: Hid, news: Sid)
    requires Valid(h, multiset{}) && x in h.handles && news !in h.stores && h.handles[x] in h.stores && h.stores[h.handles[x]].refs >= 2
    requires Cloned(h, c, h.handles[x], news)
    ensures x in c.handles && c.handles[x] == h.handles[x] && c.handles[x] in c.stores
    ensures Detached(h, Switched(c, x, news), x)
  {
    hide ArraysOk, View, StoresOk;
    LooseLive(h);
    FreshStoreOk(h, c, news);
    SwitchOk(c, x, news);
    var r := Switched(c, x, news);
    LooseLive(r);
    forall y | y in h.handles ensures View(r, y) == View(h, y) {
      DetachView(h, c, x, news, y);
    }
  }

  lemma DetachView(h: Heap, c: Heap, x: Hid, news: Sid, y: Hid)
    requires Valid(h, multiset{}) && x in h.handles && y in h.handles && news !in h.stores && h.handles[x] in h.stores
    requires Cloned(h, c, h.handles[x], news)
    requires ArraysOk(Switched(c, x, news))
    ensures View(Switched(c, x, news), y) == View(h, y)
  {
    hide ArraysOk, View;
    ValidHandle(h, y);
    ViewsKept(h, Switched(c, x, news), y);
  }

  lemma LooseLive(h: Heap)
    requires ArraysOk(h)
    ensures forall a :: a in h.loose ==> a in h.arrays
  {
  }

  lemma TempStore(h: Heap, s: Sid)
    requires Valid(h, multiset{s})
    ensures s in h.stores && ArraysOk(h)
  {
    assert s in multiset{s};
  }

  /** Storage s lost its last reference and its slots: it can go. */
  lemma ReleaseLast(h: Heap, m: Heap, s: Sid)
    requires Valid(h, multiset{s}) && s in h.stores && h.stores[s].refs == 1
    requires ArraysOk(m) && Kept(h, m, {s}) && m.handles == h.handles
    requires m.stores == h.stores[s := Store(1, map[], h.stores[s].error)]
    ensures var r := m.(stores := m.stores - {s});
      Valid(r, multiset{}) && Kept(h, r, {s}) && forall x :: x in h.handles ==> View(r, x) == View(h, x)
  {
    hide ArraysOk, View;
    var r := m.(stores := m.stores - {s});
    LastUser(h, s);
    StoreRemoved(m, s);
    assert forall t :: Users(r, t) == Users(h, t);
    ReleaseViews(h, r, s);
  }

  lemma ReleaseShared(h: Heap, s: Sid)
    requires Valid(h, multiset{s}) && s in h.stores && h.stores[s].refs != 1
    ensures var r := h.(stores := h.stores[s := h.stores[s].(refs := h.stores[s].refs - 1)]);
      Valid(r, multiset{}) && Kept(h, r, {s}) && forall x :: x in h.handles ==> View(r, x) == View(h, x)
  {
    hide ArraysOk, View;
    var r := h.(stores := h.stores[s := h.stores[s].(refs := h.stores[s].refs - 1)]);
    ArraysOnly(h, r);
    assert forall t :: Users(r, t) == Users(h, t);
    ReleaseViews(h, r, s);
  }

  lemma LastUser(h: Heap, s: Sid)
    requires StoresOk(h, multiset{s}) && h.stores[s].refs == 1
    ensures forall x :: x in h.handles ==> h.handles[x] != s
  {
    assert |Users(h, s)| == 0;
    assert forall x :: x in h.handles && h.handles[x] == s ==> x in Users(h, s);
  }

  lemma ReleaseViews(h: Heap, r: Heap, s: Sid)
    requires Valid(h, multiset{s}) && ArraysOk(r) && Kept(h, r, {s}) && r.handles == h.handles
    requires if s in r.stores then r.stores[s].data == h.stores[s].data && r.stores[s].error == h.stores[s].error
             else forall x :: x in h.handles ==> h.handles[x] != s
    ensures forall x :: x in h.handles ==> r.handles[x] in r.stores && View(r, x) == View(h, x)
  {
    forall x | x in h.handles ensures r.handles[x] in r.stores && View(r, x) == View(h, x) {
      var t := h.handles[x];
      if t == s {
        assert Live(h.arrays, h.stores[t].data) && Live(r.arrays, r.stores[t].data);
        SameContents(h.arrays, r.arrays, h.stores[t].data);
      } else {
        KeptView(h, r, {s}, t);
      }
    }
  }
}
