/**
  Frame properties of AVSMap.h: handles share reference-counted storages, whose
  slots share reference-counted arrays; both are copied only before a change.
 */
module CopyOnWrite {
  /** Property names; only their equality matters. */
  type Name = int
  type Hid = nat
  type Sid = nat
  type Aid = nat

  datatype Store = Store(refs: int, data: map<Name, Aid>, error: bool)

  datatype Arr = Arr(refs: int, elems: seq<int>)

  /** Live AVSMap handles, storages and arrays; `loose` arrays belong to a caller, not yet to a slot. */
  datatype Heap = Heap(handles: map<Hid, Sid>, stores: map<Sid, Store>, arrays: map<Aid, Arr>, loose: set<Aid>)

  /** A property map as its user sees it. */
  datatype Props = Props(values: map<Name, seq<int>>, error: bool)

  // --------------------------------------------------------- exact counts

  function Users(h: Heap, s: Sid): set<Hid> {
    set x | x in h.handles && h.handles[x] == s
  }

  function Slots(h: Heap, a: Aid): set<(Sid, Name)> {
    set s, k | s in h.stores && k in h.stores[s].data && h.stores[s].data[k] == a :: (s, k)
  }

  /** Every slot points to a live array, and every array counts exactly its slots and its caller. */
  ghost predicate ArraysOk(h: Heap) {
    && (forall s :: s in h.stores ==> Live(h.arrays, h.stores[s].data))
    && (forall a :: a in h.arrays ==> ArrayExact(h, a))
    && h.loose <= h.arrays.Keys
  }

  ghost predicate Live(arrays: map<Aid, Arr>, data: map<Name, Aid>) {
    forall k :: k in data ==> data[k] in arrays
  }

  ghost predicate ArrayExact(h: Heap, a: Aid)
    requires a in h.arrays
  {
    && h.arrays[a].refs == |Slots(h, a)| + (if a in h.loose then 1 else 0)
    && h.arrays[a].refs >= 1
    && (a in h.loose ==> Slots(h, a) == {})
  }

  /** Every storage counts exactly its handles, plus `temps` held by an operation in progress. */
  ghost predicate StoresOk(h: Heap, temps: multiset<Sid>) {
    && (forall x :: x in h.handles ==> h.handles[x] in h.stores)
    && (forall s :: s in h.stores ==> h.stores[s].refs == |Users(h, s)| + temps[s] && h.stores[s].refs >= 1)
    && (forall s :: s in temps ==> s in h.stores)
  }

  ghost predicate Valid(h: Heap, temps: multiset<Sid>) {
    ArraysOk(h) && StoresOk(h, temps)
  }

  ghost function Contents(arrays: map<Aid, Arr>, data: map<Name, Aid>): map<Name, seq<int>>
    requires Live(arrays, data)
  {
    map k | k in data :: arrays[data[k]].elems
  }

  ghost function StoreView(h: Heap, s: Sid): Props {
    if s in h.stores && Live(h.arrays, h.stores[s].data)
    then Props(Contents(h.arrays, h.stores[s].data), h.stores[s].error)
    else Props(map[], false)
  }

  /** What the user of handle x sees. */
  ghost function View(h: Heap, x: Hid): Props {
    if x in h.handles then StoreView(h, h.handles[x]) else Props(map[], false)
  }

  /** The handles other than x are the same and see the same. */
  ghost predicate Isolated(h: Heap, r: Heap, x: Hid) {
    && r.handles.Keys - {x} == h.handles.Keys - {x}
    && forall y :: y in h.handles && y != x ==> View(r, y) == View(h, y)
  }

  // ------------------------------------------------------------ primitives

  /** One more slot for array a (add_ref). */
  function SetSlot(h: Heap, s: Sid, k: Name, a: Aid): Heap
    requires s in h.stores && a in h.arrays
  {
    h.(stores := h.stores[s := h.stores[s].(data := h.stores[s].data[k := a])],
       arrays := h.arrays[a := h.arrays[a].(refs := h.arrays[a].refs + 1)])
  }

  /** One slot less; the array dies with its last reference. */
  function DropSlot(h: Heap, s: Sid, k: Name): Heap
    requires s in h.stores && k in h.stores[s].data && h.stores[s].data[k] in h.arrays
  {
    var a := h.stores[s].data[k];
    var refs := h.arrays[a].refs - 1;
    h.(stores := h.stores[s := h.stores[s].(data := h.stores[s].data - {k})],
       arrays := if refs == 0 then h.arrays - {a} else h.arrays[a := h.arrays[a].(refs := refs)])
  }

  /** The caller's reference to a new array becomes a slot. */
  function MoveIn(h: Heap, s: Sid, k: Name, a: Aid): Heap
    requires s in h.stores
  {
    h.(stores := h.stores[s := h.stores[s].(data := h.stores[s].data[k := a])], loose := h.loose - {a})
  }

  lemma SlotsAdded(h: Heap, r: Heap, s: Sid, k: Name, a: Aid)
    requires s in h.stores && k !in h.stores[s].data
    requires r.stores == h.stores[s := h.stores[s].(data := h.stores[s].data[k := a])]
    ensures forall b :: Slots(r, b) == Slots(h, b) + (if b == a then {(s, k)} else {})
    ensures forall b :: (s, k) !in Slots(h, b)
  {
  }

  lemma SlotsDropped(h: Heap, r: Heap, s: Sid, k: Name)
    requires s in h.stores && k in h.stores[s].data
    requires r.stores == h.stores[s := h.stores[s].(data := h.stores[s].data - {k})]
    ensures forall b :: Slots(r, b) == Slots(h, b) - {(s, k)}
    ensures forall b :: (s, k) in Slots(h, b) <==> b == h.stores[s].data[k]
  {
  }

  /** What a change to storage s leaves alone. */
  ghost predicate Elsewhere(h: Heap, r: Heap, s: Sid) {
    && r.handles == h.handles && r.stores.Keys == h.stores.Keys
    && (forall t :: t in h.stores ==> r.stores[t].refs == h.stores[t].refs)
    && (forall t :: t in h.stores && t != s ==> r.stores[t] == h.stores[t])
    && (forall b :: b in h.arrays && b in r.arrays ==> r.arrays[b].elems == h.arrays[b].elems)
  }

  lemma SameView(h: Heap, r: Heap, s: Sid, t: Sid)
    requires ArraysOk(h) && ArraysOk(r) && Elsewhere(h, r, s) && t in h.stores && t != s
    ensures StoreView(r, t) == StoreView(h, t)
  {
    SameContents(h.arrays, r.arrays, h.stores[t].data);
  }

  lemma SameContents(before: map<Aid, Arr>, after: map<Aid, Arr>, data: map<Name, Aid>)
    requires Live(before, data) && Live(after, data)
    requires forall b :: b in before && b in after ==> after[b].elems == before[b].elems
    ensures Contents(after, data) == Contents(before, data)
  {
    forall k | k in data ensures Contents(after, data)[k] == Contents(before, data)[k] {
      assert data[k] in before && data[k] in after;
    }
  }

  lemma SetSlotOk(h: Heap, s: Sid, k: Name, a: Aid)
    requires ArraysOk(h) && s in h.stores && k !in h.stores[s].data && a in h.arrays && a !in h.loose
    ensures var r := SetSlot(h, s, k, a);
      ArraysOk(r) && Elsewhere(h, r, s) && r.loose == h.loose && r.arrays.Keys == h.arrays.Keys
  {
    hide Slots, Live, ArrayExact;
    var r := SetSlot(h, s, k, a);
    forall b | b in r.arrays ensures ArrayExact(r, b) {
      SetSlotExact(h, s, k, a, b);
    }
    forall t | t in r.stores ensures Live(r.arrays, r.stores[t].data) {
      LiveAfter(h.arrays, r.arrays, h.stores[t].data, r.stores[t].data, k, a);
    }
  }

  lemma SetSlotExact(h: Heap, s: Sid, k: Name, a: Aid, b: Aid)
    requires s in h.stores && k !in h.stores[s].data && a in h.arrays && a !in h.loose && b in h.arrays && ArrayExact(h, b)
    ensures ArrayExact(SetSlot(h, s, k, a), b)
  {
    hide Slots;
    SlotsAdded(h, SetSlot(h, s, k, a), s, k, a);
  }

  lemma LiveAfter(before: map<Aid, Arr>, after: map<Aid, Arr>, data: map<Name, Aid>, data': map<Name, Aid>, k: Name, a: Aid)
    requires Live(before, data) && before.Keys <= after.Keys && a in after
    requires data' == data || data' == data[k := a]
    ensures Live(after, data')
  {
  }

  lemma MoveInOk(h: Heap, s: Sid, k: Name, a: Aid)
    requires ArraysOk(h) && s in h.stores && k !in h.stores[s].data && a in h.loose
    ensures var r := MoveIn(h, s, k, a); ArraysOk(r) && Elsewhere(h, r, s)
  {
    hide Slots, Live, ArrayExact;
    var r := MoveIn(h, s, k, a);
    forall b | b in r.arrays ensures ArrayExact(r, b) {
      MoveInExact(h, s, k, a, b);
    }
    forall t | t in r.stores ensures Live(r.arrays, r.stores[t].data) {
      LiveAfter(h.arrays, r.arrays, h.stores[t].data, r.stores[t].data, k, a);
    }
  }

  lemma SlotNotLoose(h: Heap, s: Sid, k: Name)
    requires ArraysOk(h) && s in h.stores && k in h.stores[s].data
    ensures h.stores[s].data[k] in h.arrays && h.stores[s].data[k] !in h.loose
  {
    var a := h.stores[s].data[k];
    assert Live(h.arrays, h.stores[s].data);
    assert ArrayExact(h, a);
    assert (s, k) in Slots(h, a);
  }

  lemma MoveInExact(h: Heap, s: Sid, k: Name, a: Aid, b: Aid)
    requires s in h.stores && k !in h.stores[s].data && a in h.loose && b in h.arrays && ArrayExact(h, b)
    ensures ArrayExact(MoveIn(h, s, k, a), b)
  {
    hide Slots;
    SlotsAdded(h, MoveIn(h, s, k, a), s, k, a);
  }

  lemma DropSlotExact(h: Heap, s: Sid, k: Name, b: Aid)
    requires s in h.stores && k in h.stores[s].data && h.stores[s].data[k] in h.arrays
    requires b in h.arrays && ArrayExact(h, b) && b in DropSlot(h, s, k).arrays
    ensures ArrayExact(DropSlot(h, s, k), b)
  {
    hide Slots;
    SlotsDropped(h, DropSlot(h, s, k), s, k);
  }

  lemma DropSlotOk(h: Heap, s: Sid, k: Name)
    requires ArraysOk(h) && s in h.stores && k in h.stores[s].data && h.stores[s].data[k] in h.arrays
    ensures var r := DropSlot(h, s, k);
      && ArraysOk(r) && Elsewhere(h, r, s) && r.loose == h.loose
      && r.arrays.Keys <= h.arrays.Keys
  {
    hide Slots, Live, ArrayExact;
    var r := DropSlot(h, s, k);
    SlotNotLoose(h, s, k);
    forall b | b in r.arrays ensures ArrayExact(r, b) {
      DropSlotExact(h, s, k, b);
    }
    forall t | t in r.stores ensures Live(r.arrays, r.stores[t].data) {
      DropSlotLive(h, s, k, t);
    }
  }

  lemma DropSlotLive(h: Heap, s: Sid, k: Name, t: Sid)
    requires ArraysOk(h) && s in h.stores && k in h.stores[s].data && h.stores[s].data[k] in h.arrays && t in h.stores
    ensures var r := DropSlot(h, s, k); Live(r.arrays, r.stores[t].data)
  {
    var a := h.stores[s].data[k];
    var r := DropSlot(h, s, k);
    assert ArrayExact(h, a);
    assert (s, k) in Slots(h, a);
    assert Live(h.arrays, h.stores[t].data);
    forall j | j in r.stores[t].data ensures r.stores[t].data[j] in r.arrays {
      assert j in h.stores[t].data && h.stores[t].data[j] == r.stores[t].data[j];
      if r.stores[t].data[j] == a {
        assert {(t, j), (s, k)} <= Slots(h, a);
        assert |{(t, j), (s, k)}| == 2;
        SubsetSize({(t, j), (s, k)}, Slots(h, a));
      }
    }
  }

  lemma SubsetSize<T>(a: set<T>, b: set<T>)
    requires a <= b
    ensures |a| <= |b|
  {
    assert b == a + (b - a);
  }
}
