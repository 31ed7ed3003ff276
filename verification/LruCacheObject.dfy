/**
  The cache object itself: the list searches, the trim loop and the mutex-held
  regions of LruCache.h as in-place updates, each equal to its step function.
 */
module LruCacheObject {
  import opened KeyedList
  import opened LruCache
  import opened LruInvariants

  /** The linear search shared by SimpleLruCache::lookup and remove. */
  method Search<V>(items: seq<Item<V>>, key: int) returns (r: Option<nat>)
    ensures r == Find(items, key)
  {
    for i := 0 to |items|
      invariant forall j :: 0 <= j < i ==> items[j].key != key
    {
      if items[i].key == key {
        return Some(i);
      }
    }
    return None;
  }

  class FrameCache {
    const mode: CacheMode
    var main: seq<Item<Option<Ptr>>>
    var minCapacity: nat
    var maxCapacity: Option<nat>
    var requestedCapacity: nat
    var realCapacity: nat
    var ghosts: seq<Item<nat>>
    var ghostCapacity: nat
    var heap: map<Ptr, Entry>
    ghost var handles: multiset<Ptr>
    ghost var waiting: multiset<Ptr>
    ghost var lost: multiset<Key>

    ghost function Abs(): Cache
      reads this
    {
      Cache(mode, main, Limits(minCapacity, maxCapacity, requestedCapacity, realCapacity),
            ghosts, ghostCapacity, heap, handles, waiting, lost, false)
    }

    constructor (capacity: nat, mode: CacheMode)
      ensures Abs() == Init(capacity, mode) && Inv(Abs())
    {
      this.mode := mode;
      main, ghosts, heap := [], [], map[];
      minCapacity, maxCapacity, requestedCapacity, realCapacity := 0, None, capacity, capacity;
      ghostCapacity := GHOSTS_MIN_CAPACITY;
      handles, waiting, lost := multiset{}, multiset{}, multiset{};
    }

    /** MainEvictEvent followed by the splice out of the list. */
    method TryEvict(pos: nat, ghost k: nat)
      requires k <= pos < |main| && Core(Abs(), k)
      modifies this
      ensures Abs() == Evict(old(Abs()), pos) && Core(Abs(), k)
      ensures pos <= |main| && realCapacity == old(realCapacity)
    {
      hide Core;
      EvictKeeps(Abs(), pos, k);
      CoreSlot(Abs(), k, pos);
      var key, p := main[pos].key, main[pos].value.value;
      if heap[p].locks > 0 {
        return;
      }
      var seen := LookupGhost(key);
      ghosts := ghosts[0 := Item(key, if seen then ghosts[0].value + 1 else heap[p].ghosted + 1)];
      heap := heap - {p};
      lost := lost + multiset{key};
      main := main[..pos] + main[pos + 1..];
    }

    method Trim(ghost k: nat)
      requires k <= realCapacity && Core(Abs(), k)
      modifies this
      ensures Abs() == LruCache.Trim(old(Abs())) && Core(Abs(), k)
    {
      hide Core, Evict;
      if |main| > realCapacity {
        var n := |main| - realCapacity;
        var it := |main| - 1;
        for i := 0 to n
          invariant it == old(|main|) - 1 - i && realCapacity == old(realCapacity)
          invariant it < |main| && realCapacity <= it + 1
          invariant TrimDown(Abs(), it + 1, realCapacity) == LruCache.Trim(old(Abs()))
          invariant Core(Abs(), k)
        {
          TryEvict(it, k);
          it := it - 1;
        }
      }
    }

    method Resize(newCapacity: nat, ghost k: nat)
      requires k <= Clamp(newCapacity, minCapacity, maxCapacity) && Core(Abs(), k)
      modifies this
      ensures Abs() == LruCache.Resize(old(Abs()), newCapacity) && Core(Abs(), k)
    {
      CoreRelimit(Abs(), k, Limits(minCapacity, maxCapacity, newCapacity, Clamp(newCapacity, minCapacity, maxCapacity)));
      requestedCapacity := newCapacity;
      realCapacity := Clamp(requestedCapacity, minCapacity, maxCapacity);
      Trim(k);
    }

    method LookupGhost(key: Key) returns (seen: bool)
      modifies this`ghosts
      ensures (seen, ghosts) == TouchGhost(old(ghosts), ghostCapacity, key)
    {
      var g := Search(ghosts, key);
      seen := g.Some?;
      if g.Some? {
        ghosts := [ghosts[g.value]] + (ghosts[..g.value] + ghosts[g.value + 1..]);
      } else {
        ghosts := [Item(key, 0)] + (if |ghosts| > ghostCapacity then ghosts[..ghostCapacity] else ghosts);
      }
    }

    /** lookup, up to its return or to the first wait on ready_cond. */
    method Lookup(key: Key, block: bool, suppress: Option<bool>, newp: Ptr) returns (out: Outcome, suppressOut: Option<bool>)
      requires Inv(Abs()) && newp !in heap
      modifies this
      ensures (Abs(), out) == DoLookup(old(Abs()), key, block, suppress, newp)
      ensures suppressOut == SuppressAfter(old(Abs()), key, suppress)
      ensures Inv(Abs())
    {
      ghost var s := Abs();
      StepKeeps(s, LruCache.Lookup(key, block, suppress, newp));
      suppressOut := suppress;
      var found := Search(main, key);
      if found.Some? {
        out := Hit(found.value, block);
      } else if suppress != Some(true) {
        out, suppressOut := Miss(key, suppress, newp);
      } else {
        out := NoCache;
      }
    }

    method Hit(i: nat, block: bool) returns (out: Outcome)
      requires Inv(Abs()) && i < |main|
      modifies this
      ensures (Abs(), out) == LruCache.Hit(old(Abs()), i, block)
    {
      assert main[0..] == main;
      assert SlotOk(Abs(), main[i]);
      main := [main[i]] + (main[..i] + main[i + 1..]);
      var p := main[0].value.value;
      if !block && heap[p].state != Available {
        return NotAvail;
      }
      if heap[p].state == Empty {
        heap := heap[p := heap[p].(locks := heap[p].locks + 1)];
        waiting := waiting + multiset{p};
        return Blocked(p);
      }
      return Ready(heap[p].value);
    }

    method Miss(key: Key, suppress: Option<bool>, newp: Ptr) returns (out: Outcome, suppressOut: Option<bool>)
      requires Inv(Abs()) && newp !in heap && Find(main, key).None? && suppress != Some(true)
      modifies this
      ensures (Abs(), out) == LruCache.Miss(old(Abs()), key, newp)
      ensures suppressOut == (if suppress.Some? && mode == OptimalSize && Tune(Reserve(old(Abs()), key), key).1 then Some(true) else suppress)
    {
      hide Core, LruCache.Trim, Tune, Install;
      ghost var k := if realCapacity != 0 then 1 else 0;
      ReserveKeeps(Abs(), key);
      Trim(0);
      var reserved := realCapacity != 0;
      if reserved {
        main := [Item(key, None)] + main;
      }
      assert Abs() == Reserve(old(Abs()), key);
      var grow := TuneGhosts(key, k);
      suppressOut := if grow && mode == OptimalSize && suppress.Some? then Some(true) else suppress;
      out := InstallEntry(key, reserved, newp);
    }

    method TuneGhosts(key: Key, ghost k: nat) returns (grow: bool)
      requires Reserved(Abs(), key, k)
      modifies this
      ensures (Abs(), grow) == Tune(old(Abs()), key) && Core(Abs(), k)
      ensures k == 1 ==> main != [] && main[0] == Item(key, None)
      ensures Find(ghosts, key).Some? && heap.Keys <= old(heap.Keys)
    {
      hide Core, Grow, TouchGhost, Reserved;
      ghost var s1 := Abs();
      TuneKeeps(s1, key, k);
      ReservedSane(s1, key, k);
      CoreSane(Tune(s1, key).0, k);
      Retouch(s1, key, k);
      var seen := LookupGhost(key);
      grow := seen && ghosts[0].value > 1;
      if grow && mode != NoResize {
        GrowLists(key, k);
      }
    }

    method GrowLists(key: Key, ghost k: nat)
      requires Reserved(Abs(), key, k)
      modifies this
      ensures Abs() == Grow(old(Abs()))
    {
      hide Core, LockedFrom;
      MidResize(Abs(), key, k);
      Resize(realCapacity + 1, k);
      ghostCapacity := GHOSTS_MIN_CAPACITY + realCapacity * 2;
      ghosts := if |ghosts| > ghostCapacity then ghosts[..ghostCapacity] else ghosts;
    }

    method InstallEntry(key: Key, reserved: bool, newp: Ptr) returns (out: Outcome)
      requires Find(ghosts, key).Some? && (reserved ==> main != [] && main[0] == Item(key, None))
      modifies this
      ensures (Abs(), out) == Install(old(Abs()), key, reserved, newp)
    {
      var g := Search(ghosts, key);
      if reserved {
        main := [Item(key, Some(newp))] + main[1..];
        heap := heap[newp := Entry(key, None, 1, ghosts[g.value].value, Empty)];
        handles := handles + multiset{newp};
        out := NotFound(newp);
      } else {
        ghosts := ghosts[g.value := Item(key, ghosts[g.value].value + 1)];
        lost := lost + multiset{key};
        out := NoCache;
      }
    }

    /** The body of the wait loop after one wake-up. */
    method Resume(p: Ptr) returns (out: Outcome)
      requires Inv(Abs()) && p in waiting
      modifies this
      ensures (Abs(), out) == DoWake(old(Abs()), p) && Inv(Abs())
    {
      WakeKeeps(Abs(), p);
      HeldEntryOk(Abs(), p);
      match heap[p].state
      case Empty => out := Blocked(p);
      case Available =>
        heap := heap[p := heap[p].(locks := heap[p].locks - 1)];
        waiting := waiting - multiset{p};
        out := Ready(heap[p].value);
      case RolledBack =>
        heap := heap[p := heap[p].(state := Empty)];
        waiting, handles := waiting - multiset{p}, handles + multiset{p};
        out := NotFound(p);
    }

    method CommitValue(p: Ptr)
      requires Inv(Abs()) && p in handles
      modifies this
      ensures Abs() == DoCommit(old(Abs()), p) && Inv(Abs())
    {
      StepKeeps(Abs(), Commit(p));
      HeldEntryOk(Abs(), p);
      heap := heap[p := heap[p].(state := Available, locks := heap[p].locks - 1)];
      handles := handles - multiset{p};
    }

    method RollbackHandle(p: Ptr)
      requires Inv(Abs()) && p in handles
      modifies this
      ensures Abs() == DoRollback(old(Abs()), p) && Inv(Abs())
    {
      hide Core;
      RollbackKeeps(Abs(), p);
      HeldEntryOk(Abs(), p);
      assert heap[p].locks > 0;
      if heap[p].locks == 1 {
        var i := Search(main, heap[p].key);
        if i.Some? {
          main := main[..i.value] + main[i.value + 1..];
        }
      } else {
        heap := heap[p := heap[p].(state := RolledBack, locks := heap[p].locks - 1)];
      }
      handles := handles - multiset{p};
    }

    method SetLimits(min: nat, max: nat)
      requires Inv(Abs())
      modifies this
      ensures Abs() == DoSetLimits(old(Abs()), min, max) && Inv(Abs())
    {
      SetLimitsKeeps(Abs(), min, max);
      minCapacity, maxCapacity := min, Some(max);
      requestedCapacity := requestedCapacity;
      realCapacity := Clamp(requestedCapacity, minCapacity, maxCapacity);
      CoreRelimit(old(Abs()), 0, Abs().lim);
      Trim(0);
    }
  }
}
