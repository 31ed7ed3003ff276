/**
  The books behind the frame cache, over whole runs: what the ghost records say
  about the entries they belong to, how many there are, and what stays allocated.
 */
module LruRecords {
  import opened KeyedList
  import opened LruCache
  import opened LruInvariants
  import opened LruTheorems

  /** No cached entry has this key; at most a slot is reserved for it. */
  ghost predicate Absent(s: Cache, key: Key) {
    forall it :: it in s.main && it.key == key ==> it.value.None?
  }

  /** The record of a cached entry, if it is still there, has the count that was stored with the entry. */
  ghost predicate CountsAgree(s: Cache) {
    forall it, g :: it in s.main && Stored(s, it) && g in s.ghosts && g.key == it.key ==> g.value == s.heap[it.value.value].ghosted
  }

  /** Every allocated entry is cached, but for those in `gone`. */
  ghost predicate Allocated(s: Cache, gone: set<Ptr>) {
    forall p :: p in s.heap && p !in gone ==> Item(s.heap[p].key, Some(p)) in s.main
  }

  ghost predicate Tidy(s: Cache, gone: set<Ptr>) {
    UniqueKeys(s.main) && UniqueKeys(s.ghosts) && |s.ghosts| <= s.ghostCapacity + 1 && CountsAgree(s) && Allocated(s, gone)
  }

  // --------------------------------------------------------- inside one step

  lemma TouchTidy(s: Cache, key: Key, gone: set<Ptr>)
    requires Tidy(s, gone)
    ensures var (seen, gs) := TouchGhost(s.ghosts, s.ghostCapacity, key);
      && UniqueKeys(gs) && |gs| <= s.ghostCapacity + 1 && gs[0].key == key
      && (forall g :: g in gs ==> g in s.ghosts || (!seen && g == Item(key, 0)))
  {
    hide CountsAgree, Allocated;
    match Find(s.ghosts, key)
    case Some(i) => ToFrontMembers(s.ghosts, i);
    case None => CutMembers(s.ghosts, s.ghostCapacity);
  }

  /** The record at the head counts one loss more. */
  lemma HeadCounted(gs: seq<Item<nat>>, n: nat)
    requires UniqueKeys(gs) && gs != []
    ensures UniqueKeys(gs[0 := Item(gs[0].key, n)])
    ensures forall g :: g in gs[0 := Item(gs[0].key, n)] ==> g == Item(gs[0].key, n) || g in gs
  {
  }

  lemma EvictTidy(s: Cache, pos: nat, gone: set<Ptr>)
    requires Tidy(s, gone) && pos < |s.main|
    ensures Tidy(Evict(s, pos), gone)
  {
    hide TouchGhost;
    var it, r := s.main[pos], Evict(s, pos);
    if it.value.Some? && it.value.value in s.heap && s.ghostCapacity != 0 && s.heap[it.value.value].locks <= 0 {
      TouchTidy(s, it.key, gone);
      var (seen, gs) := TouchGhost(s.ghosts, s.ghostCapacity, it.key);
      HeadCounted(gs, if seen then gs[0].value + 1 else s.heap[it.value.value].ghosted + 1);
      hide UniqueKeys;
      WithoutMembers(s.main, pos);
    }
  }

  lemma {:induction false} TrimTidy(s: Cache, pos: nat, lo: nat, gone: set<Ptr>)
    requires Tidy(s, gone) && pos <= |s.main|
    ensures Tidy(TrimDown(s, pos, lo), gone)
    decreases pos
  {
    hide Tidy;
    if pos > lo {
      EvictTidy(s, pos - 1, gone);
      TrimTidy(Evict(s, pos - 1), pos - 1, lo, gone);
    }
  }

  lemma ResizeTidy(s: Cache, capacity: nat, key: Key, gone: set<Ptr>)
    requires Tidy(s, gone)
    ensures Tidy(Resize(s, capacity), gone)
    ensures Absent(s, key) ==> Absent(Resize(s, capacity), key)
  {
    hide TrimDown, Clamp;
    var s1 := s.(lim := s.lim.(requested := capacity, cap := Clamp(capacity, s.lim.min, s.lim.max)));
    TrimTidy(s1, |s1.main|, s1.lim.cap, gone);
    TrimDownMembers(s1, |s1.main|, s1.lim.cap);
  }

  lemma ReserveTidy(s: Cache, key: Key, gone: set<Ptr>)
    requires Tidy(s, gone) && Find(s.main, key).None?
    ensures Tidy(Reserve(s, key), gone) && Absent(Reserve(s, key), key)
  {
    hide TrimDown, Tidy;
    var t := Trim(s);
    TrimTidy(s, |s.main|, s.lim.cap, gone);
    TrimDownMembers(s, |s.main|, s.lim.cap);
    assert forall it :: it in t.main ==> it.key != key;
    PushTidy(t, key, gone);
  }

  /** A reserved slot in front. */
  lemma PushTidy(t: Cache, key: Key, gone: set<Ptr>)
    requires Tidy(t, gone) && forall it :: it in t.main ==> it.key != key
    ensures Tidy(t.(main := [Item(key, None)] + t.main), gone)
  {
    PushUnique(t.main, Item(key, None));
    hide UniqueKeys;
    var r := t.(main := [Item(key, None)] + t.main);
    assert forall it :: Stored(r, it) <==> Stored(t, it);
  }

  lemma PushUnique<V>(items: seq<Item<V>>, first: Item<V>)
    requires UniqueKeys(items) && forall it :: it in items ==> it.key != first.key
    ensures UniqueKeys([first] + items)
    ensures forall it :: it in [first] + items <==> it == first || it in items
  {
    assert forall i :: 0 <= i < |items| ==> items[i] in items;
  }

  lemma GrowTidy(s: Cache, key: Key, gone: set<Ptr>)
    requires Tidy(s, gone) && Absent(s, key)
    ensures Tidy(Grow(s), gone) && Absent(Grow(s), key)
  {
    hide Resize;
    ResizeTidy(s, s.lim.cap + 1, key, gone);
    var m := Resize(s, s.lim.cap + 1);
    CutMembers(m.ghosts, GHOSTS_MIN_CAPACITY + m.lim.cap * 2);
  }

  lemma TuneTidy(s: Cache, key: Key, gone: set<Ptr>)
    requires Tidy(s, gone) && Absent(s, key)
    ensures Tidy(Tune(s, key).0, gone) && Absent(Tune(s, key).0, key)
  {
    hide Grow, TouchGhost;
    TouchTidy(s, key, gone);
    var s1 := s.(ghosts := TouchGhost(s.ghosts, s.ghostCapacity, key).1, fault := s.fault || s.ghostCapacity == 0);
    assert Tidy(s1, gone) by { hide UniqueKeys; }
    GrowTidy(s1, key, gone);
  }

  lemma RefusedTidy(s: Cache, key: Key, newp: Ptr, gone: set<Ptr>)
    requires Tidy(s, gone) && Absent(s, key)
    ensures Tidy(Install(s, key, false, newp).0, gone)
  {
    var r := Install(s, key, false, newp).0;
    match Find(s.ghosts, key)
    case None =>
    case Some(i) => assert forall g :: g in r.ghosts ==> g.key == key || g in s.ghosts;
  }

  lemma InstalledTidy(s: Cache, key: Key, newp: Ptr, gone: set<Ptr>)
    requires Tidy(s, gone) && Absent(s, key) && newp !in s.heap
    ensures Tidy(Install(s, key, true, newp).0, gone)
  {
    var r := Install(s, key, true, newp).0;
    if Find(s.ghosts, key).Some? && s.main != [] && s.main[0] == Item(key, None) {
      assert s.main == [s.main[0]] + s.main[1..];
      assert r.main == [Item(key, Some(newp))] + s.main[1..];
      forall it, g | it in r.main && Stored(r, it) && g in r.ghosts && g.key == it.key ensures g.value == r.heap[it.value.value].ghosted {
        if it.key == key {
          var i :| 0 <= i < |s.ghosts| && s.ghosts[i] == g;
          FindUnique(s.ghosts, i);
          var j :| 0 <= j < |r.main| && r.main[j] == it;
        } else {
          assert it in s.main && Stored(s, it);
        }
      }
    }
  }

  lemma MissTidy(s: Cache, key: Key, newp: Ptr, gone: set<Ptr>)
    requires Inv(s) && Tidy(s, gone) && Find(s.main, key).None? && newp !in s.heap
    ensures Tidy(Miss(s, key, newp).0, gone)
  {
    hide Core, Tidy, Absent, Reserve, Tune, Install;
    var k := if s.lim.cap != 0 then 1 else 0;
    ReserveKeeps(s, key);
    TuneKeeps(Reserve(s, key), key, k);
    ReserveTidy(s, key, gone);
    TuneTidy(Reserve(s, key), key, gone);
    if s.lim.cap != 0 {
      InstalledTidy(Tune(Reserve(s, key), key).0, key, newp, gone);
    } else {
      RefusedTidy(Tune(Reserve(s, key), key).0, key, newp, gone);
    }
  }

  /** An entry keeps its key and the count stored with it. */
  lemma UpdateTidy(s: Cache, r: Cache, p: Ptr, e: Entry, gone: set<Ptr>)
    requires Tidy(s, gone) && p in s.heap && e.key == s.heap[p].key && e.ghosted == s.heap[p].ghosted
    requires r == s.(heap := s.heap[p := e], handles := r.handles, waiting := r.waiting)
    ensures Tidy(r, gone)
  {
    hide UniqueKeys;
    assert forall it :: Stored(r, it) ==> Stored(s, it);
  }

  lemma HitTidy(s: Cache, i: nat, block: bool, gone: set<Ptr>)
    requires Tidy(s, gone) && i < |s.main|
    ensures Tidy(Hit(s, i, block).0, gone)
  {
    hide ToFront, Tidy;
    var s1, r := s.(main := ToFront(s.main, i)), Hit(s, i, block).0;
    FrontTidy(s, i, gone);
    if s.main[i].value.Some? && s.main[i].value.value in s.heap {
      var p := s.main[i].value.value;
      UpdateTidy(s1, s1.(heap := s.heap[p := r.heap[p]], waiting := r.waiting), p, r.heap[p], gone);
    }
    FaultTidy(s1, gone);
  }

  lemma FrontTidy(s: Cache, i: nat, gone: set<Ptr>)
    requires Tidy(s, gone) && i < |s.main|
    ensures Tidy(s.(main := ToFront(s.main, i)), gone)
  {
    ToFrontMembers(s.main, i);
    hide ToFront, UniqueKeys;
    var r := s.(main := ToFront(s.main, i));
    assert forall it :: Stored(r, it) <==> Stored(s, it);
  }

  lemma FaultTidy(s: Cache, gone: set<Ptr>)
    requires Tidy(s, gone)
    ensures Tidy(s.(fault := true), gone)
  {
    hide UniqueKeys;
  }

  lemma RollbackTidy(s: Cache, p: Ptr, gone: set<Ptr>)
    requires Inv(s) && p in s.handles && Tidy(s, gone)
    ensures Tidy(DoRollback(s, p), gone + {p})
  {
    hide Core, UniqueKeys;
    HeldEntryOk(s, p);
    var r, e := DoRollback(s, p), s.heap[p];
    if e.locks != 1 {
      UpdateTidy(s, r, p, e.(state := RolledBack, locks := e.locks - 1), gone);
    } else {
      var i :| 0 <= i < |s.main| && s.main[i] == Item(e.key, Some(p));
      FindUnique(s.main, i);
      WithoutMembers(s.main, i);
    }
  }

  lemma WakeTidy(s: Cache, p: Ptr, gone: set<Ptr>)
    requires Inv(s) && p in s.waiting && Tidy(s, gone)
    ensures Tidy(DoWake(s, p).0, gone)
  {
    hide Core, Tidy;
    HeldEntryOk(s, p);
    var e := s.heap[p];
    match e.state
    case Empty =>
    case Available => UpdateTidy(s, DoWake(s, p).0, p, e.(locks := e.locks - 1), gone);
    case RolledBack => UpdateTidy(s, DoWake(s, p).0, p, e.(state := Empty), gone);
  }

  // -------------------------------------------------------------- whole runs

  function UndoneBy(steps: seq<Step>): set<Ptr> {
    set i | 0 <= i < |steps| && steps[i].Rollback? :: steps[i].p
  }

  lemma StepTidy(s: Cache, step: Step, gone: set<Ptr>)
    requires Inv(s) && Enabled(s, step) && Tidy(s, gone)
    ensures Tidy(Next(s, step).0, gone + UndoneBy([step]))
  {
    hide Core, Tidy, Hit, Miss, DoRollback, DoWake, Resize;
    assert step.Rollback? ==> UndoneBy([step]) == {[step][0].p};
    assert !step.Rollback? ==> gone + UndoneBy([step]) == gone;
    match step
    case Lookup(key, block, suppress, newp) =>
      match Find(s.main, key) {
        case Some(i) => HitTidy(s, i, block, gone);
        case None => if suppress != Some(true) { MissTidy(s, key, newp, gone); }
      }
    case Wake(p) => WakeTidy(s, p, gone);
    case Write(p, v) =>
      HeldEntryOk(s, p);
      UpdateTidy(s, DoWrite(s, p, v), p, s.heap[p].(value := Some(v)), gone);
    case Commit(p) =>
      HeldEntryOk(s, p);
      UpdateTidy(s, DoCommit(s, p), p, s.heap[p].(state := Available, locks := s.heap[p].locks - 1), gone);
    case Rollback(p) => RollbackTidy(s, p, gone);
    case SetLimits(min, max) =>
      var s1 := s.(lim := s.lim.(min := min, max := Some(max)));
      assert Tidy(s1, gone) by { RelimitTidy(s, s1.lim, gone); }
      ResizeTidy(s1, s.lim.requested, 0, gone);
  }

  lemma RelimitTidy(s: Cache, lim: Limits, gone: set<Ptr>)
    requires Tidy(s, gone)
    ensures Tidy(s.(lim := lim), gone)
  {
    hide UniqueKeys;
  }

  lemma {:induction false} RunTidy(s: Cache, steps: seq<Step>, gone: set<Ptr>)
    requires Inv(s) && IsRun(s, steps) && Tidy(s, gone)
    ensures Tidy(Exec(s, steps), gone + UndoneBy(steps))
    decreases |steps|
  {
    hide Inv, Next, Tidy, Enabled;
    if |steps| > 0 {
      StepKeeps(s, steps[0]);
      StepTidy(s, steps[0], gone);
      assert [steps[0]] == steps[..1] && steps == steps[..1] + steps[1..];
      RunTidy(Next(s, steps[0]).0, steps[1..], gone + UndoneBy(steps[..1]));
      UndoneByAppend(steps[..1], steps[1..]);
      assert gone + UndoneBy(steps) == (gone + UndoneBy(steps[..1])) + UndoneBy(steps[1..]);
    } else {
      assert gone + UndoneBy(steps) == gone;
    }
  }

  lemma UndoneByAppend(a: seq<Step>, b: seq<Step>)
    ensures UndoneBy(a + b) == UndoneBy(a) + UndoneBy(b)
  {
    assert forall i :: 0 <= i < |a| ==> (a + b)[i] == a[i];
    assert forall i :: 0 <= i < |b| ==> (a + b)[|a| + i] == b[i];
  }

  /**
    In every run: there is one ghost record more, at most, than there is room for;
    an entry that was not rolled back is allocated only as long as it is cached;
    and the record of a cached entry, if it was not dropped, still has the count
    that was stored with the entry.
   */
  lemma Records(capacity: nat, mode: CacheMode, steps: seq<Step>)
    requires IsRun(Init(capacity, mode), steps)
    ensures var s := Exec(Init(capacity, mode), steps);
      && |s.ghosts| <= s.ghostCapacity + 1
      && (forall p :: p in s.heap ==> p in UndoneBy(steps) || Item(s.heap[p].key, Some(p)) in s.main)
      && (forall it, g :: it in s.main && Stored(s, it) && g in s.ghosts && g.key == it.key ==> g.value == s.heap[it.value.value].ghosted)
  {
    hide Inv, Next;
    InitInv(capacity, mode);
    RunTidy(Init(capacity, mode), steps, {});
  }

  /**
    So an eviction counts on from what was stored with the entry, whether or not
    the record was dropped meanwhile, and the entry is freed.
   */
  lemma EvictionCounts(capacity: nat, mode: CacheMode, steps: seq<Step>, pos: nat)
    requires IsRun(Init(capacity, mode), steps) && pos < |Exec(Init(capacity, mode), steps).main|
    ensures var s := Exec(Init(capacity, mode), steps); var it, r := s.main[pos], Evict(s, pos);
      && Stored(s, it) && var e := s.heap[it.value.value];
      if e.locks > 0 then r == s
      else
        && r.ghosts != [] && r.ghosts[0] == Item(it.key, e.ghosted + 1) && it.value.value !in r.heap
        && r.lost == s.lost + multiset{it.key}
  {
    hide Inv, Next;
    var s := Exec(Init(capacity, mode), steps);
    InitInv(capacity, mode);
    RunKeeps(Init(capacity, mode), steps);
    RunTidy(Init(capacity, mode), steps, {});
    EvictedRecord(s, pos, UndoneBy(steps));
  }

  lemma EvictedRecord(s: Cache, pos: nat, gone: set<Ptr>)
    requires Inv(s) && Tidy(s, gone) && pos < |s.main|
    ensures var it, r := s.main[pos], Evict(s, pos);
      && Stored(s, it) && var e := s.heap[it.value.value];
      if e.locks > 0 then r == s
      else r.ghosts != [] && r.ghosts[0] == Item(it.key, e.ghosted + 1) && it.value.value !in r.heap && r.lost == s.lost + multiset{it.key}
  {
    CoreSlot(s, 0, pos);
    hide Core, UniqueKeys;
    var it := s.main[pos];
    match Find(s.ghosts, it.key)
    case Some(i) => assert s.ghosts[i] in s.ghosts && it in s.main;
    case None =>
  }

  /** A miss leaves a record of its key, and stores its count with the new entry. */
  lemma MissStoresCount(s: Cache, key: Key, newp: Ptr)
    requires Inv(s) && Find(s.main, key).None? && newp !in s.heap
    ensures var (r, o) := Miss(s, key, newp);
      exists g :: g in r.ghosts && g.key == key && (o.NotFound? ==> newp in r.heap && r.heap[newp].ghosted == g.value)
  {
    hide Core, Reserve, Tune;
    var k := if s.lim.cap != 0 then 1 else 0;
    ReserveKeeps(s, key);
    TuneKeeps(Reserve(s, key), key, k);
    var s2 := Tune(Reserve(s, key), key).0;
    var i := Find(s2.ghosts, key).value;
    var (r, o) := Miss(s, key, newp);
    assert r.ghosts[i] in r.ghosts && r.ghosts[i].key == key;
  }
}
