/**
  What every step of the frame cache keeps, for any number of threads and any
  interleaving of their mutex-held regions.
 */
module LruInvariants {
  import opened KeyedList
  import opened LruCache

  // ------------------------------------------------------------ invariant

  /** Locks are exactly the producer handle and the blocked threads. */
  ghost predicate EntryOk(e: Entry, producers: nat, waiters: nat) {
    && e.locks == producers + waiters
    && (e.state == Empty ==> producers == 1)
    && (e.state == Available ==> producers == 0)
    && (e.state == RolledBack ==> producers == 0 && waiters >= 1)
  }

  ghost predicate Stored(s: Cache, it: Item<Option<Ptr>>) {
    && it.value.Some?
    && it.value.value in s.heap
    && s.heap[it.value.value].key == it.key
  }

  ghost predicate SlotOk(s: Cache, it: Item<Option<Ptr>>) {
    && Stored(s, it)
    && var p := it.value.value; EntryOk(s.heap[p], s.handles[p], s.waiting[p])
  }

  ghost predicate Held(s: Cache, p: Ptr) {
    p in s.handles || p in s.waiting
  }

  ghost predicate Cached(s: Cache, k: nat, p: Ptr)
    requires k <= |s.main|
  {
    p in s.heap && Item(s.heap[p].key, Some(p)) in s.main[k..]
  }

  /** Slots from position k on point to entries with exact lock counts. */
  ghost predicate Tracked(s: Cache, k: nat) {
    && k <= |s.main|
    && UniqueKeys(s.main)
    && (forall it :: it in s.main[k..] ==> SlotOk(s, it))
    && (forall p :: Held(s, p) ==> Cached(s, k, p))
  }

  /** No ghost count exceeds the number of times its key was really lost. */
  ghost predicate GhostsOk(s: Cache, k: nat)
    requires k <= |s.main|
  {
    && s.ghostCapacity >= GHOSTS_MIN_CAPACITY
    && UniqueKeys(s.ghosts)
    && (forall g :: g in s.ghosts ==> g.value <= s.lost[g.key])
    && (forall it :: it in s.main[k..] && Stored(s, it) ==> s.heap[it.value.value].ghosted <= s.lost[it.key])
  }

  ghost predicate LimitsOk(s: Cache) {
    s.lim.cap == Clamp(s.lim.requested, s.lim.min, s.lim.max)
  }

  /** The invariant while the first k slots are reserved but not yet filled. */
  ghost predicate Core(s: Cache, k: nat) {
    !s.fault && Tracked(s, k) && GhostsOk(s, k) && LimitsOk(s)
  }

  ghost predicate Inv(s: Cache) {
    Core(s, 0)
  }

  ghost predicate Locked(s: Cache, i: nat)
    requires i < |s.main|
  {
    Stored(s, s.main[i]) && s.heap[s.main[i].value.value].locks > 0
  }

  // ----------------------------------------------------------------- trim

  lemma TouchGhostOk(s: Cache, key: Key)
    requires UniqueKeys(s.ghosts) && s.ghostCapacity >= GHOSTS_MIN_CAPACITY
    requires forall g :: g in s.ghosts ==> g.value <= s.lost[g.key]
    ensures var (seen, gs) := TouchGhost(s.ghosts, s.ghostCapacity, key);
      && UniqueKeys(gs)
      && (forall g :: g in gs ==> g.value <= s.lost[g.key])
      && (!seen ==> gs[0].value == 0)
  {
    match Find(s.ghosts, key)
    case Some(i) => ToFrontMembers(s.ghosts, i);
    case None => CutMembers(s.ghosts, s.ghostCapacity);
  }

  lemma CoreSlot(s: Cache, k: nat, pos: nat)
    requires Core(s, k) && k <= pos < |s.main|
    ensures Stored(s, s.main[pos]) && s.ghostCapacity > 0
  {
    assert s.main[pos] == s.main[k..][pos - k];
    assert SlotOk(s, s.main[pos]);
  }

  /** What an eviction that is not vetoed leaves of the list. */
  lemma EvictedMain(s: Cache, pos: nat, k: nat)
    requires Core(s, k) && k <= pos < |s.main| && Stored(s, s.main[pos]) && s.heap[s.main[pos].value.value].locks <= 0
    ensures var r := Evict(s, pos);
      && k <= |r.main| && UniqueKeys(r.main)
      && (forall it :: it in r.main[k..] <==> it in s.main[k..] && it != s.main[pos])
      && (forall it :: it in r.main[k..] ==> it.key != s.main[pos].key)
  {
    CoreSlot(s, k, pos);
    hide TouchGhost, SlotOk, GhostsOk, Held, Cached;
    assert Evict(s, pos).main[k..] == Without(s.main[k..], pos - k);
    WithoutMembers(s.main, pos);
    WithoutMembers(s.main[k..], pos - k);
  }

  lemma EvictTracked(s: Cache, pos: nat, k: nat)
    requires Core(s, k) && k <= pos < |s.main|
    ensures Tracked(Evict(s, pos), k)
  {
    hide GhostsOk, TouchGhost, UniqueKeys;
    var r := Evict(s, pos);
    CoreSlot(s, k, pos);
    var p := s.main[pos].value.value;
    if s.heap[p].locks <= 0 {
      EvictedMain(s, pos, k);
      forall it | it in r.main[k..] ensures SlotOk(r, it) {
        assert SlotOk(s, it);
      }
      forall q | Held(r, q) ensures Cached(r, k, q) {
        assert Held(s, q) && Cached(s, k, q);
        assert SlotOk(s, Item(s.heap[q].key, Some(q)));
      }
    }
  }

  lemma EvictGhosts(s: Cache, pos: nat, k: nat)
    requires Core(s, k) && k <= pos < |s.main|
    ensures GhostsOk(Evict(s, pos), k)
  {
    var r := Evict(s, pos);
    var it := s.main[pos];
    CoreSlot(s, k, pos);
    if s.heap[it.value.value].locks <= 0 {
      EvictedMain(s, pos, k);
      TouchGhostOk(s, it.key);
      var gs := TouchGhost(s.ghosts, s.ghostCapacity, it.key).1;
      hide TouchGhost, SlotOk, Held, Cached;
      forall g | g in r.ghosts ensures g.value <= r.lost[g.key] {
        var j :| 0 <= j < |r.ghosts| && r.ghosts[j] == g;
        assert gs[j] in gs;
      }
    }
  }

  lemma EvictKeeps(s: Cache, pos: nat, k: nat)
    requires Core(s, k) && k <= pos < |s.main|
    ensures Core(Evict(s, pos), k)
  {
    CoreSlot(s, k, pos);
    EvictTracked(s, pos, k);
    EvictGhosts(s, pos, k);
  }

  /** Positions below pos that trim has passed hold only locked entries. */
  ghost predicate LockedFrom(s: Cache, lo: nat) {
    forall i :: lo <= i < |s.main| ==> Locked(s, i)
  }

  /** What a trim that stops at lo may not change. */
  ghost predicate TrimFrame(s: Cache, r: Cache, lo: nat) {
    && r.lim == s.lim && r.handles == s.handles && r.waiting == s.waiting && r.mode == s.mode
    && r.ghostCapacity == s.ghostCapacity && r.heap.Keys <= s.heap.Keys
    && (lo <= |s.main| ==> lo <= |r.main| && r.main[..lo] == s.main[..lo])
    && (forall q :: Held(s, q) ==> q in r.heap && r.heap[q] == s.heap[q])
  }

  lemma EvictFrame(s: Cache, pos: nat, k: nat)
    requires Core(s, k) && k <= pos < |s.main| && LockedFrom(s, pos + 1)
    ensures TrimFrame(s, Evict(s, pos), pos) && LockedFrom(Evict(s, pos), pos)
  {
    hide UniqueKeys, GhostsOk;
    var r := Evict(s, pos);
    CoreSlot(s, k, pos);
    EvictHeld(s, pos, k);
    if s.heap[s.main[pos].value.value].locks <= 0 {
      forall i | pos <= i < |r.main| ensures Locked(r, i) {
        assert r.main[i] == s.main[i + 1] && Locked(s, i + 1);
      }
    }
  }

  /** Trimming keeps the invariant, never touches the first lo slots and leaves only locked entries beyond them. */
  lemma {:induction false} TrimDownKeeps(s: Cache, pos: nat, lo: nat, k: nat)
    requires Core(s, k) && k <= lo && pos <= |s.main| && LockedFrom(s, pos)
    ensures Core(TrimDown(s, pos, lo), k)
    ensures TrimFrame(s, TrimDown(s, pos, lo), lo)
    ensures LockedFrom(TrimDown(s, pos, lo), lo)
    decreases pos
  {
    hide Core, Evict, LockedFrom;
    if pos <= lo {
      TrimNothing(s, pos, lo, k);
    } else {
      EvictKeeps(s, pos - 1, k);
      EvictFrame(s, pos - 1, k);
      TrimDownKeeps(Evict(s, pos - 1), pos - 1, lo, k);
      TrimFrameTrans(s, Evict(s, pos - 1), TrimDown(s, pos, lo), pos - 1, lo);
    }
  }

  lemma TrimNothing(s: Cache, pos: nat, lo: nat, k: nat)
    requires Core(s, k) && pos <= lo && LockedFrom(s, pos)
    ensures TrimFrame(s, s, lo) && LockedFrom(s, lo)
  {
    assert forall q :: Held(s, q) ==> Cached(s, k, q);
  }

  lemma TrimFrameTrans(s: Cache, m: Cache, r: Cache, hi: nat, lo: nat)
    requires TrimFrame(s, m, hi) && TrimFrame(m, r, lo) && lo <= hi <= |s.main|
    ensures TrimFrame(s, r, lo)
  {
    assert s.main[..lo] == s.main[..hi][..lo] == m.main[..lo];
    forall q | Held(s, q) ensures q in r.heap && r.heap[q] == s.heap[q] {
      assert Held(m, q);
    }
  }

  lemma TrimKeeps(s: Cache)
    requires Inv(s)
    ensures Inv(Trim(s)) && LockedFrom(Trim(s), s.lim.cap) && Trim(s).lim == s.lim && HeldFrame(s, Trim(s))
    ensures Trim(s).heap.Keys <= s.heap.Keys && Trim(s).mode == s.mode
    ensures forall i :: 0 <= i < |Trim(s).main| ==> Trim(s).main[i] in s.main
  {
    TrimDownKeeps(s, |s.main|, s.lim.cap, 0);
    TrimDownMembers(s, |s.main|, s.lim.cap);
    assert forall q :: Held(s, q) ==> Cached(s, 0, q);
  }

  lemma {:induction false} TrimDownMembers(s: Cache, pos: nat, lo: nat)
    requires pos <= |s.main|
    ensures forall it :: it in TrimDown(s, pos, lo).main ==> it in s.main
    decreases pos
  {
    if pos > lo {
      TrimDownMembers(Evict(s, pos - 1), pos - 1, lo);
    }
  }

  lemma EvictVetoed(s: Cache, i: nat)
    requires i < |s.main| && Locked(s, i) && s.ghostCapacity > 0
    ensures Evict(s, i) == s
  {
  }

  /** A window of locked entries is left alone. */
  lemma {:induction false} TrimLocked(s: Cache, pos: nat, lo: nat)
    requires pos <= |s.main| && s.ghostCapacity > 0
    requires forall i :: lo <= i < pos ==> Locked(s, i)
    ensures TrimDown(s, pos, lo) == s
    decreases pos
  {
    hide Evict, Locked;
    if pos > lo {
      EvictVetoed(s, pos - 1);
      TrimLocked(s, pos - 1, lo);
    }
  }

  /** When only position lo of the window can be unlocked, at most that one entry goes. */
  lemma {:induction false} TrimOne(s: Cache, pos: nat, lo: nat)
    requires lo < pos <= |s.main| && s.ghostCapacity > 0
    requires forall i :: lo < i < pos ==> Locked(s, i)
    ensures TrimDown(s, pos, lo) == Evict(s, lo)
    decreases pos
  {
    hide Evict, Locked;
    if pos > lo + 1 {
      EvictVetoed(s, pos - 1);
      TrimOne(s, pos - 1, lo);
    }
  }

  // ----------------------------------------------------------------- miss

  /** The state between reserving a slot (k == 1) or finding no room (k == 0) and storing the entry. */
  ghost predicate Reserved(s: Cache, key: Key, k: nat) {
    && Core(s, k)
    && k == (if s.lim.cap != 0 then 1 else 0)
    && (k == 1 ==> s.main[0] == Item(key, None))
    && LockedFrom(s, s.lim.cap + k)
  }

  /** The entries that threads hold or wait on are the same, untouched, in r. */
  ghost predicate HeldFrame(s: Cache, r: Cache) {
    && r.handles == s.handles && r.waiting == s.waiting
    && (forall q :: Held(s, q) ==> q in s.heap && q in r.heap && r.heap[q] == s.heap[q])
  }

  lemma ReserveKeeps(s: Cache, key: Key)
    requires Inv(s) && Find(s.main, key).None?
    ensures Reserved(Reserve(s, key), key, if s.lim.cap != 0 then 1 else 0)
    ensures Reserve(s, key).lim == s.lim && Reserve(s, key).mode == s.mode
    ensures Reserve(s, key).heap.Keys <= s.heap.Keys && HeldFrame(s, Reserve(s, key))
  {
    hide Core, Trim;
    TrimKeeps(s);
    if s.lim.cap != 0 {
      PushReserved(Trim(s), key);
    }
  }

  lemma PushReserved(t: Cache, key: Key)
    requires Inv(t) && LockedFrom(t, t.lim.cap) && forall i :: 0 <= i < |t.main| ==> t.main[i].key != key
    ensures var r := t.(main := [Item(key, None)] + t.main); Core(r, 1) && LockedFrom(r, t.lim.cap + 1)
  {
    var r := t.(main := [Item(key, None)] + t.main);
    assert r.main[1..] == t.main == t.main[0..];
    forall it | it in r.main[1..] ensures SlotOk(r, it) { assert SlotOk(t, it); }
    forall q | Held(r, q) ensures Cached(r, 1, q) { assert Held(t, q) && Cached(t, 0, q); }
    forall i | t.lim.cap + 1 <= i < |r.main| ensures Locked(r, i) {
      assert r.main[i] == t.main[i - 1] && Locked(t, i - 1);
    }
  }

  /**
    The resize in the middle of a miss. If the capacity grows, the second trim
    sees only the locked tail left by the first and evicts nothing; at the
    limit it offers exactly one more entry, never the reserved slot.
   */
  lemma MidResize(s: Cache, key: Key, k: nat)
    requires Reserved(s, key, k)
    ensures var r := Resize(s, s.lim.cap + 1);
      var s0 := s.(lim := r.lim);
      && LimitsOk(s0)
      && s.lim.cap <= r.lim.cap <= s.lim.cap + 1
      && r == if r.lim.cap == s.lim.cap && k == 1 && s.lim.cap < |s.main| then Evict(s0, s.lim.cap) else s0
  {
    var cap := s.lim.cap;
    var lim := s.lim.(requested := cap + 1, cap := Clamp(cap + 1, s.lim.min, s.lim.max));
    var s0 := s.(lim := lim);
    assert forall i :: 0 <= i < |s.main| ==> (Locked(s, i) <==> Locked(s0, i));
    assert Resize(s, cap + 1) == TrimDown(s0, |s0.main|, lim.cap);
    if cap < |s.main| && lim.cap == cap && k == 1 {
      TrimOne(s0, |s0.main|, cap);
    } else {
      TrimLocked(s0, |s0.main|, lim.cap);
    }
  }

  /** The ghost record of the missed key survives whatever the resize does to the ghost list. */
  lemma GhostSurvives(s: Cache, key: Key, pos: nat)
    requires Core(s, 1) && 1 <= pos < |s.main| && s.main[0].key == key
    requires s.ghosts != [] && s.ghosts[0].key == key
    ensures var gs := Evict(s, pos).ghosts;
      |gs| > 0 && (gs[0] == s.ghosts[0] || (|gs| > 1 && gs[1] == s.ghosts[0]))
  {
    assert s.main[pos] == s.main[1..][pos - 1];
    assert SlotOk(s, s.main[pos]);
    assert s.main[pos].key != key;
  }

  lemma EvictHeld(s: Cache, pos: nat, k: nat)
    requires Core(s, k) && k <= pos < |s.main|
    ensures HeldFrame(s, Evict(s, pos)) && Evict(s, pos).heap.Keys <= s.heap.Keys
    ensures Evict(s, pos).lim == s.lim && Evict(s, pos).mode == s.mode
    ensures pos <= |Evict(s, pos).main| && Evict(s, pos).main[..pos] == s.main[..pos]
  {
    assert s.main[pos] == s.main[k..][pos - k];
    assert SlotOk(s, s.main[pos]);
    assert forall q :: Held(s, q) ==> Cached(s, k, q);
  }

  lemma CutKeepsHead<V>(gs: seq<Item<V>>, capacity: nat, j: nat)
    requires UniqueKeys(gs) && j < |gs| && j < capacity
    ensures Find(Cut(gs, capacity), gs[j].key) == Some(j)
  {
    CutMembers(gs, capacity);
    FindUnique(Cut(gs, capacity), j);
  }

  lemma CoreRelimit(s: Cache, k: nat, lim: Limits)
    requires Core(s, k) && lim.cap == Clamp(lim.requested, lim.min, lim.max)
    ensures Core(s.(lim := lim), k)
  {
    var r := s.(lim := lim);
    forall it | it in r.main[k..] ensures SlotOk(r, it) { assert SlotOk(s, it); }
    forall q | Held(r, q) ensures Cached(r, k, q) { assert Held(s, q) && Cached(s, k, q); }
    assert forall it :: it in r.main[k..] ==> (Stored(r, it) <==> Stored(s, it));
  }

  lemma CoreReghost(s: Cache, k: nat, gs: seq<Item<nat>>, capacity: nat)
    requires Core(s, k) && UniqueKeys(gs) && capacity >= GHOSTS_MIN_CAPACITY
    requires forall g :: g in gs ==> g.value <= s.lost[g.key]
    ensures Core(s.(ghosts := gs, ghostCapacity := capacity), k)
  {
    var r := s.(ghosts := gs, ghostCapacity := capacity);
    forall it | it in r.main[k..] ensures SlotOk(r, it) { assert SlotOk(s, it); }
    forall q | Held(r, q) ensures Cached(r, k, q) { assert Held(s, q) && Cached(s, k, q); }
    assert forall it :: it in r.main[k..] ==> (Stored(r, it) <==> Stored(s, it));
  }

  lemma CoreFacts(s: Cache, k: nat)
    requires Core(s, k)
    ensures UniqueKeys(s.ghosts) && forall g :: g in s.ghosts ==> g.value <= s.lost[g.key]
    ensures HeldFrame(s, s)
  {
    assert forall q :: Held(s, q) ==> Cached(s, k, q);
  }

  lemma CoreSane(s: Cache, k: nat)
    requires Core(s, k)
    ensures !s.fault && s.ghostCapacity >= GHOSTS_MIN_CAPACITY && LimitsOk(s) && k <= |s.main|
  {
  }

  lemma GrowKeeps(s: Cache, key: Key, k: nat)
    requires Reserved(s, key, k) && s.ghosts != [] && s.ghosts[0].key == key
    ensures var r := Grow(s);
      && Core(r, k)
      && (k == 1 ==> r.main[0] == Item(key, None))
      && Find(r.ghosts, key).Some?
      && s.lim.cap <= r.lim.cap <= s.lim.cap + 1
      && r.heap.Keys <= s.heap.Keys && HeldFrame(s, r) && r.mode == s.mode
  {
    hide Core, Resize, Evict;
    var m := Resize(s, s.lim.cap + 1);
    var s0 := s.(lim := m.lim);
    MidResize(s, key, k);
    CoreRelimit(s, k, m.lim);
    if m != s0 {
      EvictKeeps(s0, s.lim.cap, k);
      GhostSurvives(s0, key, s.lim.cap);
      EvictHeld(s0, s.lim.cap, k);
    }
    CoreFacts(s, k);
    CoreFacts(m, k);
    var c := GHOSTS_MIN_CAPACITY + m.lim.cap * 2;
    CutMembers(m.ghosts, c);
    CutKeepsHead(m.ghosts, c, if m.ghosts[0] == s.ghosts[0] then 0 else 1);
    CoreReghost(m, k, Cut(m.ghosts, c), c);
  }

  lemma Retouch(s: Cache, key: Key, k: nat)
    requires Reserved(s, key, k)
    ensures Reserved(s.(ghosts := TouchGhost(s.ghosts, s.ghostCapacity, key).1), key, k)
  {
    CoreGhosts(s, k);
    hide Core, TouchGhost;
    var s1 := s.(ghosts := TouchGhost(s.ghosts, s.ghostCapacity, key).1);
    TouchGhostOk(s, key);
    CoreReghost(s, k, s1.ghosts, s.ghostCapacity);
    assert forall i :: 0 <= i < |s.main| ==> (Locked(s, i) <==> Locked(s1, i));
  }

  lemma CoreGhosts(s: Cache, k: nat)
    requires Core(s, k)
    ensures UniqueKeys(s.ghosts) && s.ghostCapacity >= GHOSTS_MIN_CAPACITY && forall g :: g in s.ghosts ==> g.value <= s.lost[g.key]
  {
  }

  lemma ReservedSane(s: Cache, key: Key, k: nat)
    requires Reserved(s, key, k)
    ensures Core(s, k) && !s.fault && s.ghostCapacity >= GHOSTS_MIN_CAPACITY
  {
  }

  lemma TuneKeeps(s: Cache, key: Key, k: nat)
    requires Reserved(s, key, k)
    ensures var r := Tune(s, key).0;
      && Core(r, k)
      && (k == 1 ==> r.main[0] == Item(key, None))
      && Find(r.ghosts, key).Some?
      && r.heap.Keys <= s.heap.Keys && HeldFrame(s, r) && r.mode == s.mode
      && s.lim.cap <= r.lim.cap <= s.lim.cap + 1
      && (r.lim.cap > s.lim.cap ==> s.mode != NoResize && s.lost[key] >= 2)
  {
    hide Core, Grow, TouchGhost, LockedFrom;
    CoreFacts(s, k);
    CoreSane(s, k);
    Retouch(s, key, k);
    TouchGhostOk(s, key);
    var gs := TouchGhost(s.ghosts, s.ghostCapacity, key).1;
    assert gs[0] in gs;
    FindUnique(gs, 0);
    if Tune(s, key).1 && s.mode != NoResize {
      GrowKeeps(s.(ghosts := gs), key, k);
    }
  }

  lemma InstallKeeps(s: Cache, key: Key, k: nat, newp: Ptr)
    requires Core(s, k) && k <= 1 && (k == 1 ==> s.main[0] == Item(key, None))
    requires Find(s.ghosts, key).Some? && newp !in s.heap
    ensures Inv(Install(s, key, k == 1, newp).0)
  {
    var r := Install(s, key, k == 1, newp).0;
    var g := Find(s.ghosts, key).value;
    assert s.ghosts[g] in s.ghosts;
    if k == 0 {
      forall h | h in r.ghosts ensures h.value <= r.lost[h.key] {
        var j :| 0 <= j < |r.ghosts| && r.ghosts[j] == h;
        assert s.ghosts[j] in s.ghosts;
      }
      forall it | it in r.main[0..] ensures SlotOk(r, it) { assert SlotOk(s, it); }
      forall q | Held(r, q) ensures Cached(r, 0, q) { assert Held(s, q) && Cached(s, 0, q); }
      assert forall it :: it in r.main[0..] ==> (Stored(r, it) <==> Stored(s, it));
    } else {
      InstallEntry(s, key, newp);
    }
  }

  lemma InstallEntry(s: Cache, key: Key, newp: Ptr)
    requires Core(s, 1) && s.main[0] == Item(key, None)
    requires Find(s.ghosts, key).Some? && newp !in s.heap
    ensures Inv(Install(s, key, true, newp).0)
  {
    var r := Install(s, key, true, newp).0;
    assert s.ghosts[Find(s.ghosts, key).value] in s.ghosts;
    var it0 := Item(key, Some(newp));
    assert r.main[0..] == r.main == [it0] + s.main[1..];
    assert Held(s, newp) ==> Cached(s, 1, newp);
    forall it | it in r.main[0..] ensures SlotOk(r, it) {
      if it != it0 { assert SlotOk(s, it); }
    }
    forall q | Held(r, q) ensures Cached(r, 0, q) {
      if q != newp { assert Held(s, q) && Cached(s, 1, q); }
    }
  }

  lemma MissKeeps(s: Cache, key: Key, newp: Ptr)
    requires Inv(s) && Find(s.main, key).None? && newp !in s.heap
    ensures Inv(Miss(s, key, newp).0)
    ensures s.lim.cap <= Miss(s, key, newp).0.lim.cap <= s.lim.cap + 1 && Miss(s, key, newp).0.mode == s.mode
    ensures Miss(s, key, newp).0.lim.cap > s.lim.cap ==> s.mode != NoResize && Reserve(s, key).lost[key] >= 2
    ensures var r := Miss(s, key, newp).0;
      forall q :: Held(s, q) ==> q in s.heap && q in r.heap && r.heap[q] == s.heap[q] && Held(r, q)
  {
    hide Core, Reserve, Tune, Trim;
    var k := if s.lim.cap != 0 then 1 else 0;
    ReserveKeeps(s, key);
    var s1 := Reserve(s, key);
    TuneKeeps(s1, key, k);
    var s2 := Tune(s1, key).0;
    InstallKeeps(s2, key, k, newp);
  }

  // ----------------------------------------------------------- other steps

  lemma HitKeeps(s: Cache, i: nat, block: bool)
    requires Inv(s) && i < |s.main|
    ensures Inv(Hit(s, i, block).0)
  {
    var r := Hit(s, i, block).0;
    ToFrontMembers(s.main, i);
    assert s.main[0..] == s.main && r.main[0..] == r.main;
    assert s.main[i] in s.main && SlotOk(s, s.main[i]);
    var p := s.main[i].value.value;
    forall it | it in r.main[0..] ensures SlotOk(r, it) { assert SlotOk(s, it); }
    forall q | Held(r, q) ensures Cached(r, 0, q) {
      if q == p { assert s.main[i] == Item(s.heap[p].key, Some(p)); } else { assert Held(s, q) && Cached(s, 0, q); }
    }
    forall it | it in r.main[0..] ensures r.heap[it.value.value].ghosted <= r.lost[it.key] {
      assert SlotOk(s, it) && Stored(s, it);
    }
  }

  /** Replacing the entry behind one cached pointer keeps the invariant if the new counts are exact. */
  lemma UpdateEntry(s: Cache, r: Cache, p: Ptr, e: Entry)
    requires Inv(s) && Held(s, p)
    requires r == s.(heap := s.heap[p := e], handles := r.handles, waiting := r.waiting)
    requires p in s.heap && e.key == s.heap[p].key && e.ghosted == s.heap[p].ghosted
    requires EntryOk(e, r.handles[p], r.waiting[p])
    requires forall q :: q != p ==> r.handles[q] == s.handles[q] && r.waiting[q] == s.waiting[q]
    ensures Inv(r)
  {
    assert Cached(s, 0, p);
    forall it | it in r.main[0..] ensures SlotOk(r, it) { assert SlotOk(s, it); }
    forall q | Held(r, q) ensures Cached(r, 0, q) {
      if q != p { assert Held(s, q) && Cached(s, 0, q); }
    }
    forall it | it in r.main[0..] ensures r.heap[it.value.value].ghosted <= r.lost[it.key] {
      assert SlotOk(s, it) && Stored(s, it);
    }
  }

  lemma HeldEntryOk(s: Cache, p: Ptr)
    requires Inv(s) && Held(s, p)
    ensures p in s.heap && EntryOk(s.heap[p], s.handles[p], s.waiting[p])
    ensures Item(s.heap[p].key, Some(p)) in s.main
  {
    assert Cached(s, 0, p);
    assert SlotOk(s, Item(s.heap[p].key, Some(p)));
    assert s.main[0..] == s.main;
  }

  /** Removing the entry of a sole producer together with its handle. */
  lemma RemoveKeeps(s: Cache, p: Ptr, i: nat)
    requires Inv(s) && s.handles[p] == 1 && s.waiting[p] == 0
    requires i < |s.main| && s.main[i].value == Some(p)
    ensures Inv(s.(main := Without(s.main, i), handles := s.handles - multiset{p}))
  {
    var r := s.(main := Without(s.main, i), handles := s.handles - multiset{p});
    CoreSlot(s, 0, i);
    WithoutMembers(s.main, i);
    assert s.main[0..] == s.main && r.main[0..] == r.main;
    forall it | it in r.main[0..] ensures SlotOk(r, it) { assert SlotOk(s, it); }
    forall q | Held(r, q) ensures Cached(r, 0, q) { assert Held(s, q) && Cached(s, 0, q); }
    assert forall it :: it in r.main[0..] ==> (Stored(r, it) <==> Stored(s, it));
  }

  lemma RollbackKeeps(s: Cache, p: Ptr)
    requires Inv(s) && p in s.handles
    ensures Inv(DoRollback(s, p))
  {
    hide Core;
    HeldEntryOk(s, p);
    InvUnique(s);
    var r := DoRollback(s, p);
    var e := s.heap[p];
    if e.locks == 1 {
      var i :| 0 <= i < |s.main| && s.main[i] == Item(e.key, Some(p));
      FindUnique(s.main, i);
      RemoveKeeps(s, p, i);
    } else {
      UpdateEntry(s, r, p, e.(state := RolledBack, locks := e.locks - 1));
    }
  }

  lemma InvUnique(s: Cache)
    requires Inv(s)
    ensures UniqueKeys(s.main)
  {
  }

  lemma SetLimitsKeeps(s: Cache, min: nat, max: nat)
    requires Inv(s)
    ensures Inv(DoSetLimits(s, min, max))
  {
    var lim := Limits(min, Some(max), s.lim.requested, Clamp(s.lim.requested, min, Some(max)));
    CoreRelimit(s, 0, lim);
    TrimKeeps(s.(lim := lim));
  }

  /** Every mutex-held region, taken by any thread, keeps the invariant. */
  lemma StepKeeps(s: Cache, step: Step)
    requires Inv(s) && Enabled(s, step)
    ensures Inv(Next(s, step).0)
  {
    hide Core, Hit, Miss, DoRollback, DoSetLimits;
    match step
    case Lookup(key, block, suppress, newp) =>
      match Find(s.main, key) {
        case Some(i) => HitKeeps(s, i, block);
        case None => if suppress != Some(true) { MissKeeps(s, key, newp); }
      }
    case Wake(p) => WakeKeeps(s, p);
    case Write(p, v) =>
      HeldEntryOk(s, p);
      UpdateEntry(s, DoWrite(s, p, v), p, s.heap[p].(value := Some(v)));
    case Commit(p) =>
      HeldEntryOk(s, p);
      UpdateEntry(s, DoCommit(s, p), p, s.heap[p].(state := Available, locks := s.heap[p].locks - 1));
    case Rollback(p) => RollbackKeeps(s, p);
    case SetLimits(min, max) => SetLimitsKeeps(s, min, max);
  }

  lemma WakeKeeps(s: Cache, p: Ptr)
    requires Inv(s) && p in s.waiting
    ensures Inv(DoWake(s, p).0)
  {
    HeldEntryOk(s, p);
    var e := s.heap[p];
    match e.state
    case Empty =>
    case Available => UpdateEntry(s, DoWake(s, p).0, p, e.(locks := e.locks - 1));
    case RolledBack => UpdateEntry(s, DoWake(s, p).0, p, e.(state := Empty));
  }
}
