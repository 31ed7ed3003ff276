/**
  When the cache grows, exactly: on a miss of a key that its ghost record
  remembers as lost twice. As long as the ghosts have room for every key that
  is ever asked for, they remember every loss.
 */
module LruGrowth {
  import opened KeyedList
  import opened LruCache
  import opened LruInvariants
  import opened LruTheorems
  import opened LruRecency

  // ------------------------------------------------------------ one step

  ghost predicate Misses(s: Cache, step: Step) {
    step.Lookup? && step.suppress != Some(true) && forall it :: it in s.main ==> it.key != step.key
  }

  lemma MissCapacity(s: Cache, key: Key, newp: Ptr)
    requires Inv(s) && Find(s.main, key).None? && newp !in s.heap
    ensures Miss(s, key, newp).0.lim ==
      if Regretted(Trim(s), key) then s.lim.(requested := s.lim.cap + 1, cap := if AtLimit(s) then s.lim.cap else s.lim.cap + 1) else s.lim
  {
    hide Core, Trim, Reserve, Tune, Install, Regretted, LockedFrom, HeldFrame;
    var k := if s.lim.cap != 0 then 1 else 0;
    var s1 := Reserve(s, key);
    ReserveKeeps(s, key);
    ReserveIs(s, key, Item(key + 1, None));
    TuneKeeps(s1, key, k);
    CoreGhosts(s1, k);
    CoreSane(s1, k);
    CoreSane(Tune(s1, key).0, k);
    TuneCapacity(s1, key);
    InstallStays(Tune(s1, key).0, key, k == 1, newp, Item(key + 1, None));
  }

  /**
    A step grows the cache, by one, if and only if it is a miss of a key whose
    record counts two losses, below the maximum. At the maximum the growth is
    remembered as requested, and new limits may grant it later.
   */
  lemma GrowsIff(s: Cache, step: Step)
    requires Inv(s) && Enabled(s, step) && !step.SetLimits?
    ensures Next(s, step).0.lim.cap == s.lim.cap + (if Misses(s, step) && Regretted(Trim(s), step.key) && !AtLimit(s) then 1 else 0)
    ensures Next(s, step).0.lim.requested == if Misses(s, step) && Regretted(Trim(s), step.key) then s.lim.cap + 1 else s.lim.requested
    ensures Next(s, step).0.lim.min == s.lim.min && Next(s, step).0.lim.max == s.lim.max
  {
    hide Core, Miss, Trim, Regretted;
    if step.Lookup? {
      match Find(s.main, step.key) {
        case Some(i) => assert s.main[i] in s.main;
        case None => if step.suppress != Some(true) { MissCapacity(s, step.key, step.newp); }
      }
    }
  }

  /** The lookup silences the filters below exactly if it asks an optimal-size cache to grow. */
  lemma SuppressIff(s: Cache, key: Key, suppress: Option<bool>)
    requires Inv(s)
    ensures SuppressAfter(s, key, suppress) ==
      if suppress.Some? && s.mode == OptimalSize && (forall it :: it in s.main ==> it.key != key) && Regretted(Trim(s), key)
      then Some(true) else suppress
  {
    hide Core, Trim, Reserve, Tune, Regretted;
    match Find(s.main, key)
    case Some(i) => assert s.main[i] in s.main;
    case None =>
      var s1 := Reserve(s, key);
      ReserveKeeps(s, key);
      CoreGhosts(s1, if s.lim.cap != 0 then 1 else 0);
      ReserveIs(s, key, Item(key + 1, None));
      TouchRegretted(s1, key);
  }

  /** New limits: the requested capacity is brought into them; the lower one wins if they contradict each other. */
  lemma LimitsApplied(s: Cache, min: nat, max: nat)
    requires Inv(s)
    ensures var cap := DoSetLimits(s, min, max).lim.cap; var asked := s.lim.requested;
      && (max < min ==> cap == min)
      && (min <= max ==> min <= cap <= max)
      && (min <= asked <= max ==> cap == asked)
      && (asked < min <= max ==> cap == min)
      && (min <= max < asked ==> cap == max)
  {
    hide TrimDown;
  }

  // -------------------------------------------------------- room for ghosts

  lemma {:induction false} TrimRoom(s: Cache, pos: nat, lo: nat)
    requires pos <= |s.main|
    ensures TrimDown(s, pos, lo).ghostCapacity == s.ghostCapacity
    decreases pos
  {
    if pos > lo {
      TrimRoom(Evict(s, pos - 1), pos - 1, lo);
    }
  }

  /** The ghost list starts with room for 50 records and, once growth was asked for, has room for 50 and two per entry. */
  ghost predicate RoomOk(s: Cache, capacity: nat) {
    s.ghostCapacity == 50 + 2 * s.lim.cap || (s.ghostCapacity == 50 && s.lim.cap == capacity)
  }

  lemma RoomStep(s: Cache, step: Step, capacity: nat)
    requires RoomOk(s, capacity) && Inv(s) && Enabled(s, step) && !step.SetLimits?
    ensures RoomOk(Next(s, step).0, capacity)
  {
    hide Core, Trim, TouchGhost, Clamp, Resize;
    if step.Lookup? && Find(s.main, step.key).None? && step.suppress != Some(true) {
      MissRoom(s, step.key, step.newp, capacity);
    }
  }

  lemma MissRoom(s: Cache, key: Key, newp: Ptr, capacity: nat)
    requires RoomOk(s, capacity)
    ensures RoomOk(Miss(s, key, newp).0, capacity)
  {
    hide TrimDown, TouchGhost, Clamp, Resize;
    TrimRoom(s, |s.main|, s.lim.cap);
  }

  lemma {:induction false} GhostRoom(s: Cache, steps: seq<Step>, capacity: nat)
    requires RoomOk(s, capacity) && Inv(s) && IsRun(s, steps) && forall i :: 0 <= i < |steps| ==> !steps[i].SetLimits?
    ensures RoomOk(Exec(s, steps), capacity)
    decreases |steps|
  {
    hide Inv, Next, RoomOk;
    if steps != [] {
      StepKeeps(s, steps[0]);
      RoomStep(s, steps[0], capacity);
      GhostRoom(Next(s, steps[0]).0, steps[1..], capacity);
    }
  }

  // ------------------------------------------------------------ whole runs

  function KeysOf(steps: seq<Step>): set<Key> {
    set i | 0 <= i < |steps| && steps[i].Lookup? :: steps[i].key
  }

  predicate Recorded(ghosts: seq<Item<nat>>, key: Key) {
    exists i :: 0 <= i < |ghosts| && ghosts[i].key == key
  }

  /** Every cached or lost key has its ghost record, which counts all its losses. */
  ghost predicate GhostsExact(s: Cache, keys: set<Key>) {
    && s.ghostCapacity >= GHOSTS_MIN_CAPACITY && UniqueKeys(s.ghosts)
    && (forall g :: g in s.ghosts ==> g.key in keys && g.value == s.lost[g.key])
    && (forall key :: !Recorded(s.ghosts, key) ==> s.lost[key] == 0)
    && (forall it :: it in s.main ==> Recorded(s.ghosts, it.key))
  }

  lemma {:induction false} RecordsFit(ghosts: seq<Item<nat>>, keys: set<Key>)
    requires UniqueKeys(ghosts) && forall g :: g in ghosts ==> g.key in keys
    ensures |ghosts| <= |keys|
    decreases |ghosts|
  {
    if ghosts != [] {
      assert ghosts[0] in ghosts;
      forall g | g in ghosts[1..] ensures g.key in keys - {ghosts[0].key} { assert g in ghosts; }
      RecordsFit(ghosts[1..], keys - {ghosts[0].key});
    }
  }

  /** Touching a key moves its record to the head, or adds one; with room for all keys none is dropped. */
  lemma TouchRecords(s: Cache, key: Key, keys: set<Key>)
    requires UniqueKeys(s.ghosts) && (forall g :: g in s.ghosts ==> g.key in keys) && key in keys
    requires |keys| <= GHOSTS_MIN_CAPACITY <= s.ghostCapacity
    ensures var (seen, gs) := TouchGhost(s.ghosts, s.ghostCapacity, key);
      && UniqueKeys(gs) && (seen <==> Recorded(s.ghosts, key))
      && (forall g :: g in gs <==> g in s.ghosts || (!seen && g == Item(key, 0)))
  {
    match Find(s.ghosts, key)
    case Some(i) => ToFrontMembers(s.ghosts, i);
    case None => RecordsFit(s.ghosts, keys);
  }

  lemma RecordedMember(ghosts: seq<Item<nat>>, key: Key)
    ensures Recorded(ghosts, key) <==> exists g :: g in ghosts && g.key == key
  {
    if Recorded(ghosts, key) {
      var i :| 0 <= i < |ghosts| && ghosts[i].key == key;
      assert ghosts[i] in ghosts;
    }
    if exists g :: g in ghosts && g.key == key {
      var g :| g in ghosts && g.key == key;
      var i :| 0 <= i < |ghosts| && ghosts[i] == g;
    }
  }

  lemma TouchExact(s: Cache, key: Key, keys: set<Key>)
    requires GhostsExact(s, keys) && key in keys && |keys| <= GHOSTS_MIN_CAPACITY
    ensures var (seen, gs) := TouchGhost(s.ghosts, s.ghostCapacity, key);
      && GhostsExact(s.(ghosts := gs), keys) && (seen <==> Recorded(s.ghosts, key))
      && forall k :: Recorded(gs, k) <==> k == key || Recorded(s.ghosts, k)
  {
    hide TouchGhost, Recorded;
    TouchRecords(s, key, keys);
    var gs := TouchGhost(s.ghosts, s.ghostCapacity, key).1;
    forall k ensures Recorded(gs, k) <==> k == key || Recorded(s.ghosts, k) {
      RecordedMember(gs, k);
      RecordedMember(s.ghosts, k);
      assert gs[0] in gs;
    }
  }

  /** One more loss of the key, counted in its record at place j. */
  lemma CountExact(s: Cache, j: nat, keys: set<Key>, r: Cache)
    requires GhostsExact(s, keys) && j < |s.ghosts|
    requires var key := s.ghosts[j].key;
      r.ghosts == s.ghosts[j := Item(key, s.ghosts[j].value + 1)] && r.lost == s.lost + multiset{key}
    requires r.ghostCapacity == s.ghostCapacity && forall it :: it in r.main ==> it in s.main
    ensures GhostsExact(r, keys)
  {
    assert s.ghosts[j] in s.ghosts;
    forall k ensures Recorded(r.ghosts, k) <==> Recorded(s.ghosts, k) {
      if Recorded(s.ghosts, k) {
        var i :| 0 <= i < |s.ghosts| && s.ghosts[i].key == k;
        assert r.ghosts[i].key == k;
      }
      if Recorded(r.ghosts, k) {
        var i :| 0 <= i < |r.ghosts| && r.ghosts[i].key == k;
        assert s.ghosts[i].key == k;
      }
    }
    forall g | g in r.ghosts ensures g.key in keys && g.value == r.lost[g.key] {
      var i :| 0 <= i < |r.ghosts| && r.ghosts[i] == g;
      assert s.ghosts[i] in s.ghosts;
    }
  }

  lemma EvictExact(s: Cache, pos: nat, keys: set<Key>)
    requires GhostsExact(s, keys) && pos < |s.main| && |keys| <= GHOSTS_MIN_CAPACITY
    ensures GhostsExact(Evict(s, pos), keys)
  {
    hide TouchGhost;
    var it, r := s.main[pos], Evict(s, pos);
    if it.value.Some? && it.value.value in s.heap && s.heap[it.value.value].locks <= 0 {
      assert it in s.main && Recorded(s.ghosts, it.key);
      var g :| 0 <= g < |s.ghosts| && s.ghosts[g].key == it.key;
      assert s.ghosts[g] in s.ghosts;
      TouchExact(s, it.key, keys);
      CountExact(s.(ghosts := TouchGhost(s.ghosts, s.ghostCapacity, it.key).1), 0, keys, r);
    }
  }

  lemma {:induction false} TrimExact(s: Cache, pos: nat, lo: nat, keys: set<Key>)
    requires GhostsExact(s, keys) && pos <= |s.main| && |keys| <= GHOSTS_MIN_CAPACITY
    ensures GhostsExact(TrimDown(s, pos, lo), keys)
    decreases pos
  {
    hide GhostsExact, Evict;
    if pos > lo {
      EvictExact(s, pos - 1, keys);
      EvictLength(s, pos - 1);
      TrimExact(Evict(s, pos - 1), pos - 1, lo, keys);
    }
  }

  lemma EvictLength(s: Cache, pos: nat)
    requires pos < |s.main|
    ensures |Evict(s, pos).main| >= pos
  {
  }

  lemma ResizeExact(s: Cache, capacity: nat, keys: set<Key>)
    requires GhostsExact(s, keys) && |keys| <= GHOSTS_MIN_CAPACITY
    ensures GhostsExact(Resize(s, capacity), keys)
  {
    hide TrimDown, Clamp;
    var s1 := s.(lim := s.lim.(requested := capacity, cap := Clamp(capacity, s.lim.min, s.lim.max)));
    TrimExact(s1, |s1.main|, s1.lim.cap, keys);
  }

  /** Neither the touched record nor a larger ghost list loses a record. */
  lemma TuneExact(s: Cache, key: Key, keys: set<Key>)
    requires GhostsExact(s.(main := []), keys) && key in keys && |keys| <= GHOSTS_MIN_CAPACITY
    requires forall it :: it in s.main ==> it.key == key || Recorded(s.ghosts, it.key)
    ensures GhostsExact(Tune(s, key).0, keys)
  {
    hide Resize, TouchGhost, Recorded;
    TouchExact(s.(main := []), key, keys);
    var s1 := s.(ghosts := TouchGhost(s.ghosts, s.ghostCapacity, key).1, fault := s.fault || s.ghostCapacity == 0);
    assert GhostsExact(s1, keys);
    ResizeExact(s1, s1.lim.cap + 1, keys);
    RecordsFit(Resize(s1, s1.lim.cap + 1).ghosts, keys);
  }

  lemma ReserveExact(s: Cache, key: Key, keys: set<Key>)
    requires GhostsExact(s, keys) && |keys| <= GHOSTS_MIN_CAPACITY
    ensures var r := Reserve(s, key);
      GhostsExact(r.(main := []), keys) && forall it :: it in r.main ==> it.key == key || Recorded(r.ghosts, it.key)
  {
    hide TrimDown, Recorded;
    TrimExact(s, |s.main|, s.lim.cap, keys);
  }

  lemma InstallExact(s: Cache, key: Key, reserved: bool, newp: Ptr, keys: set<Key>)
    requires GhostsExact(s, keys)
    ensures GhostsExact(Install(s, key, reserved, newp).0, keys)
  {
    hide Recorded;
    var r := Install(s, key, reserved, newp).0;
    match Find(s.ghosts, key)
    case Some(g) =>
      if !reserved {
        CountExact(s, g, keys, r);
      } else if s.main != [] && s.main[0] == Item(key, None) {
        assert s.main[0] in s.main;
        assert forall it :: it in r.main ==> it.key == key || it in s.main;
      }
    case None =>
  }

  lemma LookupExact(s: Cache, step: Step, keys: set<Key>)
    requires GhostsExact(s, keys) && step.Lookup? && step.key in keys && |keys| <= GHOSTS_MIN_CAPACITY
    ensures GhostsExact(Next(s, step).0, keys)
  {
    hide GhostsExact, Reserve, Tune, Install;
    match Find(s.main, step.key)
    case Some(i) => HitExact(s, i, step.block, keys);
    case None =>
      if step.suppress != Some(true) {
        var s1 := Reserve(s, step.key);
        ReserveExact(s, step.key, keys);
        TuneExact(s1, step.key, keys);
        InstallExact(Tune(s1, step.key).0, step.key, s1.lim.cap != 0, step.newp, keys);
      }
  }

  lemma HitExact(s: Cache, i: nat, block: bool, keys: set<Key>)
    requires GhostsExact(s, keys) && i < |s.main|
    ensures GhostsExact(Hit(s, i, block).0, keys)
  {
    hide Recorded;
    assert forall it :: it in ToFront(s.main, i) ==> it in s.main;
  }

  lemma SetLimitsExact(s: Cache, min: nat, max: nat, keys: set<Key>)
    requires GhostsExact(s, keys) && |keys| <= GHOSTS_MIN_CAPACITY
    ensures GhostsExact(DoSetLimits(s, min, max), keys)
  {
    hide Recorded, Resize;
    ResizeExact(s.(lim := s.lim.(min := min, max := Some(max))), s.lim.requested, keys);
  }

  /** Fewer entries need no more records. */
  lemma FewerExact(s: Cache, r: Cache, keys: set<Key>)
    requires GhostsExact(s, keys) && r.ghosts == s.ghosts && r.ghostCapacity == s.ghostCapacity && r.lost == s.lost
    requires forall it :: it in r.main ==> it in s.main
    ensures GhostsExact(r, keys)
  {
    hide Recorded;
  }

  lemma OtherExact(s: Cache, step: Step, keys: set<Key>)
    requires GhostsExact(s, keys) && !step.Lookup? && |keys| <= GHOSTS_MIN_CAPACITY
    ensures GhostsExact(Next(s, step).0, keys)
  {
    hide GhostsExact, DoSetLimits, UniqueKeys;
    match step
    case SetLimits(min, max) => SetLimitsExact(s, min, max, keys);
    case _ => FewerExact(s, Next(s, step).0, keys);
  }

  lemma {:induction false} RunExact(s: Cache, steps: seq<Step>, keys: set<Key>)
    requires GhostsExact(s, keys) && |keys| <= GHOSTS_MIN_CAPACITY && KeysOf(steps) <= keys
    ensures GhostsExact(Exec(s, steps), keys)
    decreases |steps|
  {
    hide GhostsExact, Next;
    if steps != [] {
      forall i | 0 <= i < |steps[1..]| && steps[1..][i].Lookup? ensures steps[1..][i].key in keys {
        assert steps[i + 1].key in KeysOf(steps);
      }
      if steps[0].Lookup? {
        assert steps[0].key in KeysOf(steps);
        LookupExact(s, steps[0], keys);
      } else {
        OtherExact(s, steps[0], keys);
      }
      RunExact(Next(s, steps[0]).0, steps[1..], keys);
    }
  }

  /**
    In a run over at most as many keys as the ghosts can always hold, a lookup
    grows the cache, by one, if and only if it is an unsuppressed miss of a key
    that was evicted or refused storage at least twice, the capacity is below
    its maximum, and the mode is not CACHE_NO_RESIZE.
   */
  lemma GrowthExact(capacity: nat, mode: CacheMode, steps: seq<Step>, step: Step)
    requires IsRun(Init(capacity, mode), steps + [step]) && step.Lookup? && |KeysOf(steps)| <= GHOSTS_MIN_CAPACITY
    ensures var s := Exec(Init(capacity, mode), steps);
      Exec(Init(capacity, mode), steps + [step]).lim.cap
      == s.lim.cap + (if Misses(s, step) && s.mode != NoResize && s.lost[step.key] >= 2 && !AtLimit(s) then 1 else 0)
  {
    hide Inv, Next, Enabled, GhostsExact;
    var s := Exec(Init(capacity, mode), steps);
    ExecAppend(Init(capacity, mode), steps, step);
    InitInv(capacity, mode);
    RunKeeps(Init(capacity, mode), steps);
    StartExact(capacity, mode, KeysOf(steps));
    RunExact(Init(capacity, mode), steps, KeysOf(steps));
    GrowsIff(s, step);
    if Misses(s, step) {
      TrimExact(s, |s.main|, s.lim.cap, KeysOf(steps));
      TrimLost(s, |s.main|, s.lim.cap, step.key);
      RegrettedIff(Trim(s), step.key, KeysOf(steps));
    }
  }

  lemma StartExact(capacity: nat, mode: CacheMode, keys: set<Key>)
    ensures GhostsExact(Init(capacity, mode), keys)
  {
  }

  lemma RegrettedIff(s: Cache, key: Key, keys: set<Key>)
    requires GhostsExact(s, keys)
    ensures Regretted(s, key) <==> s.mode != NoResize && s.lost[key] >= 2
  {
    if Recorded(s.ghosts, key) {
      var i :| 0 <= i < |s.ghosts| && s.ghosts[i].key == key;
      assert s.ghosts[i] in s.ghosts;
    }
  }
}
