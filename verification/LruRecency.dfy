/**
  What the order of the cache means: over whole runs the entries stand in the
  order of their last lookups, and the evicted ones are those looked up longest
  ago. Neither is stated through the list operations that bring it about.
 */
module LruRecency {
  import opened KeyedList
  import opened LruCache
  import opened LruInvariants
  import opened LruTheorems

  predicate Asks(step: Step, key: Key) {
    step.Lookup? && step.key == key
  }

  /** When the key was last looked up in the run; -1: never. */
  function LastLookup(steps: seq<Step>, key: Key): (r: int)
    ensures -1 <= r < |steps|
    ensures r >= 0 ==> Asks(steps[r], key)
    ensures forall i :: r < i < |steps| ==> !Asks(steps[i], key)
  {
    if steps == [] then -1
    else if Asks(steps[|steps| - 1], key) then |steps| - 1
    else LastLookup(steps[..|steps| - 1], key)
  }

  lemma LastLookupAppend(steps: seq<Step>, step: Step, key: Key)
    ensures LastLookup(steps + [step], key) == if Asks(step, key) then |steps| else LastLookup(steps, key)
  {
    assert (steps + [step])[..|steps|] == steps;
  }

  // ------------------------------------------------------- runs, last step first

  lemma {:induction false} ExecAppend(s: Cache, steps: seq<Step>, step: Step)
    ensures Exec(s, steps + [step]) == Next(Exec(s, steps), step).0
    ensures IsRun(s, steps + [step]) <==> IsRun(s, steps) && Enabled(Exec(s, steps), step)
    decreases |steps|
  {
    hide Next, Enabled;
    if steps != [] {
      assert (steps + [step])[1..] == steps[1..] + [step];
      ExecAppend(Next(s, steps[0]).0, steps[1..], step);
    } else {
      assert [step][1..] == [];
      assert steps + [step] == [step];
      assert Exec(Next(s, step).0, []) == Next(s, step).0;
      assert IsRun(Next(s, step).0, []);
    }
  }

  // ---------------------------------------------------------------- the order

  /** Every key was looked up, and the keys further down longer ago. */
  ghost predicate NewestFirst(main: seq<Item<Option<Ptr>>>, steps: seq<Step>) {
    && (forall i :: 0 <= i < |main| ==> LastLookup(steps, main[i].key) >= 0)
    && (forall i, j :: 0 <= i < j < |main| ==> LastLookup(steps, main[i].key) > LastLookup(steps, main[j].key))
  }

  lemma WithoutNewest(main: seq<Item<Option<Ptr>>>, steps: seq<Step>, i: nat)
    requires NewestFirst(main, steps) && i < |main|
    ensures NewestFirst(Without(main, i), steps)
  {
    hide LastLookup;
    var r := Without(main, i);
    assert forall k :: 0 <= k < |r| ==> r[k] == main[if k < i then k else k + 1];
  }

  lemma {:induction false} TrimNewest(s: Cache, steps: seq<Step>, pos: nat, lo: nat)
    requires NewestFirst(s.main, steps) && pos <= |s.main|
    ensures NewestFirst(TrimDown(s, pos, lo).main, steps)
    decreases pos
  {
    hide NewestFirst;
    if pos > lo {
      WithoutNewest(s.main, steps, pos - 1);
      TrimNewest(Evict(s, pos - 1), steps, pos - 1, lo);
    }
  }

  lemma ResizeNewest(s: Cache, steps: seq<Step>, capacity: nat)
    requires NewestFirst(s.main, steps)
    ensures NewestFirst(Resize(s, capacity).main, steps)
  {
    hide NewestFirst, TrimDown, Clamp;
    var s1 := s.(lim := s.lim.(requested := capacity, cap := Clamp(capacity, s.lim.min, s.lim.max)));
    TrimNewest(s1, steps, |s1.main|, s1.lim.cap);
  }

  /** A step that looks nothing up leaves the order as it is. */
  lemma QuietNewest(main: seq<Item<Option<Ptr>>>, steps: seq<Step>, step: Step)
    requires NewestFirst(main, steps) && forall i :: 0 <= i < |main| ==> !Asks(step, main[i].key)
    ensures NewestFirst(main, steps + [step])
  {
    forall i | 0 <= i < |main| ensures LastLookup(steps + [step], main[i].key) == LastLookup(steps, main[i].key) {
      LastLookupAppend(steps, step, main[i].key);
    }
  }

  /** The key looked up last goes in front of the others. */
  lemma FrontNewest(it: Item<Option<Ptr>>, rest: seq<Item<Option<Ptr>>>, steps: seq<Step>, step: Step)
    requires NewestFirst(rest, steps) && Asks(step, it.key) && forall i :: 0 <= i < |rest| ==> rest[i].key != it.key
    ensures NewestFirst([it] + rest, steps + [step])
  {
    LastLookupAppend(steps, step, it.key);
    QuietNewest(rest, steps, step);
  }

  lemma HitNewest(s: Cache, steps: seq<Step>, step: Step)
    requires Inv(s) && NewestFirst(s.main, steps) && step.Lookup? && Find(s.main, step.key).Some?
    ensures NewestFirst(Next(s, step).0.main, steps + [step])
  {
    hide NewestFirst, Core;
    var i := Find(s.main, step.key).value;
    InvUnique(s);
    WithoutMembers(s.main, i);
    WithoutNewest(s.main, steps, i);
    FrontNewest(s.main[i], Without(s.main, i), steps, step);
  }

  lemma TuneNewest(s: Cache, steps: seq<Step>, key: Key)
    requires NewestFirst(s.main, steps)
    ensures NewestFirst(Tune(s, key).0.main, steps)
  {
    hide NewestFirst, Resize, TouchGhost;
    var s1 := s.(ghosts := TouchGhost(s.ghosts, s.ghostCapacity, key).1, fault := s.fault || s.ghostCapacity == 0);
    ResizeNewest(s1, steps, s1.lim.cap + 1);
  }

  lemma MissNewest(s: Cache, steps: seq<Step>, step: Step)
    requires Inv(s) && NewestFirst(s.main, steps) && Enabled(s, step) && step.Lookup? && Find(s.main, step.key).None?
    ensures NewestFirst(Miss(s, step.key, step.newp).0.main, steps + [step])
  {
    hide NewestFirst, Core, TrimDown, Tune;
    TrimKeeps(s);
    TrimNewest(s, steps, |s.main|, s.lim.cap);
    var t, r := Trim(s), Reserve(s, step.key);
    assert forall i :: 0 <= i < |t.main| ==> t.main[i].key != step.key;
    if s.lim.cap != 0 {
      FrontNewest(Item(step.key, None), t.main, steps, step);
    } else {
      QuietNewest(t.main, steps, step);
    }
    TuneNewest(r, steps + [step], step.key);
    InstallNewest(Tune(r, step.key).0, steps + [step], step.key, r.lim.cap != 0, step.newp);
  }

  lemma InstallNewest(s: Cache, steps: seq<Step>, key: Key, reserved: bool, newp: Ptr)
    requires NewestFirst(s.main, steps)
    ensures NewestFirst(Install(s, key, reserved, newp).0.main, steps)
  {
    hide LastLookup;
  }

  lemma OtherNewest(s: Cache, steps: seq<Step>, step: Step)
    requires NewestFirst(s.main, steps) && !step.Lookup?
    ensures NewestFirst(Next(s, step).0.main, steps + [step])
  {
    hide NewestFirst, Resize;
    match step
    case SetLimits(min, max) =>
      var s1 := s.(lim := s.lim.(min := min, max := Some(max)));
      ResizeNewest(s1, steps, s.lim.requested);
      QuietNewest(Next(s, step).0.main, steps, step);
    case Rollback(p) =>
      if p in s.heap && Find(s.main, s.heap[p].key).Some? {
        WithoutNewest(s.main, steps, Find(s.main, s.heap[p].key).value);
      }
      QuietNewest(Next(s, step).0.main, steps, step);
    case _ => QuietNewest(s.main, steps, step);
  }

  lemma StepNewest(s: Cache, steps: seq<Step>, step: Step)
    requires Inv(s) && NewestFirst(s.main, steps) && Enabled(s, step)
    ensures NewestFirst(Next(s, step).0.main, steps + [step])
  {
    hide NewestFirst, Core, Miss, Hit;
    if !step.Lookup? {
      OtherNewest(s, steps, step);
    } else if Find(s.main, step.key).Some? {
      HitNewest(s, steps, step);
    } else if step.suppress != Some(true) {
      MissNewest(s, steps, step);
    } else {
      QuietNewest(s.main, steps, step);
    }
  }

  /** In every run the cached keys stand in the order of their last lookups, the latest first. */
  lemma {:induction false} RecencyOrder(capacity: nat, mode: CacheMode, steps: seq<Step>)
    requires IsRun(Init(capacity, mode), steps)
    ensures Inv(Exec(Init(capacity, mode), steps)) && NewestFirst(Exec(Init(capacity, mode), steps).main, steps)
    decreases |steps|
  {
    hide Inv, Next, LastLookup;
    InitInv(capacity, mode);
    RunKeeps(Init(capacity, mode), steps);
    if steps != [] {
      var n := |steps| - 1;
      assert steps[..n] + [steps[n]] == steps;
      ExecAppend(Init(capacity, mode), steps[..n], steps[n]);
      RecencyOrder(capacity, mode, steps[..n]);
      StepNewest(Exec(Init(capacity, mode), steps[..n]), steps[..n], steps[n]);
    }
  }

  // -------------------------------------------------------------- evictions

  /** The places whose keys were looked up after this one. */
  ghost function Fresher(main: seq<Item<Option<Ptr>>>, steps: seq<Step>, key: Key): set<int> {
    set j | 0 <= j < |main| && LastLookup(steps, main[j].key) > LastLookup(steps, key)
  }

  function Indices(n: nat): (r: set<int>)
    ensures |r| == n && forall j :: j in r <==> 0 <= j < n
  {
    if n == 0 then {} else Indices(n - 1) + {n - 1}
  }

  lemma FresherIs(main: seq<Item<Option<Ptr>>>, steps: seq<Step>, i: nat)
    requires NewestFirst(main, steps) && i < |main|
    ensures |Fresher(main, steps, main[i].key)| == i
  {
    forall j | 0 <= j < |main| ensures LastLookup(steps, main[j].key) > LastLookup(steps, main[i].key) <==> j < i {}
    assert Fresher(main, steps, main[i].key) == Indices(i);
  }

  /** Somebody produces the entry of this item or waits for it. */
  ghost predicate InUse(s: Cache, it: Item<Option<Ptr>>) {
    it.value.Some? && Held(s, it.value.value)
  }

  lemma LockedIffInUse(s: Cache, k: nat, i: nat)
    requires Core(s, k) && k <= i < |s.main|
    ensures Locked(s, i) <==> InUse(s, s.main[i])
  {
    assert s.main[i] == s.main[k..][i - k];
    assert SlotOk(s, s.main[i]);
  }

  lemma TrimFrameIs(s: Cache, r: Cache, lo: nat)
    requires TrimFrame(s, r, lo)
    ensures lo <= |s.main| ==> lo <= |r.main| && r.main[..lo] == s.main[..lo]
    ensures forall q :: Held(s, q) <==> Held(r, q)
  {
  }

  /** Trimming drops exactly the entries that are beyond the capacity and not in use. */
  lemma TrimStays(s: Cache, i: nat)
    requires Inv(s) && i < |s.main|
    ensures s.main[i] in Trim(s).main <==> i < s.lim.cap || InUse(s, s.main[i])
    ensures s.lim.cap <= |s.main| ==> s.lim.cap <= |Trim(s).main| && Trim(s).main[..s.lim.cap] == s.main[..s.lim.cap]
    ensures |s.main| <= s.lim.cap ==> Trim(s) == s
  {
    hide Core, TrimDown, TrimFrame;
    var r, lo := Trim(s), s.lim.cap;
    TrimKeeps(s);
    TrimDownKeeps(s, |s.main|, lo, 0);
    TrimFrameIs(s, r, lo);
    LockedIffInUse(s, 0, i);
    InvUnique(s);
    if i < lo {
      if lo <= |s.main| { assert r.main[i] == r.main[..lo][i] == s.main[..lo][i]; }
      TrimIdle(s, |s.main|, lo);
    } else if InUse(s, s.main[i]) {
      CoreSlot(s, 0, i);
      HeldEntryOk(r, s.main[i].value.value);
    } else {
      forall j | 0 <= j < |r.main| ensures r.main[j] != s.main[i] {
        if j >= lo {
          LockedIffInUse(r, 0, j);
        } else {
          assert r.main[..lo][j] == s.main[..lo][j];
        }
      }
    }
    TrimIdle(s, |s.main|, lo);
  }

  lemma TrimIdle(s: Cache, pos: nat, lo: nat)
    requires pos <= |s.main|
    ensures pos <= lo ==> TrimDown(s, pos, lo) == s
  {
  }

  lemma EvictStays(s: Cache, pos: nat, k: nat, it: Item<Option<Ptr>>)
    requires Core(s, k) && k <= pos < |s.main| && it in s.main
    ensures it in Evict(s, pos).main <==> it != s.main[pos] || Locked(s, pos)
  {
    hide TouchGhost;
    CoreSlot(s, k, pos);
    WithoutMembers(s.main, pos);
  }

  /** The list asks to grow: the key was evicted or refused at least twice, as far as the ghosts remember. */
  ghost predicate Regretted(s: Cache, key: Key) {
    s.mode != NoResize && exists g :: g in s.ghosts && g.key == key && g.value >= 2
  }

  predicate AtLimit(s: Cache) {
    s.lim.max.Some? && s.lim.cap >= s.lim.max.value
  }

  lemma TouchRegretted(s: Cache, key: Key)
    requires UniqueKeys(s.ghosts)
    ensures (Tune(s, key).1 && s.mode != NoResize) <==> Regretted(s, key)
  {
    hide Grow;
    match Find(s.ghosts, key)
    case Some(i) => assert s.ghosts[i] in s.ghosts;
    case None =>
  }

  lemma GrownCapacity(s: Cache)
    requires LimitsOk(s)
    ensures Grow(s).lim == s.lim.(requested := s.lim.cap + 1, cap := if AtLimit(s) then s.lim.cap else s.lim.cap + 1)
  {
    hide TrimDown;
  }

  /** Growth that the limit refuses still offers the last place within capacity. */
  lemma GrowStays(s: Cache, key: Key, k: nat, it: Item<Option<Ptr>>)
    requires Reserved(s, key, k) && it in s.main
    ensures it in Grow(s).main <==> !(AtLimit(s) && k == 1 && s.lim.cap < |s.main| && it == s.main[s.lim.cap] && !Locked(s, s.lim.cap))
  {
    hide Core, Resize, Evict, LockedFrom;
    var m := Resize(s, s.lim.cap + 1);
    var s0 := s.(lim := m.lim);
    MidResize(s, key, k);
    CoreSane(s, k);
    GrownCapacity(s);
    if m.lim.cap == s.lim.cap && k == 1 && s.lim.cap < |s.main| {
      CoreRelimit(s, k, m.lim);
      EvictStays(s0, s.lim.cap, k, it);
    }
  }

  lemma TuneStays(s: Cache, key: Key, k: nat, it: Item<Option<Ptr>>)
    requires Reserved(s, key, k) && it in s.main
    ensures it in Tune(s, key).0.main <==>
      !(Regretted(s, key) && AtLimit(s) && k == 1 && s.lim.cap < |s.main| && it == s.main[s.lim.cap] && !Locked(s, s.lim.cap))
  {
    hide Core, Grow, TouchGhost, LockedFrom, Regretted;
    CoreGhosts(s, k);
    CoreSane(s, k);
    TouchRegretted(s, key);
    Retouch(s, key, k);
    if Regretted(s, key) {
      GrowStays(s.(ghosts := TouchGhost(s.ghosts, s.ghostCapacity, key).1), key, k, it);
    }
  }

  lemma TuneCapacity(s: Cache, key: Key)
    requires UniqueKeys(s.ghosts) && LimitsOk(s)
    ensures Tune(s, key).0.lim == if Regretted(s, key) then s.lim.(requested := s.lim.cap + 1, cap := if AtLimit(s) then s.lim.cap else s.lim.cap + 1) else s.lim
  {
    hide Grow, TouchGhost, Regretted, UniqueKeys, Clamp;
    TouchRegretted(s, key);
    if Regretted(s, key) {
      GrownCapacity(s.(ghosts := TouchGhost(s.ghosts, s.ghostCapacity, key).1, fault := s.fault || s.ghostCapacity == 0));
    }
  }

  lemma InstallStays(s: Cache, key: Key, reserved: bool, newp: Ptr, it: Item<Option<Ptr>>)
    requires Find(s.ghosts, key).Some? && it.key != key && (reserved ==> s.main != [] && s.main[0] == Item(key, None))
    ensures it in Install(s, key, reserved, newp).0.main <==> it in s.main
    ensures Install(s, key, reserved, newp).0.lim == s.lim
  {
    if reserved { assert s.main == [s.main[0]] + s.main[1..]; }
  }

  /** How many of the entries looked up last a miss keeps in any case. */
  ghost function KeptByMiss(s: Cache, key: Key): nat {
    if s.lim.cap > 0 && AtLimit(s) && Regretted(Trim(s), key) then s.lim.cap - 1 else s.lim.cap
  }

  lemma TuneMembers(s: Cache, key: Key)
    ensures forall it :: it in Tune(s, key).0.main ==> it in s.main
  {
    hide TouchGhost, TrimDown, Clamp;
    var s1 := s.(ghosts := TouchGhost(s.ghosts, s.ghostCapacity, key).1, fault := s.fault || s.ghostCapacity == 0);
    var s2 := s1.(lim := s1.lim.(requested := s1.lim.cap + 1, cap := Clamp(s1.lim.cap + 1, s1.lim.min, s1.lim.max)));
    TrimDownMembers(s2, |s2.main|, s2.lim.cap);
  }

  /** The reserved slot comes in front; nothing else differs from the trimmed list. */
  lemma ReserveIs(s: Cache, key: Key, it: Item<Option<Ptr>>)
    requires it.key != key
    ensures it in Reserve(s, key).main <==> it in Trim(s).main
    ensures Regretted(Reserve(s, key), key) <==> Regretted(Trim(s), key)
    ensures Reserve(s, key).lim == s.lim
    ensures s.lim.cap != 0 ==> Reserve(s, key).main == [Item(key, None)] + Trim(s).main
  {
    hide TrimDown;
  }

  /** The last place within capacity, seen from before and after the slot is reserved. */
  lemma LastPlace(s: Cache, key: Key, i: nat)
    requires Inv(s) && Find(s.main, key).None? && i < |s.main| && s.lim.cap > 0
    ensures var s1 := Reserve(s, key);
      && (s.lim.cap < |s1.main| <==> s.lim.cap <= |s.main|)
      && (s.lim.cap < |s1.main| ==> (s1.main[s.lim.cap] == s.main[i] <==> i == s.lim.cap - 1))
      && (i == s.lim.cap - 1 ==> (Locked(s1, s.lim.cap) <==> InUse(s, s.main[i])))
  {
    hide Core, Trim, LockedFrom, Locked;
    var s1, cap := Reserve(s, key), s.lim.cap;
    TrimStays(s, i);
    ReserveIs(s, key, s.main[i]);
    ReserveKeeps(s, key);
    InvUnique(s);
    if cap <= |s.main| {
      assert s1.main[cap] == Trim(s).main[..cap][cap - 1] == s.main[..cap][cap - 1];
      LockedIffInUse(s1, 1, cap);
    }
  }

  lemma MissStays(s: Cache, key: Key, newp: Ptr, i: nat)
    requires Inv(s) && Find(s.main, key).None? && newp !in s.heap && i < |s.main|
    ensures s.main[i] in Miss(s, key, newp).0.main <==> i < KeptByMiss(s, key) || InUse(s, s.main[i])
  {
    hide Core, Trim, Reserve, Tune, Install, Regretted, LockedFrom, InUse, Locked, HeldFrame;
    var k := if s.lim.cap != 0 then 1 else 0;
    var s1, it := Reserve(s, key), s.main[i];
    ReserveKeeps(s, key);
    ReserveIs(s, key, it);
    TrimStays(s, i);
    TuneKeeps(s1, key, k);
    CoreGhosts(s1, k);
    CoreSane(s1, k);
    CoreSane(Tune(s1, key).0, k);
    InstallStays(Tune(s1, key).0, key, k == 1, newp, it);
    TuneMembers(s1, key);
    if it in s1.main {
      TuneStays(s1, key, k, it);
    }
    if k == 1 {
      LastPlace(s, key, i);
    }
  }

  /**
    How many of the entries looked up last stay in any case: on a miss as many
    as the capacity, one fewer when it tries in vain to grow beyond the maximum.
   */
  ghost function KeptLatest(s: Cache, step: Step): nat {
    match step
    case Lookup(key, _, suppress, _) =>
      if suppress != Some(true) && forall it :: it in s.main ==> it.key != key then KeptByMiss(s, key) else |s.main|
    case SetLimits(_, _) => Next(s, step).0.lim.cap
    case _ => |s.main|
  }

  lemma SetLimitsStays(s: Cache, min: nat, max: nat, i: nat)
    requires Inv(s) && i < |s.main|
    ensures var r := DoSetLimits(s, min, max); s.main[i] in r.main <==> i < r.lim.cap || InUse(s, s.main[i])
  {
    hide Core, TrimDown, Clamp;
    var s1 := s.(lim := Limits(min, Some(max), s.lim.requested, Clamp(s.lim.requested, min, Some(max))));
    CoreRelimit(s, 0, s1.lim);
    TrimStays(s1, i);
    assert DoSetLimits(s, min, max) == Trim(s1);
  }

  lemma StepStays(s: Cache, step: Step, i: nat)
    requires Inv(s) && Enabled(s, step) && !step.Rollback? && i < |s.main|
    ensures s.main[i] in Next(s, step).0.main <==> i < KeptLatest(s, step) || InUse(s, s.main[i])
  {
    hide Core, Miss, DoSetLimits, KeptByMiss, InUse;
    match step
    case SetLimits(min, max) => SetLimitsStays(s, min, max, i);
    case Lookup(key, block, suppress, newp) =>
      InvUnique(s);
      match Find(s.main, key) {
        case Some(j) =>
          assert s.main[j] in s.main;
          ToFrontMembers(s.main, j);
        case None => if suppress != Some(true) { MissStays(s, key, newp, i); }
      }
    case _ =>
  }

  /**
    Evictions over whole runs, told by the run alone: a step other than a
    rollback takes an entry out of the cache exactly if nobody produces it or
    waits for it and at least `KeptLatest` entries were looked up after it. So
    the entries looked up longest ago go first.
   */
  lemma EvictsOldest(capacity: nat, mode: CacheMode, steps: seq<Step>, step: Step, it: Item<Option<Ptr>>)
    requires IsRun(Init(capacity, mode), steps + [step]) && !step.Rollback?
    requires it in Exec(Init(capacity, mode), steps).main
    ensures var s := Exec(Init(capacity, mode), steps);
      it in Exec(Init(capacity, mode), steps + [step]).main <==>
        InUse(s, it) || |Fresher(s.main, steps, it.key)| < KeptLatest(s, step)
  {
    hide Inv, Next, NewestFirst, Enabled;
    ExecAppend(Init(capacity, mode), steps, step);
    RecencyOrder(capacity, mode, steps);
    var s := Exec(Init(capacity, mode), steps);
    var i :| 0 <= i < |s.main| && s.main[i] == it;
    FresherIs(s.main, steps, i);
    StepStays(s, step, i);
  }
}
