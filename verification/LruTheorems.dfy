/**
  Whole-run guarantees of the frame cache: exact lock counts, one producer per
  key, agreement of results with what producers compute, controlled growth.
 */
module LruTheorems {
  import opened KeyedList
  import opened LruCache
  import opened LruInvariants

  lemma InitInv(capacity: nat, mode: CacheMode)
    ensures Inv(Init(capacity, mode))
  {
  }

  lemma {:induction false} RunKeeps(s: Cache, steps: seq<Step>)
    requires Inv(s) && IsRun(s, steps)
    ensures Inv(Exec(s, steps))
    decreases |steps|
  {
    hide Inv, Next;
    if |steps| > 0 {
      StepKeeps(s, steps[0]);
      RunKeeps(Next(s, steps[0]).0, steps[1..]);
    }
  }

  /** Every cached entry of every reachable state has exact lock counts, and no memory error ever happened. */
  lemma ReachableLocks(capacity: nat, mode: CacheMode, steps: seq<Step>)
    requires IsRun(Init(capacity, mode), steps)
    ensures var s := Exec(Init(capacity, mode), steps);
      && !s.fault
      && (forall it :: it in s.main ==>
            && it.value.Some? && it.value.value in s.heap
            && var p := it.value.value; var e := s.heap[p];
            && e.key == it.key
            && e.locks == s.handles[p] + s.waiting[p]
            && s.handles[p] == (if e.state == Empty then 1 else 0)
            && (e.state == RolledBack ==> s.waiting[p] >= 1))
  {
    InitInv(capacity, mode);
    RunKeeps(Init(capacity, mode), steps);
    var s := Exec(Init(capacity, mode), steps);
    assert s.main[0..] == s.main;
    assert forall it :: it in s.main ==> SlotOk(s, it);
  }

  /** A key never has two producers, and whoever waits waits for a live producer or for nothing. */
  lemma OneProducer(capacity: nat, mode: CacheMode, steps: seq<Step>, p: Ptr, q: Ptr)
    requires IsRun(Init(capacity, mode), steps)
    ensures var s := Exec(Init(capacity, mode), steps);
      && (Held(s, p) ==> p in s.heap) && (Held(s, q) ==> q in s.heap)
      && (p in s.handles ==> s.handles[p] == 1 && s.heap[p].state == Empty)
      && (p in s.handles && q in s.handles && s.heap[p].key == s.heap[q].key ==> p == q)
      && (p in s.waiting && s.heap[p].state == Empty ==> p in s.handles)
  {
    InitInv(capacity, mode);
    RunKeeps(Init(capacity, mode), steps);
    var s := Exec(Init(capacity, mode), steps);
    if Held(s, p) { HeldEntryOk(s, p); }
    if Held(s, q) { HeldEntryOk(s, q); }
  }

  // ------------------------------------------------- locked entries stay

  predicate ActsOn(step: Step, p: Ptr) {
    step == Wake(p) || (step.Write? && step.p == p) || step == Commit(p) || step == Rollback(p)
  }

  /** p is still cached in r, and its entry changed in its lock count at most. */
  ghost predicate Kept(s: Cache, r: Cache, p: Ptr) {
    && p in s.heap && p in r.heap && Item(s.heap[p].key, Some(p)) in r.main
    && r.heap[p] == s.heap[p].(locks := r.heap[p].locks)
  }

  lemma KeptIfHeld(s: Cache, r: Cache, p: Ptr)
    requires Inv(r) && Held(r, p) && p in s.heap && p in r.heap
    requires r.heap[p] == s.heap[p].(locks := r.heap[p].locks)
    ensures Kept(s, r, p)
  {
    HeldEntryOk(r, p);
  }

  lemma LookupKept(s: Cache, step: Step, p: Ptr)
    requires Inv(s) && Enabled(s, step) && Held(s, p) && step.Lookup?
    ensures Kept(s, Next(s, step).0, p) && Held(Next(s, step).0, p)
  {
    hide Core, Miss;
    HeldEntryOk(s, p);
    var r := Next(s, step).0;
    assert Inv(r) by { StepKeeps(s, step); }
    if Find(s.main, step.key).None? && step.suppress != Some(true) {
      MissKeeps(s, step.key, step.newp);
    }
    KeptIfHeld(s, r, p);
  }

  lemma SetLimitsKept(s: Cache, min: nat, max: nat, p: Ptr)
    requires Inv(s) && Held(s, p)
    ensures Kept(s, DoSetLimits(s, min, max), p) && Held(DoSetLimits(s, min, max), p)
  {
    var lim := Limits(min, Some(max), s.lim.requested, Clamp(s.lim.requested, min, Some(max)));
    CoreRelimit(s, 0, lim);
    TrimKeeps(s.(lim := lim));
    assert Held(s.(lim := lim), p);
    KeptIfHeld(s, DoSetLimits(s, min, max), p);
  }

  lemma RollbackKept(s: Cache, q: Ptr, p: Ptr)
    requires Inv(s) && q in s.handles && Held(s, p) && p != q
    ensures Kept(s, DoRollback(s, q), p) && Held(DoRollback(s, q), p)
  {
    hide Core;
    HeldEntryOk(s, p);
    HeldEntryOk(s, q);
    RollbackKeeps(s, q);
    KeptIfHeld(s, DoRollback(s, q), p);
  }

  /**
    An entry that some thread produces or waits on is never evicted: every step
    that is not an action of its owners keeps it cached and unchanged.
   */
  lemma LockedStays(s: Cache, step: Step, p: Ptr)
    requires Inv(s) && Enabled(s, step) && Held(s, p) && !ActsOn(step, p)
    ensures Kept(s, Next(s, step).0, p) && Held(Next(s, step).0, p)
  {
    hide Inv, Kept, DoLookup, DoSetLimits, DoRollback, DoWake, DoWrite, DoCommit;
    match step
    case Lookup(_, _, _, _) => LookupKept(s, step, p);
    case SetLimits(min, max) => SetLimitsKept(s, min, max, p);
    case Rollback(q) => RollbackKept(s, q, p);
    case _ => EntryStepKept(s, step, p);
  }

  lemma EntryStepKept(s: Cache, step: Step, p: Ptr)
    requires Inv(s) && Enabled(s, step) && Held(s, p) && !ActsOn(step, p) && (step.Wake? || step.Write? || step.Commit?)
    ensures Kept(s, Next(s, step).0, p) && Held(Next(s, step).0, p)
  {
    hide Inv, Kept, Next;
    HeldEntryOk(s, p);
    StepKeeps(s, step);
    EntryStepFrame(s, step, p);
    KeptIfHeld(s, Next(s, step).0, p);
  }

  lemma EntryStepFrame(s: Cache, step: Step, p: Ptr)
    requires p in s.heap && Held(s, p) && !ActsOn(step, p) && (step.Wake? || step.Write? || step.Commit?)
    ensures var r := Next(s, step).0; p in r.heap && r.heap[p] == s.heap[p] && Held(r, p)
  {
    hide DoLookup, DoRollback, DoSetLimits, DoWake, DoWrite, DoCommit;
    match step
    case Wake(q) => WakeFrame(s, q, p);
    case Write(q, v) => WriteFrame(s, q, v, p);
    case Commit(q) => CommitFrame(s, q, p);
    case _ =>
  }

  lemma WakeFrame(s: Cache, q: Ptr, p: Ptr)
    requires p in s.heap && Held(s, p) && p != q
    ensures var r := DoWake(s, q).0; p in r.heap && r.heap[p] == s.heap[p] && Held(r, p)
  {
  }

  lemma WriteFrame(s: Cache, q: Ptr, v: Frame, p: Ptr)
    requires p in s.heap && Held(s, p) && p != q
    ensures var r := DoWrite(s, q, v); p in r.heap && r.heap[p] == s.heap[p] && Held(r, p)
  {
  }

  lemma CommitFrame(s: Cache, q: Ptr, p: Ptr)
    requires p in s.heap && Held(s, p) && p != q
    ensures var r := DoCommit(s, q); p in r.heap && r.heap[p] == s.heap[p] && Held(r, p)
  {
  }

  // ------------------------------------------------------ value agreement

  /** Producers compute f and store the frame only when they then commit; None: the computation throws. */
  ghost predicate Disciplined(f: Key -> Option<Frame>, s: Cache, step: Step) {
    match step
    case Write(p, v) => p in s.heap && f(s.heap[p].key) == Some(v)
    case Commit(p) => p in s.heap && s.heap[p].value.Some?
    case Rollback(p) => p in s.heap && s.heap[p].value.None?
    case _ => true
  }

  ghost predicate ValueOk(f: Key -> Option<Frame>, e: Entry) {
    && (e.value.Some? ==> e.value == f(e.key))
    && (e.state == Available ==> e.value.Some?)
    && (e.state == RolledBack ==> e.value.None?)
  }

  ghost predicate Agree(f: Key -> Option<Frame>, s: Cache) {
    forall p :: p in s.heap ==> ValueOk(f, s.heap[p])
  }

  ghost predicate SubHeap(r: Cache, s: Cache) {
    forall p :: p in r.heap ==> p in s.heap && r.heap[p] == s.heap[p]
  }

  lemma {:induction false} TrimSubHeap(s: Cache, pos: nat, lo: nat)
    requires pos <= |s.main|
    ensures SubHeap(TrimDown(s, pos, lo), s)
    decreases pos
  {
    if pos > lo {
      TrimSubHeap(Evict(s, pos - 1), pos - 1, lo);
    }
  }

  lemma ResizeSubHeap(s: Cache, capacity: nat)
    ensures SubHeap(Resize(s, capacity), s)
  {
    hide TrimDown, Clamp;
    var s1 := s.(lim := s.lim.(requested := capacity, cap := Clamp(capacity, s.lim.min, s.lim.max)));
    TrimSubHeap(s1, |s1.main|, s1.lim.cap);
  }

  lemma TuneSubHeap(s: Cache, key: Key)
    ensures SubHeap(Tune(s, key).0, s)
  {
    hide Resize, TouchGhost;
    var s1 := s.(ghosts := TouchGhost(s.ghosts, s.ghostCapacity, key).1, fault := s.fault || s.ghostCapacity == 0);
    ResizeSubHeap(s1, s1.lim.cap + 1);
  }

  /** A miss only adds an entry without a value. */
  ghost predicate SubHeapPlus(r: Cache, s: Cache) {
    forall p :: p in r.heap ==> (p in s.heap && r.heap[p] == s.heap[p]) || (r.heap[p].value.None? && r.heap[p].state == Empty)
  }

  lemma MissSubHeap(s: Cache, key: Key, newp: Ptr)
    ensures SubHeapPlus(Miss(s, key, newp).0, s)
  {
    hide TrimDown, Tune;
    TrimSubHeap(s, |s.main|, s.lim.cap);
    TuneSubHeap(Reserve(s, key), key);
  }

  lemma AgreeLookup(f: Key -> Option<Frame>, s: Cache, step: Step)
    requires Agree(f, s) && Inv(s) && step.Lookup?
    ensures Agree(f, Next(s, step).0)
  {
    hide Core, Miss;
    MissSubHeap(s, step.key, step.newp);
    var r := Next(s, step).0;
    forall p | p in r.heap ensures ValueOk(f, r.heap[p]) {
      if p in s.heap { assert ValueOk(f, s.heap[p]); }
    }
  }

  lemma AgreeUpdate(f: Key -> Option<Frame>, s: Cache, r: Cache, p: Ptr, e: Entry)
    requires Agree(f, s) && r.heap == s.heap[p := e] && ValueOk(f, e)
    ensures Agree(f, r)
  {
  }

  lemma AgreeWake(f: Key -> Option<Frame>, s: Cache, p: Ptr)
    requires Agree(f, s) && p in s.heap
    ensures Agree(f, DoWake(s, p).0)
  {
    assert ValueOk(f, s.heap[p]);
    var r := DoWake(s, p).0;
    AgreeUpdate(f, s, r, p, r.heap[p]);
  }

  lemma AgreeRollback(f: Key -> Option<Frame>, s: Cache, p: Ptr)
    requires Agree(f, s) && p in s.heap && s.heap[p].value.None?
    ensures Agree(f, DoRollback(s, p))
  {
    assert ValueOk(f, s.heap[p]);
    var r := DoRollback(s, p);
    AgreeUpdate(f, s, r, p, r.heap[p]);
  }

  lemma AgreeStep(f: Key -> Option<Frame>, s: Cache, step: Step)
    requires Agree(f, s) && Inv(s) && Enabled(s, step) && Disciplined(f, s, step)
    ensures Agree(f, Next(s, step).0)
  {
    hide Core, DoLookup, Resize, DoWake, DoRollback;
    match step
    case Lookup(_, _, _, _) => AgreeLookup(f, s, step);
    case Wake(p) => HeldEntryOk(s, p); AgreeWake(f, s, p);
    case Write(p, v) =>
      HeldEntryOk(s, p);
      assert ValueOk(f, s.heap[p]);
      AgreeUpdate(f, s, DoWrite(s, p, v), p, s.heap[p].(value := Some(v)));
    case Commit(p) =>
      assert ValueOk(f, s.heap[p]);
      AgreeUpdate(f, s, DoCommit(s, p), p, s.heap[p].(state := Available, locks := s.heap[p].locks - 1));
    case Rollback(p) => AgreeRollback(f, s, p);
    case SetLimits(min, max) => ResizeSubHeap(s.(lim := s.lim.(min := min, max := Some(max))), s.lim.requested);
  }

  ghost predicate DisciplinedRun(f: Key -> Option<Frame>, s: Cache, steps: seq<Step>)
    decreases |steps|
  {
    |steps| == 0 || (Disciplined(f, s, steps[0]) && DisciplinedRun(f, Next(s, steps[0]).0, steps[1..]))
  }

  lemma {:induction false} RunAgrees(f: Key -> Option<Frame>, s: Cache, steps: seq<Step>)
    requires Agree(f, s) && Inv(s) && IsRun(s, steps) && DisciplinedRun(f, s, steps)
    ensures Agree(f, Exec(s, steps)) && Inv(Exec(s, steps))
    decreases |steps|
  {
    hide Inv, Agree, Next, Disciplined;
    if |steps| > 0 {
      StepKeeps(s, steps[0]);
      AgreeStep(f, s, steps[0]);
      RunAgrees(f, Next(s, steps[0]).0, steps[1..]);
    }
  }

  /** A blocking lookup that begins on a rolled-back entry: the wait loop is skipped. */
  ghost predicate StaleRead(s: Cache, step: Step) {
    && step.Lookup? && step.block
    && exists it :: it in s.main && it.key == step.key && Stored(s, it) && s.heap[it.value.value].state == RolledBack
  }

  function KeyOf(s: Cache, step: Step): Key {
    if step.Lookup? then step.key else if step.Wake? && step.p in s.heap then s.heap[step.p].key else 0
  }

  lemma ReadyAgrees(f: Key -> Option<Frame>, s: Cache, step: Step)
    requires Agree(f, s) && Inv(s) && Enabled(s, step) && Next(s, step).1.Ready?
    ensures var v := Next(s, step).1.value;
      (v.Some? && v == f(KeyOf(s, step))) <==> !StaleRead(s, step)
  {
    match step
    case Wake(p) => HeldEntryOk(s, p);
    case Lookup(key, block, suppress, newp) =>
      assert s.main[0..] == s.main;
      var i := Find(s.main, key).value;
      assert SlotOk(s, s.main[i]);
      assert forall it :: it in s.main && it.key == key ==> it == s.main[i];
  }

  /**
    Cache agreement. Over every run of disciplined producers, a FOUND_AND_READY
    result for key k is f(k) exactly when the lookup is not a blocking one that
    begins on a rolled-back entry.
   */
  lemma CacheAgreement(f: Key -> Option<Frame>, capacity: nat, mode: CacheMode, steps: seq<Step>, step: Step)
    requires IsRun(Init(capacity, mode), steps) && DisciplinedRun(f, Init(capacity, mode), steps)
    requires var s := Exec(Init(capacity, mode), steps); Enabled(s, step) && Next(s, step).1.Ready?
    ensures var s := Exec(Init(capacity, mode), steps); var v := Next(s, step).1.value;
      (v.Some? && v == f(KeyOf(s, step))) <==> !StaleRead(s, step)
  {
    InitInv(capacity, mode);
    RunAgrees(f, Init(capacity, mode), steps);
    ReadyAgrees(f, Exec(Init(capacity, mode), steps), step);
  }

  /** With one blocking client (nobody else is blocked when it looks up) no read is stale. */
  lemma SoloClientNeverStale(s: Cache, step: Step)
    requires Inv(s) && Enabled(s, step)
    requires step.Lookup? && step.block ==> s.waiting == multiset{}
    ensures !StaleRead(s, step)
  {
    assert s.main[0..] == s.main;
    assert forall it :: it in s.main ==> SlotOk(s, it);
  }

  ghost predicate NoneRolledBack(s: Cache) {
    forall p :: p in s.heap ==> s.heap[p].state != RolledBack
  }

  lemma NoneRolledBackStep(s: Cache, step: Step)
    requires NoneRolledBack(s) && !step.Rollback?
    ensures NoneRolledBack(Next(s, step).0)
  {
    hide DoLookup, Resize, DoRollback, DoWake, DoWrite, DoCommit;
    match step
    case Lookup(_, _, _, _) => NoneRolledBackLookup(s, step);
    case SetLimits(min, max) => ResizeSubHeap(s.(lim := s.lim.(min := min, max := Some(max))), s.lim.requested);
    case Wake(p) => NoneRolledBackEntry(s, p, 0);
    case Write(p, v) => NoneRolledBackEntry(s, p, v);
    case Commit(p) => NoneRolledBackEntry(s, p, 0);
  }

  lemma NoneRolledBackEntry(s: Cache, p: Ptr, v: Frame)
    requires NoneRolledBack(s)
    ensures NoneRolledBack(DoWake(s, p).0) && NoneRolledBack(DoWrite(s, p, v)) && NoneRolledBack(DoCommit(s, p))
  {
  }

  lemma NoneRolledBackLookup(s: Cache, step: Step)
    requires NoneRolledBack(s) && step.Lookup?
    ensures NoneRolledBack(Next(s, step).0)
  {
    hide Miss;
    MissSubHeap(s, step.key, step.newp);
  }

  /** Without rollbacks no entry is ever rolled back, so no read is stale. */
  lemma {:induction false} NoRollbackNeverStale(s: Cache, steps: seq<Step>, step: Step)
    requires NoneRolledBack(s) && forall i :: 0 <= i < |steps| ==> !steps[i].Rollback?
    ensures !StaleRead(Exec(s, steps), step)
    decreases |steps|
  {
    hide Next;
    if |steps| > 0 {
      NoneRolledBackStep(s, steps[0]);
      NoRollbackNeverStale(Next(s, steps[0]).0, steps[1..], step);
    }
  }

  const LOOK7: seq<Step> := [Lookup(7, true, None, 0), Lookup(7, true, None, 1), Rollback(0)]

  function Look7(ghosts: seq<Item<nat>>, locks: int, state: EntryState, handles: multiset<Ptr>, waiting: multiset<Ptr>): Cache {
    Cache(NoResize, [Item(7, Some(0))], Limits(0, None, 1, 1), ghosts, GHOSTS_MIN_CAPACITY,
          map[0 := Entry(7, None, locks, 0, state)], handles, waiting, multiset{}, false)
  }

  lemma Look7First()
    ensures Next(Init(1, NoResize), LOOK7[0]) == (Look7([Item(7, 0)], 1, Empty, multiset{0}, multiset{}), NotFound(0))
  {
    var s := Init(1, NoResize);
    assert Trim(s) == s;
    var s1 := Reserve(s, 7);
    assert s1 == s.(main := [Item(7, None)]);
    var gs: seq<Item<nat>> := [Item(7, 0)];
    assert TouchGhost([], GHOSTS_MIN_CAPACITY, 7).1 == gs;
    var s2 := s1.(ghosts := gs);
    assert Tune(s1, 7) == (s2, false);
    assert Find(gs, 7) == Some(0);
    var r := Install(s2, 7, true, 0).0;
    assert r.main == [Item(7, Some(0))];
    assert r.heap == map[0 := Entry(7, None, 1, 0, Empty)] && r.handles == multiset{0};
  }

  const SEEN7: seq<Item<nat>> := [Item(7, 0)]

  /** The entry of key 7 with a producer, then with a waiter too, then rolled back. */
  const PRODUCED7: Cache := Look7(SEEN7, 1, Empty, multiset{0}, multiset{})
  const AWAITED7: Cache := Look7(SEEN7, 2, Empty, multiset{0}, multiset{0})
  const ROLLED7: Cache := Look7(SEEN7, 1, RolledBack, multiset{}, multiset{0})

  /** What the steps of LOOK7, and one more lookup, do. */
  lemma Look7Steps(newp: Ptr)
    ensures Next(Init(1, NoResize), LOOK7[0]) == (PRODUCED7, NotFound(0))
    ensures Next(PRODUCED7, LOOK7[1]) == (AWAITED7, Blocked(0))
    ensures Next(AWAITED7, LOOK7[2]) == (ROLLED7, Done)
    ensures Next(ROLLED7, Lookup(7, true, None, newp)) == (ROLLED7, Ready(None))
    ensures StaleRead(ROLLED7, Lookup(7, true, None, newp))
  {
    hide Miss;
    Look7First();
    assert Next(PRODUCED7, LOOK7[1]).0 == AWAITED7;
    assert Next(AWAITED7, LOOK7[2]).0 == ROLLED7;
    assert ROLLED7.main[0] in ROLLED7.main;
    assert ToFront(ROLLED7.main, 0) == ROLLED7.main;
  }

  /** The guard of CacheAgreement is needed: a second blocking client can read NULL after a rollback. */
  lemma StaleReadHappens()
    ensures var s := Exec(Init(1, NoResize), LOOK7); var last := Lookup(7, true, None, 2);
      && IsRun(Init(1, NoResize), LOOK7)
      && (forall f: Key -> Option<Frame> :: DisciplinedRun(f, Init(1, NoResize), LOOK7))
      && Enabled(s, last) && StaleRead(s, last) && Next(s, last).1 == Ready(None)
  {
    hide Next;
    Look7Steps(2);
    var s0, t1, t2 := Init(1, NoResize), LOOK7[1..], LOOK7[2..];
    assert t1[1..] == t2 && t2[1..] == [] && t1[0] == LOOK7[1] && t2[0] == LOOK7[2];
    assert Exec(s0, LOOK7) == Exec(PRODUCED7, t1) == Exec(AWAITED7, t2) == Exec(ROLLED7, []) == ROLLED7;
    assert IsRun(ROLLED7, []) && IsRun(AWAITED7, t2) && IsRun(PRODUCED7, t1);
    assert forall f: Key -> Option<Frame> :: DisciplinedRun(f, ROLLED7, []) && DisciplinedRun(f, AWAITED7, t2) && DisciplinedRun(f, PRODUCED7, t1);
  }

  // ---------------------------------------------------------------- growth

  lemma {:induction false} TrimLost(s: Cache, pos: nat, lo: nat, key: Key)
    requires pos <= |s.main| && forall it :: it in s.main ==> it.key != key
    ensures TrimDown(s, pos, lo).lost[key] == s.lost[key]
    decreases pos
  {
    if pos > lo {
      assert s.main[pos - 1] in s.main;
      TrimLost(Evict(s, pos - 1), pos - 1, lo, key);
    }
  }

  /** A miss on a key that was evicted or refused storage at least twice before. */
  predicate GrowthMiss(s: Cache, step: Step) {
    step.Lookup? && Find(s.main, step.key).None? && s.mode != NoResize && s.lost[step.key] >= 2
  }

  lemma CapacityStep(s: Cache, step: Step)
    requires Inv(s) && Enabled(s, step) && !step.SetLimits?
    ensures s.lim.cap <= Next(s, step).0.lim.cap <= s.lim.cap + (if GrowthMiss(s, step) then 1 else 0)
  {
    hide Core, Miss;
    if step.Lookup? && Find(s.main, step.key).None? && step.suppress != Some(true) {
      MissKeeps(s, step.key, step.newp);
      TrimLost(s, |s.main|, s.lim.cap, step.key);
    }
  }

  function GrowthMisses(s: Cache, steps: seq<Step>): nat
    decreases |steps|
  {
    if |steps| == 0 then 0
    else (if GrowthMiss(s, steps[0]) then 1 else 0) + GrowthMisses(Next(s, steps[0]).0, steps[1..])
  }

  /** Over whole runs the capacity never falls and rises at most once per growth miss; never in NoResize mode. */
  lemma {:induction false} ControlledGrowth(s: Cache, steps: seq<Step>)
    requires Inv(s) && IsRun(s, steps) && forall i :: 0 <= i < |steps| ==> !steps[i].SetLimits?
    ensures s.lim.cap <= Exec(s, steps).lim.cap <= s.lim.cap + GrowthMisses(s, steps)
    ensures s.mode == NoResize ==> Exec(s, steps).lim.cap == s.lim.cap
    decreases |steps|
  {
    hide Inv;
    if |steps| > 0 {
      var r := Next(s, steps[0]).0;
      StepKeeps(s, steps[0]);
      CapacityStep(s, steps[0]);
      ModeStep(s, steps[0]);
      ControlledGrowth(r, steps[1..]);
    }
  }

  lemma ModeStep(s: Cache, step: Step)
    requires Inv(s) && Enabled(s, step) && !step.SetLimits?
    ensures Next(s, step).0.mode == s.mode
  {
    hide Core, Miss;
    if step.Lookup? && Find(s.main, step.key).None? && step.suppress != Some(true) {
      MissKeeps(s, step.key, step.newp);
    }
  }

  /** In CACHE_NO_RESIZE mode only new limits change the capacity. */
  lemma NoResizeKeeps(s: Cache, step: Step)
    requires s.mode == NoResize && !step.SetLimits?
    ensures Next(s, step).0.mode == NoResize && Next(s, step).0.lim == s.lim
  {
    hide TouchGhost, TrimDown;
  }

  // ------------------------------------------------------- what callers see

  /** The effect of one lookup on the books of handles and waiters. */
  ghost predicate LookupEffect(s: Cache, step: Step, r: Cache, o: Outcome)
    requires step.Lookup?
  {
    match o
    case NotFound(p) =>
      && p == step.newp && r.handles == s.handles + multiset{p} && r.waiting == s.waiting
      && p in r.heap && r.heap[p].key == step.key && r.heap[p].value.None?
    case Blocked(p) =>
      && step.block && r.handles == s.handles && r.waiting == s.waiting + multiset{p}
      && p in r.heap && r.heap[p].key == step.key
    case Done => false
    case _ => r.handles == s.handles && r.waiting == s.waiting && (o.NotAvail? ==> !step.block)
  }

  lemma MissEffect(s: Cache, step: Step)
    requires Inv(s) && Enabled(s, step) && step.Lookup? && Find(s.main, step.key).None?
    ensures var (r, o) := Miss(s, step.key, step.newp); LookupEffect(s, step, r, o)
  {
    hide Core, Reserve, Tune;
    var k := if s.lim.cap != 0 then 1 else 0;
    ReserveKeeps(s, step.key);
    TuneKeeps(Reserve(s, step.key), step.key, k);
    CoreSane(Tune(Reserve(s, step.key), step.key).0, k);
  }

  lemma LookupBooks(s: Cache, step: Step)
    requires Inv(s) && Enabled(s, step) && step.Lookup?
    ensures var (r, o) := Next(s, step); LookupEffect(s, step, r, o)
  {
    hide Core, Miss;
    match Find(s.main, step.key) {
      case Some(i) => CoreSlot(s, 0, i);
      case None => if step.suppress != Some(true) { MissEffect(s, step); }
    }
  }

  ghost predicate HasEntry(s: Cache, key: Key) {
    exists it :: it in s.main && it.key == key
  }

  /** The answer of a lookup, told by what is cached and in which state. */
  lemma LookupAnswers(s: Cache, step: Step)
    requires Inv(s) && Enabled(s, step) && step.Lookup?
    ensures var o := Next(s, step).1;
      && (o.NotFound? <==> !HasEntry(s, step.key) && step.suppress != Some(true) && s.lim.cap > 0)
      && (o.NoCache? <==> !HasEntry(s, step.key) && (step.suppress == Some(true) || s.lim.cap == 0))
      && forall it :: it in s.main && it.key == step.key ==>
           var e := s.heap[it.value.value];
           && (o.NotAvail? <==> !step.block && e.state != Available)
           && (o.Blocked? <==> step.block && e.state == Empty)
           && (o.Ready? <==> e.state == Available || (step.block && e.state == RolledBack))
  {
    hide Core, Miss;
    InvUnique(s);
    match Find(s.main, step.key) {
      case Some(i) =>
        CoreSlot(s, 0, i);
        assert s.main[i] in s.main;
      case None => if step.suppress != Some(true) { MissAnswers(s, step); }
    }
  }

  lemma MissAnswers(s: Cache, step: Step)
    requires Inv(s) && Enabled(s, step) && step.Lookup? && Find(s.main, step.key).None?
    ensures Miss(s, step.key, step.newp).1 == if s.lim.cap > 0 then NotFound(step.newp) else NoCache
  {
    hide Core, Reserve, Tune;
    var k := if s.lim.cap != 0 then 1 else 0;
    ReserveKeeps(s, step.key);
    TuneKeeps(Reserve(s, step.key), step.key, k);
    CoreSane(Tune(Reserve(s, step.key), step.key).0, k);
  }
}
