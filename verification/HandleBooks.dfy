/**
  The books of producer handles: which threads hold which cache entries, and
  how every cache operation moves them. Shared by both prefetchers.
 */
module HandleBooks {
  import opened KeyedList
  import opened LruCache
  import LI = LruInvariants
  import LT = LruTheorems

  /** The life of one scheduled frame, from its reservation to the worker's last statement. */
  datatype Phase = Queued | Fetching | Stored | Failed | Flagging | Leaving

  datatype Task = Task(frame: int, p: Ptr, phase: Phase)

  // ---------------------------------------------------- books of handles

  predicate Holds(t: Task) {
    t.phase == Queued || t.phase == Fetching || t.phase == Stored || t.phase == Failed
  }

  function PtrOf(t: Task): multiset<Ptr> {
    if Holds(t) then multiset{t.p} else multiset{}
  }

  function Ptrs(tasks: seq<Task>): multiset<Ptr> {
    if tasks == [] then multiset{} else PtrOf(tasks[0]) + Ptrs(tasks[1..])
  }

  lemma {:induction false} PtrsWithout(tasks: seq<Task>, i: nat)
    requires i < |tasks|
    ensures Ptrs(tasks) == PtrOf(tasks[i]) + Ptrs(Without(tasks, i))
    decreases |tasks|
  {
    hide PtrOf;
    if i == 0 {
      assert Without(tasks, 0) == tasks[1..];
    } else {
      PtrsWithout(tasks[1..], i - 1);
      assert Without(tasks, i)[1..] == Without(tasks[1..], i - 1);
      var a, b, m := PtrOf(tasks[0]), PtrOf(tasks[i]), Ptrs(Without(tasks[1..], i - 1));
      assert a + (b + m) == b + (a + m);
    }
  }

  lemma PtrsUpdate(tasks: seq<Task>, i: nat, t: Task)
    requires i < |tasks|
    ensures Ptrs(tasks[i := t]) == PtrOf(t) + Ptrs(Without(tasks, i))
  {
    PtrsWithout(tasks[i := t], i);
    assert Without(tasks[i := t], i) == Without(tasks, i);
  }

  lemma PtrsAppend(tasks: seq<Task>, t: Task)
    ensures Ptrs(tasks + [t]) == Ptrs(tasks) + PtrOf(t)
  {
    PtrsWithout(tasks + [t], |tasks|);
    assert Without(tasks + [t], |tasks|) == tasks;
  }

  lemma PtrsMember(tasks: seq<Task>, i: nat)
    requires i < |tasks| && Holds(tasks[i])
    ensures tasks[i].p in Ptrs(tasks)
  {
    PtrsWithout(tasks, i);
  }

  /** If no pointer is held twice, the other holders hold other pointers. */
  lemma PtrsOthers(tasks: seq<Task>, i: nat, t: Task)
    requires i < |tasks| && Holds(tasks[i]) && Ptrs(tasks)[tasks[i].p] <= 1
    requires t in Without(tasks, i) && Holds(t)
    ensures t.p != tasks[i].p
  {
    PtrsWithout(tasks, i);
    var j :| 0 <= j < |Without(tasks, i)| && Without(tasks, i)[j] == t;
    PtrsMember(Without(tasks, i), j);
  }

  // ------------------------------------------------------------ invariant

  ghost predicate TaskOk(f: int -> Option<Frame>, c: Cache, t: Task) {
    && (Holds(t) ==> t.p in c.heap && c.heap[t.p].key == t.frame && (c.heap[t.p].value.Some? <==> t.phase == Stored))
    && (t.phase == Failed || t.phase == Flagging ==> f(t.frame).None?)
  }

  /** Cache and holders agree: nobody else holds a handle or waits. */
  ghost predicate Books(f: int -> Option<Frame>, c: Cache, tasks: seq<Task>, waiting: multiset<Ptr>) {
    && LI.Inv(c) && LT.Agree(f, c)
    && c.handles == Ptrs(tasks)
    && c.waiting == waiting
    && (forall t :: t in tasks ==> TaskOk(f, c, t))
  }

  ghost predicate SomeThrow(f: int -> Option<Frame>) {
    exists m :: f(m).None?
  }

  // --------------------------------------------------------- cache moves

  lemma TaskKept(f: int -> Option<Frame>, c: Cache, step: Step, t: Task)
    requires LI.Inv(c) && LruCache.Enabled(c, step) && TaskOk(f, c, t)
    requires Holds(t) ==> t.p in c.handles && !LT.ActsOn(step, t.p)
    ensures TaskOk(f, LruCache.Next(c, step).0, t)
  {
    hide LruCache.Next, LI.Inv;
    if Holds(t) {
      LT.LockedStays(c, step, t.p);
    }
  }

  /** A cache step that acts on none of the tasks leaves their books in order. */
  lemma CacheMoves(f: int -> Option<Frame>, c: Cache, step: Step, tasks: seq<Task>)
    requires LI.Inv(c) && LT.Agree(f, c) && LruCache.Enabled(c, step) && LT.Disciplined(f, c, step)
    requires forall t :: t in tasks ==> TaskOk(f, c, t) && (Holds(t) ==> t.p in c.handles && !LT.ActsOn(step, t.p))
    ensures var r := LruCache.Next(c, step).0;
      LI.Inv(r) && LT.Agree(f, r) && forall t :: t in tasks ==> TaskOk(f, r, t)
  {
    hide LruCache.Next, LI.Inv;
    LI.StepKeeps(c, step);
    LT.AgreeStep(f, c, step);
    forall t | t in tasks ensures TaskOk(f, LruCache.Next(c, step).0, t) {
      TaskKept(f, c, step, t);
    }
  }

  lemma HoldersHold(tasks: seq<Task>, t: Task)
    requires t in tasks && Holds(t)
    ensures t.p in Ptrs(tasks)
  {
    var i :| 0 <= i < |tasks| && tasks[i] == t;
    PtrsMember(tasks, i);
  }

  /** A lookup: the new handle, if any, becomes a task of the caller. */
  lemma LookupMoves(f: int -> Option<Frame>, c: Cache, step: Step, tasks: seq<Task>, waiting: multiset<Ptr>)
    requires Books(f, c, tasks, waiting) && step.Lookup? && LruCache.Enabled(c, step)
    ensures var (r, o) := LruCache.Next(c, step);
      && LT.LookupEffect(c, step, r, o)
      && (o.NotFound? ==> forall phase :: phase == Queued || phase == Fetching ==> Books(f, r, [Task(step.key, o.p, phase)] + tasks, waiting))
      && (o.Blocked? ==> Books(f, r, tasks, waiting + multiset{o.p}))
      && (!o.NotFound? && !o.Blocked? ==> Books(f, r, tasks, waiting))
  {
    hide LruCache.Next, LI.Inv, LT.Agree, TaskOk, Ptrs, Holds;
    forall t | t in tasks && Holds(t) ensures t.p in c.handles { HoldersHold(tasks, t); }
    CacheMoves(f, c, step, tasks);
    LT.LookupBooks(c, step);
    var (r, o) := LruCache.Next(c, step);
    if o.NotFound? {
      forall phase | phase == Queued || phase == Fetching
        ensures Books(f, r, [Task(step.key, o.p, phase)] + tasks, waiting)
      {
        NewTask(f, r, Task(step.key, o.p, phase), tasks);
      }
    }
  }

  /** A handle without a value becomes one more task. */
  lemma NewTask(f: int -> Option<Frame>, c: Cache, t: Task, tasks: seq<Task>)
    requires (t.phase == Queued || t.phase == Fetching) && t.p in c.heap && c.heap[t.p].key == t.frame && c.heap[t.p].value.None?
    ensures TaskOk(f, c, t) && Ptrs([t] + tasks) == Ptrs(tasks) + multiset{t.p}
    ensures forall u :: u in [t] + tasks ==> u == t || u in tasks
  {
    assert ([t] + tasks)[1..] == tasks && ([t] + tasks)[0] == t;
  }

  /** A cache step on the pointer of task i touches no other task. */
  lemma OthersUntouched(f: int -> Option<Frame>, c: Cache, step: Step, tasks: seq<Task>, i: nat, waiting: multiset<Ptr>, u: Task)
    requires Books(f, c, tasks, waiting) && i < |tasks| && Holds(tasks[i]) && u in Without(tasks, i)
    requires step == Commit(tasks[i].p) || step == Rollback(tasks[i].p) || (step.Write? && step.p == tasks[i].p)
    ensures TaskOk(f, c, u) && (Holds(u) ==> u.p in c.handles && !LT.ActsOn(step, u.p))
  {
    hide LI.Inv, LT.Agree;
    assert u in tasks;
    if Holds(u) {
      PtrsMember(tasks, i);
      SingleHandle(c, tasks[i].p);
      HoldersHold(tasks, u);
      PtrsOthers(tasks, i, u);
    }
  }

  /** The owner of task i acts on its pointer and turns it into t. */
  lemma OwnerMoves(f: int -> Option<Frame>, c: Cache, step: Step, tasks: seq<Task>, i: nat, t: Task, waiting: multiset<Ptr>)
    requires Books(f, c, tasks, waiting) && i < |tasks| && Holds(tasks[i])
    requires step == Commit(tasks[i].p) || step == Rollback(tasks[i].p) || (step.Write? && step.p == tasks[i].p)
    requires LruCache.Enabled(c, step) && LT.Disciplined(f, c, step)
    requires TaskOk(f, LruCache.Next(c, step).0, t)
    requires LruCache.Next(c, step).0.handles == c.handles - PtrOf(tasks[i]) + PtrOf(t)
    requires LruCache.Next(c, step).0.waiting == c.waiting
    ensures Books(f, LruCache.Next(c, step).0, tasks[i := t], waiting)
    ensures !Holds(t) ==> Books(f, LruCache.Next(c, step).0, Without(tasks, i), waiting)
  {
    hide LruCache.Next, LI.Inv, LT.Agree, LT.Disciplined, LT.ActsOn, Ptrs, TaskOk, PtrOf;
    OthersKept(f, c, step, tasks, i, waiting);
    OwnerPtrs(tasks, i, t);
    UpdatedMembers(tasks, i, t);
  }

  lemma OwnerPtrs(tasks: seq<Task>, i: nat, t: Task)
    requires i < |tasks|
    ensures Ptrs(tasks) - PtrOf(tasks[i]) + PtrOf(t) == Ptrs(tasks[i := t])
    ensures !Holds(t) ==> Ptrs(tasks) - PtrOf(tasks[i]) + PtrOf(t) == Ptrs(Without(tasks, i))
  {
    PtrsWithout(tasks, i);
    PtrsUpdate(tasks, i, t);
  }

  lemma OthersKept(f: int -> Option<Frame>, c: Cache, step: Step, tasks: seq<Task>, i: nat, waiting: multiset<Ptr>)
    requires Books(f, c, tasks, waiting) && i < |tasks| && Holds(tasks[i])
    requires step == Commit(tasks[i].p) || step == Rollback(tasks[i].p) || (step.Write? && step.p == tasks[i].p)
    requires LruCache.Enabled(c, step) && LT.Disciplined(f, c, step)
    ensures var r := LruCache.Next(c, step).0;
      LI.Inv(r) && LT.Agree(f, r) && forall u :: u in Without(tasks, i) ==> TaskOk(f, r, u)
  {
    hide LruCache.Next, LI.Inv, LT.Agree, LT.Disciplined, Ptrs, TaskOk, LT.ActsOn;
    var rest := Without(tasks, i);
    forall u | u in rest ensures TaskOk(f, c, u) && (Holds(u) ==> u.p in c.handles && !LT.ActsOn(step, u.p)) {
      OthersUntouched(f, c, step, tasks, i, waiting, u);
    }
    CacheMoves(f, c, step, rest);
  }

  lemma UpdatedMembers(tasks: seq<Task>, i: nat, t: Task)
    requires i < |tasks|
    ensures forall u :: u in tasks[i := t] ==> u == t || u in Without(tasks, i)
  {
    forall u | u in tasks[i := t] ensures u == t || u in Without(tasks, i) {
      var j :| 0 <= j < |tasks| && tasks[i := t][j] == u;
      if j != i { assert Without(tasks, i)[if j < i then j else j - 1] == u; }
    }
  }

  lemma SingleHandle(c: Cache, p: Ptr)
    requires LI.Inv(c) && p in c.handles
    ensures c.handles[p] == 1 && p in c.heap && c.heap[p].state == Empty && c.heap[p].locks == 1 + c.waiting[p]
  {
    LI.HeldEntryOk(c, p);
  }

  // -------------------------------------------------------- single actions

  /** Only the phase of a task changes, and it still holds, or not, the same handle. */
  lemma Relabel(f: int -> Option<Frame>, c: Cache, tasks: seq<Task>, i: nat, t: Task, waiting: multiset<Ptr>)
    requires Books(f, c, tasks, waiting) && i < |tasks| && PtrOf(t) == PtrOf(tasks[i]) && TaskOk(f, c, t)
    ensures Books(f, c, tasks[i := t], waiting)
  {
    PtrsWithout(tasks, i);
    PtrsUpdate(tasks, i, t);
  }

  /** A thread's entry keeps its key as long as the thread waits. */
  lemma KeyKept(c: Cache, step: Step, p: Ptr)
    requires LI.Inv(c) && p in c.waiting && LruCache.Enabled(c, step)
    ensures p in c.heap && p in LruCache.Next(c, step).0.heap && LruCache.Next(c, step).0.heap[p].key == c.heap[p].key
  {
    hide LI.Inv, DoLookup, DoSetLimits;
    LI.HeldEntryOk(c, p);
    if !LT.ActsOn(step, p) {
      LT.LockedStays(c, step, p);
    }
  }

  /** The three ways a wake-up can end, genuine or spurious. */
  lemma WakeMoves(f: int -> Option<Frame>, c: Cache, p: Ptr, tasks: seq<Task>, waiting: multiset<Ptr>)
    requires Books(f, c, tasks, waiting) && p in waiting
    ensures p in c.heap
    ensures var (r, o) := LruCache.Next(c, Wake(p));
      && (o == Blocked(p) || o.Ready? || o == NotFound(p))
      && (o.Blocked? ==> r == c)
      && (o.Ready? ==> o.value.Some? && o.value == f(c.heap[p].key) && Books(f, r, tasks, waiting - multiset{p}))
      && (o.NotFound? ==> Books(f, r, [Task(c.heap[p].key, p, Fetching)] + tasks, waiting - multiset{p}))
  {
    hide LI.Inv, LT.Agree, Ptrs, TaskOk;
    WakeFacts(f, c, p, waiting, tasks);
    if c.heap[p].state != Empty {
      WakeOthers(f, c, p, tasks, waiting);
      WakeTakesOver(f, c, p, tasks);
    }
  }

  lemma WakeFacts(f: int -> Option<Frame>, c: Cache, p: Ptr, waiting: multiset<Ptr>, tasks: seq<Task>)
    requires Books(f, c, tasks, waiting) && p in waiting
    ensures p in c.heap && LT.ValueOk(f, c.heap[p])
  {
    LI.HeldEntryOk(c, p);
  }

  lemma WakeTakesOver(f: int -> Option<Frame>, c: Cache, p: Ptr, tasks: seq<Task>)
    requires p in c.waiting && p in c.heap && LT.ValueOk(f, c.heap[p])
    ensures var t := Task(c.heap[p].key, p, Fetching);
      && Ptrs([t] + tasks) == Ptrs(tasks) + multiset{p}
      && (c.heap[p].state == RolledBack ==> TaskOk(f, LruCache.Next(c, Wake(p)).0, t))
      && (forall u :: u in [t] + tasks ==> u == t || u in tasks)
  {
    assert ([Task(c.heap[p].key, p, Fetching)] + tasks)[1..] == tasks;
  }

  lemma WakeOthers(f: int -> Option<Frame>, c: Cache, p: Ptr, tasks: seq<Task>, waiting: multiset<Ptr>)
    requires Books(f, c, tasks, waiting) && p in waiting && p in c.heap && c.heap[p].state != Empty
    ensures var r := LruCache.Next(c, Wake(p)).0;
      LI.Inv(r) && LT.Agree(f, r) && forall t :: t in tasks ==> TaskOk(f, r, t)
  {
    hide LI.Inv, LT.Agree, LruCache.Next, TaskOk, Ptrs;
    forall t | t in tasks && Holds(t) ensures t.p in c.handles && t.p != p {
      HoldersHold(tasks, t);
      SingleHandle(c, t.p);
    }
    CacheMoves(f, c, Wake(p), tasks);
  }

  /** The only blocking client never reads a stale entry. */
  lemma DemandReady(f: int -> Option<Frame>, c: Cache, step: Step, tasks: seq<Task>)
    requires Books(f, c, tasks, multiset{}) && step.Lookup? && LruCache.Enabled(c, step) && LruCache.Next(c, step).1.Ready?
    ensures LruCache.Next(c, step).1.value.Some? && LruCache.Next(c, step).1.value == f(step.key)
  {
    hide LI.Inv, LT.Agree, LruCache.Next;
    LT.SoloClientNeverStale(c, step);
    LT.ReadyAgrees(f, c, step);
  }

  // ------------------------------------------------- what an owner can do

  lemma BooksOwner(f: int -> Option<Frame>, c: Cache, tasks: seq<Task>, i: nat, waiting: multiset<Ptr>)
    requires Books(f, c, tasks, waiting) && i < |tasks| && Holds(tasks[i])
    ensures var p := tasks[i].p;
      && TaskOk(f, c, tasks[i]) && p in c.handles && c.handles[p] == 1
      && c.heap[p].state == Empty && c.heap[p].locks == 1 + c.waiting[p] && c.waiting == waiting
  {
    hide LI.Inv, LT.Agree;
    PtrsMember(tasks, i);
    SingleHandle(c, tasks[i].p);
  }

  lemma OwnerWrites(f: int -> Option<Frame>, c: Cache, tasks: seq<Task>, i: nat, waiting: multiset<Ptr>, v: Frame)
    requires Books(f, c, tasks, waiting) && i < |tasks| && tasks[i].phase == Fetching && f(tasks[i].frame) == Some(v)
    ensures Books(f, LruCache.Next(c, Write(tasks[i].p, v)).0, tasks[i := tasks[i].(phase := Stored)], waiting)
  {
    hide Books;
    BooksOwner(f, c, tasks, i, waiting);
    OwnerMoves(f, c, Write(tasks[i].p, v), tasks, i, tasks[i].(phase := Stored), waiting);
  }

  lemma OwnerCommits(f: int -> Option<Frame>, c: Cache, tasks: seq<Task>, i: nat, waiting: multiset<Ptr>, t: Task)
    requires Books(f, c, tasks, waiting) && i < |tasks| && tasks[i].phase == Stored && t.phase == Leaving
    ensures var r := LruCache.Next(c, Commit(tasks[i].p)).0;
      Books(f, r, tasks[i := t], waiting) && Books(f, r, Without(tasks, i), waiting)
  {
    hide Books;
    BooksOwner(f, c, tasks, i, waiting);
    OwnerMoves(f, c, Commit(tasks[i].p), tasks, i, t, waiting);
  }

  lemma OwnerRollsBack(f: int -> Option<Frame>, c: Cache, tasks: seq<Task>, i: nat, waiting: multiset<Ptr>, t: Task)
    requires Books(f, c, tasks, waiting) && i < |tasks| && (tasks[i].phase == Queued || tasks[i].phase == Failed)
    requires t.phase == Leaving || (t.phase == Flagging && t.frame == tasks[i].frame && tasks[i].phase == Failed)
    ensures var r := LruCache.Next(c, Rollback(tasks[i].p)).0;
      Books(f, r, tasks[i := t], waiting) && Books(f, r, Without(tasks, i), waiting)
  {
    hide Books, Find;
    BooksOwner(f, c, tasks, i, waiting);
    OwnerMoves(f, c, Rollback(tasks[i].p), tasks, i, t, waiting);
  }

  lemma BooksRotate(f: int -> Option<Frame>, c: Cache, t: Task, tasks: seq<Task>, waiting: multiset<Ptr>)
    requires Books(f, c, [t] + tasks, waiting)
    ensures Books(f, c, tasks + [t], waiting)
  {
    PtrsAppend(tasks, t);
    assert ([t] + tasks)[1..] == tasks;
    forall u | u in tasks + [t] ensures u in [t] + tasks {}
  }

  lemma BooksDrop(f: int -> Option<Frame>, c: Cache, tasks: seq<Task>, i: nat, waiting: multiset<Ptr>)
    requires Books(f, c, tasks, waiting) && i < |tasks|
    ensures TaskOk(f, c, tasks[i])
    ensures !Holds(tasks[i]) ==> Books(f, c, Without(tasks, i), waiting)
  {
    PtrsWithout(tasks, i);
    forall u | u in Without(tasks, i) ensures u in tasks {}
  }

  lemma TaskOkRelabel(f: int -> Option<Frame>, c: Cache, t: Task, phase: Phase)
    requires TaskOk(f, c, t)
    requires (t.phase == Queued && phase == Fetching) || phase == Leaving || (t.phase == Fetching && phase == Failed && f(t.frame).None?)
    ensures TaskOk(f, c, t.(phase := phase))
  {
  }

  /** Fresh memory can always be had. */
  lemma {:induction false} Bound(keys: set<Ptr>) returns (b: Ptr)
    ensures forall q :: q in keys ==> q < b
    decreases |keys|
  {
    b := 0;
    if keys != {} {
      var k :| k in keys;
      var rest := keys - {k};
      var m := Bound(rest);
      b := if k < m then m else k + 1;
      assert forall q :: q in keys ==> q == k || q in rest;
    }
  }
}
