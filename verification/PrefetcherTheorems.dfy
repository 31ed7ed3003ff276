/**
  Prefetching is transparent: for any number of workers and any interleaving,
  GetFrame returns the child's frame or raises because the child threw.
 */
module PrefetcherTheorems {
  import opened KeyedList
  import opened LruCache
  import LI = LruInvariants
  import LT = LruTheorems
  import StrideLock
  import opened HandleBooks
  import opened P = Prefetcher

  /** The client's own handle, seen as one more task. */
  function ClientTasks(c: Client): seq<Task> {
    match c
    case Reserving(_, pos, _, p) => [Task(pos, p, Queued)]
    case Pushing(_, pos, _, p) => [Task(pos, p, Queued)]
    case Producing(n, _, p) => [Task(n, p, Fetching)]
    case Storing(n, _, p, _) => [Task(n, p, Stored)]
    case Failing(n, p) => [Task(n, p, Failed)]
    case _ => []
  }

  function All(s: Sys): seq<Task> {
    ClientTasks(s.client) + s.tasks
  }

  lemma Offset(own: seq<Task>, tasks: seq<Task>, i: nat, t: Task)
    requires i < |tasks|
    ensures (own + tasks)[|own| + i] == tasks[i]
    ensures own + tasks[i := t] == (own + tasks)[|own| + i := t]
    ensures own + Without(tasks, i) == Without(own + tasks, |own| + i)
  {
  }

  function Waits(c: Client): multiset<Ptr> {
    if c.Waiting? then multiset{c.p} else multiset{}
  }

  predicate PassOk(f: int -> Option<Frame>, n: int, pass: Pass) {
    pass.Second? ==> pass.result.Some? && pass.result == f(n)
  }

  /** The scheduling position never falls behind the request, seen along the stride. */
  predicate Ahead(n: int, pos: int, step: int) {
    step != 0 && (step > 0 ==> pos >= n) && (step < 0 ==> pos <= n)
  }

  ghost predicate ClientOk(f: int -> Option<Frame>, s: Sys) {
    var step := StrideLock.Step(s.stride);
    match s.client
    case Scheduling(n, pos, pass) => PassOk(f, n, pass) && Ahead(n, pos, step)
    case Reserving(n, pos, pass, _) => PassOk(f, n, pass) && Ahead(n, pos, step)
    case Pushing(n, pos, pass, _) => PassOk(f, n, pass) && Ahead(n, pos, step)
    case Wanting(n, pos) => Ahead(n, pos, step)
    case Waiting(n, pos, p) => Ahead(n, pos, step) && p in s.cache.heap && s.cache.heap[p].key == n
    case Producing(n, pos, _) => Ahead(n, pos, step)
    case Direct(n, pos) => Ahead(n, pos, step)
    case Storing(n, pos, _, v) => Ahead(n, pos, step) && f(n) == Some(v)
    case Failing(n, _) => f(n).None?
    case Returned(n, result) => result.Some? && result == f(n)
    case Raised(_) => SomeThrow(f)
    case _ => true
  }

  function Pending(c: Client): nat {
    if c.Pushing? then 1 else 0
  }

  function SchedulerHeld(c: Client): nat {
    if c.Pushing? || c.Reserving? then 1 else 0
  }

  ghost predicate CountsOk(cfg: Config, s: Sys) {
    && (!s.client.Draining? && !s.client.Closed? ==> s.running == |s.tasks| + Pending(s.client))
    && 0 <= |s.tasks| <= s.running <= cfg.window
    && (s.client.Reserving? ==> s.running < cfg.window)
    && s.issued == s.resolved + |Ptrs(s.tasks)| + SchedulerHeld(s.client)
    && (s.client.Closed? ==> s.tasks == [])
  }

  ghost predicate Inv(f: int -> Option<Frame>, cfg: Config, s: Sys) {
    && Books(f, s.cache, All(s), Waits(s.client))
    && ClientOk(f, s)
    && CountsOk(cfg, s)
    && (s.exn ==> SomeThrow(f))
    && StrideLock.Inv(s.stride)
  }

  lemma StepScheduleStops(f: int -> Option<Frame>, cfg: Config, s: Sys, newp: Ptr)
    requires Inv(f, cfg, s) && s.client.Scheduling?
    requires !LoopOn(cfg, s) || s.client.pos + StrideLock.Step(s.stride) >= cfg.frames
    ensures Inv(f, cfg, NextSchedule(cfg, s, newp))
  {
    hide Books, LruCache.Next, StrideLock.Inv, Ptrs;
    ClientAlone(f, cfg, s, NextSchedule(cfg, s, newp));
  }

  lemma StepScheduleLooks(f: int -> Option<Frame>, cfg: Config, s: Sys, newp: Ptr)
    requires Inv(f, cfg, s) && s.client.Scheduling? && newp !in s.cache.heap
    requires LoopOn(cfg, s) && s.client.pos + StrideLock.Step(s.stride) < cfg.frames
    ensures Inv(f, cfg, NextSchedule(cfg, s, newp))
  {
    hide Books, LruCache.Next, StrideLock.Inv, Ptrs;
    var r, pos := NextSchedule(cfg, s, newp), s.client.pos + StrideLock.Step(s.stride);
    var step := Lookup(pos, false, None, newp);
    assert All(s) == s.tasks;
    LookupMoves(f, s.cache, step, s.tasks, multiset{});
    var o := LruCache.Next(s.cache, step).1;
    assert All(r) == if o.NotFound? then [Task(pos, o.p, Queued)] + s.tasks else s.tasks;
  }

  lemma StepSchedule(f: int -> Option<Frame>, cfg: Config, s: Sys, newp: Ptr)
    requires Inv(f, cfg, s) && CanDo(cfg, s, Schedule(newp))
    ensures Inv(f, cfg, Do(f, cfg, s, Schedule(newp)))
  {
    hide Inv, NextSchedule, LruCache.Next;
    if LoopOn(cfg, s) && s.client.pos + StrideLock.Step(s.stride) < cfg.frames {
      StepScheduleLooks(f, cfg, s, newp);
    } else {
      StepScheduleStops(f, cfg, s, newp);
    }
  }

  lemma StepDemand(f: int -> Option<Frame>, cfg: Config, s: Sys, newp: Ptr)
    requires Inv(f, cfg, s) && CanDo(cfg, s, Demand(newp))
    ensures Inv(f, cfg, Do(f, cfg, s, Demand(newp)))
  {
    hide Books, LruCache.Next, StrideLock.Inv, Ptrs;
    var r := Do(f, cfg, s, Demand(newp));
    var step := Lookup(s.client.n, true, None, newp);
    assert All(s) == s.tasks;
    LookupMoves(f, s.cache, step, s.tasks, multiset{});
    var o := LruCache.Next(s.cache, step).1;
    if o.Ready? {
      DemandReady(f, s.cache, step, s.tasks);
    }
    assert All(r) == if o.NotFound? then [Task(s.client.n, o.p, Fetching)] + s.tasks else s.tasks;
    assert multiset{} + Waits(r.client) == Waits(r.client);
  }

  lemma StepWake(f: int -> Option<Frame>, cfg: Config, s: Sys)
    requires Inv(f, cfg, s) && CanDo(cfg, s, WakeUp)
    ensures Inv(f, cfg, Do(f, cfg, s, WakeUp))
  {
    hide Books, LruCache.Next, StrideLock.Inv, Ptrs;
    var r := Do(f, cfg, s, WakeUp);
    assert All(s) == s.tasks;
    WakeMoves(f, s.cache, s.client.p, s.tasks, multiset{s.client.p});
    assert multiset{s.client.p} - multiset{s.client.p} == multiset{};
    var o := LruCache.Next(s.cache, Wake(s.client.p)).1;
    assert All(r) == if o.NotFound? then [Task(s.client.n, o.p, Fetching)] + s.tasks else s.tasks;
  }

  lemma StepProduceHeld(f: int -> Option<Frame>, cfg: Config, s: Sys)
    requires Inv(f, cfg, s) && s.client.Producing?
    ensures Inv(f, cfg, NextProduce(f, s))
  {
    hide Books, LruCache.Next, StrideLock.Inv, Ptrs, TaskOk;
    var r := NextProduce(f, s);
    var t := ClientTasks(s.client)[0];
    assert All(s)[0] == t;
    if f(t.frame).Some? {
      OwnerWrites(f, s.cache, All(s), 0, multiset{}, f(t.frame).value);
      assert All(r) == All(s)[0 := t.(phase := Stored)];
    } else {
      BooksDrop(f, s.cache, All(s), 0, multiset{});
      TaskOkRelabel(f, s.cache, t, Failed);
      Relabel(f, s.cache, All(s), 0, t.(phase := Failed), multiset{});
      assert All(r) == All(s)[0 := t.(phase := Failed)];
    }
  }

  lemma StepProduceDirect(f: int -> Option<Frame>, cfg: Config, s: Sys)
    requires Inv(f, cfg, s) && s.client.Direct?
    ensures Inv(f, cfg, NextProduce(f, s))
  {
    hide Books, Ptrs, StrideLock.Inv, LruCache.Next;
    ClientAlone(f, cfg, s, NextProduce(f, s));
  }

  lemma StepSettle(f: int -> Option<Frame>, cfg: Config, s: Sys)
    requires Inv(f, cfg, s) && CanDo(cfg, s, Settle)
    ensures Inv(f, cfg, Do(f, cfg, s, Settle))
  {
    hide Books, LruCache.Next, StrideLock.Inv, Ptrs;
    var r := Do(f, cfg, s, Settle);
    var t := ClientTasks(s.client)[0];
    assert All(s)[0] == t;
    if s.client.Storing? {
      OwnerCommits(f, s.cache, All(s), 0, multiset{}, t.(phase := Leaving));
    } else {
      OwnerRollsBack(f, s.cache, All(s), 0, multiset{}, t.(phase := Leaving));
    }
    assert All(r) == Without(All(s), 0);
  }

  // --------------------------------------------------------------- workers

  /** A worker's act changes the cache by one step and its own task; the client is not disturbed. */
  lemma ClientUndisturbed(f: int -> Option<Frame>, s: Sys, r: Sys, step: Step)
    requires ClientOk(f, s) && Books(f, s.cache, All(s), Waits(s.client)) && LruCache.Enabled(s.cache, step)
    requires r.client == s.client && r.stride == s.stride
    requires r.cache == LruCache.Next(s.cache, step).0
    ensures ClientOk(f, r)
  {
    hide LruCache.Next, LI.Inv, LT.Agree;
    if s.client.Waiting? {
      KeyKept(s.cache, step, s.client.p);
    }
  }

  lemma StepWorkerFetch(f: int -> Option<Frame>, cfg: Config, s: Sys, i: nat)
    requires Inv(f, cfg, s) && HasTask(s, i, Fetching)
    ensures Inv(f, cfg, NextFetch(f, s, i))
  {
    hide Books, LruCache.Next, StrideLock.Inv, Ptrs, ClientOk;
    var r := NextFetch(f, s, i);
    var k, t := |ClientTasks(s.client)| + i, s.tasks[i];
    assert All(s)[k] == t;
    BooksOwner(f, s.cache, All(s), k, Waits(s.client));
    PtrsWithout(s.tasks, i);
    if f(t.frame).Some? {
      var v := f(t.frame).value;
      OwnerWrites(f, s.cache, All(s), k, Waits(s.client), v);
      PtrsUpdate(s.tasks, i, t.(phase := Stored));
      ClientUndisturbed(f, s, r, Write(t.p, v));
      assert All(r) == All(s)[k := t.(phase := Stored)];
    } else {
      RelabelSys(f, cfg, s, i, t.(phase := Failed), s.exn);
    }
  }

  lemma SameClient(f: int -> Option<Frame>, s: Sys, r: Sys)
    requires ClientOk(f, s) && r.client == s.client && r.stride == s.stride && r.cache == s.cache
    ensures ClientOk(f, r)
  {
  }

  /** Task i gives up its handle by `step` and becomes t. */
  lemma ResolveSys(f: int -> Option<Frame>, cfg: Config, s: Sys, i: nat, t: Task, step: Step)
    requires Inv(f, cfg, s) && i < |s.tasks| && Holds(s.tasks[i]) && !Holds(t) && LruCache.Enabled(s.cache, step)
    requires var k := |ClientTasks(s.client)| + i; Books(f, LruCache.Next(s.cache, step).0, All(s)[k := t], Waits(s.client))
    ensures Inv(f, cfg, s.(cache := LruCache.Next(s.cache, step).0, tasks := s.tasks[i := t], resolved := s.resolved + 1))
  {
    hide Books, LruCache.Next, StrideLock.Inv, Ptrs, ClientOk;
    var r := s.(cache := LruCache.Next(s.cache, step).0, tasks := s.tasks[i := t], resolved := s.resolved + 1);
    PtrsWithout(s.tasks, i);
    PtrsUpdate(s.tasks, i, t);
    assert All(r) == All(s)[|ClientTasks(s.client)| + i := t];
    ClientUndisturbed(f, s, r, step);
  }

  lemma InvBooks(f: int -> Option<Frame>, cfg: Config, s: Sys)
    requires Inv(f, cfg, s)
    ensures Books(f, s.cache, All(s), Waits(s.client))
  {
  }

  lemma StepWorkerResolve(f: int -> Option<Frame>, cfg: Config, s: Sys, i: nat)
    requires Inv(f, cfg, s) && CanDo(cfg, s, WorkerResolve(i))
    ensures Inv(f, cfg, Do(f, cfg, s, WorkerResolve(i)))
  {
    hide Books, LruCache.Next, Inv, ClientTasks, Waits;
    var k, t := |ClientTasks(s.client)| + i, s.tasks[i];
    Offset(ClientTasks(s.client), s.tasks, i, t);
    InvBooks(f, cfg, s);
    BooksOwner(f, s.cache, All(s), k, Waits(s.client));
    if t.phase == Stored {
      OwnerCommits(f, s.cache, All(s), k, Waits(s.client), t.(phase := Leaving));
      ResolveSys(f, cfg, s, i, t.(phase := Leaving), Commit(t.p));
    } else {
      OwnerRollsBack(f, s.cache, All(s), k, Waits(s.client), t.(phase := Flagging));
      ResolveSys(f, cfg, s, i, t.(phase := Flagging), Rollback(t.p));
    }
  }

  lemma StepDrain(f: int -> Option<Frame>, cfg: Config, s: Sys)
    requires Inv(f, cfg, s) && CanDo(cfg, s, Drain)
    ensures Inv(f, cfg, Do(f, cfg, s, Drain))
  {
    hide Books, LruCache.Next, StrideLock.Inv, Ptrs;
    var r := Do(f, cfg, s, Drain);
    assert All(s) == s.tasks && All(r) == Without(s.tasks, 0);
    AllQueued(s.tasks);
    PtrsWithout(s.tasks, 0);
    OwnerRollsBack(f, s.cache, s.tasks, 0, multiset{}, s.tasks[0].(phase := Leaving));
  }

  lemma {:induction false} AllQueued(tasks: seq<Task>)
    ensures QueueLength(tasks) <= |tasks|
    ensures QueueLength(tasks) == |tasks| && tasks != [] ==> tasks[0].phase == Queued
    decreases |tasks|
  {
    if tasks != [] {
      AllQueued(tasks[1..]);
    }
  }

  /** The client moves on; cache, jobs and handles stay as they are. */
  lemma ClientAlone(f: int -> Option<Frame>, cfg: Config, s: Sys, r: Sys)
    requires Inv(f, cfg, s) && r.cache == s.cache && r.tasks == s.tasks && r.exn == s.exn
    requires ClientTasks(r.client) == ClientTasks(s.client) && Waits(r.client) == Waits(s.client)
    requires ClientOk(f, r) && CountsOk(cfg, r) && StrideLock.Inv(r.stride)
    ensures Inv(f, cfg, r)
  {
    hide Books, ClientOk, CountsOk, StrideLock.Inv;
    assert All(r) == All(s);
  }

  lemma StepRequest(f: int -> Option<Frame>, cfg: Config, s: Sys, n: int)
    requires Inv(f, cfg, s) && AtRest(s.client)
    ensures Inv(f, cfg, s.(stride := StrideLock.Observe(s.stride, n), client := Checking(n)))
  {
    hide Books, StrideLock.Observe, StrideLock.Inv, Ptrs;
    StrideLock.ObserveKeeps(s.stride, n);
    ClientAlone(f, cfg, s, s.(stride := StrideLock.Observe(s.stride, n), client := Checking(n)));
  }

  lemma StepCheck(f: int -> Option<Frame>, cfg: Config, s: Sys)
    requires Inv(f, cfg, s) && s.client.Checking?
    ensures var n := s.client.n; Inv(f, cfg, s.(client := if s.exn then Raised(n) else Scheduling(n, n, First)))
  {
    hide Books, Ptrs;
    var n := s.client.n;
    ClientAlone(f, cfg, s, s.(client := if s.exn then Raised(n) else Scheduling(n, n, First)));
  }

  lemma StepCount(f: int -> Option<Frame>, cfg: Config, s: Sys)
    requires Inv(f, cfg, s) && s.client.Reserving?
    ensures var c := s.client; Inv(f, cfg, s.(running := s.running + 1, client := Pushing(c.n, c.pos, c.pass, c.p)))
  {
    hide Books, Ptrs, StrideLock.Inv;
    var c := s.client;
    ClientAlone(f, cfg, s, s.(running := s.running + 1, client := Pushing(c.n, c.pos, c.pass, c.p)));
  }

  lemma StepShutdown(f: int -> Option<Frame>, cfg: Config, s: Sys, closed: bool)
    requires Inv(f, cfg, s) && (if closed then s.client.Draining? && s.tasks == [] else AtRest(s.client))
    ensures Inv(f, cfg, s.(client := if closed then Closed else Draining))
  {
    hide Books, Ptrs, StrideLock.Inv;
    ClientAlone(f, cfg, s, s.(client := if closed then Closed else Draining));
  }

  /** Acts that leave the cache alone: the books only change by relabelling or reordering. */
  lemma StepLocal(f: int -> Option<Frame>, cfg: Config, s: Sys, a: Act)
    requires Inv(f, cfg, s) && CanDo(cfg, s, a)
    requires a.Request? || a.Check? || a.Count? || a.Shut? || a.Close?
    ensures Inv(f, cfg, Do(f, cfg, s, a))
  {
    hide Inv;
    match a
    case Request(n) => StepRequest(f, cfg, s, n);
    case Check => StepCheck(f, cfg, s);
    case Count => StepCount(f, cfg, s);
    case Shut => StepShutdown(f, cfg, s, false);
    case Close => StepShutdown(f, cfg, s, true);
  }

  lemma StepPush(f: int -> Option<Frame>, cfg: Config, s: Sys)
    requires Inv(f, cfg, s) && CanDo(cfg, s, Push)
    ensures Inv(f, cfg, Do(f, cfg, s, Push))
  {
    hide Books, StrideLock.Inv, Ptrs;
    var r := Do(f, cfg, s, Push);
    var t := Task(s.client.pos, s.client.p, Queued);
    assert All(s) == [t] + s.tasks && All(r) == s.tasks + [t];
    PtrsAppend(s.tasks, t);
    BooksRotate(f, s.cache, t, s.tasks, multiset{});
  }

  lemma StepLeave(f: int -> Option<Frame>, cfg: Config, s: Sys, i: nat)
    requires Inv(f, cfg, s) && CanDo(cfg, s, WorkerLeave(i))
    ensures Inv(f, cfg, Do(f, cfg, s, WorkerLeave(i)))
  {
    hide Books, StrideLock.Inv, ClientOk, Ptrs;
    var r := Do(f, cfg, s, WorkerLeave(i));
    var k := |ClientTasks(s.client)| + i;
    Offset(ClientTasks(s.client), s.tasks, i, s.tasks[i]);
    BooksDrop(f, s.cache, All(s), k, Waits(s.client));
    PtrsWithout(s.tasks, i);
    SameClient(f, s, r);
  }

  /** Only the label of task i changes. */
  lemma RelabelSys(f: int -> Option<Frame>, cfg: Config, s: Sys, i: nat, t: Task, exn: bool)
    requires Inv(f, cfg, s) && i < |s.tasks| && PtrOf(t) == PtrOf(s.tasks[i])
    requires TaskOk(f, s.cache, t) && (exn ==> SomeThrow(f))
    ensures Inv(f, cfg, s.(tasks := s.tasks[i := t], exn := exn))
  {
    hide Books, StrideLock.Inv, ClientOk, Ptrs, TaskOk, PtrOf;
    var r := s.(tasks := s.tasks[i := t], exn := exn);
    var k := |ClientTasks(s.client)| + i;
    Offset(ClientTasks(s.client), s.tasks, i, t);
    PtrsWithout(s.tasks, i);
    PtrsUpdate(s.tasks, i, t);
    SameClient(f, s, r);
    Relabel(f, s.cache, All(s), k, t, Waits(s.client));
  }

  lemma TaskOkAt(f: int -> Option<Frame>, cfg: Config, s: Sys, i: nat)
    requires Inv(f, cfg, s) && i < |s.tasks|
    ensures TaskOk(f, s.cache, s.tasks[i])
  {
    assert s.tasks[i] in All(s);
  }

  lemma FlagShows(f: int -> Option<Frame>, cfg: Config, s: Sys, i: nat)
    requires Inv(f, cfg, s) && HasTask(s, i, Flagging)
    ensures SomeThrow(f)
  {
    hide Books, ClientOk, StrideLock.Inv;
    TaskOkAt(f, cfg, s, i);
  }

  lemma InvExn(f: int -> Option<Frame>, cfg: Config, s: Sys)
    requires Inv(f, cfg, s)
    ensures s.exn ==> SomeThrow(f)
  {
    hide Books, ClientOk, StrideLock.Inv, CountsOk;
  }

  lemma PopPtr(t: Task, phase: Phase)
    requires (t.phase == Queued && phase == Fetching) || (t.phase == Flagging && phase == Leaving)
    ensures PtrOf(t.(phase := phase)) == PtrOf(t)
  {
  }

  lemma StepPop(f: int -> Option<Frame>, cfg: Config, s: Sys, i: nat)
    requires Inv(f, cfg, s) && HasTask(s, i, Queued)
    ensures Inv(f, cfg, s.(tasks := s.tasks[i := s.tasks[i].(phase := Fetching)]))
  {
    hide Inv, TaskOk, SomeThrow, PtrOf;
    TaskOkAt(f, cfg, s, i);
    InvExn(f, cfg, s);
    TaskOkRelabel(f, s.cache, s.tasks[i], Fetching);
    PopPtr(s.tasks[i], Fetching);
    RelabelSys(f, cfg, s, i, s.tasks[i].(phase := Fetching), s.exn);
  }

  lemma StepFlag(f: int -> Option<Frame>, cfg: Config, s: Sys, i: nat)
    requires Inv(f, cfg, s) && HasTask(s, i, Flagging)
    ensures Inv(f, cfg, s.(exn := true, tasks := s.tasks[i := s.tasks[i].(phase := Leaving)]))
  {
    hide Inv, TaskOk, SomeThrow, PtrOf;
    TaskOkAt(f, cfg, s, i);
    FlagShows(f, cfg, s, i);
    TaskOkRelabel(f, s.cache, s.tasks[i], Leaving);
    PopPtr(s.tasks[i], Leaving);
    RelabelSys(f, cfg, s, i, s.tasks[i].(phase := Leaving), true);
  }

  // -------------------------------------------------------------- whole runs

  lemma DoProduce(f: int -> Option<Frame>, cfg: Config, s: Sys)
    requires CanDo(cfg, s, Produce)
    ensures Do(f, cfg, s, Produce) == NextProduce(f, s)
  {
  }

  lemma DoFetch(f: int -> Option<Frame>, cfg: Config, s: Sys, i: nat)
    requires CanDo(cfg, s, WorkerFetch(i))
    ensures Do(f, cfg, s, WorkerFetch(i)) == NextFetch(f, s, i)
  {
  }

  lemma DoPop(f: int -> Option<Frame>, cfg: Config, s: Sys, i: nat)
    requires CanDo(cfg, s, Pop(i))
    ensures Do(f, cfg, s, Pop(i)) == s.(tasks := s.tasks[i := s.tasks[i].(phase := Fetching)])
  {
  }

  lemma DoFlag(f: int -> Option<Frame>, cfg: Config, s: Sys, i: nat)
    requires CanDo(cfg, s, WorkerFlag(i))
    ensures Do(f, cfg, s, WorkerFlag(i)) == s.(exn := true, tasks := s.tasks[i := s.tasks[i].(phase := Leaving)])
  {
  }

  lemma StepInv(f: int -> Option<Frame>, cfg: Config, s: Sys, a: Act)
    requires Inv(f, cfg, s) && CanDo(cfg, s, a)
    ensures Inv(f, cfg, Do(f, cfg, s, a))
  {
    hide Inv, Do;
    match a
    case Schedule(newp) => StepSchedule(f, cfg, s, newp);
    case Push => StepPush(f, cfg, s);
    case Demand(newp) => StepDemand(f, cfg, s, newp);
    case WakeUp => StepWake(f, cfg, s);
    case Produce => if s.client.Producing? { StepProduceHeld(f, cfg, s); } else { StepProduceDirect(f, cfg, s); } DoProduce(f, cfg, s);
    case Settle => StepSettle(f, cfg, s);
    case Pop(i) => StepPop(f, cfg, s, i); DoPop(f, cfg, s, i);
    case WorkerFetch(i) => StepWorkerFetch(f, cfg, s, i); DoFetch(f, cfg, s, i);
    case WorkerResolve(i) => StepWorkerResolve(f, cfg, s, i);
    case WorkerFlag(i) => StepFlag(f, cfg, s, i); DoFlag(f, cfg, s, i);
    case WorkerLeave(i) => StepLeave(f, cfg, s, i);
    case Drain => StepDrain(f, cfg, s);
    case _ => StepLocal(f, cfg, s, a);
  }

  lemma {:induction false} RunInv(f: int -> Option<Frame>, cfg: Config, s: Sys, acts: seq<Act>)
    requires Inv(f, cfg, s) && P.IsRun(f, cfg, s, acts)
    ensures Inv(f, cfg, P.Exec(f, cfg, s, acts))
    decreases |acts|
  {
    hide Inv, Do;
    if |acts| > 0 {
      StepInv(f, cfg, s, acts[0]);
      RunInv(f, cfg, Do(f, cfg, s, acts[0]), acts[1..]);
    }
  }

  lemma InitInv(f: int -> Option<Frame>, cfg: Config)
    ensures Inv(f, cfg, P.Init(cfg))
  {
    hide LI.Inv;
    LT.InitInv(cfg.window * 2, NoResize);
    assert All(P.Init(cfg)) == [];
  }

  /**
    Transparency. In every reachable state, whatever GetFrame(n) returned is
    the child's frame n; it raised only if the child throws on some frame.
   */
  lemma Transparent(f: int -> Option<Frame>, cfg: Config, acts: seq<Act>)
    requires P.IsRun(f, cfg, P.Init(cfg), acts)
    ensures var s := P.Exec(f, cfg, P.Init(cfg), acts);
      && (s.client.Returned? ==> s.client.result.Some? && s.client.result == f(s.client.n))
      && (s.client.Raised? ==> exists m :: f(m).None?)
      && !s.cache.fault
  {
    hide Inv, P.Init, Do;
    InitInv(f, cfg);
    RunInv(f, cfg, P.Init(cfg), acts);
    TransparentAt(f, cfg, P.Exec(f, cfg, P.Init(cfg), acts));
  }

  lemma TransparentAt(f: int -> Option<Frame>, cfg: Config, s: Sys)
    requires Inv(f, cfg, s)
    ensures s.client.Returned? ==> s.client.result.Some? && s.client.result == f(s.client.n)
    ensures s.client.Raised? ==> exists m :: f(m).None?
    ensures !s.cache.fault
  {
    hide CountsOk, StrideLock.Inv, TaskOk, Ptrs, LT.Agree;
  }

  /**
    Handle conservation. Every handle taken by the scheduling loop is settled
    once or still held by exactly one queued or running job (or by the loop);
    after shutdown all are settled and the cache has no producer left.
   */
  lemma HandlesConserved(f: int -> Option<Frame>, cfg: Config, acts: seq<Act>)
    requires P.IsRun(f, cfg, P.Init(cfg), acts)
    ensures var s := P.Exec(f, cfg, P.Init(cfg), acts);
      && s.issued == s.resolved + |Ptrs(s.tasks)| + SchedulerHeld(s.client)
      && s.cache.handles == Ptrs(All(s))
      && (forall p :: s.cache.handles[p] <= 1)
      && (s.client.Closed? ==> s.issued == s.resolved && s.cache.handles == multiset{} && s.cache.waiting == multiset{})
  {
    hide Inv, P.Init, Do;
    InitInv(f, cfg);
    RunInv(f, cfg, P.Init(cfg), acts);
    ConservedAt(f, cfg, P.Exec(f, cfg, P.Init(cfg), acts));
  }

  lemma ConservedAt(f: int -> Option<Frame>, cfg: Config, s: Sys)
    requires Inv(f, cfg, s)
    ensures s.issued == s.resolved + |Ptrs(s.tasks)| + SchedulerHeld(s.client) && s.cache.handles == Ptrs(All(s))
    ensures forall p :: s.cache.handles[p] <= 1
    ensures s.client.Closed? ==> s.issued == s.resolved && s.cache.handles == multiset{} && s.cache.waiting == multiset{}
  {
    hide ClientOk, StrideLock.Inv, TaskOk, LT.Agree, LI.Inv;
    forall p ensures s.cache.handles[p] <= 1 {
      if p in s.cache.handles { SingleHandle(s.cache, p); }
    }
  }

  /** running_workers counts the jobs not yet finished and never exceeds nPrefetchFrames. */
  lemma WorkersBounded(f: int -> Option<Frame>, cfg: Config, acts: seq<Act>)
    requires P.IsRun(f, cfg, P.Init(cfg), acts)
    ensures var s := P.Exec(f, cfg, P.Init(cfg), acts);
      && |s.tasks| <= s.running <= cfg.window
      && (!s.client.Draining? && !s.client.Closed? ==> s.running == |s.tasks| + Pending(s.client))
  {
    hide Books, ClientOk, StrideLock.Inv, P.Init, Do;
    InitInv(f, cfg);
    RunInv(f, cfg, P.Init(cfg), acts);
  }

  /** A turn of the scheduling loop ends the loop or moves strictly away from the request. */
  lemma SchedulingTerminates(f: int -> Option<Frame>, cfg: Config, s: Sys, newp: Ptr)
    requires Inv(f, cfg, s) && CanDo(cfg, s, Schedule(newp))
    ensures var r := Do(f, cfg, s, Schedule(newp)).client;
      || r.Wanting? || r.Returned?
      || ((r.Scheduling? || r.Reserving?) && P.Abs(s.client.pos - s.client.n) < P.Abs(r.pos - r.n) && r.n == s.client.n)
  {
    hide Books, LruCache.Next, Ptrs;
  }

  // --------------------------------------------------------------- progress

  predicate WorkerAct(a: Act) {
    a.Pop? || a.WorkerFetch? || a.WorkerResolve? || a.WorkerFlag? || a.WorkerLeave?
  }

  /** A step of the client, a worker or the destructor that does more than go back to sleep. */
  ghost predicate Useful(cfg: Config, s: Sys, a: Act) {
    && CanDo(cfg, s, a) && !a.Request? && !a.Shut?
    && (a.WakeUp? ==> s.client.p in s.cache.heap && s.cache.heap[s.client.p].state != Empty)
  }

  predicate Working(s: Sys) {
    exists i :: 0 <= i < |s.tasks| && s.tasks[i].phase != Queued
  }

  lemma BusyGoes(cfg: Config, s: Sys, i: nat)
    requires i < |s.tasks| && s.tasks[i].phase != Queued
    ensures exists a :: WorkerAct(a) && Useful(cfg, s, a)
  {
    var phase := s.tasks[i].phase;
    var a :=
      if phase == Fetching then WorkerFetch(i)
      else if phase == Stored || phase == Failed then WorkerResolve(i)
      else if phase == Flagging then WorkerFlag(i)
      else WorkerLeave(i);
    assert WorkerAct(a) && Useful(cfg, s, a);
  }

  lemma {:induction false} NoneWorking(tasks: seq<Task>)
    requires forall i :: 0 <= i < |tasks| ==> tasks[i].phase == Queued
    ensures QueueLength(tasks) == |tasks|
    decreases |tasks|
  {
    if tasks != [] {
      assert tasks[0].phase == Queued;
      NoneWorking(tasks[1..]);
    }
  }

  /** With a pool thread, whatever is queued or running lets a worker move. */
  lemma JobGoes(cfg: Config, s: Sys)
    requires cfg.threads > 0 && s.tasks != [] && !s.client.Draining? && !s.client.Closed?
    ensures exists a :: WorkerAct(a) && Useful(cfg, s, a)
  {
    if Working(s) {
      var i :| 0 <= i < |s.tasks| && s.tasks[i].phase != Queued;
      BusyGoes(cfg, s, i);
    } else {
      NoneWorking(s.tasks);
      assert s.tasks[..0] == [];
      assert WorkerAct(Pop(0)) && Useful(cfg, s, Pop(0));
    }
  }

  /** A client that waits for nobody's handle finds its entry settled. */
  lemma WaiterGoes(f: int -> Option<Frame>, cfg: Config, s: Sys)
    requires Inv(f, cfg, s) && s.client.Waiting? && s.tasks == []
    ensures Useful(cfg, s, WakeUp)
  {
    hide ClientOk, CountsOk, StrideLock.Inv, LI.Inv, LT.Agree, TaskOk;
    assert All(s) == [];
    LI.HeldEntryOk(s.cache, s.client.p);
  }

  lemma ClientGoes(cfg: Config, s: Sys)
    requires cfg.threads > 0 && !AtRest(s.client) && !s.client.Closed? && !s.client.Waiting? && !s.client.Draining?
    ensures exists a :: Useful(cfg, s, a)
  {
    var p := Bound(s.cache.heap.Keys);
    var c := s.client;
    if c.Pushing? && s.tasks != [] {
      JobGoes(cfg, s);
    } else {
      var a :=
        if c.Checking? then Check
        else if c.Scheduling? then Schedule(p)
        else if c.Reserving? then Count
        else if c.Pushing? then Push
        else if c.Wanting? then Demand(p)
        else if c.Producing? || c.Direct? then Produce
        else Settle;
      assert Useful(cfg, s, a);
    }
  }

  lemma DrainGoes(cfg: Config, s: Sys)
    requires s.client.Draining?
    ensures exists a :: Useful(cfg, s, a)
  {
    if Working(s) {
      var i :| 0 <= i < |s.tasks| && s.tasks[i].phase != Queued;
      BusyGoes(cfg, s, i);
    } else {
      NoneWorking(s.tasks);
      assert Useful(cfg, s, if s.tasks == [] then Close else Drain);
    }
  }

  /**
    No deadlock. With at least one pool thread, as long as GetFrame or the
    destructor is under way some thread can take a step that is not a spurious
    wake-up: a push on a full queue and a wait for a queued frame included.
   */
  lemma NoDeadlock(f: int -> Option<Frame>, cfg: Config, acts: seq<Act>)
    requires cfg.threads > 0 && P.IsRun(f, cfg, P.Init(cfg), acts)
    ensures var s := P.Exec(f, cfg, P.Init(cfg), acts);
      !AtRest(s.client) && !s.client.Closed? ==> exists a :: Useful(cfg, s, a)
  {
    hide Inv, Useful;
    InitInv(f, cfg);
    RunInv(f, cfg, P.Init(cfg), acts);
    UsefulAt(f, cfg, P.Exec(f, cfg, P.Init(cfg), acts));
  }

  lemma UsefulAt(f: int -> Option<Frame>, cfg: Config, s: Sys)
    requires Inv(f, cfg, s) && cfg.threads > 0
    ensures !AtRest(s.client) && !s.client.Closed? ==> exists a :: Useful(cfg, s, a)
  {
    hide Inv, Useful;
    if s.client.Draining? {
      DrainGoes(cfg, s);
    } else if s.client.Waiting? {
      if s.tasks == [] { WaiterGoes(f, cfg, s); } else { JobGoes(cfg, s); }
    } else if !AtRest(s.client) && !s.client.Closed? {
      ClientGoes(cfg, s);
    }
  }
}
