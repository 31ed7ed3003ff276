/**
  No prefetch work is stranded: over every run of QueuePrefetcher, with any
  number of clients, worker counts are exact, a non-empty queue has somebody
  to drain it, and every queued handle is settled exactly once.
 */
module QueuePrefetcherTheorems {
  import opened KeyedList
  import opened LruCache
  import LI = LruInvariants
  import LT = LruTheorems
  import B = HandleBooks
  import opened Q = QueuePrefetcher

  // ------------------------------------------- threads seen as handle owners

  const NOTHING: B.Task := B.Task(0, 0, B.Leaving)

  function WorkTask(w: Work): B.Task {
    B.Task(w.n, w.p, B.Queued)
  }

  function JobTask(job: Job): B.Task {
    match job
    case Fetching(n, p) => B.Task(n, p, B.Fetching)
    case Stored(n, p) => B.Task(n, p, B.Stored)
    case Throwing(n, p) => B.Task(n, p, B.Failed)
    case Undoing(n, p) => B.Task(n, p, B.Failed)
    case _ => NOTHING
  }

  function ClientTask(c: Client): B.Task {
    match c
    case Checking(n, p) => B.Task(n, p, B.Queued)
    case Producing(n, p) => B.Task(n, p, B.Fetching)
    case Storing(n, p, _) => B.Task(n, p, B.Stored)
    case Failing(n, p) => B.Task(n, p, B.Queued)
    case Enqueuing(_, pos, _, _, p) => B.Task(pos, p, B.Queued)
    case _ => NOTHING
  }

  /** A blocked client, counted like an owner of the entry it waits for. */
  function WaitTask(c: Client): B.Task {
    if c.Waiting? then B.Task(c.n, c.p, B.Queued) else NOTHING
  }

  function Queue(queue: seq<Work>): seq<B.Task> {
    seq(|queue|, i requires 0 <= i < |queue| => WorkTask(queue[i]))
  }

  function Jobs(jobs: seq<Job>): seq<B.Task> {
    seq(|jobs|, j requires 0 <= j < |jobs| => JobTask(jobs[j]))
  }

  function Clients(clients: seq<Client>): seq<B.Task> {
    seq(|clients|, i requires 0 <= i < |clients| => ClientTask(clients[i]))
  }

  function Waiters(clients: seq<Client>): seq<B.Task> {
    seq(|clients|, i requires 0 <= i < |clients| => WaitTask(clients[i]))
  }

  function All(s: Sys): seq<B.Task> {
    Queue(s.queue) + Jobs(s.jobs) + Clients(s.clients)
  }

  function Waits(s: Sys): multiset<Ptr> {
    B.Ptrs(Waiters(s.clients))
  }

  lemma {:induction false} PtrsConcat(a: seq<B.Task>, b: seq<B.Task>)
    ensures B.Ptrs(a + b) == B.Ptrs(a) + B.Ptrs(b)
    decreases |a|
  {
    hide B.PtrOf;
    if a == [] {
      assert a + b == b;
    } else {
      PtrsConcat(a[1..], b);
      assert (a + b)[1..] == a[1..] + b && (a + b)[0] == a[0];
      var x, y, z := B.PtrOf(a[0]), B.Ptrs(a[1..]), B.Ptrs(b);
      assert x + (y + z) == (x + y) + z;
    }
  }

  lemma PtrsAll(s: Sys)
    ensures B.Ptrs(All(s)) == B.Ptrs(Queue(s.queue)) + B.Ptrs(Jobs(s.jobs)) + B.Ptrs(Clients(s.clients))
  {
    PtrsConcat(Queue(s.queue) + Jobs(s.jobs), Clients(s.clients));
    PtrsConcat(Queue(s.queue), Jobs(s.jobs));
  }

  lemma {:induction false} PtrsNone(tasks: seq<B.Task>)
    requires forall t :: t in tasks ==> !B.Holds(t)
    ensures B.Ptrs(tasks) == multiset{}
    decreases |tasks|
  {
    if tasks != [] {
      PtrsNone(tasks[1..]);
    }
  }

  lemma {:induction false} PtrsFull(tasks: seq<B.Task>)
    requires forall t :: t in tasks ==> B.Holds(t)
    ensures |B.Ptrs(tasks)| == |tasks|
    decreases |tasks|
  {
    if tasks != [] {
      PtrsFull(tasks[1..]);
    }
  }

  lemma AtJob(s: Sys, j: nat, job: Job)
    requires j < |s.jobs|
    ensures var k := |s.queue| + j;
      && k < |All(s)| && All(s)[k] == JobTask(s.jobs[j])
      && (forall r: Sys :: r.queue == s.queue && r.clients == s.clients && r.jobs == s.jobs[j := job]
            ==> All(r) == All(s)[k := JobTask(job)])
      && (forall r: Sys :: r.queue == s.queue && r.clients == s.clients && r.jobs == Without(s.jobs, j)
            ==> All(r) == Without(All(s), k))
  {
    assert Jobs(s.jobs[j := job]) == Jobs(s.jobs)[j := JobTask(job)];
    assert Jobs(Without(s.jobs, j)) == Without(Jobs(s.jobs), j);
  }

  lemma AtClient(s: Sys, i: nat, c: Client)
    requires i < |s.clients|
    ensures var k := |s.queue| + |s.jobs| + i;
      && k < |All(s)| && All(s)[k] == ClientTask(s.clients[i])
      && (forall r: Sys :: r.queue == s.queue && r.jobs == s.jobs && r.clients == s.clients[i := c]
            ==> All(r) == All(s)[k := ClientTask(c)])
  {
    assert Clients(s.clients[i := c]) == Clients(s.clients)[i := ClientTask(c)];
  }

  function WaitsAfter(s: Sys, i: nat, c: Client): multiset<Ptr>
    requires i < |s.clients|
  {
    B.Ptrs(Waiters(s.clients[i := c]))
  }

  lemma WaitsPut(s: Sys, i: nat, c: Client)
    requires i < |s.clients|
    ensures WaitsAfter(s, i, c) == Waits(s) - B.PtrOf(WaitTask(s.clients[i])) + B.PtrOf(WaitTask(c))
    ensures s.clients[i].Waiting? ==> s.clients[i].p in Waits(s)
  {
    B.OwnerPtrs(Waiters(s.clients), i, WaitTask(c));
    B.PtrsWithout(Waiters(s.clients), i);
    assert Waiters(s.clients[i := c]) == Waiters(s.clients)[i := WaitTask(c)];
  }

  lemma WaitsSame(s: Sys, i: nat, c: Client)
    requires i < |s.clients|
    ensures !s.clients[i].Waiting? && !c.Waiting? ==> WaitsAfter(s, i, c) == Waits(s)
    ensures !s.clients[i].Waiting? && c.Waiting? ==> WaitsAfter(s, i, c) == Waits(s) + multiset{c.p}
    ensures s.clients[i].Waiting? && !c.Waiting? ==> WaitsAfter(s, i, c) == Waits(s) - multiset{s.clients[i].p}
    ensures s.clients[i].Waiting? && c.Waiting? && c.p == s.clients[i].p ==> WaitsAfter(s, i, c) == Waits(s)
  {
    hide B.Ptrs;
    WaitsPut(s, i, c);
  }

  // -------------------------------------------------------------- invariant

  /** A frame returned is the child's; a null one needs a second requesting thread. */
  predicate ResultOk(f: int -> Option<Frame>, threads: nat, n: int, result: Option<Frame>) {
    if result.Some? then result == f(n) else threads > 1
  }

  ghost predicate ClientOk(f: int -> Option<Frame>, c: Cache, threads: nat, client: Client) {
    match client
    case Waiting(n, p) => p in c.heap && c.heap[p].key == n
    case Storing(n, _, v) => f(n) == Some(v)
    case Failing(_, _) => B.SomeThrow(f)
    case Scheduling(n, _, _, result) => ResultOk(f, threads, n, result)
    case Enqueuing(n, _, _, result, _) => ResultOk(f, threads, n, result)
    case Spawning(n, queued, result) => ResultOk(f, threads, n, result) && queued > 0
    case Returned(n, result) => ResultOk(f, threads, n, result)
    case Raised(_) => B.SomeThrow(f)
    case _ => true
  }

  ghost predicate ClientsOk(f: int -> Option<Frame>, s: Sys) {
    forall i :: 0 <= i < |s.clients| ==> ClientOk(f, s.cache, |s.clients|, s.clients[i])
  }

  /** Between enqueueing and spawning, with work to announce. */
  predicate Promised(c: Client) {
    (c.Scheduling? || c.Enqueuing? || c.Spawning?) && c.queued > 0
  }

  ghost predicate SomePromise(clients: seq<Client>) {
    exists i :: 0 <= i < |clients| && Promised(clients[i])
  }

  ghost predicate Live(s: Sys) {
    (s.stage.Open? || s.stage.Finishing?) && s.queue != [] ==> s.jobs != [] || SomePromise(s.clients)
  }

  ghost predicate Resting(clients: seq<Client>) {
    forall i :: 0 <= i < |clients| ==> AtRest(clients[i])
  }

  ghost predicate CountsOk(cfg: Config, s: Sys) {
    && (s.stage.Open? || s.stage.Finishing? ==> s.numWorkers == |s.jobs|)
    && |s.jobs| <= cfg.threads
    && (s.stage.Draining? || s.stage.Closed? ==> s.jobs == [])
    && (s.stage.Closed? ==> s.queue == [])
    && (!s.stage.Open? ==> Resting(s.clients))
    && s.enqueued == s.settled + |s.queue| + |B.Ptrs(Jobs(s.jobs))|
  }

  ghost predicate BooksOk(f: int -> Option<Frame>, s: Sys) {
    B.Books(f, s.cache, All(s), Waits(s))
  }

  ghost predicate Inv(f: int -> Option<Frame>, cfg: Config, s: Sys) {
    && cfg.threads > 0
    && BooksOk(f, s) && ClientsOk(f, s) && CountsOk(cfg, s) && Live(s)
    && (s.exn ==> B.SomeThrow(f))
  }

  // ------------------------------------------------------------ book moves

  /** An owner of nothing adopts the new handle. */
  lemma Adopt(f: int -> Option<Frame>, c: Cache, t: B.Task, tasks: seq<B.Task>, k: nat, waiting: multiset<Ptr>)
    requires B.Books(f, c, [t] + tasks, waiting) && k < |tasks| && !B.Holds(tasks[k])
    ensures B.Books(f, c, tasks[k := t], waiting)
  {
    hide LI.Inv, LT.Agree, B.TaskOk, B.Ptrs;
    AdoptPtrs(t, tasks, k);
    B.UpdatedMembers(tasks, k, t);
  }

  lemma AdoptPtrs(t: B.Task, tasks: seq<B.Task>, k: nat)
    requires k < |tasks| && !B.Holds(tasks[k])
    ensures B.Ptrs([t] + tasks) == B.Ptrs(tasks[k := t])
  {
    B.PtrsWithout([t] + tasks, 0);
    assert Without([t] + tasks, 0) == tasks;
    B.PtrsWithout(tasks, k);
    B.PtrsUpdate(tasks, k, t);
  }

  /** Handles change hands without a cache step. */
  lemma Regroup(f: int -> Option<Frame>, c: Cache, tasks: seq<B.Task>, tasks': seq<B.Task>, waiting: multiset<Ptr>)
    requires B.Books(f, c, tasks, waiting) && B.Ptrs(tasks') == B.Ptrs(tasks)
    requires forall t :: t in tasks' ==> B.TaskOk(f, c, t)
    ensures B.Books(f, c, tasks', waiting)
  {
  }

  lemma TaskOkAt(f: int -> Option<Frame>, c: Cache, tasks: seq<B.Task>, k: nat, waiting: multiset<Ptr>)
    requires B.Books(f, c, tasks, waiting) && k < |tasks|
    ensures B.TaskOk(f, c, tasks[k])
  {
  }

  /** Cache steps keep what blocked clients know about their entries. */
  lemma ClientsKept(f: int -> Option<Frame>, s: Sys, step: Step)
    requires BooksOk(f, s) && ClientsOk(f, s) && LruCache.Enabled(s.cache, step)
    ensures forall i :: 0 <= i < |s.clients| ==> ClientOk(f, LruCache.Next(s.cache, step).0, |s.clients|, s.clients[i])
  {
    hide LruCache.Next, LI.Inv, LT.Agree, B.Ptrs, B.TaskOk;
    forall i | 0 <= i < |s.clients| ensures ClientOk(f, LruCache.Next(s.cache, step).0, |s.clients|, s.clients[i]) {
      if s.clients[i].Waiting? {
        WaitsPut(s, i, s.clients[i]);
        B.KeyKept(s.cache, step, s.clients[i].p);
      }
    }
  }

  lemma OneClientOk(f: int -> Option<Frame>, s: Sys, i: nat)
    requires ClientsOk(f, s) && i < |s.clients|
    ensures ClientOk(f, s.cache, |s.clients|, s.clients[i])
  {
  }

  // ---------------------------------------------------------------- clients

  function CacheAfter(c: Cache, step: Option<Step>): Cache {
    if step.Some? then LruCache.Next(c, step.value).0 else c
  }

  function ClientAt(s: Sys, i: nat): nat {
    |s.queue| + |s.jobs| + i
  }

  /** A client moves on, with at most one cache step; queue and workers stay. */
  lemma ClientMoves(f: int -> Option<Frame>, cfg: Config, s: Sys, i: nat, c: Client, step: Option<Step>)
    requires Inv(f, cfg, s) && i < |s.clients| && s.stage.Open?
    requires step.Some? ==> LruCache.Enabled(s.cache, step.value)
    requires ClientOk(f, CacheAfter(s.cache, step), |s.clients|, c)
    requires Promised(s.clients[i]) ==> Promised(c)
    requires ClientAt(s, i) < |All(s)|
    requires B.Books(f, CacheAfter(s.cache, step), All(s)[ClientAt(s, i) := ClientTask(c)],
                     WaitsAfter(s, i, c))
    ensures Inv(f, cfg, Put(s.(cache := CacheAfter(s.cache, step)), i, c))
  {
    hide B.Books, LruCache.Next, ClientOk, B.Ptrs, All, ClientTask, WaitTask;
    var r := Put(s.(cache := CacheAfter(s.cache, step)), i, c);
    AtClient(s, i, c);
    if step.Some? {
      ClientsKept(f, s, step.value);
    }
    if SomePromise(s.clients) {
      var j :| 0 <= j < |s.clients| && Promised(s.clients[j]);
      assert Promised(r.clients[j]);
    }
  }

  /** What a client that is not blocked may rely on. */
  lemma ClientReady(f: int -> Option<Frame>, cfg: Config, s: Sys, i: nat)
    requires Inv(f, cfg, s) && i < |s.clients|
    ensures BooksOk(f, s) && B.Books(f, s.cache, All(s), Waits(s)) && ClientOk(f, s.cache, |s.clients|, s.clients[i])
    ensures ClientAt(s, i) < |All(s)| && All(s)[ClientAt(s, i)] == ClientTask(s.clients[i])
    ensures B.TaskOk(f, s.cache, ClientTask(s.clients[i]))
    ensures !AtRest(s.clients[i]) ==> s.stage.Open?
    ensures s.exn ==> B.SomeThrow(f)
  {
    hide B.Books, B.TaskOk, ClientOk, AtRest;
    AtClient(s, i, s.clients[i]);
    TaskOkAt(f, s.cache, All(s), ClientAt(s, i), Waits(s));
  }

  /** A client moves on without a cache step and keeps what it holds. */
  lemma ClientRelabels(f: int -> Option<Frame>, cfg: Config, s: Sys, i: nat, c: Client)
    requires Inv(f, cfg, s) && i < |s.clients| && s.stage.Open?
    requires ClientOk(f, s.cache, |s.clients|, c) && (Promised(s.clients[i]) ==> Promised(c))
    requires B.PtrOf(ClientTask(c)) == B.PtrOf(ClientTask(s.clients[i])) && B.TaskOk(f, s.cache, ClientTask(c))
    requires !s.clients[i].Waiting? && !c.Waiting?
    ensures Inv(f, cfg, Put(s, i, c))
  {
    hide B.Books, Inv, B.Ptrs, All, Waits, WaitsAfter, B.TaskOk, ClientTask, ClientOk, B.PtrOf;
    ClientReady(f, cfg, s, i);
    B.Relabel(f, s.cache, All(s), ClientAt(s, i), ClientTask(c), Waits(s));
    WaitsSame(s, i, c);
    ClientMoves(f, cfg, s, i, c, None);
  }

  lemma StepCall(f: int -> Option<Frame>, cfg: Config, s: Sys, i: nat, n: int)
    requires Inv(f, cfg, s) && i < |s.clients| && AtRest(s.clients[i]) && s.stage.Open?
    ensures Inv(f, cfg, Put(s, i, Wanting(n)))
  {
    hide Inv;
    ClientRelabels(f, cfg, s, i, Wanting(n));
  }

  lemma StepCheck(f: int -> Option<Frame>, cfg: Config, s: Sys, i: nat)
    requires Inv(f, cfg, s) && i < |s.clients| && s.clients[i].Checking?
    ensures Inv(f, cfg, NextCheck(s, i))
  {
    hide Inv, B.Books, All, Waits;
    ClientReady(f, cfg, s, i);
    var was := s.clients[i];
    ClientRelabels(f, cfg, s, i, if s.exn then Failing(was.n, was.p) else Producing(was.n, was.p));
  }

  lemma ReadyOrNull(f: int -> Option<Frame>, c: Cache, step: Step)
    requires LI.Inv(c) && LT.Agree(f, c) && LruCache.Enabled(c, step) && step.Lookup? && LruCache.Next(c, step).1.Ready?
    ensures var v := LruCache.Next(c, step).1.value; v.Some? ==> v == f(step.key)
  {
    var i := Find(c.main, step.key).value;
    assert c.main[0..] == c.main;
    assert LI.SlotOk(c, c.main[i]);
  }

  lemma SoloWaits(s: Sys)
    requires |s.clients| == 1 && !s.clients[0].Waiting?
    ensures Waits(s) == multiset{}
  {
    PtrsNone(Waiters(s.clients));
  }

  lemma LookResult(f: int -> Option<Frame>, s: Sys, i: nat, step: Step)
    requires BooksOk(f, s) && i < |s.clients| && s.clients[i].Wanting? && LruCache.Enabled(s.cache, step)
    requires step.Lookup? && step.block && LruCache.Next(s.cache, step).1.Ready?
    ensures ResultOk(f, |s.clients|, step.key, LruCache.Next(s.cache, step).1.value)
  {
    hide LI.Inv, LT.Agree, LruCache.Next, B.Ptrs, B.TaskOk;
    ReadyOrNull(f, s.cache, step);
    if |s.clients| == 1 {
      SoloWaits(s);
      LT.SoloClientNeverStale(s.cache, step);
      LT.ReadyAgrees(f, s.cache, step);
    }
  }

  /** The new handle or wait of a blocking lookup is the client's. */
  lemma LookBooks(f: int -> Option<Frame>, s: Sys, i: nat, step: Step)
    requires BooksOk(f, s) && i < |s.clients| && !B.Holds(ClientTask(s.clients[i])) && !s.clients[i].Waiting?
    requires step.Lookup? && LruCache.Enabled(s.cache, step)
    requires ClientAt(s, i) < |All(s)| && All(s)[ClientAt(s, i)] == ClientTask(s.clients[i])
    ensures var (r, o) := LruCache.Next(s.cache, step);
      && LT.LookupEffect(s.cache, step, r, o)
      && (forall c: Client :: (if o.NotFound? then ClientTask(c) == B.Task(step.key, o.p, B.Queued) else ClientTask(c) == ClientTask(s.clients[i]))
            && (if o.Blocked? then c.Waiting? && c.p == o.p else !c.Waiting?)
            ==> B.Books(f, r, All(s)[ClientAt(s, i) := ClientTask(c)], WaitsAfter(s, i, c)))
  {
    hide B.Books, B.Ptrs, All, Waits, WaitsAfter, LruCache.Next, LT.LookupEffect, B.Holds;
    B.LookupMoves(f, s.cache, step, All(s), Waits(s));
    var (r, o) := LruCache.Next(s.cache, step);
    var k := ClientAt(s, i);
    if o.NotFound? {
      var t := B.Task(step.key, o.p, B.Queued);
      Adopt(f, r, t, All(s), k, Waits(s));
    } else {
      assert All(s)[k := All(s)[k]] == All(s);
    }
    forall c: Client | (if o.Blocked? then c.Waiting? && c.p == o.p else !c.Waiting?)
      ensures WaitsAfter(s, i, c) == if o.Blocked? then Waits(s) + multiset{o.p} else Waits(s)
    {
      WaitsSame(s, i, c);
    }
  }

  lemma StepLook(f: int -> Option<Frame>, cfg: Config, s: Sys, i: nat, newp: Ptr)
    requires Inv(f, cfg, s) && i < |s.clients| && s.clients[i].Wanting? && newp !in s.cache.heap
    ensures Inv(f, cfg, NextLook(s, i, newp))
  {
    hide B.Books, Inv, All, WaitsAfter, LruCache.Next, BooksOk, Waits, B.TaskOk;
    ClientReady(f, cfg, s, i);
    var step := Lookup(s.clients[i].n, true, None, newp);
    LookBooks(f, s, i, step);
    var o := LruCache.Next(s.cache, step).1;
    if o.Ready? { LookResult(f, s, i, step); }
    ClientMoves(f, cfg, s, i, AfterLookup(step.key, o), Some(step));
  }

  lemma StepWakeUp(f: int -> Option<Frame>, cfg: Config, s: Sys, i: nat)
    requires Inv(f, cfg, s) && i < |s.clients| && s.clients[i].Waiting?
    ensures Inv(f, cfg, NextWake(s, i))
  {
    hide B.Books, Inv, B.Ptrs, All, Waits, WaitsAfter, LruCache.Next, B.TaskOk;
    ClientReady(f, cfg, s, i);
    WaitsPut(s, i, s.clients[i]);
    var was, k := s.clients[i], ClientAt(s, i);
    B.WakeMoves(f, s.cache, was.p, All(s), Waits(s));
    WakeEnabled(f, s, was.p);
    var (r, o) := LruCache.Next(s.cache, Wake(was.p));
    var c := AfterLookup(was.n, o);
    WaitsSame(s, i, c);
    if o.NotFound? {
      WakeRelabel(f, r, All(s), k, was.n, was.p, Waits(s) - multiset{was.p});
    } else {
      assert All(s)[k := ClientTask(c)] == All(s);
    }
    ClientMoves(f, cfg, s, i, c, Some(Wake(was.p)));
  }

  lemma WakeEnabled(f: int -> Option<Frame>, s: Sys, p: Ptr)
    requires B.Books(f, s.cache, All(s), Waits(s)) && p in Waits(s)
    ensures LruCache.Enabled(s.cache, Wake(p))
  {
  }

  /** A client that takes over checks for a worker's exception before it fetches. */
  lemma WakeRelabel(f: int -> Option<Frame>, c: Cache, tasks: seq<B.Task>, k: nat, n: int, p: Ptr, waiting: multiset<Ptr>)
    requires k < |tasks| && !B.Holds(tasks[k]) && B.Books(f, c, [B.Task(n, p, B.Fetching)] + tasks, waiting)
    ensures B.Books(f, c, tasks[k := B.Task(n, p, B.Queued)], waiting)
  {
    hide B.Books, B.Ptrs;
    Adopt(f, c, B.Task(n, p, B.Fetching), tasks, k, waiting);
    var mid, t := tasks[k := B.Task(n, p, B.Fetching)], B.Task(n, p, B.Queued);
    TaskOkAt(f, c, mid, k, waiting);
    B.Relabel(f, c, mid, k, t, waiting);
    assert mid[k := t] == tasks[k := t];
  }

  lemma OwnerEnabled(f: int -> Option<Frame>, s: Sys, k: nat)
    requires B.Books(f, s.cache, All(s), Waits(s)) && k < |All(s)| && B.Holds(All(s)[k])
    ensures var p := All(s)[k].p;
      && LruCache.Enabled(s.cache, Commit(p)) && LruCache.Enabled(s.cache, Rollback(p))
      && forall v :: LruCache.Enabled(s.cache, Write(p, v))
  {
    hide B.Books;
    B.BooksOwner(f, s.cache, All(s), k, Waits(s));
  }

  lemma StepProduceHeld(f: int -> Option<Frame>, cfg: Config, s: Sys, i: nat)
    requires Inv(f, cfg, s) && i < |s.clients| && s.clients[i].Producing?
    ensures Inv(f, cfg, NextProduce(f, s, i))
  {
    hide B.Books, Inv, B.Ptrs, All, Waits, WaitsAfter, LruCache.Next, B.TaskOk;
    ClientReady(f, cfg, s, i);
    var was, k := s.clients[i], ClientAt(s, i);
    var v := f(was.n);
    if v.Some? {
      OwnerEnabled(f, s, k);
      B.OwnerWrites(f, s.cache, All(s), k, Waits(s), v.value);
      WaitsSame(s, i, Storing(was.n, was.p, v.value));
      ClientMoves(f, cfg, s, i, Storing(was.n, was.p, v.value), Some(Write(was.p, v.value)));
    } else {
      assert B.SomeThrow(f);
      Unfetched(f, s.cache, was.n, was.p);
      ClientRelabels(f, cfg, s, i, Failing(was.n, was.p));
    }
  }

  lemma Unfetched(f: int -> Option<Frame>, c: Cache, n: int, p: Ptr)
    requires B.TaskOk(f, c, B.Task(n, p, B.Fetching))
    ensures B.TaskOk(f, c, B.Task(n, p, B.Queued))
    ensures f(n).None? ==> B.TaskOk(f, c, B.Task(n, p, B.Failed))
  {
  }

  lemma StepProduceDirect(f: int -> Option<Frame>, cfg: Config, s: Sys, i: nat)
    requires Inv(f, cfg, s) && i < |s.clients| && s.clients[i].Direct?
    ensures Inv(f, cfg, NextProduce(f, s, i))
  {
    hide B.Books, Inv, B.Ptrs, All, Waits, WaitsAfter, LruCache.Next, B.TaskOk;
    ClientReady(f, cfg, s, i);
    NothingOk(f, s.cache);
    var n := s.clients[i].n;
    ClientRelabels(f, cfg, s, i, if f(n).Some? then Scheduling(n, n + 1, 0, f(n)) else Raised(n));
  }

  lemma StepSettle(f: int -> Option<Frame>, cfg: Config, s: Sys, i: nat)
    requires Inv(f, cfg, s) && i < |s.clients| && (s.clients[i].Storing? || s.clients[i].Failing?)
    ensures Inv(f, cfg, NextSettle(s, i))
  {
    hide B.Books, Inv, B.Ptrs, All, Waits, WaitsAfter, LruCache.Next, B.TaskOk;
    ClientReady(f, cfg, s, i);
    var was, k := s.clients[i], ClientAt(s, i);
    OwnerEnabled(f, s, k);
    if was.Storing? {
      var c := Scheduling(was.n, was.n + 1, 0, Some(was.v));
      B.OwnerCommits(f, s.cache, All(s), k, Waits(s), NOTHING);
      WaitsSame(s, i, c);
      ClientMoves(f, cfg, s, i, c, Some(Commit(was.p)));
    } else {
      B.OwnerRollsBack(f, s.cache, All(s), k, Waits(s), NOTHING);
      WaitsSame(s, i, Raised(was.n));
      ClientMoves(f, cfg, s, i, Raised(was.n), Some(Rollback(was.p)));
    }
  }

  lemma StepSchedule(f: int -> Option<Frame>, cfg: Config, s: Sys, i: nat, newp: Ptr)
    requires Inv(f, cfg, s) && i < |s.clients| && s.clients[i].Scheduling? && newp !in s.cache.heap
    ensures Inv(f, cfg, NextSchedule(cfg, s, i, newp))
  {
    hide B.Books, Inv, All, WaitsAfter, LruCache.Next, BooksOk, Waits, B.TaskOk;
    ClientReady(f, cfg, s, i);
    var was := s.clients[i];
    var c := NextSchedule(cfg, s, i, newp).clients[i];
    if was.pos < was.n + cfg.prefetch && was.pos < cfg.frames {
      var step := Lookup(was.pos, false, None, newp);
      LookBooks(f, s, i, step);
      ClientMoves(f, cfg, s, i, c, Some(step));
    } else {
      ClientRelabels(f, cfg, s, i, c) by { assert !B.Holds(ClientTask(c)); NothingOk(f, s.cache); }
    }
  }

  lemma NothingOk(f: int -> Option<Frame>, c: Cache)
    ensures B.TaskOk(f, c, NOTHING) && B.PtrOf(NOTHING) == multiset{}
  {
  }

  lemma PromiseKept(clients: seq<Client>, i: nat, c: Client)
    requires i < |clients| && Promised(c)
    ensures SomePromise(clients[i := c])
  {
    assert Promised(clients[i := c][i]);
  }

  /** The handle moves from the client to the end of the queue. */
  lemma EnqueueBooks(f: int -> Option<Frame>, s: Sys, i: nat)
    requires BooksOk(f, s) && i < |s.clients| && s.clients[i].Enqueuing?
    ensures BooksOk(f, NextEnqueue(s, i))
  {
    hide LI.Inv, LT.Agree, B.TaskOk, B.Ptrs;
    var r, was := NextEnqueue(s, i), s.clients[i];
    var c, t := r.clients[i], ClientTask(was);
    WaitsSame(s, i, c);
    assert Queue(r.queue) == Queue(s.queue) + [t];
    assert Clients(r.clients) == Clients(s.clients)[i := NOTHING];
    EnqueuePtrs(Queue(s.queue), Jobs(s.jobs), Clients(s.clients), i);
    AtClient(s, i, was);
    forall u | u in All(r) ensures B.TaskOk(f, s.cache, u) {
      EnqueueMembers(Queue(s.queue), Jobs(s.jobs), Clients(s.clients), i, u);
      if u == NOTHING { NothingOk(f, s.cache); }
    }
    Regroup(f, s.cache, All(s), All(r), Waits(s));
  }

  lemma EnqueuePtrs(q: seq<B.Task>, w: seq<B.Task>, c: seq<B.Task>, i: nat)
    requires i < |c|
    ensures B.Ptrs(q + [c[i]] + w + c[i := NOTHING]) == B.Ptrs(q + w + c)
  {
    hide B.Ptrs;
    var k := |q| + |w| + i;
    var all, out := q + w + c, q + [c[i]] + w + c[i := NOTHING];
    B.PtrsWithout(out, |q|);
    assert Without(out, |q|) == all[k := NOTHING];
    B.PtrsUpdate(all, k, NOTHING);
    B.PtrsWithout(all, k);
    hide B.PtrOf;
    NothingPtrs(B.Ptrs(Without(all, k)), B.PtrOf(c[i]));
  }

  lemma NothingPtrs(rest: multiset<Ptr>, held: multiset<Ptr>)
    ensures held + (B.PtrOf(NOTHING) + rest) == held + rest
  {
    assert B.PtrOf(NOTHING) + rest == rest;
  }

  lemma EnqueueMembers(q: seq<B.Task>, w: seq<B.Task>, c: seq<B.Task>, i: nat, u: B.Task)
    requires i < |c| && u in q + [c[i]] + w + c[i := NOTHING]
    ensures u in q + w + c || u == NOTHING
  {
    if u in c[i := NOTHING] && u != NOTHING {
      assert u in c;
    }
  }

  lemma StepEnqueue(f: int -> Option<Frame>, cfg: Config, s: Sys, i: nat)
    requires Inv(f, cfg, s) && i < |s.clients| && s.clients[i].Enqueuing?
    ensures Inv(f, cfg, NextEnqueue(s, i))
  {
    hide BooksOk, B.Ptrs, LruCache.Next;
    EnqueueBooks(f, s, i);
    PromiseKept(s.clients, i, NextEnqueue(s, i).clients[i]);
    OneClientOk(f, s, i);
  }

  lemma SpawnPtrs(jobs: seq<Job>, k: nat)
    ensures B.Ptrs(Jobs(jobs + seq(k, _ => Spawned))) == B.Ptrs(Jobs(jobs))
    ensures forall t :: t in Jobs(jobs + seq(k, _ => Spawned)) ==> t in Jobs(jobs) || t == NOTHING
  {
    var more := seq(k, _ => NOTHING);
    assert Jobs(jobs + seq(k, _ => Spawned)) == Jobs(jobs) + more;
    PtrsConcat(Jobs(jobs), more);
    PtrsNone(more);
  }

  lemma SpawnBooks(f: int -> Option<Frame>, s: Sys, k: nat)
    requires BooksOk(f, s)
    ensures BooksOk(f, s.(jobs := s.jobs + seq(k, _ => Spawned)))
  {
    hide LI.Inv, LT.Agree, B.TaskOk, B.Ptrs;
    var r := s.(jobs := s.jobs + seq(k, _ => Spawned));
    SpawnPtrs(s.jobs, k);
    hide Jobs;
    PtrsAll(s);
    PtrsAll(r);
    NothingOk(f, s.cache);
    Regroup(f, s.cache, All(s), All(r), Waits(s));
  }

  lemma StepSpawn(f: int -> Option<Frame>, cfg: Config, s: Sys, i: nat)
    requires Inv(f, cfg, s) && i < |s.clients| && s.clients[i].Spawning?
    ensures Inv(f, cfg, NextSpawn(cfg, s, i))
  {
    hide BooksOk, B.Ptrs, LruCache.Next, B.TaskOk;
    var c, k := s.clients[i], ToSpawn(cfg, s, s.clients[i].queued);
    OneClientOk(f, s, i);
    SpawnBooks(f, s, k);
    SpawnPtrs(s.jobs, k);
    var mid := s.(jobs := s.jobs + seq(k, _ => Spawned), numWorkers := s.numWorkers + k);
    BooksSame(f, s.(jobs := s.jobs + seq(k, _ => Spawned)), mid);
    assert Inv(f, cfg, mid);
    assert mid.jobs != [];
    NothingOk(f, s.cache);
    SpawnReturns(f, cfg, mid, i);
  }

  lemma BooksSame(f: int -> Option<Frame>, s: Sys, r: Sys)
    requires BooksOk(f, s) && r.cache == s.cache && r.queue == s.queue && r.jobs == s.jobs && r.clients == s.clients
    ensures BooksOk(f, r)
  {
  }

  /** The announced work has its worker, so the promise may lapse. */
  lemma SpawnReturns(f: int -> Option<Frame>, cfg: Config, s: Sys, i: nat)
    requires Inv(f, cfg, s) && i < |s.clients| && s.clients[i].Spawning? && s.jobs != []
    ensures Inv(f, cfg, Put(s, i, Returned(s.clients[i].n, s.clients[i].result)))
  {
    hide B.Books, B.Ptrs, All, LruCache.Next, B.TaskOk;
    var c := Returned(s.clients[i].n, s.clients[i].result);
    OneClientOk(f, s, i);
    AtClient(s, i, c);
    WaitsSame(s, i, c);
    var k := ClientAt(s, i);
    assert All(s)[k := NOTHING] == All(s);
  }

  // ---------------------------------------------------------------- workers

  lemma JobCount(s: Sys, j: nat, job: Job)
    requires j < |s.jobs|
    ensures |B.Ptrs(Jobs(s.jobs[j := job]))| == |B.Ptrs(Jobs(s.jobs))| - |B.PtrOf(JobTask(s.jobs[j]))| + |B.PtrOf(JobTask(job))|
    ensures |B.Ptrs(Jobs(Without(s.jobs, j)))| == |B.Ptrs(Jobs(s.jobs))| - |B.PtrOf(JobTask(s.jobs[j]))|
  {
    hide B.Ptrs, B.PtrOf, JobTask;
    B.PtrsWithout(Jobs(s.jobs), j);
    B.PtrsUpdate(Jobs(s.jobs), j, JobTask(job));
    assert Jobs(s.jobs[j := job]) == Jobs(s.jobs)[j := JobTask(job)];
    assert Jobs(Without(s.jobs, j)) == Without(Jobs(s.jobs), j);
  }

  /** A worker moves on, with at most one cache step; queue and clients stay. */
  lemma WorkerMoves(f: int -> Option<Frame>, cfg: Config, s: Sys, j: nat, job: Job, step: Option<Step>, exn: bool, settled: nat)
    requires Inv(f, cfg, s) && j < |s.jobs| && (exn ==> B.SomeThrow(f))
    requires step.Some? ==> LruCache.Enabled(s.cache, step.value)
    requires |s.queue| + j < |All(s)|
    requires B.Books(f, CacheAfter(s.cache, step), All(s)[|s.queue| + j := JobTask(job)], Waits(s))
    requires settled + |B.PtrOf(JobTask(job))| == s.settled + |B.PtrOf(JobTask(s.jobs[j]))|
    ensures Inv(f, cfg, Assign(s.(cache := CacheAfter(s.cache, step), exn := exn, settled := settled), j, job))
  {
    hide B.Books, LruCache.Next, ClientOk, B.Ptrs, All, JobTask;
    AtJob(s, j, job);
    JobCount(s, j, job);
    if step.Some? {
      ClientsKept(f, s, step.value);
    }
  }

  /** What a worker may rely on. */
  lemma JobReady(f: int -> Option<Frame>, cfg: Config, s: Sys, j: nat)
    requires Inv(f, cfg, s) && j < |s.jobs|
    ensures B.Books(f, s.cache, All(s), Waits(s)) && B.TaskOk(f, s.cache, JobTask(s.jobs[j]))
    ensures |s.queue| + j < |All(s)| && All(s)[|s.queue| + j] == JobTask(s.jobs[j])
    ensures s.exn ==> B.SomeThrow(f)
  {
    hide B.Books, B.TaskOk;
    AtJob(s, j, s.jobs[j]);
    TaskOkAt(f, s.cache, All(s), |s.queue| + j, Waits(s));
  }

  lemma JobRelabels(f: int -> Option<Frame>, cfg: Config, s: Sys, j: nat, job: Job, exn: bool)
    requires Inv(f, cfg, s) && j < |s.jobs| && (exn ==> B.SomeThrow(f))
    requires B.PtrOf(JobTask(job)) == B.PtrOf(JobTask(s.jobs[j])) && B.TaskOk(f, s.cache, JobTask(job))
    ensures Inv(f, cfg, Assign(s.(exn := exn), j, job))
  {
    hide B.Books, Inv, B.Ptrs, All, Waits, B.TaskOk, JobTask, B.PtrOf;
    JobReady(f, cfg, s, j);
    B.Relabel(f, s.cache, All(s), |s.queue| + j, JobTask(job), Waits(s));
    WorkerMoves(f, cfg, s, j, job, None, exn, s.settled);
  }

  lemma StepStart(f: int -> Option<Frame>, cfg: Config, s: Sys, j: nat)
    requires Inv(f, cfg, s) && j < |s.jobs| && s.jobs[j].Spawned?
    ensures Inv(f, cfg, Assign(s, j, Looping))
  {
    hide B.Books, Inv, All, Waits, B.TaskOk;
    JobReady(f, cfg, s, j);
    JobRelabels(f, cfg, s, j, Looping, s.exn);
  }

  lemma StepFlag(f: int -> Option<Frame>, cfg: Config, s: Sys, j: nat)
    requires Inv(f, cfg, s) && j < |s.jobs| && s.jobs[j].Throwing?
    ensures Inv(f, cfg, Assign(s.(exn := true), j, Undoing(s.jobs[j].n, s.jobs[j].p)))
  {
    hide B.Books, Inv, All, Waits;
    JobReady(f, cfg, s, j);
    assert f(s.jobs[j].n).None?;
    JobRelabels(f, cfg, s, j, Undoing(s.jobs[j].n, s.jobs[j].p), true);
  }

  lemma StepFetch(f: int -> Option<Frame>, cfg: Config, s: Sys, j: nat)
    requires Inv(f, cfg, s) && j < |s.jobs| && s.jobs[j].Fetching?
    ensures Inv(f, cfg, NextFetch(f, s, j))
  {
    hide B.Books, Inv, B.Ptrs, All, Waits, LruCache.Next, B.TaskOk;
    JobReady(f, cfg, s, j);
    var w, k := s.jobs[j], |s.queue| + j;
    var v := f(w.n);
    if v.Some? {
      OwnerEnabled(f, s, k);
      B.OwnerWrites(f, s.cache, All(s), k, Waits(s), v.value);
      WorkerMoves(f, cfg, s, j, Stored(w.n, w.p), Some(Write(w.p, v.value)), s.exn, s.settled);
    } else {
      Unfetched(f, s.cache, w.n, w.p);
      JobRelabels(f, cfg, s, j, Throwing(w.n, w.p), s.exn);
    }
  }

  lemma StepResolve(f: int -> Option<Frame>, cfg: Config, s: Sys, j: nat)
    requires Inv(f, cfg, s) && j < |s.jobs| && (s.jobs[j].Stored? || s.jobs[j].Undoing?)
    ensures Inv(f, cfg, NextResolve(s, j))
  {
    hide B.Books, Inv, B.Ptrs, All, Waits, LruCache.Next, B.TaskOk;
    JobReady(f, cfg, s, j);
    var w, k := s.jobs[j], |s.queue| + j;
    OwnerEnabled(f, s, k);
    if w.Stored? {
      B.OwnerCommits(f, s.cache, All(s), k, Waits(s), NOTHING);
    } else {
      B.OwnerRollsBack(f, s.cache, All(s), k, Waits(s), NOTHING);
    }
    WorkerMoves(f, cfg, s, j, Looping, Some(if w.Stored? then Commit(w.p) else Rollback(w.p)), s.exn, s.settled + 1);
  }

  /** The front of the queue moves to worker j. */
  lemma TakeBooks(f: int -> Option<Frame>, s: Sys, j: nat)
    requires BooksOk(f, s) && j < |s.jobs| && s.jobs[j].Looping? && s.queue != []
    ensures BooksOk(f, NextTake(s, j))
  {
    hide LI.Inv, LT.Agree, B.TaskOk, B.Ptrs;
    var r := NextTake(s, j);
    var t, u := WorkTask(s.queue[0]), JobTask(r.jobs[j]);
    assert Queue(s.queue) == [t] + Queue(r.queue);
    assert Jobs(r.jobs) == Jobs(s.jobs)[j := u];
    TakePtrs(Queue(r.queue), Jobs(s.jobs), Clients(s.clients), j, t, u);
    TaskOkAt(f, s.cache, All(s), 0, Waits(s));
    B.TaskOkRelabel(f, s.cache, t, B.Fetching);
    forall v | v in All(r) ensures B.TaskOk(f, s.cache, v) {
      TakeMembers(Queue(r.queue), Jobs(s.jobs), Clients(s.clients), j, t, u, v);
    }
    Regroup(f, s.cache, All(s), All(r), Waits(s));
  }

  lemma TakePtrs(q: seq<B.Task>, w: seq<B.Task>, c: seq<B.Task>, j: nat, t: B.Task, u: B.Task)
    requires j < |w| && !B.Holds(w[j]) && B.PtrOf(t) == B.PtrOf(u)
    ensures B.Ptrs(q + w[j := u] + c) == B.Ptrs([t] + q + w + c)
  {
    hide B.Ptrs;
    var all, rest := [t] + q + w + c, q + w + c;
    B.PtrsWithout(all, 0);
    assert Without(all, 0) == rest;
    B.PtrsWithout(rest, |q| + j);
    B.PtrsUpdate(rest, |q| + j, u);
    assert rest[|q| + j := u] == q + w[j := u] + c;
    assert B.PtrOf(rest[|q| + j]) == multiset{};
    hide B.PtrOf;
    var none, held, others := B.PtrOf(rest[|q| + j]), B.PtrOf(u), B.Ptrs(Without(rest, |q| + j));
    assert held + (none + others) == held + others;
  }

  lemma TakeMembers(q: seq<B.Task>, w: seq<B.Task>, c: seq<B.Task>, j: nat, t: B.Task, u: B.Task, v: B.Task)
    requires j < |w| && v in q + w[j := u] + c
    ensures v in [t] + q + w + c || v == u
  {
    if v in w[j := u] && v != u {
      assert v in w;
    }
  }

  lemma StepTake(f: int -> Option<Frame>, cfg: Config, s: Sys, j: nat)
    requires Inv(f, cfg, s) && j < |s.jobs| && s.jobs[j].Looping?
    ensures Inv(f, cfg, NextTake(s, j))
  {
    hide B.Books, B.Ptrs, LruCache.Next, ClientOk, B.TaskOk, All;
    var r := NextTake(s, j);
    if s.queue == [] {
      JobCount(s, j, Looping);
      AtJob(s, j, Looping);
      B.BooksDrop(f, s.cache, All(s), j, Waits(s));
    } else {
      TakeBooks(f, s, j);
      JobCount(s, j, r.jobs[j]);
    }
  }

  // --------------------------------------------------------------- shutdown

  lemma {:induction false} AllInPool(jobs: seq<Job>)
    ensures InPool(jobs) <= |jobs|
    ensures InPool(jobs) == |jobs| ==> forall job :: job in jobs ==> job.Spawned?
    ensures jobs != [] && InPool(jobs) == 0 ==> !jobs[0].Spawned?
    decreases |jobs|
  {
    if jobs != [] {
      AllInPool(jobs[1..]);
    }
  }

  lemma DropBooks(f: int -> Option<Frame>, s: Sys)
    requires BooksOk(f, s) && forall job :: job in s.jobs ==> job.Spawned?
    ensures BooksOk(f, s.(stage := Draining, jobs := []))
  {
    hide LI.Inv, LT.Agree, B.TaskOk, B.Ptrs;
    var r := s.(stage := Draining, jobs := []);
    PtrsNone(Jobs(s.jobs));
    PtrsNone(Jobs([]));
    PtrsAll(s);
    PtrsAll(r);
    Regroup(f, s.cache, All(s), All(r), Waits(s));
  }

  lemma StepDrop(f: int -> Option<Frame>, cfg: Config, s: Sys)
    requires Inv(f, cfg, s) && s.stage == Finishing && InPool(s.jobs) == |s.jobs|
    ensures Inv(f, cfg, s.(stage := Draining, jobs := []))
  {
    hide BooksOk, LruCache.Next, ClientOk, B.Ptrs;
    AllInPool(s.jobs);
    DropBooks(f, s);
    PtrsNone(Jobs(s.jobs));
    PtrsNone(Jobs([]));
  }

  lemma StepDrain(f: int -> Option<Frame>, cfg: Config, s: Sys)
    requires Inv(f, cfg, s) && s.stage == Draining && s.queue != []
    ensures Inv(f, cfg, NextDrain(s))
  {
    hide B.Books, LruCache.Next, ClientOk, B.Ptrs;
    var r := NextDrain(s);
    assert All(s)[0] == WorkTask(s.queue[0]);
    assert All(r) == Without(All(s), 0);
    OwnerEnabled(f, s, 0);
    B.OwnerRollsBack(f, s.cache, All(s), 0, Waits(s), NOTHING);
    ClientsKept(f, s, Rollback(s.queue[0].p));
  }

  lemma StepStage(f: int -> Option<Frame>, cfg: Config, s: Sys, a: Act)
    requires Inv(f, cfg, s) && CanDo(cfg, s, a) && (a.Finish? || a.Close?)
    ensures Inv(f, cfg, Do(f, cfg, s, a))
  {
    hide B.Books, ClientOk, B.Ptrs;
    assert All(Do(f, cfg, s, a)) == All(s);
  }

  // -------------------------------------------------------------- whole runs

  lemma StepInv(f: int -> Option<Frame>, cfg: Config, s: Sys, a: Act)
    requires Inv(f, cfg, s) && CanDo(cfg, s, a)
    ensures Inv(f, cfg, Do(f, cfg, s, a))
  {
    hide Inv, NextLook, NextWake, NextCheck, NextProduce, NextSettle, NextSchedule, NextEnqueue, NextSpawn,
      NextTake, NextFetch, NextResolve, NextDrain, Put, Assign;
    match a
    case Call(i, n) => StepCall(f, cfg, s, i, n);
    case Look(i, newp) => StepLook(f, cfg, s, i, newp);
    case WakeUp(i) => StepWakeUp(f, cfg, s, i);
    case Check(i) => StepCheck(f, cfg, s, i);
    case Produce(i) =>
      if s.clients[i].Producing? { StepProduceHeld(f, cfg, s, i); } else { StepProduceDirect(f, cfg, s, i); }
    case Settle(i) => StepSettle(f, cfg, s, i);
    case Schedule(i, newp) => StepSchedule(f, cfg, s, i, newp);
    case Enqueue(i) => StepEnqueue(f, cfg, s, i);
    case Spawn(i) => StepSpawn(f, cfg, s, i);
    case Start(j) => StepStart(f, cfg, s, j);
    case Take(j) => StepTake(f, cfg, s, j);
    case Fetch(j) => StepFetch(f, cfg, s, j);
    case Flag(j) => StepFlag(f, cfg, s, j);
    case Resolve(j) => StepResolve(f, cfg, s, j);
    case Drop => StepDrop(f, cfg, s);
    case Drain => StepDrain(f, cfg, s);
    case _ => StepStage(f, cfg, s, a);
  }

  lemma {:induction false} RunInv(f: int -> Option<Frame>, cfg: Config, s: Sys, acts: seq<Act>)
    requires Inv(f, cfg, s) && Q.IsRun(f, cfg, s, acts)
    ensures Inv(f, cfg, Q.Exec(f, cfg, s, acts))
    decreases |acts|
  {
    hide Inv, Do;
    if |acts| > 0 {
      StepInv(f, cfg, s, acts[0]);
      RunInv(f, cfg, Do(f, cfg, s, acts[0]), acts[1..]);
    }
  }

  lemma InitInv(f: int -> Option<Frame>, cfg: Config, clients: nat)
    requires cfg.prefetch > 0 && cfg.threads > 0
    ensures Inv(f, cfg, Q.Init(cfg, clients))
  {
    hide LI.Inv, B.Ptrs, B.TaskOk;
    LT.InitInv(cfg.prefetch - 1, NoResize);
    var s := Q.Init(cfg, clients);
    assert s.jobs == [] && s.queue == [] && Jobs([]) == [];
    PtrsNone(All(s));
    PtrsNone(Waiters(s.clients));
    PtrsNone(Jobs([]));
    forall t | t in All(s) ensures B.TaskOk(f, s.cache, t) { NothingOk(f, s.cache); }
  }

  /** numWorkers counts the worker jobs queued or running and never exceeds numThreads. */
  lemma WorkersExact(f: int -> Option<Frame>, cfg: Config, clients: nat, acts: seq<Act>)
    requires cfg.prefetch > 0 && cfg.threads > 0 && Q.IsRun(f, cfg, Q.Init(cfg, clients), acts)
    ensures var s := Q.Exec(f, cfg, Q.Init(cfg, clients), acts);
      && |s.jobs| <= cfg.threads
      && (s.stage.Open? || s.stage.Finishing? ==> s.numWorkers == |s.jobs|)
  {
    hide BooksOk, ClientsOk, Live;
    InitInv(f, cfg, clients);
    RunInv(f, cfg, Q.Init(cfg, clients), acts);
  }

  /** While the object lives, a non-empty queue has a worker, or a client about to start one. */
  lemma NoStrandedWork(f: int -> Option<Frame>, cfg: Config, clients: nat, acts: seq<Act>)
    requires cfg.prefetch > 0 && cfg.threads > 0 && Q.IsRun(f, cfg, Q.Init(cfg, clients), acts)
    ensures var s := Q.Exec(f, cfg, Q.Init(cfg, clients), acts);
      s.stage.Open? && s.queue != [] ==> s.jobs != [] || exists i :: 0 <= i < |s.clients| && Promised(s.clients[i])
  {
    hide BooksOk, ClientsOk, CountsOk;
    InitInv(f, cfg, clients);
    RunInv(f, cfg, Q.Init(cfg, clients), acts);
  }

  /**
    Every handle put on the queue is settled once, or is still in the queue or
    with exactly one worker; after destruction all are settled and no handle
    of the cache is left.
   */
  lemma HandlesSettledOnce(f: int -> Option<Frame>, cfg: Config, clients: nat, acts: seq<Act>)
    requires cfg.prefetch > 0 && cfg.threads > 0 && Q.IsRun(f, cfg, Q.Init(cfg, clients), acts)
    ensures var s := Q.Exec(f, cfg, Q.Init(cfg, clients), acts);
      && s.enqueued == s.settled + |s.queue| + |B.Ptrs(Jobs(s.jobs))|
      && s.cache.handles == B.Ptrs(All(s))
      && (forall p :: s.cache.handles[p] <= 1)
      && !s.cache.fault
      && (s.stage.Closed? ==> s.enqueued == s.settled && s.cache.handles == multiset{} && s.cache.waiting == multiset{})
  {
    InitInv(f, cfg, clients);
    RunInv(f, cfg, Q.Init(cfg, clients), acts);
    Settled(f, cfg, Q.Exec(f, cfg, Q.Init(cfg, clients), acts));
  }

  lemma Settled(f: int -> Option<Frame>, cfg: Config, s: Sys)
    requires Inv(f, cfg, s)
    ensures s.enqueued == s.settled + |s.queue| + |B.Ptrs(Jobs(s.jobs))|
    ensures s.cache.handles == B.Ptrs(All(s)) && s.cache.waiting == Waits(s) && !s.cache.fault
    ensures forall p :: s.cache.handles[p] <= 1
    ensures s.stage.Closed? ==> s.enqueued == s.settled && s.cache.handles == multiset{} && s.cache.waiting == multiset{}
  {
    hide ClientOk, B.Ptrs, B.TaskOk;
    forall p ensures s.cache.handles[p] <= 1 {
      if p in s.cache.handles { B.SingleHandle(s.cache, p); }
    }
    if s.stage.Closed? {
      PtrsNone(Jobs(s.jobs));
      PtrsNone(All(s));
      PtrsNone(Waiters(s.clients));
    }
  }

  /**
    Whatever GetFrame(n) returned is the child's frame n, or a null frame when
    several threads request frames; it raised only if the child throws.
   */
  lemma FramesRight(f: int -> Option<Frame>, cfg: Config, clients: nat, acts: seq<Act>, i: nat)
    requires cfg.prefetch > 0 && cfg.threads > 0 && Q.IsRun(f, cfg, Q.Init(cfg, clients), acts)
    requires i < |Q.Exec(f, cfg, Q.Init(cfg, clients), acts).clients|
    ensures var s := Q.Exec(f, cfg, Q.Init(cfg, clients), acts);
      var c := s.clients[i];
      && (c.Returned? && c.result.Some? ==> c.result == f(c.n))
      && (c.Returned? && c.result.None? ==> |s.clients| > 1)
      && (c.Raised? ==> exists m :: f(m).None?)
  {
    hide Inv, Q.Init;
    InitInv(f, cfg, clients);
    RunInv(f, cfg, Q.Init(cfg, clients), acts);
    FrameRight(f, cfg, Q.Exec(f, cfg, Q.Init(cfg, clients), acts), i);
  }

  lemma FrameRight(f: int -> Option<Frame>, cfg: Config, s: Sys, i: nat)
    requires Inv(f, cfg, s) && i < |s.clients|
    ensures var c := s.clients[i];
      && (c.Returned? && c.result.Some? ==> c.result == f(c.n))
      && (c.Returned? && c.result.None? ==> |s.clients| > 1)
      && (c.Raised? ==> exists m :: f(m).None?)
  {
    hide BooksOk, CountsOk, Live;
    OneClientOk(f, s, i);
  }

  // --------------------------------------------------------------- progress

  /** A step of a thread inside GetFrame or of a worker that does more than go back to sleep. */
  ghost predicate Useful(cfg: Config, s: Sys, a: Act) {
    && (WorkerAct(a) || (ClientAct(a) && !a.Call?)) && CanDo(cfg, s, a)
    && (a.WakeUp? ==> var p := s.clients[a.i].p; p in s.cache.heap && s.cache.heap[p].state != Empty)
  }

  lemma ClientGoes(f: int -> Option<Frame>, cfg: Config, s: Sys, i: nat)
    requires Inv(f, cfg, s) && i < |s.clients| && !AtRest(s.clients[i]) && !s.clients[i].Waiting?
    ensures exists a :: Useful(cfg, s, a)
  {
    hide BooksOk, ClientsOk, Live;
    var p := B.Bound(s.cache.heap.Keys);
    AllInPool(s.jobs);
    var c := s.clients[i];
    var a :=
      if c.Wanting? then Look(i, p)
      else if c.Checking? then Check(i)
      else if c.Producing? || c.Direct? then Produce(i)
      else if c.Storing? || c.Failing? then Settle(i)
      else if c.Scheduling? then Schedule(i, p)
      else if c.Enqueuing? then Enqueue(i)
      else Spawn(i);
    assert Useful(cfg, s, a);
  }

  lemma WorkerGoes(f: int -> Option<Frame>, cfg: Config, s: Sys)
    requires Inv(f, cfg, s) && s.stage.Open? && s.jobs != []
    ensures exists a :: WorkerAct(a) && CanDo(cfg, s, a)
  {
    hide BooksOk, ClientsOk, Live;
    AllInPool(s.jobs);
    var w := s.jobs[0];
    var a :=
      if w.Spawned? then Start(0)
      else if w.Looping? then Take(0)
      else if w.Fetching? then Fetch(0)
      else if w.Throwing? then Flag(0)
      else Resolve(0);
    assert WorkerAct(a) && CanDo(cfg, s, a);
  }

  lemma NobodyHolds(s: Sys)
    requires s.queue == [] && s.jobs == []
    requires forall k :: 0 <= k < |s.clients| ==> AtRest(s.clients[k]) || s.clients[k].Waiting?
    ensures B.Ptrs(All(s)) == multiset{}
  {
    assert All(s) == Clients(s.clients);
    PtrsNone(Clients(s.clients));
  }

  /** With nobody else about, whoever waits waits for nothing. */
  lemma WaiterGoes(f: int -> Option<Frame>, cfg: Config, s: Sys, i: nat)
    requires Inv(f, cfg, s) && i < |s.clients| && s.clients[i].Waiting? && s.queue == [] && s.jobs == []
    requires forall k :: 0 <= k < |s.clients| ==> AtRest(s.clients[k]) || s.clients[k].Waiting?
    ensures Useful(cfg, s, WakeUp(i))
  {
    hide ClientsOk, CountsOk, Live, LT.Agree, LI.Inv, B.Ptrs, B.TaskOk, Waits;
    NobodyHolds(s);
    WaitsPut(s, i, s.clients[i]);
    LI.HeldEntryOk(s.cache, s.clients[i].p);
  }

  /**
    No deadlock. While the object lives, as long as a call is under way or
    work is queued, some thread can take a step that is not a spurious wake-up.
   */
  lemma NoDeadlock(f: int -> Option<Frame>, cfg: Config, clients: nat, acts: seq<Act>)
    requires cfg.prefetch > 0 && cfg.threads > 0 && Q.IsRun(f, cfg, Q.Init(cfg, clients), acts)
    ensures var s := Q.Exec(f, cfg, Q.Init(cfg, clients), acts);
      s.stage.Open? && (s.queue != [] || s.jobs != [] || !Resting(s.clients)) ==> exists a :: Useful(cfg, s, a)
  {
    hide Inv, Useful;
    InitInv(f, cfg, clients);
    RunInv(f, cfg, Q.Init(cfg, clients), acts);
    SomebodyGoes(f, cfg, Q.Exec(f, cfg, Q.Init(cfg, clients), acts));
  }

  lemma SomebodyGoes(f: int -> Option<Frame>, cfg: Config, s: Sys)
    requires Inv(f, cfg, s)
    ensures s.stage.Open? && (s.queue != [] || s.jobs != [] || !Resting(s.clients)) ==> exists a :: Useful(cfg, s, a)
  {
    hide BooksOk, ClientsOk, CountsOk;
    if s.stage.Open? {
      if s.jobs != [] {
        WorkerGoes(f, cfg, s);
        var a :| WorkerAct(a) && CanDo(cfg, s, a);
        assert Useful(cfg, s, a);
      } else if i :| 0 <= i < |s.clients| && !AtRest(s.clients[i]) && !s.clients[i].Waiting? {
        ClientGoes(f, cfg, s, i);
      } else if i :| 0 <= i < |s.clients| && s.clients[i].Waiting? {
        WaiterGoes(f, cfg, s, i);
      }
    }
  }

  function Weight(job: Job): nat {
    match job
    case Spawned => 2
    case Looping => 1
    case Fetching(_, _) => 4
    case Stored(_, _) => 2
    case Throwing(_, _) => 3
    case Undoing(_, _) => 2
  }

  function Weights(jobs: seq<Job>): nat {
    if jobs == [] then 0 else Weight(jobs[0]) + Weights(jobs[1..])
  }

  /** Bounds the number of worker steps left when no client schedules more. */
  function Load(s: Sys): nat {
    4 * |s.queue| + Weights(s.jobs)
  }

  lemma {:induction false} WeightsWithout(jobs: seq<Job>, j: nat)
    requires j < |jobs|
    ensures Weights(jobs) == Weight(jobs[j]) + Weights(Without(jobs, j))
    decreases |jobs|
  {
    hide Weight;
    if j == 0 {
      assert Without(jobs, 0) == jobs[1..];
    } else {
      WeightsWithout(jobs[1..], j - 1);
      assert Without(jobs, j)[1..] == Without(jobs[1..], j - 1);
    }
  }

  lemma LoadFalls(f: int -> Option<Frame>, cfg: Config, s: Sys, a: Act)
    requires WorkerAct(a) && CanDo(cfg, s, a)
    ensures var r := Do(f, cfg, s, a); Load(r) < Load(s) && r.clients == s.clients && r.stage == s.stage
  {
    hide LruCache.Next, Weights, InPool;
    WeightsWithout(s.jobs, a.j);
    var r := Do(f, cfg, s, a);
    if |r.jobs| == |s.jobs| {
      WeightsWithout(r.jobs, a.j);
      assert Without(r.jobs, a.j) == Without(s.jobs, a.j);
    }
  }

  lemma {:induction false} LoadRun(f: int -> Option<Frame>, cfg: Config, s: Sys, acts: seq<Act>)
    requires Q.IsRun(f, cfg, s, acts) && forall i :: 0 <= i < |acts| ==> WorkerAct(acts[i])
    ensures var r := Q.Exec(f, cfg, s, acts); |acts| + Load(r) <= Load(s) && r.clients == s.clients && r.stage == s.stage
    decreases |acts|
  {
    hide Do, Load, WorkerAct;
    if |acts| > 0 {
      LoadFalls(f, cfg, s, acts[0]);
      LoadRun(f, cfg, Do(f, cfg, s, acts[0]), acts[1..]);
    }
  }

  /**
    The queue empties. Once no client is scheduling, the workers take at most
    Load(s) more steps, and they come to rest only with an empty queue.
   */
  lemma WorkersDrain(f: int -> Option<Frame>, cfg: Config, s: Sys, acts: seq<Act>)
    requires Inv(f, cfg, s) && s.stage.Open? && !SomePromise(s.clients)
    requires Q.IsRun(f, cfg, s, acts) && forall i :: 0 <= i < |acts| ==> WorkerAct(acts[i])
    ensures var r := Q.Exec(f, cfg, s, acts);
      && |acts| <= Load(s)
      && ((forall a :: WorkerAct(a) ==> !CanDo(cfg, r, a)) ==> r.queue == [] && r.jobs == [])
  {
    hide Load, CanDo, WorkerAct, SomePromise, BooksOk, ClientsOk, CountsOk;
    LoadRun(f, cfg, s, acts);
    RunInv(f, cfg, s, acts);
    var r := Q.Exec(f, cfg, s, acts);
    if r.jobs != [] { WorkerGoes(f, cfg, r); }
  }
}
