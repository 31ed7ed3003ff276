/**
  QueuePrefetcher of DeviceManager.cpp: any number of client threads call
  GetFrame; scheduled frames go to one queue that pool workers drain. Every
  mutex-held region, cache operation and child call is one step.
 */
module QueuePrefetcher {
  import opened KeyedList
  import opened LruCache

  /** prefetchFrames, numThreads and vi.num_frames, both counts positive. */
  datatype Config = Config(prefetch: nat, threads: nat, frames: int)

  /** One ThreadWorker job: in the pool's queue, at the head of its loop, or busy with a frame. */
  datatype Job =
    | Spawned
    | Looping
    | Fetching(n: int, p: Ptr)
    | Stored(n: int, p: Ptr)
    | Throwing(n: int, p: Ptr)
    | Undoing(n: int, p: Ptr)

  /** One client thread inside GetFrame; `queued` is the local numQueued of SchedulePrefetch. */
  datatype Client =
    | Idle
    | Wanting(n: int)
    | Waiting(n: int, p: Ptr)
    | Checking(n: int, p: Ptr)
    | Producing(n: int, p: Ptr)
    | Storing(n: int, p: Ptr, v: Frame)
    | Failing(n: int, p: Ptr)
    | Direct(n: int)
    | Scheduling(n: int, pos: int, queued: nat, result: Option<Frame>)
    | Enqueuing(n: int, pos: int, queued: nat, result: Option<Frame>, p: Ptr)
    | Spawning(n: int, queued: nat, result: Option<Frame>)
    | Returned(n: int, result: Option<Frame>)
    | Raised(n: int)

  /** Finishing: ThreadPool::Finish waits for its threads; Draining: the destructor's loop. */
  datatype Stage = Open | Finishing | Draining | Closed

  datatype Work = Work(n: int, p: Ptr)

  /** `enqueued` and `settled` count the handles put on the queue and those committed or rolled back since. */
  datatype Sys = Sys(
    cache: Cache,
    queue: seq<Work>,
    jobs: seq<Job>,
    numWorkers: int,
    exn: bool,
    clients: seq<Client>,
    stage: Stage,
    enqueued: nat,
    settled: nat)

  datatype Act =
    | Call(i: nat, n: int)
    | Look(i: nat, newp: Ptr)
    | WakeUp(i: nat)
    | Check(i: nat)
    | Produce(i: nat)
    | Settle(i: nat)
    | Schedule(i: nat, newp: Ptr)
    | Enqueue(i: nat)
    | Spawn(i: nat)
    | Start(j: nat)
    | Take(j: nat)
    | Fetch(j: nat)
    | Flag(j: nat)
    | Resolve(j: nat)
    | Finish
    | Drop
    | Drain
    | Close

  /** The fields the constructor leaves behind; `built`: threadPool and videoCache are set. */
  datatype Fields = Fields(prefetchFrames: int, numThreads: int, built: bool)

  /** GetFrame looks in the cache unless it is bypassed. */
  predicate GetFrameSafe(fields: Fields) {
    fields.prefetchFrames == 0 || fields.built
  }

  /** The destructor finishes the pool. */
  predicate DestructorSafe(fields: Fields) {
    fields.numThreads <= 0 || fields.built
  }

  /**
    The constructor. Its else branch zeroes the parameters, which hide the
    fields, so no null pool or cache is used exactly if both values are
    positive, or nothing is to be prefetched and no thread asked for.
   */
  method Construct(prefetchFrames: int, numThreads: int) returns (fields: Fields)
    ensures fields.prefetchFrames == prefetchFrames && fields.numThreads == numThreads
    ensures fields.built <==> numThreads > 0 && prefetchFrames > 0
    ensures GetFrameSafe(fields) && DestructorSafe(fields) <==>
      (prefetchFrames > 0 && numThreads > 0) || (prefetchFrames == 0 && numThreads <= 0)
  {
    var frames, threads := prefetchFrames, numThreads;
    fields := Fields(frames, threads, false);
    if threads > 0 && frames > 0 {
      fields := fields.(built := true);
    } else {
      threads, frames := 0, 0;
    }
  }

  function Init(cfg: Config, clients: nat): Sys
    requires cfg.prefetch > 0
  {
    Sys(LruCache.Init(cfg.prefetch - 1, NoResize), [], [], 0, false, seq(clients, _ => Idle), Open, 0, 0)
  }

  predicate AtRest(c: Client) {
    c.Idle? || c.Returned? || c.Raised?
  }

  function InPool(jobs: seq<Job>): nat {
    if jobs == [] then 0 else (if jobs[0].Spawned? then 1 else 0) + InPool(jobs[1..])
  }

  /** How many jobs the spawning loop adds. */
  function ToSpawn(cfg: Config, s: Sys, queued: nat): nat {
    var room := cfg.threads - s.numWorkers;
    if room <= 0 then 0 else if queued < room then queued else room
  }

  predicate WorkerAct(a: Act) {
    a.Start? || a.Take? || a.Fetch? || a.Flag? || a.Resolve?
  }

  predicate ClientAct(a: Act) {
    a.Call? || a.Look? || a.WakeUp? || a.Check? || a.Produce? || a.Settle? || a.Schedule? || a.Enqueue? || a.Spawn?
  }

  predicate ClientCan(cfg: Config, s: Sys, a: Act)
    requires ClientAct(a)
  {
    && a.i < |s.clients|
    && var c := s.clients[a.i];
    match a
    case Call(_, _) => AtRest(c) && s.stage == Open
    case Look(_, newp) => c.Wanting? && newp !in s.cache.heap
    case WakeUp(_) => c.Waiting?
    case Check(_) => c.Checking?
    case Produce(_) => c.Producing? || c.Direct?
    case Settle(_) => c.Storing? || c.Failing?
    case Schedule(_, newp) => c.Scheduling? && newp !in s.cache.heap
    case Enqueue(_) => c.Enqueuing?
    case Spawn(_) => c.Spawning? && InPool(s.jobs) + ToSpawn(cfg, s, c.queued) <= cfg.threads * 6
  }

  predicate WorkerCan(cfg: Config, s: Sys, a: Act)
    requires WorkerAct(a)
  {
    && a.j < |s.jobs|
    && var job := s.jobs[a.j];
    match a
    case Start(_) => job.Spawned? && s.stage == Open && |s.jobs| - InPool(s.jobs) < cfg.threads
    case Take(_) => job.Looping?
    case Fetch(_) => job.Fetching?
    case Flag(_) => job.Throwing?
    case Resolve(_) => job.Stored? || job.Undoing?
  }

  predicate CanDo(cfg: Config, s: Sys, a: Act) {
    if ClientAct(a) then ClientCan(cfg, s, a)
    else if WorkerAct(a) then WorkerCan(cfg, s, a)
    else match a
      case Finish => s.stage == Open && forall i :: 0 <= i < |s.clients| ==> AtRest(s.clients[i])
      case Drop => s.stage == Finishing && InPool(s.jobs) == |s.jobs|
      case Drain => s.stage == Draining && s.queue != []
      case Close => s.stage == Draining && s.queue == []
      case _ => false
  }

  // ---------------------------------------------------------------- clients

  function Put(s: Sys, i: nat, c: Client): Sys
    requires i < |s.clients|
  {
    s.(clients := s.clients[i := c])
  }

  function AfterLookup(n: int, out: Outcome): Client {
    match out
    case NotFound(p) => Checking(n, p)
    case Ready(v) => Scheduling(n, n + 1, 0, v)
    case Blocked(p) => Waiting(n, p)
    case NoCache => Direct(n)
    case _ => Raised(n)
  }

  function NextLook(s: Sys, i: nat, newp: Ptr): Sys
    requires i < |s.clients| && s.clients[i].Wanting?
  {
    var n := s.clients[i].n;
    var (cache, out) := LruCache.Next(s.cache, Lookup(n, true, None, newp));
    Put(s.(cache := cache), i, AfterLookup(n, out))
  }

  function NextWake(s: Sys, i: nat): Sys
    requires i < |s.clients| && s.clients[i].Waiting?
  {
    var c := s.clients[i];
    var (cache, out) := LruCache.Next(s.cache, Wake(c.p));
    Put(s.(cache := cache), i, AfterLookup(c.n, out))
  }

  /** A worker's exception is rethrown inside the try block, so the handle is rolled back. */
  function NextCheck(s: Sys, i: nat): Sys
    requires i < |s.clients| && s.clients[i].Checking?
  {
    var c := s.clients[i];
    Put(s, i, if s.exn then Failing(c.n, c.p) else Producing(c.n, c.p))
  }

  function NextProduce(f: int -> Option<Frame>, s: Sys, i: nat): Sys
    requires i < |s.clients| && (s.clients[i].Producing? || s.clients[i].Direct?)
  {
    var c := s.clients[i];
    match f(c.n)
    case Some(v) =>
      if c.Direct? then Put(s, i, Scheduling(c.n, c.n + 1, 0, Some(v)))
      else Put(s.(cache := LruCache.Next(s.cache, Write(c.p, v)).0), i, Storing(c.n, c.p, v))
    case None => Put(s, i, if c.Direct? then Raised(c.n) else Failing(c.n, c.p))
  }

  function NextSettle(s: Sys, i: nat): Sys
    requires i < |s.clients| && (s.clients[i].Storing? || s.clients[i].Failing?)
  {
    var c := s.clients[i];
    if c.Storing? then
      Put(s.(cache := LruCache.Next(s.cache, Commit(c.p)).0), i, Scheduling(c.n, c.n + 1, 0, Some(c.v)))
    else Put(s.(cache := LruCache.Next(s.cache, Rollback(c.p)).0), i, Raised(c.n))
  }

  /** One turn of the loop in SchedulePrefetch, or its exit. */
  function NextSchedule(cfg: Config, s: Sys, i: nat, newp: Ptr): Sys
    requires i < |s.clients| && s.clients[i].Scheduling?
  {
    var c := s.clients[i];
    if !(c.pos < c.n + cfg.prefetch && c.pos < cfg.frames) then
      Put(s, i, if c.queued > 0 then Spawning(c.n, c.queued, c.result) else Returned(c.n, c.result))
    else
      var (cache, out) := LruCache.Next(s.cache, Lookup(c.pos, false, None, newp));
      var next := Scheduling(c.n, c.pos + 1, c.queued, c.result);
      Put(s.(cache := cache), i,
          if out.NotFound? then Enqueuing(c.n, c.pos, c.queued, c.result, out.p) else next)
  }

  function NextEnqueue(s: Sys, i: nat): Sys
    requires i < |s.clients| && s.clients[i].Enqueuing?
  {
    var c := s.clients[i];
    Put(s.(queue := s.queue + [Work(c.pos, c.p)], enqueued := s.enqueued + 1), i,
        Scheduling(c.n, c.pos + 1, c.queued + 1, c.result))
  }

  function NextSpawn(cfg: Config, s: Sys, i: nat): Sys
    requires i < |s.clients| && s.clients[i].Spawning?
  {
    var c := s.clients[i];
    var k := ToSpawn(cfg, s, c.queued);
    Put(s.(jobs := s.jobs + seq(k, _ => Spawned), numWorkers := s.numWorkers + k), i, Returned(c.n, c.result))
  }

  function ClientDo(f: int -> Option<Frame>, cfg: Config, s: Sys, a: Act): Sys
    requires ClientAct(a) && ClientCan(cfg, s, a)
  {
    match a
    case Call(i, n) => Put(s, i, Wanting(n))
    case Look(i, newp) => NextLook(s, i, newp)
    case WakeUp(i) => NextWake(s, i)
    case Check(i) => NextCheck(s, i)
    case Produce(i) => NextProduce(f, s, i)
    case Settle(i) => NextSettle(s, i)
    case Schedule(i, newp) => NextSchedule(cfg, s, i, newp)
    case Enqueue(i) => NextEnqueue(s, i)
    case Spawn(i) => NextSpawn(cfg, s, i)
  }

  // ---------------------------------------------------------------- workers

  function Assign(s: Sys, j: nat, job: Job): Sys
    requires j < |s.jobs|
  {
    s.(jobs := s.jobs[j := job])
  }

  function NextFetch(f: int -> Option<Frame>, s: Sys, j: nat): Sys
    requires j < |s.jobs| && s.jobs[j].Fetching?
  {
    var w := s.jobs[j];
    match f(w.n)
    case Some(v) => Assign(s.(cache := LruCache.Next(s.cache, Write(w.p, v)).0), j, Stored(w.n, w.p))
    case None => Assign(s, j, Throwing(w.n, w.p))
  }

  /** With an empty queue the worker leaves; otherwise it takes the front. */
  function NextTake(s: Sys, j: nat): Sys
    requires j < |s.jobs|
  {
    if s.queue == [] then s.(jobs := Without(s.jobs, j), numWorkers := s.numWorkers - 1)
    else Assign(s.(queue := s.queue[1..]), j, Fetching(s.queue[0].n, s.queue[0].p))
  }

  function NextResolve(s: Sys, j: nat): Sys
    requires j < |s.jobs| && (s.jobs[j].Stored? || s.jobs[j].Undoing?)
  {
    var w := s.jobs[j];
    var step := if w.Stored? then Commit(w.p) else Rollback(w.p);
    Assign(s.(cache := LruCache.Next(s.cache, step).0, settled := s.settled + 1), j, Looping)
  }

  function WorkerDo(f: int -> Option<Frame>, cfg: Config, s: Sys, a: Act): Sys
    requires WorkerAct(a) && WorkerCan(cfg, s, a)
  {
    match a
    case Start(j) => Assign(s, j, Looping)
    case Take(j) => NextTake(s, j)
    case Fetch(j) => NextFetch(f, s, j)
    case Flag(j) => Assign(s.(exn := true), j, Undoing(s.jobs[j].n, s.jobs[j].p))
    case Resolve(j) => NextResolve(s, j)
  }

  function NextDrain(s: Sys): Sys
    requires s.queue != []
  {
    s.(cache := LruCache.Next(s.cache, Rollback(s.queue[0].p)).0, queue := s.queue[1..], settled := s.settled + 1)
  }

  function Do(f: int -> Option<Frame>, cfg: Config, s: Sys, a: Act): Sys
    requires CanDo(cfg, s, a)
  {
    if ClientAct(a) then ClientDo(f, cfg, s, a)
    else if WorkerAct(a) then WorkerDo(f, cfg, s, a)
    else match a
      case Finish => s.(stage := Finishing)
      case Drop => s.(stage := Draining, jobs := [])
      case Drain => NextDrain(s)
      case Close => s.(stage := Closed)
  }

  function Exec(f: int -> Option<Frame>, cfg: Config, s: Sys, acts: seq<Act>): Sys
    requires IsRun(f, cfg, s, acts)
    decreases |acts|
  {
    if |acts| == 0 then s else Exec(f, cfg, Do(f, cfg, s, acts[0]), acts[1..])
  }

  ghost predicate IsRun(f: int -> Option<Frame>, cfg: Config, s: Sys, acts: seq<Act>)
    decreases |acts|
  {
    |acts| == 0 || (CanDo(cfg, s, acts[0]) && IsRun(f, cfg, Do(f, cfg, s, acts[0]), acts[1..]))
  }
}
