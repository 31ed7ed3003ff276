/**
  Prefetcher.cpp with its thread pool: one client thread calls GetFrame, worker
  threads fetch the scheduled frames, all through the shared frame cache.
  Every mutex-held region, child call and counter update is one step.
 */
module Prefetcher {
  import opened KeyedList
  import opened LruCache
  import opened HandleBooks
  import StrideLock

  /** nThreads, nPrefetchFrames and vi.num_frames. */
  datatype Config = Config(threads: nat, window: nat, frames: int)

  datatype Pass = First | Second(result: Option<Frame>)

  datatype Client =
    | Idle
    | Checking(n: int)
    | Scheduling(n: int, pos: int, pass: Pass)
    | Reserving(n: int, pos: int, pass: Pass, p: Ptr)
    | Pushing(n: int, pos: int, pass: Pass, p: Ptr)
    | Wanting(n: int, pos: int)
    | Waiting(n: int, pos: int, p: Ptr)
    | Producing(n: int, pos: int, p: Ptr)
    | Storing(n: int, pos: int, p: Ptr, v: Frame)
    | Failing(n: int, p: Ptr)
    | Direct(n: int, pos: int)
    | Returned(n: int, result: Option<Frame>)
    | Raised(n: int)
    | Draining
    | Closed

  /** `issued` and `resolved` count the handles taken and settled on behalf of SchedulePrefetch. */
  datatype Sys = Sys(
    cache: Cache,
    tasks: seq<Task>,
    running: int,
    exn: bool,
    stride: StrideLock.Stride,
    client: Client,
    issued: nat,
    resolved: nat)

  datatype Act =
    | Request(n: int)
    | Check
    | Schedule(newp: Ptr)
    | Count
    | Push
    | Demand(newp: Ptr)
    | WakeUp
    | Produce
    | Settle
    | Pop(i: nat)
    | WorkerFetch(i: nat)
    | WorkerResolve(i: nat)
    | WorkerFlag(i: nat)
    | WorkerLeave(i: nat)
    | Shut
    | Drain
    | Close

  function Init(cfg: Config): Sys {
    Sys(LruCache.Init(cfg.window * 2, NoResize), [], 0, false, StrideLock.START, Idle, 0, 0)
  }

  function Abs(x: int): nat {
    if x < 0 then -x else x
  }

  function QueueLength(tasks: seq<Task>): nat {
    if tasks == [] then 0 else (if tasks[0].phase == Queued then 1 else 0) + QueueLength(tasks[1..])
  }

  /** The condition of the scheduling loop. */
  predicate LoopOn(cfg: Config, s: Sys) {
    s.client.Scheduling? && s.running < cfg.window && Abs(s.client.pos - s.client.n) < cfg.window
  }

  predicate AtRest(c: Client) {
    c.Idle? || c.Returned? || c.Raised?
  }

  predicate HasTask(s: Sys, i: nat, phase: Phase) {
    i < |s.tasks| && s.tasks[i].phase == phase
  }

  predicate CanDo(cfg: Config, s: Sys, a: Act) {
    match a
    case Request(_) => AtRest(s.client)
    case Check => s.client.Checking?
    case Schedule(newp) => s.client.Scheduling? && newp !in s.cache.heap
    case Count => s.client.Reserving?
    case Push => s.client.Pushing? && QueueLength(s.tasks) < cfg.threads * 6
    case Demand(newp) => s.client.Wanting? && newp !in s.cache.heap
    case WakeUp => s.client.Waiting?
    case Produce => s.client.Producing? || s.client.Direct?
    case Settle => s.client.Storing? || s.client.Failing?
    case Pop(i) =>
      && HasTask(s, i, Queued) && QueueLength(s.tasks[..i]) == 0
      && |s.tasks| - QueueLength(s.tasks) < cfg.threads && !s.client.Draining? && !s.client.Closed?
    case WorkerFetch(i) => HasTask(s, i, Fetching)
    case WorkerResolve(i) => HasTask(s, i, Stored) || HasTask(s, i, Failed)
    case WorkerFlag(i) => HasTask(s, i, Flagging)
    case WorkerLeave(i) => HasTask(s, i, Leaving)
    case Shut => AtRest(s.client)
    case Drain => s.client.Draining? && s.tasks != [] && QueueLength(s.tasks) == |s.tasks|
    case Close => s.client.Draining? && s.tasks == []
  }

  /** One turn of the scheduling loop, or its exit. */
  function NextSchedule(cfg: Config, s: Sys, newp: Ptr): Sys
    requires s.client.Scheduling?
  {
    var c := s.client;
    var done := if c.pass.First? then Wanting(c.n, c.pos) else Returned(c.n, c.pass.result);
    if !LoopOn(cfg, s) then s.(client := done)
    else
      var pos := c.pos + StrideLock.Step(s.stride);
      if pos >= cfg.frames then
        s.(client := if c.pass.First? then Wanting(c.n, pos) else Returned(c.n, c.pass.result))
      else
        var (cache, out) := LruCache.Next(s.cache, Lookup(pos, false, None, newp));
        var s1 := s.(cache := cache);
        match out
        case NotFound(p) => s1.(client := Reserving(c.n, pos, c.pass, p), issued := s.issued + 1)
        case _ => s1.(client := Scheduling(c.n, pos, c.pass))
  }

  /** The blocking lookup of the requested frame. */
  function NextDemand(s: Sys, newp: Ptr): Sys
    requires s.client.Wanting?
  {
    var c := s.client;
    var (cache, out) := LruCache.Next(s.cache, Lookup(c.n, true, None, newp));
    s.(cache := cache, client := AfterLookup(c.n, c.pos, out))
  }

  function AfterLookup(n: int, pos: int, out: Outcome): Client {
    match out
    case NotFound(p) => Producing(n, pos, p)
    case Ready(v) => Scheduling(n, pos, Second(v))
    case Blocked(p) => Waiting(n, pos, p)
    case NoCache => Direct(n, pos)
    case _ => Closed
  }

  function NextProduce(f: int -> Option<Frame>, s: Sys): Sys
    requires s.client.Producing? || s.client.Direct?
  {
    var c := s.client;
    match f(c.n)
    case Some(v) =>
      if c.Direct? then s.(client := Scheduling(c.n, c.pos, Second(Some(v))))
      else s.(cache := LruCache.Next(s.cache, Write(c.p, v)).0, client := Storing(c.n, c.pos, c.p, v))
    case None =>
      if c.Direct? then s.(client := Raised(c.n)) else s.(client := Failing(c.n, c.p))
  }

  function NextSettle(s: Sys): Sys
    requires s.client.Storing? || s.client.Failing?
  {
    var c := s.client;
    if c.Storing? then
      s.(cache := LruCache.Next(s.cache, Commit(c.p)).0, client := Scheduling(c.n, c.pos, Second(Some(c.v))))
    else s.(cache := LruCache.Next(s.cache, Rollback(c.p)).0, client := Raised(c.n))
  }

  function NextFetch(f: int -> Option<Frame>, s: Sys, i: nat): Sys
    requires i < |s.tasks|
  {
    var t := s.tasks[i];
    match f(t.frame)
    case Some(v) =>
      s.(cache := LruCache.Next(s.cache, Write(t.p, v)).0, tasks := s.tasks[i := t.(phase := Stored)])
    case None => s.(tasks := s.tasks[i := t.(phase := Failed)])
  }

  function NextResolve(s: Sys, i: nat): Sys
    requires i < |s.tasks|
  {
    var t := s.tasks[i];
    if t.phase == Stored then
      s.(cache := LruCache.Next(s.cache, Commit(t.p)).0, tasks := s.tasks[i := t.(phase := Leaving)], resolved := s.resolved + 1)
    else
      s.(cache := LruCache.Next(s.cache, Rollback(t.p)).0, tasks := s.tasks[i := t.(phase := Flagging)], resolved := s.resolved + 1)
  }

  function Do(f: int -> Option<Frame>, cfg: Config, s: Sys, a: Act): Sys
    requires CanDo(cfg, s, a)
  {
    match a
    case Request(n) => s.(stride := StrideLock.Observe(s.stride, n), client := Checking(n))
    case Check => s.(client := if s.exn then Raised(s.client.n) else Scheduling(s.client.n, s.client.n, First))
    case Schedule(newp) => NextSchedule(cfg, s, newp)
    case Count => s.(running := s.running + 1, client := Pushing(s.client.n, s.client.pos, s.client.pass, s.client.p))
    case Push =>
      s.(tasks := s.tasks + [Task(s.client.pos, s.client.p, Queued)],
         client := Scheduling(s.client.n, s.client.pos, s.client.pass))
    case Demand(newp) => NextDemand(s, newp)
    case WakeUp =>
      var (cache, out) := LruCache.Next(s.cache, Wake(s.client.p));
      s.(cache := cache, client := AfterLookup(s.client.n, s.client.pos, out))
    case Produce => NextProduce(f, s)
    case Settle => NextSettle(s)
    case Pop(i) => s.(tasks := s.tasks[i := s.tasks[i].(phase := Fetching)])
    case WorkerFetch(i) => NextFetch(f, s, i)
    case WorkerResolve(i) => NextResolve(s, i)
    case WorkerFlag(i) => s.(exn := true, tasks := s.tasks[i := s.tasks[i].(phase := Leaving)])
    case WorkerLeave(i) => s.(running := s.running - 1, tasks := Without(s.tasks, i))
    case Shut => s.(client := Draining)
    case Drain =>
      s.(cache := LruCache.Next(s.cache, Rollback(s.tasks[0].p)).0, tasks := Without(s.tasks, 0), resolved := s.resolved + 1)
    case Close => s.(client := Closed)
  }

  function Exec(f: int -> Option<Frame>, cfg: Config, s: Sys, acts: seq<Act>): Sys
    requires IsRun(f, cfg, s, acts)
    decreases |acts|
  {
    if |acts| == 0 then s else Exec(f, cfg, Do(f, cfg, s, acts[0]), acts[1..])
  }

  ghost predicate IsRun(f: int -> Option<Frame>, cfg: Config, s: Sys, acts: seq<Act>)
    decreases |acts|
  {
    |acts| == 0 || (CanDo(cfg, s, acts[0]) && IsRun(f, cfg, Do(f, cfg, s, acts[0]), acts[1..]))
  }
}
