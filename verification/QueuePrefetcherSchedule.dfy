/**
  Which frames QueuePrefetcher::SchedulePrefetch asks for, how many workers it
  spawns for those it queued, in which order they are served, and how a worker's
  exception comes back.
 */
module QueuePrefetcherSchedule {
  import opened KeyedList
  import opened LruCache
  import opened Q = QueuePrefetcher
  import LT = LruTheorems
  import QT = QueuePrefetcherTheorems

  /** How many frames behind n are in the window and in the clip. */
  function Span(cfg: Config, n: int): nat {
    if cfg.prefetch <= 1 || cfg.frames <= n + 1 then 0
    else if n + cfg.prefetch <= cfg.frames then cfg.prefetch - 1
    else cfg.frames - n - 1
  }

  /** A turn of client i's scheduling loop that looks a frame up. */
  predicate Turn(cfg: Config, s: Sys, i: nat, a: Act) {
    a.Schedule? && a.i == i && i < |s.clients| && s.clients[i].Scheduling?
    && s.clients[i].pos < s.clients[i].n + cfg.prefetch && s.clients[i].pos < cfg.frames
  }

  /** Such a turn looks up the frame at its position, without blocking, and a new handle goes to the queue next. */
  lemma TurnAsks(f: int -> Option<Frame>, cfg: Config, s: Sys, i: nat, newp: Ptr)
    requires CanDo(cfg, s, Schedule(i, newp))
    ensures var c, r := s.clients[i], Do(f, cfg, s, Schedule(i, newp));
      var (cache, out) := LruCache.Next(s.cache, Lookup(c.pos, false, None, newp));
      if Turn(cfg, s, i, Schedule(i, newp)) then
        && r.cache == cache
        && r.clients[i] == (if out.NotFound? then Enqueuing(c.n, c.pos, c.queued, c.result, out.p)
                            else Scheduling(c.n, c.pos + 1, c.queued, c.result))
      else
        && r.cache == s.cache
        && r.clients[i] == (if c.queued > 0 then Spawning(c.n, c.queued, c.result) else Returned(c.n, c.result))
    ensures var r := Do(f, cfg, s, Schedule(i, newp)); |r.clients| == |s.clients|
  {
    hide LruCache.Next;
  }

  /** How often client i looked a frame up in its scheduling loop. */
  function Turns(f: int -> Option<Frame>, cfg: Config, s: Sys, i: nat, acts: seq<Act>): nat
    requires Q.IsRun(f, cfg, s, acts)
    decreases |acts|
  {
    if |acts| == 0 then 0
    else (if Turn(cfg, s, i, acts[0]) then 1 else 0) + Turns(f, cfg, Do(f, cfg, s, acts[0]), i, acts[1..])
  }

  /** How often it put a handle on the queue. */
  function Queued(acts: seq<Act>, i: nat): nat {
    if acts == [] then 0 else (if acts[0] == Enqueue(i) then 1 else 0) + Queued(acts[1..], i)
  }

  /** Client i's request for frame n after `turns` lookups of which `queued` handles went to the queue. */
  predicate Progress(cfg: Config, c: Client, n: int, turns: nat, queued: nat) {
    match c
    case Wanting(m) => m == n && turns == 0 && queued == 0
    case Waiting(m, _) => m == n && turns == 0 && queued == 0
    case Checking(m, _) => m == n && turns == 0 && queued == 0
    case Producing(m, _) => m == n && turns == 0 && queued == 0
    case Storing(m, _, _) => m == n && turns == 0 && queued == 0
    case Failing(m, _) => m == n && turns == 0 && queued == 0
    case Direct(m) => m == n && turns == 0 && queued == 0
    case Scheduling(m, pos, q, _) => m == n && pos == n + 1 + turns && q == queued && turns <= Span(cfg, n)
    case Enqueuing(m, pos, q, _, _) => m == n && pos == n + turns && q == queued && turns <= Span(cfg, n)
    case Spawning(m, q, _) => m == n && q == queued && turns == Span(cfg, n)
    case Returned(m, _) => m == n && turns == Span(cfg, n)
    case Raised(m) => m == n && turns == 0 && queued == 0
    case Idle => false
  }

  lemma OwnTurn(f: int -> Option<Frame>, cfg: Config, s: Sys, i: nat, n: int, turns: nat, queued: nat, newp: Ptr)
    requires CanDo(cfg, s, Schedule(i, newp)) && i < |s.clients| && Progress(cfg, s.clients[i], n, turns, queued)
    ensures var r := Do(f, cfg, s, Schedule(i, newp));
      |r.clients| == |s.clients| && Progress(cfg, r.clients[i], n, turns + (if Turn(cfg, s, i, Schedule(i, newp)) then 1 else 0), queued)
  {
    assert s.clients[i].Scheduling?;
    hide Do, CanDo;
    TurnAsks(f, cfg, s, i, newp);
  }

  lemma OwnMove(f: int -> Option<Frame>, cfg: Config, s: Sys, i: nat, n: int, turns: nat, queued: nat, a: Act)
    requires ClientAct(a) && ClientCan(cfg, s, a) && a.i == i && !a.Call? && !a.Schedule?
    requires Progress(cfg, s.clients[i], n, turns, queued)
    ensures var r := ClientDo(f, cfg, s, a);
      |r.clients| == |s.clients| && Progress(cfg, r.clients[i], n, turns, queued + (if a == Enqueue(i) then 1 else 0))
  {
    hide LruCache.Next, ToSpawn, NextSchedule, Span;
  }

  lemma OwnStep(f: int -> Option<Frame>, cfg: Config, s: Sys, i: nat, n: int, turns: nat, queued: nat, a: Act)
    requires CanDo(cfg, s, a) && ClientAct(a) && a.i == i && !a.Call?
    requires Progress(cfg, s.clients[i], n, turns, queued)
    ensures var r := Do(f, cfg, s, a);
      && |r.clients| == |s.clients|
      && Progress(cfg, r.clients[i], n, turns + (if Turn(cfg, s, i, a) then 1 else 0), queued + (if a == Enqueue(i) then 1 else 0))
  {
    hide Progress, ClientDo;
    if a.Schedule? {
      OwnTurn(f, cfg, s, i, n, turns, queued, a.newp);
    } else {
      OwnMove(f, cfg, s, i, n, turns, queued, a);
    }
  }

  lemma OtherStep(f: int -> Option<Frame>, cfg: Config, s: Sys, i: nat, a: Act)
    requires CanDo(cfg, s, a) && i < |s.clients| && !(ClientAct(a) && a.i == i)
    ensures var r := Do(f, cfg, s, a); |r.clients| == |s.clients| && r.clients[i] == s.clients[i]
  {
    hide LruCache.Next, ToSpawn;
  }

  lemma {:induction false} RunProgress(f: int -> Option<Frame>, cfg: Config, s: Sys, i: nat, n: int, turns: nat, queued: nat, acts: seq<Act>)
    requires Q.IsRun(f, cfg, s, acts) && i < |s.clients| && forall j :: 0 <= j < |acts| ==> !(acts[j].Call? && acts[j].i == i)
    requires Progress(cfg, s.clients[i], n, turns, queued)
    ensures var r := Q.Exec(f, cfg, s, acts);
      && |r.clients| == |s.clients|
      && Progress(cfg, r.clients[i], n, turns + Turns(f, cfg, s, i, acts), queued + Queued(acts, i))
    decreases |acts|
  {
    hide Do, CanDo, Progress;
    if |acts| > 0 {
      var a, r := acts[0], Do(f, cfg, s, acts[0]);
      if ClientAct(a) && a.i == i {
        OwnStep(f, cfg, s, i, n, turns, queued, a);
      } else {
        OtherStep(f, cfg, s, i, a);
      }
      RunProgress(f, cfg, r, i, n, turns + (if Turn(cfg, s, i, a) then 1 else 0), queued + (if a == Enqueue(i) then 1 else 0), acts[1..]);
    }
  }

  /**
    One call of GetFrame(n) by client i, whatever all others do meanwhile: its
    k-th turn looks up frame n + k, the next one frame n + k + 1, and when it
    spawns or returns it has looked up exactly the frames behind n that are in
    the window and in the clip, and counted exactly those it queued.
   */
  lemma FramesAsked(f: int -> Option<Frame>, cfg: Config, s: Sys, i: nat, n: int, acts: seq<Act>, newp: Ptr)
    requires i < |s.clients| && CanDo(cfg, s, Call(i, n)) && Q.IsRun(f, cfg, Do(f, cfg, s, Call(i, n)), acts)
    requires forall j :: 0 <= j < |acts| ==> !(acts[j].Call? && acts[j].i == i)
    ensures var s1 := Do(f, cfg, s, Call(i, n));
      var r, k := Q.Exec(f, cfg, s1, acts), Turns(f, cfg, s1, i, acts);
      && i < |r.clients|
      && (r.clients[i].Returned? || r.clients[i].Spawning? ==>
            k == if cfg.prefetch <= 1 || cfg.frames <= n + 1 then 0
                 else if n + cfg.prefetch <= cfg.frames then cfg.prefetch - 1 else cfg.frames - n - 1)
      && (r.clients[i].Spawning? ==> r.clients[i].queued == Queued(acts, i))
      && (Turn(cfg, r, i, Schedule(i, newp)) && newp !in r.cache.heap ==>
            && CanDo(cfg, r, Schedule(i, newp)) && n + k + 1 < n + cfg.prefetch && n + k + 1 < cfg.frames
            && Do(f, cfg, r, Schedule(i, newp)).cache == LruCache.Next(r.cache, Lookup(n + k + 1, false, None, newp)).0)
  {
    hide LruCache.Next, ToSpawn, NextSchedule, Q.IsRun, Q.Exec, Turns;
    var s1 := Do(f, cfg, s, Call(i, n));
    assert s1.clients[i] == Wanting(n);
    RunProgress(f, cfg, s1, i, n, 0, 0, acts);
    var r := Q.Exec(f, cfg, s1, acts);
    if CanDo(cfg, r, Schedule(i, newp)) {
      TurnAsks(f, cfg, r, i, newp);
    }
  }

  /**
    Workers are spawned until every pool thread is one or every frame just queued
    has one, not more and not fewer; each is a job in the pool.
   */
  lemma SpawnsEnough(f: int -> Option<Frame>, cfg: Config, acts: seq<Act>, clients: nat, i: nat)
    requires cfg.prefetch > 0 && cfg.threads > 0 && Q.IsRun(f, cfg, Q.Init(cfg, clients), acts)
    requires CanDo(cfg, Q.Exec(f, cfg, Q.Init(cfg, clients), acts), Spawn(i))
    ensures var s := Q.Exec(f, cfg, Q.Init(cfg, clients), acts);
      var r, queued := Do(f, cfg, s, Spawn(i)), s.clients[i].queued;
      && r.numWorkers == (if s.numWorkers + queued < cfg.threads then s.numWorkers + queued else cfg.threads)
      && |r.jobs| == |s.jobs| + (r.numWorkers - s.numWorkers)
      && (forall j :: 0 <= j < |r.jobs| ==> r.jobs[j] == if j < |s.jobs| then s.jobs[j] else Spawned)
  {
    hide Q.Exec, Q.IsRun, Q.Init, QT.BooksOk, QT.ClientsOk, QT.Live;
    QT.InitInv(f, cfg, clients);
    QT.RunInv(f, cfg, Q.Init(cfg, clients), acts);
    SpawnStep(f, cfg, Q.Exec(f, cfg, Q.Init(cfg, clients), acts), i);
  }

  lemma SpawnStep(f: int -> Option<Frame>, cfg: Config, s: Sys, i: nat)
    requires QT.CountsOk(cfg, s) && CanDo(cfg, s, Spawn(i))
    ensures var r, queued := Do(f, cfg, s, Spawn(i)), s.clients[i].queued;
      && r.numWorkers == (if s.numWorkers + queued < cfg.threads then s.numWorkers + queued else cfg.threads)
      && |r.jobs| == |s.jobs| + (r.numWorkers - s.numWorkers)
      && (forall j :: 0 <= j < |r.jobs| ==> r.jobs[j] == if j < |s.jobs| then s.jobs[j] else Spawned)
  {
    hide LruCache.Next;
    assert !AtRest(s.clients[i]);
  }

  // ---------------------------------------------------------------- the queue

  /** What the step puts on the queue: the frame that was looked up, with its handle. */
  function Added(cfg: Config, s: Sys, a: Act): seq<Work>
    requires CanDo(cfg, s, a)
  {
    if a.Enqueue? then [Work(s.clients[a.i].pos, s.clients[a.i].p)] else []
  }

  /** What the step takes off it: the work of the worker or of the destructor. */
  function Removed(f: int -> Option<Frame>, cfg: Config, s: Sys, a: Act): seq<Work>
    requires CanDo(cfg, s, a)
  {
    if a.Take? && s.queue != [] then
      var job := Do(f, cfg, s, a).jobs[a.j];
      [Work(job.n, job.p)]
    else if a.Drain? then [s.queue[0]]
    else []
  }

  lemma ClientQueue(f: int -> Option<Frame>, cfg: Config, s: Sys, a: Act)
    requires ClientAct(a) && ClientCan(cfg, s, a)
    ensures ClientDo(f, cfg, s, a).queue == s.queue + (if a.Enqueue? then [Work(s.clients[a.i].pos, s.clients[a.i].p)] else [])
  {
    hide LruCache.Next, ToSpawn;
  }

  lemma WorkerQueue(f: int -> Option<Frame>, cfg: Config, s: Sys, a: Act)
    requires WorkerAct(a) && WorkerCan(cfg, s, a)
    ensures var r := WorkerDo(f, cfg, s, a);
      if a.Take? && s.queue != []
      then a.j < |r.jobs| && r.jobs[a.j].Fetching? && s.queue == [Work(r.jobs[a.j].n, r.jobs[a.j].p)] + r.queue
      else r.queue == s.queue
  {
    hide LruCache.Next;
  }

  lemma QueueStep(f: int -> Option<Frame>, cfg: Config, s: Sys, a: Act)
    requires CanDo(cfg, s, a)
    ensures s.queue + Added(cfg, s, a) == Removed(f, cfg, s, a) + Do(f, cfg, s, a).queue
  {
    hide LruCache.Next, ClientDo, WorkerDo;
    if ClientAct(a) {
      ClientQueue(f, cfg, s, a);
    } else if WorkerAct(a) {
      WorkerQueue(f, cfg, s, a);
    }
  }

  function AllAdded(f: int -> Option<Frame>, cfg: Config, s: Sys, acts: seq<Act>): seq<Work>
    requires Q.IsRun(f, cfg, s, acts)
    decreases |acts|
  {
    if |acts| == 0 then [] else Added(cfg, s, acts[0]) + AllAdded(f, cfg, Do(f, cfg, s, acts[0]), acts[1..])
  }

  function AllRemoved(f: int -> Option<Frame>, cfg: Config, s: Sys, acts: seq<Act>): seq<Work>
    requires Q.IsRun(f, cfg, s, acts)
    decreases |acts|
  {
    if |acts| == 0 then [] else Removed(f, cfg, s, acts[0]) + AllRemoved(f, cfg, Do(f, cfg, s, acts[0]), acts[1..])
  }

  /** First in, first out: over any run the work taken, in order, is a beginning of the work added; the rest is the queue. */
  lemma {:induction false} FirstInFirstOut(f: int -> Option<Frame>, cfg: Config, s: Sys, acts: seq<Act>)
    requires Q.IsRun(f, cfg, s, acts)
    ensures s.queue + AllAdded(f, cfg, s, acts) == AllRemoved(f, cfg, s, acts) + Q.Exec(f, cfg, s, acts).queue
    decreases |acts|
  {
    hide Do, CanDo, Added, Removed;
    if |acts| > 0 {
      var a, r := acts[0], Do(f, cfg, s, acts[0]);
      QueueStep(f, cfg, s, a);
      FirstInFirstOut(f, cfg, r, acts[1..]);
      var more, gone, rest := AllAdded(f, cfg, r, acts[1..]), AllRemoved(f, cfg, r, acts[1..]), Q.Exec(f, cfg, s, acts).queue;
      assert s.queue + (Added(cfg, s, a) + more) == (s.queue + Added(cfg, s, a)) + more;
      assert (Removed(f, cfg, s, a) + r.queue) + more == Removed(f, cfg, s, a) + (r.queue + more);
      assert Removed(f, cfg, s, a) + (gone + rest) == (Removed(f, cfg, s, a) + gone) + rest;
    }
  }

  // ------------------------------------------------------ cache and exceptions

  lemma CacheKeeps(cache: Cache)
    requires cache.mode == NoResize
    ensures forall step: LruCache.Step :: !step.SetLimits? ==>
      LruCache.Next(cache, step).0.mode == NoResize && LruCache.Next(cache, step).0.lim == cache.lim
  {
    hide LruCache.Next;
    forall step: LruCache.Step | !step.SetLimits?
      ensures LruCache.Next(cache, step).0.mode == NoResize && LruCache.Next(cache, step).0.lim == cache.lim
    {
      LT.NoResizeKeeps(cache, step);
    }
  }

  lemma ClientCache(f: int -> Option<Frame>, cfg: Config, s: Sys, a: Act)
    requires ClientAct(a) && ClientCan(cfg, s, a) && s.cache.mode == NoResize
    ensures var r := ClientDo(f, cfg, s, a); r.cache.mode == NoResize && r.cache.lim == s.cache.lim && r.exn == s.exn
  {
    hide LruCache.Next, ToSpawn;
    CacheKeeps(s.cache);
  }

  lemma WorkerCache(f: int -> Option<Frame>, cfg: Config, s: Sys, a: Act)
    requires WorkerAct(a) && WorkerCan(cfg, s, a) && s.cache.mode == NoResize
    ensures var r := WorkerDo(f, cfg, s, a); r.cache.mode == NoResize && r.cache.lim == s.cache.lim && r.exn == (s.exn || a.Flag?)
  {
    hide LruCache.Next;
    CacheKeeps(s.cache);
  }

  lemma CacheStep(f: int -> Option<Frame>, cfg: Config, s: Sys, a: Act)
    requires CanDo(cfg, s, a) && s.cache.mode == NoResize
    ensures Do(f, cfg, s, a).cache.mode == NoResize && Do(f, cfg, s, a).cache.lim == s.cache.lim
    ensures Do(f, cfg, s, a).exn <==> s.exn || a.Flag?
  {
    hide LruCache.Next, ClientDo, WorkerDo;
    CacheKeeps(s.cache);
    if ClientAct(a) {
      ClientCache(f, cfg, s, a);
    } else if WorkerAct(a) {
      WorkerCache(f, cfg, s, a);
    }
  }

  predicate Flagged(acts: seq<Act>) {
    exists i :: 0 <= i < |acts| && acts[i].Flag?
  }

  lemma {:induction false} CacheRun(f: int -> Option<Frame>, cfg: Config, s: Sys, acts: seq<Act>)
    requires Q.IsRun(f, cfg, s, acts) && s.cache.mode == NoResize
    ensures var r := Q.Exec(f, cfg, s, acts);
      && r.cache.mode == NoResize && r.cache.lim == s.cache.lim && (r.exn <==> s.exn || Flagged(acts))
    decreases |acts|
  {
    hide Do, CanDo;
    if |acts| > 0 {
      CacheStep(f, cfg, s, acts[0]);
      CacheRun(f, cfg, Do(f, cfg, s, acts[0]), acts[1..]);
      if Flagged(acts) && !acts[0].Flag? {
        var i :| 0 <= i < |acts| && acts[i].Flag?;
        assert acts[1..][i - 1].Flag?;
      }
      if Flagged(acts[1..]) {
        var i :| 0 <= i < |acts[1..]| && acts[1..][i].Flag?;
        assert acts[i + 1].Flag?;
      }
    }
  }

  /**
    In every run: the cache has one place less than there are frames to prefetch,
    and a client that is to produce its frame gives it up if and only if a worker
    has reported an exception, however long ago.
   */
  lemma FailsIffFlagged(f: int -> Option<Frame>, cfg: Config, acts: seq<Act>, clients: nat, i: nat)
    requires cfg.prefetch > 0 && Q.IsRun(f, cfg, Q.Init(cfg, clients), acts)
    ensures var s := Q.Exec(f, cfg, Q.Init(cfg, clients), acts);
      && s.cache.lim.cap == cfg.prefetch - 1 && s.cache.mode == NoResize
      && (CanDo(cfg, s, Check(i)) ==>
            var c := s.clients[i];
            Do(f, cfg, s, Check(i)).clients[i] == (if Flagged(acts) then Failing(c.n, c.p) else Producing(c.n, c.p)))
  {
    hide Q.Exec, Q.IsRun, Flagged;
    CacheRun(f, cfg, Q.Init(cfg, clients), acts);
  }

  /** A worker reports an exception exactly if the child threw on its frame, before it settles the handle. */
  lemma ThrowsAreFlagged(f: int -> Option<Frame>, cfg: Config, s: Sys, j: nat)
    requires CanDo(cfg, s, Fetch(j))
    ensures var r := Do(f, cfg, s, Fetch(j));
      && (f(s.jobs[j].n).None? <==> CanDo(cfg, r, Flag(j)))
      && (f(s.jobs[j].n).Some? <==> CanDo(cfg, r, Resolve(j)))
  {
    hide LruCache.Next;
  }
}
