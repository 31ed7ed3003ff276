/**
  Which frames Prefetcher::SchedulePrefetch asks for: the multiples of the
  detector's stride ahead of the request, as far as the window reaches; how the
  pool serves them; and how a worker's exception comes back.
 */
module PrefetcherSchedule {
  import opened KeyedList
  import opened LruCache
  import LT = LruTheorems
  import StrideLock
  import opened HandleBooks
  import opened P = Prefetcher
  import PT = PrefetcherTheorems

  /** The prefetch position of a request under way. */
  function PosOf(c: Client): Option<int> {
    match c
    case Scheduling(_, pos, _) => Some(pos)
    case Reserving(_, pos, _, _) => Some(pos)
    case Pushing(_, pos, _, _) => Some(pos)
    case Wanting(_, pos) => Some(pos)
    case Waiting(_, pos, _) => Some(pos)
    case Producing(_, pos, _) => Some(pos)
    case Storing(_, pos, _, _) => Some(pos)
    case Direct(_, pos) => Some(pos)
    case _ => None
  }

  /** There is a worker left and the position is nearer to the request than the window is wide. */
  predicate InWindow(cfg: Config, s: Sys) {
    s.client.Scheduling? && s.running < cfg.window && s.client.pos - s.client.n < cfg.window && s.client.n - s.client.pos < cfg.window
  }

  /**
    One turn of the loop. In the window it moves on by the locked stride, or by
    one if there is no lock, and looks that frame up, a handle for it being taken
    exactly if it is not there yet; beyond the clip's end or outside the window
    it asks for nothing and the pass is over.
   */
  lemma TurnAsks(f: int -> Option<Frame>, cfg: Config, s: Sys, newp: Ptr)
    requires CanDo(cfg, s, Schedule(newp))
    ensures var c, r := s.client, Do(f, cfg, s, Schedule(newp));
      var pos := if !InWindow(cfg, s) then c.pos else if s.stride.isLocked then c.pos + s.stride.lockedPattern else c.pos + 1;
      var (cache, out) := LruCache.Next(s.cache, Lookup(pos, false, None, newp));
      if InWindow(cfg, s) && pos < cfg.frames then
        && r.cache == cache
        && r.client == (if out.NotFound? then Reserving(c.n, pos, c.pass, out.p) else Scheduling(c.n, pos, c.pass))
      else
        && r.cache == s.cache
        && r.client == (if c.pass.First? then Wanting(c.n, pos) else Returned(c.n, c.pass.result))
  {
    hide LruCache.Next;
  }

  /** Turns of the scheduling loop in a run. */
  function Turns(f: int -> Option<Frame>, cfg: Config, s: Sys, acts: seq<Act>): nat
    requires P.IsRun(f, cfg, s, acts)
    decreases |acts|
  {
    if |acts| == 0 then 0
    else (if acts[0].Schedule? && InWindow(cfg, s) then 1 else 0) + Turns(f, cfg, Do(f, cfg, s, acts[0]), acts[1..])
  }

  lemma PosStep(f: int -> Option<Frame>, cfg: Config, s: Sys, a: Act)
    requires CanDo(cfg, s, a) && !a.Request? && !a.Check?
    ensures var r := Do(f, cfg, s, a);
      && r.stride == s.stride
      && (PosOf(r.client).Some? ==>
           && PosOf(s.client).Some?
           && PosOf(r.client).value == PosOf(s.client).value +
                (if a.Schedule? && InWindow(cfg, s) then if s.stride.isLocked then s.stride.lockedPattern else 1 else 0))
  {
    hide LruCache.Next, NextSchedule;
    match a
    case Schedule(newp) => TurnAsks(f, cfg, s, newp); ScheduleStride(cfg, s, newp);
    case _ =>
  }

  lemma ScheduleStride(cfg: Config, s: Sys, newp: Ptr)
    requires s.client.Scheduling?
    ensures NextSchedule(cfg, s, newp).stride == s.stride
  {
    hide LruCache.Next;
  }

  lemma {:induction false} Positions(f: int -> Option<Frame>, cfg: Config, s: Sys, acts: seq<Act>)
    requires P.IsRun(f, cfg, s, acts) && forall i :: 0 <= i < |acts| ==> !acts[i].Request? && !acts[i].Check?
    ensures var r, d := P.Exec(f, cfg, s, acts), if s.stride.isLocked then s.stride.lockedPattern else 1;
      && r.stride == s.stride
      && (PosOf(r.client).Some? ==> PosOf(s.client).Some? && PosOf(r.client).value == PosOf(s.client).value + Turns(f, cfg, s, acts) * d)
    decreases |acts|
  {
    hide Do, CanDo;
    if |acts| > 0 {
      PosStep(f, cfg, s, acts[0]);
      Positions(f, cfg, Do(f, cfg, s, acts[0]), acts[1..]);
    }
  }

  /**
    From the check at the head of a request for frame n, whatever workers and
    waits come in between: after k turns of the loop, in both passes together,
    the position is n + k * d, where d is the locked stride, or one if there is
    no lock, and the next turn, if the window reaches so far and the clip goes
    on, looks up frame n + (k + 1) * d.
   */
  lemma KthTurn(f: int -> Option<Frame>, cfg: Config, s: Sys, n: int, acts: seq<Act>, newp: Ptr)
    requires s.client == Checking(n) && !s.exn
    requires P.IsRun(f, cfg, Do(f, cfg, s, Check), acts) && forall i :: 0 <= i < |acts| ==> !acts[i].Request? && !acts[i].Check?
    ensures var s1 := Do(f, cfg, s, Check);
      var r, k, d := P.Exec(f, cfg, s1, acts), Turns(f, cfg, s1, acts), if s.stride.isLocked then s.stride.lockedPattern else 1;
      && (PosOf(r.client).Some? ==> PosOf(r.client).value == n + k * d)
      && (InWindow(cfg, r) && newp !in r.cache.heap && n + (k + 1) * d < cfg.frames ==>
            Do(f, cfg, r, Schedule(newp)).cache == LruCache.Next(r.cache, Lookup(n + (k + 1) * d, false, None, newp)).0)
  {
    hide LruCache.Next, NextSchedule, P.Exec, Turns, P.IsRun;
    var s1 := Do(f, cfg, s, Check);
    assert PosOf(s1.client) == Some(n);
    Positions(f, cfg, s1, acts);
    var r, k, d := P.Exec(f, cfg, s1, acts), Turns(f, cfg, s1, acts), if s.stride.isLocked then s.stride.lockedPattern else 1;
    assert (k + 1) * d == k * d + d;
    if CanDo(cfg, r, Schedule(newp)) {
      TurnAsks(f, cfg, r, newp);
    }
  }

  // ------------------------------------------------- from requests to frames

  function Requests(acts: seq<Act>): seq<int> {
    if acts == [] then [] else (if acts[0].Request? then [acts[0].n] else []) + Requests(acts[1..])
  }

  lemma StrideStep(f: int -> Option<Frame>, cfg: Config, s: Sys, a: Act)
    requires CanDo(cfg, s, a)
    ensures Do(f, cfg, s, a).stride == if a.Request? then StrideLock.Observe(s.stride, a.n) else s.stride
  {
    hide LruCache.Next, NextSchedule;
    if a.Schedule? { ScheduleStride(cfg, s, a.newp); }
  }

  /** The detector sees the requests of the run and nothing else. */
  lemma {:induction false} StrideOfRun(f: int -> Option<Frame>, cfg: Config, s: Sys, acts: seq<Act>)
    requires P.IsRun(f, cfg, s, acts)
    ensures P.Exec(f, cfg, s, acts).stride == StrideLock.ObserveAll(s.stride, Requests(acts))
    decreases |acts|
  {
    hide Do, CanDo, StrideLock.Observe;
    if |acts| > 0 {
      StrideStep(f, cfg, s, acts[0]);
      StrideOfRun(f, cfg, Do(f, cfg, s, acts[0]), acts[1..]);
      if acts[0].Request? {
        assert ([acts[0].n] + Requests(acts[1..]))[1..] == Requests(acts[1..]);
      } else {
        assert [] + Requests(acts[1..]) == Requests(acts[1..]);
      }
    }
  }

  /** k requests at distance d, the first one after frame x. */
  function Steady(x: int, d: int, k: nat): seq<int>
    decreases k
  {
    if k == 0 then [] else [x + d] + Steady(x + d, d, k - 1)
  }

  lemma {:induction false} ObserveMore(t: StrideLock.Stride, before: seq<int>, more: seq<int>)
    ensures StrideLock.ObserveAll(t, before + more) == StrideLock.ObserveAll(StrideLock.ObserveAll(t, before), more)
    decreases |before|
  {
    hide StrideLock.Observe;
    if before == [] {
      assert before + more == more;
    } else {
      assert (before + more)[1..] == before[1..] + more;
      ObserveMore(StrideLock.Observe(t, before[0]), before[1..], more);
    }
  }

  lemma {:induction false} SteadyRepeats(t: StrideLock.Stride, d: int, k: nat)
    ensures StrideLock.ObserveAll(t, Steady(t.last, d, k)) == StrideLock.Repeat(t, d, k)
    ensures StrideLock.Repeat(t, d, k).last == t.last + k * d
    decreases k
  {
    hide StrideLock.Observe;
    if k > 0 {
      ObserveLast(t, t.last + d);
      SteadyRepeats(StrideLock.Observe(t, t.last + d), d, k - 1);
      assert Steady(t.last, d, k)[1..] == Steady(t.last + d, d, k - 1);
      assert k * d == (k - 1) * d + d;
    }
  }

  lemma ObserveLast(t: StrideLock.Stride, n: int)
    ensures StrideLock.Observe(t, n).last == n
  {
  }

  /**
    The detector and the scheduler together, over whole runs: after requests
    that left the detector locked, four requests of any one stride d are enough
    for the last of them, of frame n, to look up n + d first, if a worker is free.
   */
  lemma NewStrideAsked(f: int -> Option<Frame>, cfg: Config, acts: seq<Act>, before: seq<int>, d: int, k: nat, newp: Ptr)
    requires P.IsRun(f, cfg, P.Init(cfg), acts) && d != 0 && k >= 4
    requires var t := StrideLock.ObserveAll(StrideLock.START, before);
      t.isLocked && Requests(acts) == before + Steady(t.last, d, k)
    requires var s, n := P.Exec(f, cfg, P.Init(cfg), acts), StrideLock.ObserveAll(StrideLock.START, before).last + k * d;
      && s.client == Scheduling(n, n, First) && CanDo(cfg, s, Schedule(newp))
      && s.running < cfg.window && n + d < cfg.frames
    ensures var s, n := P.Exec(f, cfg, P.Init(cfg), acts), StrideLock.ObserveAll(StrideLock.START, before).last + k * d;
      var r := Do(f, cfg, s, Schedule(newp));
      PosOf(r.client) == Some(n + d) && r.cache == LruCache.Next(s.cache, Lookup(n + d, false, None, newp)).0
  {
    hide LruCache.Next, NextSchedule, StrideLock.Observe, P.IsRun, P.Exec, CanDo, Do;
    var s, t := P.Exec(f, cfg, P.Init(cfg), acts), StrideLock.ObserveAll(StrideLock.START, before);
    StrideOfRun(f, cfg, P.Init(cfg), acts);
    ObserveMore(StrideLock.START, before, Steady(t.last, d, k));
    SteadyRepeats(t, d, k);
    StrideLock.ReachableStride(StrideLock.START, before);
    StrideLock.RelocksInFour(t, d, k);
    PT.WorkersBounded(f, cfg, acts);
    WindowOpen(cfg, s);
    TurnAsks(f, cfg, s, newp);
  }

  lemma WindowOpen(cfg: Config, s: Sys)
    requires s.client.Scheduling? && s.client.pos == s.client.n && 0 <= s.running < cfg.window
    ensures InWindow(cfg, s)
  {
  }

  /** Only the scheduling loop ends a pass, and only where the window or the clip ends. */
  lemma PassOver(f: int -> Option<Frame>, cfg: Config, s: Sys, a: Act)
    requires CanDo(cfg, s, a)
    ensures var r := Do(f, cfg, s, a);
      (r.client.Wanting? && !s.client.Wanting?) || (r.client.Returned? && !s.client.Returned?) ==>
        && a.Schedule? && (s.client.pass.First? <==> r.client.Wanting?)
        && (InWindow(cfg, s) ==> s.client.pos + (if s.stride.isLocked then s.stride.lockedPattern else 1) >= cfg.frames)
  {
    hide LruCache.Next;
  }

  // -------------------------------------------------------- the pool's queue

  /** The jobs from place w on are those still queued. */
  predicate Started(tasks: seq<Task>, w: nat) {
    w <= |tasks| && forall i :: 0 <= i < |tasks| ==> (tasks[i].phase == Queued <==> i >= w)
  }

  lemma {:induction false} StartedCount(tasks: seq<Task>, w: nat)
    requires Started(tasks, w)
    ensures QueueLength(tasks) == |tasks| - w
    decreases |tasks|
  {
    if tasks != [] {
      assert forall i :: 0 <= i < |tasks| - 1 ==> tasks[1..][i] == tasks[i + 1];
      StartedCount(tasks[1..], if w > 0 then w - 1 else 0);
    }
  }

  /** w threads of the pool are busy, and no more jobs queued than the queue can hold. */
  predicate PoolOk(cfg: Config, s: Sys, w: nat) {
    Started(s.tasks, w) && w <= cfg.threads && |s.tasks| - w <= cfg.threads * 6
  }

  /** The pool takes the job that was queued first. */
  lemma PopsFirst(tasks: seq<Task>, w: nat, i: nat)
    requires Started(tasks, w) && i < |tasks| && tasks[i].phase == Queued && QueueLength(tasks[..i]) == 0
    ensures i == w
  {
    StartedCount(tasks[..i], w);
  }

  /** What can happen to a job, and how many are started then. */
  lemma StartedMoves(tasks: seq<Task>, w: nat, i: nat, t: Task)
    requires Started(tasks, w)
    ensures t.phase == Queued ==> Started(tasks + [t], w)
    ensures t.phase != Queued && i < w ==> Started(tasks[i := t], w)
    ensures t.phase != Queued && i == w < |tasks| ==> Started(tasks[i := t], w + 1)
    ensures i < w ==> Started(Without(tasks, i), w - 1)
    ensures w == 0 && i < |tasks| ==> Started(Without(tasks, i), 0)
    ensures i < |tasks| ==> (i < w <==> tasks[i].phase != Queued)
  {
    if i < |tasks| {
      var r := Without(tasks, i);
      assert forall k :: 0 <= k < |r| ==> r[k] == tasks[if k < i then k else k + 1];
    }
  }

  lemma PoolStep(f: int -> Option<Frame>, cfg: Config, s: Sys, w: nat, a: Act) returns (w': nat)
    requires PoolOk(cfg, s, w) && CanDo(cfg, s, a)
    ensures PoolOk(cfg, Do(f, cfg, s, a), w')
  {
    hide LruCache.Next, QueueLength, Without;
    StartedCount(s.tasks, w);
    var r := Do(f, cfg, s, a);
    w' := w;
    match a
    case Schedule(newp) => ScheduleTasks(cfg, s, newp);
    case Push => StartedMoves(s.tasks, w, 0, r.tasks[|s.tasks|]);
    case Pop(i) => PopsFirst(s.tasks, w, i); StartedMoves(s.tasks, w, i, r.tasks[i]); w' := w + 1;
    case WorkerFetch(i) => StartedMoves(s.tasks, w, i, r.tasks[i]);
    case WorkerResolve(i) => StartedMoves(s.tasks, w, i, r.tasks[i]);
    case WorkerFlag(i) => StartedMoves(s.tasks, w, i, r.tasks[i]);
    case WorkerLeave(i) => StartedMoves(s.tasks, w, i, s.tasks[i]); WithoutLength(s.tasks, i); w' := w - 1;
    case Drain => StartedMoves(s.tasks, w, 0, s.tasks[0]); WithoutLength(s.tasks, 0);
    case _ =>
  }

  lemma WithoutLength(tasks: seq<Task>, i: nat)
    requires i < |tasks|
    ensures |Without(tasks, i)| == |tasks| - 1
  {
  }

  lemma ScheduleTasks(cfg: Config, s: Sys, newp: Ptr)
    requires s.client.Scheduling?
    ensures NextSchedule(cfg, s, newp).tasks == s.tasks
  {
    hide LruCache.Next;
  }

  lemma {:induction false} PoolRun(f: int -> Option<Frame>, cfg: Config, s: Sys, w: nat, acts: seq<Act>) returns (w': nat)
    requires PoolOk(cfg, s, w) && P.IsRun(f, cfg, s, acts)
    ensures PoolOk(cfg, P.Exec(f, cfg, s, acts), w')
    decreases |acts|
  {
    hide Do, CanDo, PoolOk;
    w' := w;
    if |acts| > 0 {
      w' := PoolStep(f, cfg, s, w, acts[0]);
      w' := PoolRun(f, cfg, Do(f, cfg, s, acts[0]), w', acts[1..]);
    }
  }

  /**
    In every run at most nThreads jobs are under way and at most six times as
    many queued; jobs are started in the order in which they were queued.
   */
  lemma PoolBounded(f: int -> Option<Frame>, cfg: Config, acts: seq<Act>, i: nat)
    requires P.IsRun(f, cfg, P.Init(cfg), acts) && CanDo(cfg, P.Exec(f, cfg, P.Init(cfg), acts), Pop(i))
    ensures var tasks := P.Exec(f, cfg, P.Init(cfg), acts).tasks;
      && i < |tasks| && i + 1 <= cfg.threads && |tasks| - i <= cfg.threads * 6
      && (forall j :: 0 <= j < i ==> tasks[j].phase != Queued) && (forall j :: i <= j < |tasks| ==> tasks[j].phase == Queued)
  {
    hide P.Exec, P.IsRun, QueueLength;
    var w := PoolRun(f, cfg, P.Init(cfg), 0, acts);
    var s := P.Exec(f, cfg, P.Init(cfg), acts);
    StartedCount(s.tasks, w);
    PopsFirst(s.tasks, w, i);
  }

  /** The scheduler is held up exactly while six times as many jobs are queued as there are threads. */
  lemma HeldUpIff(f: int -> Option<Frame>, cfg: Config, acts: seq<Act>) returns (w: nat)
    requires P.IsRun(f, cfg, P.Init(cfg), acts) && P.Exec(f, cfg, P.Init(cfg), acts).client.Pushing?
    ensures var s := P.Exec(f, cfg, P.Init(cfg), acts);
      Started(s.tasks, w) && (CanDo(cfg, s, Push) <==> |s.tasks| - w < 6 * cfg.threads)
  {
    hide P.Exec, P.IsRun, QueueLength;
    w := PoolRun(f, cfg, P.Init(cfg), 0, acts);
    StartedCount(P.Exec(f, cfg, P.Init(cfg), acts).tasks, w);
  }

  // ------------------------------------------------------ cache and exceptions

  lemma CacheStep(f: int -> Option<Frame>, cfg: Config, s: Sys, a: Act)
    requires CanDo(cfg, s, a) && s.cache.mode == NoResize
    ensures Do(f, cfg, s, a).cache.mode == NoResize && Do(f, cfg, s, a).cache.lim == s.cache.lim
    ensures Do(f, cfg, s, a).exn <==> s.exn || a.WorkerFlag?
  {
    hide LruCache.Next;
    forall step: LruCache.Step | !step.SetLimits?
      ensures LruCache.Next(s.cache, step).0.mode == NoResize && LruCache.Next(s.cache, step).0.lim == s.cache.lim
    {
      LT.NoResizeKeeps(s.cache, step);
    }
  }

  predicate Flagged(acts: seq<Act>) {
    exists i :: 0 <= i < |acts| && acts[i].WorkerFlag?
  }

  lemma {:induction false} CacheRun(f: int -> Option<Frame>, cfg: Config, s: Sys, acts: seq<Act>)
    requires P.IsRun(f, cfg, s, acts) && s.cache.mode == NoResize
    ensures var r := P.Exec(f, cfg, s, acts);
      && r.cache.mode == NoResize && r.cache.lim == s.cache.lim && (r.exn <==> s.exn || Flagged(acts))
    decreases |acts|
  {
    hide Do, CanDo;
    if |acts| > 0 {
      CacheStep(f, cfg, s, acts[0]);
      CacheRun(f, cfg, Do(f, cfg, s, acts[0]), acts[1..]);
      if Flagged(acts) && !acts[0].WorkerFlag? {
        var i :| 0 <= i < |acts| && acts[i].WorkerFlag?;
        assert acts[1..][i - 1].WorkerFlag?;
      }
      if Flagged(acts[1..]) {
        var i :| 0 <= i < |acts[1..]| && acts[1..][i].WorkerFlag?;
        assert acts[i + 1].WorkerFlag?;
      }
    }
  }

  /**
    In every run: the cache keeps room for twice the prefetch window, and the
    check at the head of a request raises if and only if a worker has reported
    an exception, however long ago; otherwise scheduling begins.
   */
  lemma RaisesIffFlagged(f: int -> Option<Frame>, cfg: Config, acts: seq<Act>)
    requires P.IsRun(f, cfg, P.Init(cfg), acts)
    ensures var s := P.Exec(f, cfg, P.Init(cfg), acts);
      && s.cache.lim.cap == 2 * cfg.window && s.cache.mode == NoResize
      && (s.client.Checking? ==>
            Do(f, cfg, s, Check).client == (if Flagged(acts) then Raised(s.client.n) else Scheduling(s.client.n, s.client.n, First)))
  {
    hide P.Exec, P.IsRun, Flagged;
    CacheRun(f, cfg, P.Init(cfg), acts);
  }

  /** A worker reports an exception exactly if the child threw on its frame, before it gives up its place. */
  lemma ThrowsAreFlagged(f: int -> Option<Frame>, cfg: Config, s: Sys, i: nat)
    requires CanDo(cfg, s, WorkerFetch(i))
    ensures var s1 := Do(f, cfg, s, WorkerFetch(i));
      && CanDo(cfg, s1, WorkerResolve(i))
      && var s2 := Do(f, cfg, s1, WorkerResolve(i));
      && (f(s.tasks[i].frame).None? ==> CanDo(cfg, s2, WorkerFlag(i)))
      && (f(s.tasks[i].frame).Some? ==> CanDo(cfg, s2, WorkerLeave(i)))
  {
    hide LruCache.Next;
  }
}
