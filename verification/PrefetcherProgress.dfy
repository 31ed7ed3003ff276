/**
  How far the prefetcher goes: a call under way ends after a bounded number of
  useful steps, and it raises only for a frame that was asked for.
 */
module PrefetcherProgress {
  import opened KeyedList
  import opened LruCache
  import StrideLock
  import opened HandleBooks
  import opened P = Prefetcher
  import opened PrefetcherTheorems

  // ------------------------------------------------------------ a call ends

  function TaskWeight(t: Task): nat {
    match t.phase
    case Queued => 5
    case Fetching => 4
    case Stored => 3
    case Failed => 3
    case Flagging => 2
    case Leaving => 1
  }

  function TaskWeights(tasks: seq<Task>): nat {
    if tasks == [] then 0 else TaskWeight(tasks[0]) + TaskWeights(tasks[1..])
  }

  lemma {:induction false} TaskWeightsWithout(tasks: seq<Task>, i: nat)
    requires i < |tasks|
    ensures TaskWeights(tasks) == TaskWeight(tasks[i]) + TaskWeights(Without(tasks, i))
    decreases |tasks|
  {
    hide TaskWeight;
    if i == 0 {
      assert Without(tasks, 0) == tasks[1..];
    } else {
      TaskWeightsWithout(tasks[1..], i - 1);
      assert Without(tasks, i)[1..] == Without(tasks[1..], i - 1);
    }
  }

  lemma TaskChanged(tasks: seq<Task>, i: nat, t: Task)
    requires i < |tasks|
    ensures TaskWeights(tasks[i := t]) == TaskWeights(tasks) - TaskWeight(tasks[i]) + TaskWeight(t)
  {
    hide TaskWeight;
    TaskWeightsWithout(tasks, i);
    TaskWeightsWithout(tasks[i := t], i);
    assert Without(tasks[i := t], i) == Without(tasks, i);
  }

  lemma TaskAdded(tasks: seq<Task>, t: Task)
    ensures TaskWeights(tasks + [t]) == TaskWeights(tasks) + TaskWeight(t)
  {
    hide TaskWeight;
    TaskWeightsWithout(tasks + [t], |tasks|);
    assert Without(tasks + [t], |tasks|) == tasks;
  }

  /** Turns that the scheduling loop can still make. */
  function Left(cfg: Config, n: int, pos: int): nat {
    if P.Abs(pos - n) < cfg.window then cfg.window - P.Abs(pos - n) else 0
  }

  function Base(cfg: Config, pass: Pass): nat {
    if pass.First? then 10 * cfg.window + 20 else 5
  }

  function ClientWeight(cfg: Config, c: Client): nat {
    match c
    case Checking(_) => 20 * cfg.window + 21
    case Scheduling(n, pos, pass) => 10 * Left(cfg, n, pos) + Base(cfg, pass)
    case Reserving(n, pos, pass, _) => 10 * Left(cfg, n, pos) + Base(cfg, pass) + 9
    case Pushing(n, pos, pass, _) => 10 * Left(cfg, n, pos) + Base(cfg, pass) + 8
    case Wanting(_, _) => 10 * cfg.window + 15
    case Waiting(_, _, _) => 10 * cfg.window + 14
    case Producing(_, _, _) => 10 * cfg.window + 13
    case Direct(_, _) => 10 * cfg.window + 13
    case Storing(_, _, _, _) => 10 * cfg.window + 12
    case Failing(_, _) => 1
    case Draining => 1
    case _ => 0
  }

  /** Bounds the useful steps left when no new request comes. */
  function Remaining(cfg: Config, s: Sys): nat {
    ClientWeight(cfg, s.client) + TaskWeights(s.tasks)
  }

  lemma ScheduleFalls(f: int -> Option<Frame>, cfg: Config, s: Sys, newp: Ptr)
    requires Inv(f, cfg, s) && s.client.Scheduling? && newp !in s.cache.heap
    ensures Remaining(cfg, NextSchedule(cfg, s, newp)) < Remaining(cfg, s)
  {
    hide Books, LruCache.Next, Ptrs, TaskWeights, CountsOk, StrideLock.Inv;
  }

  lemma ClientFalls(f: int -> Option<Frame>, cfg: Config, s: Sys, a: Act)
    requires CanDo(cfg, s, a) && (a.Check? || a.Count? || a.Settle? || a.Close?)
    ensures Remaining(cfg, Do(f, cfg, s, a)) < Remaining(cfg, s)
  {
    hide LruCache.Next, TaskWeights, QueueLength;
  }

  lemma DemandFalls(cfg: Config, s: Sys, newp: Ptr)
    requires s.client.Wanting?
    ensures Remaining(cfg, NextDemand(s, newp)) < Remaining(cfg, s)
  {
    hide LruCache.Next, TaskWeights;
  }

  lemma ProduceFalls(f: int -> Option<Frame>, cfg: Config, s: Sys)
    requires s.client.Producing? || s.client.Direct?
    ensures Remaining(cfg, NextProduce(f, s)) < Remaining(cfg, s)
  {
    hide LruCache.Next, TaskWeights;
  }

  lemma WakeFalls(f: int -> Option<Frame>, cfg: Config, s: Sys)
    requires Useful(cfg, s, WakeUp)
    ensures Remaining(cfg, Do(f, cfg, s, WakeUp)) < Remaining(cfg, s)
  {
    hide TaskWeights, QueueLength;
  }

  lemma PushFalls(f: int -> Option<Frame>, cfg: Config, s: Sys)
    requires CanDo(cfg, s, Push)
    ensures Remaining(cfg, Do(f, cfg, s, Push)) < Remaining(cfg, s)
  {
    hide TaskWeights, QueueLength;
    TaskAdded(s.tasks, Task(s.client.pos, s.client.p, Queued));
  }

  lemma WorkerFalls(f: int -> Option<Frame>, cfg: Config, s: Sys, a: Act)
    requires CanDo(cfg, s, a) && WorkerAct(a)
    ensures Remaining(cfg, Do(f, cfg, s, a)) < Remaining(cfg, s)
  {
    hide LruCache.Next, TaskWeights, QueueLength, ClientWeight;
    var r, t := Do(f, cfg, s, a), s.tasks[a.i];
    if a.WorkerLeave? {
      TaskWeightsWithout(s.tasks, a.i);
    } else {
      assert r.tasks == s.tasks[a.i := r.tasks[a.i]];
      TaskChanged(s.tasks, a.i, r.tasks[a.i]);
    }
  }

  lemma DrainFalls(f: int -> Option<Frame>, cfg: Config, s: Sys)
    requires CanDo(cfg, s, Drain)
    ensures Remaining(cfg, Do(f, cfg, s, Drain)) < Remaining(cfg, s)
  {
    hide LruCache.Next, TaskWeights, QueueLength, ClientWeight;
    TaskWeightsWithout(s.tasks, 0);
  }

  lemma RemainingFalls(f: int -> Option<Frame>, cfg: Config, s: Sys, a: Act)
    requires Inv(f, cfg, s) && Useful(cfg, s, a)
    ensures Remaining(cfg, Do(f, cfg, s, a)) < Remaining(cfg, s)
  {
    hide Inv, Remaining, NextSchedule, NextDemand, NextProduce;
    match a
    case Schedule(newp) => ScheduleFalls(f, cfg, s, newp);
    case Demand(newp) => DemandFalls(cfg, s, newp);
    case Produce => ProduceFalls(f, cfg, s);
    case WakeUp => WakeFalls(f, cfg, s);
    case Push => PushFalls(f, cfg, s);
    case Drain => DrainFalls(f, cfg, s);
    case _ =>
      if WorkerAct(a) { WorkerFalls(f, cfg, s, a); } else { ClientFalls(f, cfg, s, a); }
  }

  /** A run of useful steps: no new request, no spurious wake-up. */
  ghost predicate UsefulRun(f: int -> Option<Frame>, cfg: Config, s: Sys, acts: seq<Act>)
    decreases |acts|
  {
    |acts| == 0 || (Useful(cfg, s, acts[0]) && UsefulRun(f, cfg, Do(f, cfg, s, acts[0]), acts[1..]))
  }

  lemma {:induction false} UsefulRunFalls(f: int -> Option<Frame>, cfg: Config, s: Sys, acts: seq<Act>)
    requires Inv(f, cfg, s) && UsefulRun(f, cfg, s, acts)
    ensures P.IsRun(f, cfg, s, acts) && Inv(f, cfg, P.Exec(f, cfg, s, acts))
    ensures |acts| + Remaining(cfg, P.Exec(f, cfg, s, acts)) <= Remaining(cfg, s)
    decreases |acts|
  {
    hide Inv, Do, Remaining;
    if |acts| > 0 {
      RemainingFalls(f, cfg, s, acts[0]);
      StepInv(f, cfg, s, acts[0]);
      UsefulRunFalls(f, cfg, Do(f, cfg, s, acts[0]), acts[1..]);
    }
  }

  lemma SomethingToDo(f: int -> Option<Frame>, cfg: Config, s: Sys)
    requires Inv(f, cfg, s) && cfg.threads > 0
    ensures !AtRest(s.client) && !s.client.Closed? ==> exists a :: Useful(cfg, s, a)
  {
    hide Inv, Useful;
    UsefulAt(f, cfg, s);
  }

  /**
    Every call ends. From any reachable state, at most Remaining(s) useful steps
    are possible without a new request, and they come to an end only when the
    call has returned or raised, or the destructor is through.
   */
  lemma CallEnds(f: int -> Option<Frame>, cfg: Config, before: seq<Act>, acts: seq<Act>)
    requires cfg.threads > 0 && P.IsRun(f, cfg, P.Init(cfg), before)
    requires UsefulRun(f, cfg, P.Exec(f, cfg, P.Init(cfg), before), acts)
    ensures var s := P.Exec(f, cfg, P.Init(cfg), before);
      && P.IsRun(f, cfg, s, acts) && |acts| <= Remaining(cfg, s)
      && var r := P.Exec(f, cfg, s, acts);
      (forall a :: !Useful(cfg, r, a)) ==> AtRest(r.client) || r.client.Closed?
  {
    hide Inv, Useful, Remaining, Do, P.Init;
    InitInv(f, cfg);
    RunInv(f, cfg, P.Init(cfg), before);
    var s := P.Exec(f, cfg, P.Init(cfg), before);
    UsefulRunFalls(f, cfg, s, acts);
    SomethingToDo(f, cfg, P.Exec(f, cfg, s, acts));
  }

  // --------------------------------------------------------- frames asked for

  /** The frame that an act asks the child for: the requested one, or one that is scheduled. */
  function AskedBy(f: int -> Option<Frame>, cfg: Config, s: Sys, a: Act): set<int>
    requires CanDo(cfg, s, a)
  {
    match a
    case Request(n) => {n}
    case Schedule(_) => var c := Do(f, cfg, s, a).client; if c.Reserving? then {c.pos} else {}
    case _ => {}
  }

  function Asked(f: int -> Option<Frame>, cfg: Config, s: Sys, acts: seq<Act>): set<int>
    requires P.IsRun(f, cfg, s, acts)
    decreases |acts|
  {
    if |acts| == 0 then {} else AskedBy(f, cfg, s, acts[0]) + Asked(f, cfg, Do(f, cfg, s, acts[0]), acts[1..])
  }

  /** The frames a client's state speaks of. */
  function Frames(c: Client): set<int> {
    match c
    case Idle => {}
    case Draining => {}
    case Closed => {}
    case Reserving(n, pos, _, _) => {n, pos}
    case Pushing(n, pos, _, _) => {n, pos}
    case _ => {c.n}
  }

  ghost predicate ThrowIn(f: int -> Option<Frame>, asked: set<int>) {
    exists m :: m in asked && f(m).None?
  }

  ghost predicate AskedOk(f: int -> Option<Frame>, s: Sys, asked: set<int>) {
    && (forall t :: t in s.tasks ==> t.frame in asked)
    && Frames(s.client) <= asked
    && (s.exn || s.client.Raised? ==> ThrowIn(f, asked))
  }

  /** A worker's act keeps the frame of its job, and all others. */
  lemma WorkerKeepsFrames(f: int -> Option<Frame>, cfg: Config, s: Sys, a: Act)
    requires CanDo(cfg, s, a) && WorkerAct(a)
    ensures var r := Do(f, cfg, s, a);
      && r.client == s.client && (r.exn ==> s.exn || a.WorkerFlag?)
      && forall t :: t in r.tasks ==> exists u :: u in s.tasks && u.frame == t.frame
  {
    hide LruCache.Next, QueueLength;
    var r := Do(f, cfg, s, a);
    forall t | t in r.tasks ensures exists u :: u in s.tasks && u.frame == t.frame {
      if a.WorkerLeave? {
        assert t in s.tasks;
      } else {
        var j :| 0 <= j < |r.tasks| && r.tasks[j] == t;
        assert s.tasks[j] in s.tasks && r.tasks[j].frame == s.tasks[j].frame;
      }
    }
  }

  lemma FlagFrame(f: int -> Option<Frame>, cfg: Config, s: Sys, a: Act)
    requires Inv(f, cfg, s) && CanDo(cfg, s, a) && WorkerAct(a)
    ensures a.i < |s.tasks| && (a.WorkerFlag? ==> f(s.tasks[a.i].frame).None?)
  {
    hide Inv, QueueLength;
    TaskOkAt(f, cfg, s, a.i);
  }

  lemma AskedWorker(f: int -> Option<Frame>, cfg: Config, s: Sys, a: Act, asked: set<int>)
    requires Inv(f, cfg, s) && CanDo(cfg, s, a) && WorkerAct(a) && AskedOk(f, s, asked)
    ensures AskedOk(f, Do(f, cfg, s, a), asked)
  {
    hide Inv, Do, Frames, CanDo;
    FlagFrame(f, cfg, s, a);
    WorkerKeepsFrames(f, cfg, s, a);
    assert s.tasks[a.i] in s.tasks;
  }

  lemma FramesKept(f: int -> Option<Frame>, cfg: Config, s: Sys, a: Act)
    requires CanDo(cfg, s, a) && !WorkerAct(a)
    ensures Frames(Do(f, cfg, s, a).client) <= Frames(s.client) + AskedBy(f, cfg, s, a)
  {
    hide LruCache.Next, QueueLength, StrideLock.Observe;
  }

  lemma TasksKept(f: int -> Option<Frame>, cfg: Config, s: Sys, a: Act)
    requires CanDo(cfg, s, a) && !WorkerAct(a)
    ensures Do(f, cfg, s, a).exn == s.exn
    ensures forall t :: t in Do(f, cfg, s, a).tasks ==> t in s.tasks || t.frame in Frames(s.client)
  {
    hide LruCache.Next, QueueLength, StrideLock.Observe;
  }

  lemma RaisedBy(f: int -> Option<Frame>, cfg: Config, s: Sys, a: Act)
    requires Inv(f, cfg, s) && CanDo(cfg, s, a) && !WorkerAct(a) && Do(f, cfg, s, a).client.Raised? && !s.exn && !s.client.Raised?
    ensures f(Do(f, cfg, s, a).client.n).None?
  {
    hide Inv, LruCache.Next, QueueLength, StrideLock.Observe, NextDemand, NextSchedule;
    FailingThrows(f, cfg, s);
    DemandNeverRaises(f, cfg, s, a);
  }

  lemma DemandNeverRaises(f: int -> Option<Frame>, cfg: Config, s: Sys, a: Act)
    requires CanDo(cfg, s, a)
    ensures a.Demand? || a.WakeUp? || a.Schedule? ==> !Do(f, cfg, s, a).client.Raised?
  {
    hide LruCache.Next, QueueLength;
  }

  lemma AskedClient(f: int -> Option<Frame>, cfg: Config, s: Sys, a: Act, asked: set<int>)
    requires Inv(f, cfg, s) && CanDo(cfg, s, a) && !WorkerAct(a) && AskedOk(f, s, asked)
    ensures AskedOk(f, Do(f, cfg, s, a), asked + AskedBy(f, cfg, s, a))
  {
    hide Inv, Do, AskedBy, Frames;
    var r, more := Do(f, cfg, s, a), asked + AskedBy(f, cfg, s, a);
    FramesKept(f, cfg, s, a);
    TasksKept(f, cfg, s, a);
    if s.exn || s.client.Raised? {
      var m :| m in asked && f(m).None?;
      assert m in more;
    } else if r.client.Raised? {
      RaisedBy(f, cfg, s, a);
      RaisedFrame(r.client);
      assert r.client.n in more;
    }
  }

  lemma RaisedFrame(c: Client)
    requires c.Raised?
    ensures c.n in Frames(c)
  {
  }

  lemma FailingThrows(f: int -> Option<Frame>, cfg: Config, s: Sys)
    requires Inv(f, cfg, s)
    ensures s.client.Failing? ==> f(s.client.n).None?
  {
    hide Books, CountsOk, StrideLock.Inv;
  }

  lemma {:induction false} AskedRun(f: int -> Option<Frame>, cfg: Config, s: Sys, acts: seq<Act>, asked: set<int>)
    requires Inv(f, cfg, s) && P.IsRun(f, cfg, s, acts) && AskedOk(f, s, asked)
    ensures AskedOk(f, P.Exec(f, cfg, s, acts), asked + Asked(f, cfg, s, acts))
    decreases |acts|
  {
    hide Inv, Do, AskedOk;
    if |acts| == 0 {
      assert asked + {} == asked;
    } else {
      var now, added := Do(f, cfg, s, acts[0]), AskedBy(f, cfg, s, acts[0]);
      StepInv(f, cfg, s, acts[0]);
      if WorkerAct(acts[0]) {
        AskedWorker(f, cfg, s, acts[0], asked);
        assert asked + added == asked;
      } else {
        AskedClient(f, cfg, s, acts[0], asked);
      }
      AskedRun(f, cfg, now, acts[1..], asked + added);
      var rest := Asked(f, cfg, now, acts[1..]);
      assert (asked + added) + rest == asked + (added + rest);
    }
  }

  /** GetFrame raises only if the child throws on a frame that was requested or scheduled in this run. */
  lemma RaisesForAsked(f: int -> Option<Frame>, cfg: Config, acts: seq<Act>)
    requires P.IsRun(f, cfg, P.Init(cfg), acts)
    ensures P.Exec(f, cfg, P.Init(cfg), acts).client.Raised? ==>
      exists m :: m in Asked(f, cfg, P.Init(cfg), acts) && f(m).None?
  {
    hide Inv, Do, Asked;
    InitInv(f, cfg);
    AskedRun(f, cfg, P.Init(cfg), acts, {});
    assert {} + Asked(f, cfg, P.Init(cfg), acts) == Asked(f, cfg, P.Init(cfg), acts);
  }
}
