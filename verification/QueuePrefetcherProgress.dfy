/**
  How far QueuePrefetcher goes: calls under way end after a bounded number of
  useful steps, and they raise only for a frame that was asked for.
 */
module QueuePrefetcherProgress {
  import opened KeyedList
  import opened LruCache
  import B = HandleBooks
  import opened Q = QueuePrefetcher
  import opened QueuePrefetcherTheorems

  // ------------------------------------------------------------- calls end

  /** Turns that the loop of SchedulePrefetch can still make. */
  function Left(cfg: Config, n: int, pos: int): nat {
    if pos < n + cfg.prefetch then n + cfg.prefetch - pos else 0
  }

  function ClientWeight(cfg: Config, c: Client): nat {
    match c
    case Wanting(_) => 8 * cfg.prefetch + 20
    case Waiting(_, _) => 8 * cfg.prefetch + 19
    case Checking(_, _) => 8 * cfg.prefetch + 18
    case Producing(_, _) => 8 * cfg.prefetch + 17
    case Direct(_) => 8 * cfg.prefetch + 17
    case Storing(_, _, _) => 8 * cfg.prefetch + 16
    case Failing(_, _) => 1
    case Scheduling(n, pos, queued, _) => 8 * Left(cfg, n, pos) + 2 * queued + 5
    case Enqueuing(n, pos, queued, _, _) => 8 * Left(cfg, n, pos + 1) + 2 * queued + 12
    case Spawning(_, queued, _) => 2 * queued + 3
    case _ => 0
  }

  function ClientWeights(cfg: Config, clients: seq<Client>): nat {
    if clients == [] then 0 else ClientWeight(cfg, clients[0]) + ClientWeights(cfg, clients[1..])
  }

  /** Bounds the useful steps left when no new call comes. */
  function Remaining(cfg: Config, s: Sys): nat {
    Load(s) + ClientWeights(cfg, s.clients)
  }

  lemma {:induction false} ClientChanged(cfg: Config, clients: seq<Client>, i: nat, c: Client)
    requires i < |clients|
    ensures ClientWeights(cfg, clients[i := c]) == ClientWeights(cfg, clients) - ClientWeight(cfg, clients[i]) + ClientWeight(cfg, c)
    decreases |clients|
  {
    hide ClientWeight;
    if i == 0 {
      assert clients[0 := c][1..] == clients[1..];
    } else {
      ClientChanged(cfg, clients[1..], i - 1, c);
      assert clients[i := c][1..] == clients[1..][i - 1 := c];
    }
  }

  lemma {:induction false} WeightsSum(a: seq<Job>, b: seq<Job>)
    ensures Weights(a + b) == Weights(a) + Weights(b)
    decreases |a|
  {
    hide Weight;
    if a == [] {
      assert a + b == b;
    } else {
      WeightsSum(a[1..], b);
      assert (a + b)[1..] == a[1..] + b && (a + b)[0] == a[0];
    }
  }

  lemma {:induction false} SpawnedWeights(k: nat)
    ensures Weights(seq(k, _ => Spawned)) == 2 * k
    decreases k
  {
    if k > 0 {
      SpawnedWeights(k - 1);
      assert seq(k, _ => Spawned)[1..] == seq(k - 1, _ => Spawned);
    }
  }

  /** Client i moved on, queue and workers stayed, and its weight fell. */
  ghost predicate Fell(cfg: Config, s: Sys, r: Sys, i: nat) {
    && i < |s.clients| && |r.clients| == |s.clients| && r.clients == s.clients[i := r.clients[i]]
    && r.queue == s.queue && r.jobs == s.jobs
    && ClientWeight(cfg, r.clients[i]) < ClientWeight(cfg, s.clients[i])
  }

  lemma LookFalls(cfg: Config, s: Sys, i: nat, newp: Ptr)
    requires i < |s.clients| && s.clients[i].Wanting?
    ensures Fell(cfg, s, NextLook(s, i, newp), i)
  {
    hide LruCache.Next;
  }

  lemma WakeFalls(cfg: Config, s: Sys, i: nat)
    requires Useful(cfg, s, WakeUp(i))
    ensures Fell(cfg, s, NextWake(s, i), i)
  {
    hide InPool;
  }

  lemma CheckFalls(cfg: Config, s: Sys, i: nat)
    requires i < |s.clients| && s.clients[i].Checking?
    ensures Fell(cfg, s, NextCheck(s, i), i)
  {
  }

  lemma ProduceFalls(f: int -> Option<Frame>, cfg: Config, s: Sys, i: nat)
    requires i < |s.clients| && (s.clients[i].Producing? || s.clients[i].Direct?)
    ensures Fell(cfg, s, NextProduce(f, s, i), i)
  {
    hide LruCache.Next;
  }

  lemma SettleFalls(cfg: Config, s: Sys, i: nat)
    requires i < |s.clients| && (s.clients[i].Storing? || s.clients[i].Failing?)
    ensures Fell(cfg, s, NextSettle(s, i), i)
  {
    hide LruCache.Next;
  }

  lemma ScheduleFalls(cfg: Config, s: Sys, i: nat, newp: Ptr)
    requires i < |s.clients| && s.clients[i].Scheduling?
    ensures Fell(cfg, s, NextSchedule(cfg, s, i, newp), i)
  {
    hide LruCache.Next;
  }

  lemma ClientFalls(f: int -> Option<Frame>, cfg: Config, s: Sys, a: Act)
    requires Useful(cfg, s, a) && ClientAct(a) && !a.Enqueue? && !a.Spawn?
    ensures Fell(cfg, s, Do(f, cfg, s, a), a.i)
  {
    hide Fell, InPool, NextLook, NextWake, NextCheck, NextProduce, NextSettle, NextSchedule, LruCache.Next;
    match a
    case Look(i, newp) => LookFalls(cfg, s, i, newp);
    case WakeUp(i) => WakeFalls(cfg, s, i);
    case Check(i) => CheckFalls(cfg, s, i);
    case Produce(i) => ProduceFalls(f, cfg, s, i);
    case Settle(i) => SettleFalls(cfg, s, i);
    case Schedule(i, newp) => ScheduleFalls(cfg, s, i, newp);
  }

  lemma EnqueueFalls(f: int -> Option<Frame>, cfg: Config, s: Sys, i: nat)
    requires i < |s.clients| && s.clients[i].Enqueuing?
    ensures Remaining(cfg, NextEnqueue(s, i)) < Remaining(cfg, s)
  {
    hide Weights;
    ClientChanged(cfg, s.clients, i, NextEnqueue(s, i).clients[i]);
  }

  lemma SpawnFalls(cfg: Config, s: Sys, i: nat)
    requires i < |s.clients| && s.clients[i].Spawning?
    ensures Remaining(cfg, NextSpawn(cfg, s, i)) < Remaining(cfg, s)
  {
    hide Weights;
    var k := ToSpawn(cfg, s, s.clients[i].queued);
    ClientChanged(cfg, s.clients, i, NextSpawn(cfg, s, i).clients[i]);
    WeightsSum(s.jobs, seq(k, _ => Spawned));
    SpawnedWeights(k);
  }

  lemma RemainingFalls(f: int -> Option<Frame>, cfg: Config, s: Sys, a: Act)
    requires Useful(cfg, s, a)
    ensures Remaining(cfg, Do(f, cfg, s, a)) < Remaining(cfg, s)
  {
    hide Weights, ClientWeight, ClientWeights, InPool, NextEnqueue, NextSpawn, LruCache.Next;
    if WorkerAct(a) {
      LoadFalls(f, cfg, s, a);
    } else if a.Enqueue? {
      EnqueueFalls(f, cfg, s, a.i);
    } else if a.Spawn? {
      SpawnFalls(cfg, s, a.i);
    } else {
      hide Do;
      ClientFalls(f, cfg, s, a);
      ClientChanged(cfg, s.clients, a.i, Do(f, cfg, s, a).clients[a.i]);
    }
  }

  /** A run of useful steps: no new call, no spurious wake-up. */
  ghost predicate UsefulRun(f: int -> Option<Frame>, cfg: Config, s: Sys, acts: seq<Act>)
    decreases |acts|
  {
    |acts| == 0 || (Useful(cfg, s, acts[0]) && UsefulRun(f, cfg, Do(f, cfg, s, acts[0]), acts[1..]))
  }

  lemma UsefulStage(f: int -> Option<Frame>, cfg: Config, s: Sys, a: Act)
    requires Useful(cfg, s, a)
    ensures CanDo(cfg, s, a) && Do(f, cfg, s, a).stage == s.stage
  {
    hide LruCache.Next, InPool;
  }

  lemma {:induction false} UsefulRunFalls(f: int -> Option<Frame>, cfg: Config, s: Sys, acts: seq<Act>)
    requires Inv(f, cfg, s) && UsefulRun(f, cfg, s, acts)
    ensures Q.IsRun(f, cfg, s, acts) && Inv(f, cfg, Q.Exec(f, cfg, s, acts)) && Q.Exec(f, cfg, s, acts).stage == s.stage
    ensures |acts| + Remaining(cfg, Q.Exec(f, cfg, s, acts)) <= Remaining(cfg, s)
    decreases |acts|
  {
    hide Inv, Do, Remaining, Useful;
    if |acts| > 0 {
      UsefulStage(f, cfg, s, acts[0]);
      RemainingFalls(f, cfg, s, acts[0]);
      StepInv(f, cfg, s, acts[0]);
      UsefulRunFalls(f, cfg, Do(f, cfg, s, acts[0]), acts[1..]);
    }
  }

  /**
    All calls end. From any reachable state of the living object, at most
    Remaining(s) useful steps are possible without a new call, and they come to
    an end only when every call has returned or raised and all queued work is done.
   */
  lemma CallsEnd(f: int -> Option<Frame>, cfg: Config, clients: nat, before: seq<Act>, acts: seq<Act>)
    requires cfg.prefetch > 0 && cfg.threads > 0 && Q.IsRun(f, cfg, Q.Init(cfg, clients), before)
    requires var s := Q.Exec(f, cfg, Q.Init(cfg, clients), before); s.stage.Open? && UsefulRun(f, cfg, s, acts)
    ensures var s := Q.Exec(f, cfg, Q.Init(cfg, clients), before);
      && Q.IsRun(f, cfg, s, acts) && |acts| <= Remaining(cfg, s)
      && var r := Q.Exec(f, cfg, s, acts);
      (forall a :: !Useful(cfg, r, a)) ==> Resting(r.clients) && r.queue == [] && r.jobs == []
  {
    hide Inv, Useful, Remaining, Do, Q.Init, Resting;
    InitInv(f, cfg, clients);
    RunInv(f, cfg, Q.Init(cfg, clients), before);
    var s := Q.Exec(f, cfg, Q.Init(cfg, clients), before);
    UsefulRunFalls(f, cfg, s, acts);
    SomebodyGoes(f, cfg, Q.Exec(f, cfg, s, acts));
  }

  // --------------------------------------------------------- frames asked for

  /** The frame that an act asks for: the one a call wants, or one that is queued. */
  function AskedBy(s: Sys, a: Act): set<int> {
    match a
    case Call(_, n) => {n}
    case Enqueue(i) => if i < |s.clients| && s.clients[i].Enqueuing? then {s.clients[i].pos} else {}
    case _ => {}
  }

  function Asked(f: int -> Option<Frame>, cfg: Config, s: Sys, acts: seq<Act>): set<int>
    requires Q.IsRun(f, cfg, s, acts)
    decreases |acts|
  {
    if |acts| == 0 then {} else AskedBy(s, acts[0]) + Asked(f, cfg, Do(f, cfg, s, acts[0]), acts[1..])
  }

  ghost predicate ThrowIn(f: int -> Option<Frame>, asked: set<int>) {
    exists m :: m in asked && f(m).None?
  }

  predicate JobAsked(job: Job, asked: set<int>) {
    Off(job) || job.n in asked
  }

  ghost predicate ClientAsked(f: int -> Option<Frame>, c: Client, asked: set<int>) {
    && (c.Idle? || c.n in asked)
    && (c.Raised? || c.Failing? ==> ThrowIn(f, asked))
  }

  ghost predicate AskedOk(f: int -> Option<Frame>, s: Sys, asked: set<int>) {
    && (forall i :: 0 <= i < |s.queue| ==> s.queue[i].n in asked)
    && (forall j :: 0 <= j < |s.jobs| ==> JobAsked(s.jobs[j], asked))
    && (forall i :: 0 <= i < |s.clients| ==> ClientAsked(f, s.clients[i], asked))
    && (s.exn ==> ThrowIn(f, asked))
  }

  lemma MoreAsked(f: int -> Option<Frame>, s: Sys, asked: set<int>, more: set<int>)
    requires AskedOk(f, s, asked) && asked <= more
    ensures AskedOk(f, s, more)
  {
    if ThrowIn(f, asked) {
      var m :| m in asked && f(m).None?;
      assert m in more;
    }
    forall i | 0 <= i < |s.clients| ensures ClientAsked(f, s.clients[i], more) { assert ClientAsked(f, s.clients[i], asked); }
    forall j | 0 <= j < |s.jobs| ensures JobAsked(s.jobs[j], more) { assert JobAsked(s.jobs[j], asked); }
  }

  /** The job has no frame in hand. */
  predicate Off(job: Job) {
    job.Spawned? || job.Looping?
  }

  /** A worker works on its own frame or on the first of the queue. */
  lemma WorkerFrames(f: int -> Option<Frame>, cfg: Config, s: Sys, a: Act)
    requires WorkerAct(a) && WorkerCan(cfg, s, a)
    ensures var r := WorkerDo(f, cfg, s, a);
      && a.j < |s.jobs| && r.clients == s.clients && (r.exn ==> s.exn || a.Flag?)
      && (a.Flag? ==> s.jobs[a.j].Throwing?)
      && (r.queue == s.queue || (s.queue != [] && r.queue == s.queue[1..]))
      && (r.jobs == Without(s.jobs, a.j)
          || (|r.jobs| == |s.jobs| && r.jobs == s.jobs[a.j := r.jobs[a.j]]
              && var job := r.jobs[a.j];
              Off(job) || (!Off(s.jobs[a.j]) && job.n == s.jobs[a.j].n) || (s.queue != [] && job.n == s.queue[0].n)))
  {
    hide LruCache.Next, InPool;
  }

  lemma AskedWorker(f: int -> Option<Frame>, cfg: Config, s: Sys, a: Act, asked: set<int>)
    requires Inv(f, cfg, s) && WorkerAct(a) && WorkerCan(cfg, s, a) && AskedOk(f, s, asked)
    ensures AskedOk(f, WorkerDo(f, cfg, s, a), asked)
  {
    hide Inv, WorkerDo, WorkerCan, ClientAsked;
    WorkerFrames(f, cfg, s, a);
    FlagShows(f, cfg, s, a);
    var r := WorkerDo(f, cfg, s, a);
    assert JobAsked(s.jobs[a.j], asked);
    forall j | 0 <= j < |r.jobs| ensures JobAsked(r.jobs[j], asked) {
      if |r.jobs| == |s.jobs| {
        assert JobAsked(s.jobs[j], asked);
      } else {
        assert r.jobs[j] == s.jobs[if j < a.j then j else j + 1];
      }
    }
  }

  lemma FlagShows(f: int -> Option<Frame>, cfg: Config, s: Sys, a: Act)
    requires Inv(f, cfg, s) && WorkerAct(a) && WorkerCan(cfg, s, a)
    ensures a.j < |s.jobs| && (a.Flag? ==> s.jobs[a.j].Throwing? && f(s.jobs[a.j].n).None?)
  {
    hide Inv, B.Books, All, Waits, InPool;
    JobReady(f, cfg, s, a.j);
  }

  /** The state a client's own act leads to speaks of the same frame and raises for a reason. */
  lemma OwnFrame(f: int -> Option<Frame>, cfg: Config, s: Sys, a: Act)
    requires ClientAct(a) && ClientCan(cfg, s, a)
    ensures a.i < |s.clients| && (a.Enqueue? ==> s.clients[a.i].Enqueuing?) && (s.clients[a.i].Idle? ==> a.Call?)
    ensures var r, was := ClientDo(f, cfg, s, a), s.clients[a.i];
      && r.exn == s.exn && r.clients == s.clients[a.i := r.clients[a.i]]
      && var c := r.clients[a.i];
      && !c.Idle? && c.n == (if a.Call? then a.n else was.n)
      && (c.Failing? ==> s.exn || was.Failing? || f(c.n).None?)
      && (c.Raised? ==> was.Failing? || f(c.n).None? || a.Look? || a.WakeUp?)
  {
    hide LruCache.Next, InPool;
  }

  lemma OwnLists(f: int -> Option<Frame>, cfg: Config, s: Sys, a: Act)
    requires ClientAct(a) && ClientCan(cfg, s, a)
    ensures var r := ClientDo(f, cfg, s, a);
      && (r.queue == s.queue || (a.Enqueue? && r.queue == s.queue + [Work(s.clients[a.i].pos, s.clients[a.i].p)]))
      && |r.jobs| >= |s.jobs| && r.jobs[..|s.jobs|] == s.jobs && (forall j :: |s.jobs| <= j < |r.jobs| ==> r.jobs[j].Spawned?)
  {
    hide LruCache.Next, InPool;
  }

  /** Neither a lookup nor a wake-up raises. */
  lemma LookupsDoNotRaise(f: int -> Option<Frame>, cfg: Config, s: Sys, a: Act)
    requires Inv(f, cfg, s) && ClientAct(a) && ClientCan(cfg, s, a) && (a.Look? || a.WakeUp?)
    ensures !ClientDo(f, cfg, s, a).clients[a.i].Raised?
  {
    hide B.Books, Inv, B.Ptrs, All, Waits, LruCache.Next, B.TaskOk, InPool;
    ClientReady(f, cfg, s, a.i);
    if a.Look? {
      B.LookupMoves(f, s.cache, Lookup(s.clients[a.i].n, true, None, a.newp), All(s), Waits(s));
    } else {
      WaitsPut(s, a.i, s.clients[a.i]);
      B.WakeMoves(f, s.cache, s.clients[a.i].p, All(s), Waits(s));
    }
  }

  lemma AskedClient(f: int -> Option<Frame>, cfg: Config, s: Sys, a: Act, asked: set<int>)
    requires Inv(f, cfg, s) && ClientAct(a) && ClientCan(cfg, s, a) && AskedOk(f, s, asked) && AskedBy(s, a) <= asked
    ensures AskedOk(f, ClientDo(f, cfg, s, a), asked)
  {
    hide Inv, ClientDo, ClientCan, ClientAsked, JobAsked;
    OwnFrame(f, cfg, s, a);
    OwnLists(f, cfg, s, a);
    var r := ClientDo(f, cfg, s, a);
    forall i | 0 <= i < |r.clients| ensures ClientAsked(f, r.clients[i], asked) {
      if i == a.i { OwnAsked(f, cfg, s, a, asked); }
    }
    forall j | 0 <= j < |r.jobs| ensures JobAsked(r.jobs[j], asked) {
      if j < |s.jobs| { assert r.jobs[j] == r.jobs[..|s.jobs|][j]; } else { IdleJob(r.jobs[j], asked); }
    }
  }

  lemma IdleJob(job: Job, asked: set<int>)
    requires job.Spawned?
    ensures JobAsked(job, asked)
  {
  }

  lemma OwnAsked(f: int -> Option<Frame>, cfg: Config, s: Sys, a: Act, asked: set<int>)
    requires Inv(f, cfg, s) && ClientAct(a) && ClientCan(cfg, s, a) && AskedOk(f, s, asked) && AskedBy(s, a) <= asked
    ensures a.i < |ClientDo(f, cfg, s, a).clients| && ClientAsked(f, ClientDo(f, cfg, s, a).clients[a.i], asked)
  {
    hide Inv, ClientDo, ClientCan, JobAsked;
    OwnFrame(f, cfg, s, a);
    if a.Look? || a.WakeUp? { LookupsDoNotRaise(f, cfg, s, a); }
    assert ClientAsked(f, s.clients[a.i], asked);
    var c := ClientDo(f, cfg, s, a).clients[a.i];
    assert c.n in asked;
  }

  lemma AskedStep(f: int -> Option<Frame>, cfg: Config, s: Sys, a: Act, asked: set<int>)
    requires Inv(f, cfg, s) && CanDo(cfg, s, a) && AskedOk(f, s, asked) && AskedBy(s, a) <= asked
    ensures AskedOk(f, Do(f, cfg, s, a), asked)
  {
    hide Inv, ClientDo, WorkerDo, ClientCan, WorkerCan, LruCache.Next, InPool, AskedBy;
    if ClientAct(a) {
      AskedClient(f, cfg, s, a, asked);
    } else if WorkerAct(a) {
      AskedWorker(f, cfg, s, a, asked);
    }
  }

  lemma {:induction false} AskedRun(f: int -> Option<Frame>, cfg: Config, s: Sys, acts: seq<Act>, asked: set<int>)
    requires Inv(f, cfg, s) && Q.IsRun(f, cfg, s, acts) && AskedOk(f, s, asked)
    ensures AskedOk(f, Q.Exec(f, cfg, s, acts), asked + Asked(f, cfg, s, acts))
    decreases |acts|
  {
    hide Inv, Do, AskedOk, AskedBy;
    if |acts| == 0 {
      assert asked + {} == asked;
    } else {
      var next, added := Do(f, cfg, s, acts[0]), AskedBy(s, acts[0]);
      StepInv(f, cfg, s, acts[0]);
      MoreAsked(f, s, asked, asked + added);
      AskedStep(f, cfg, s, acts[0], asked + added);
      AskedRun(f, cfg, next, acts[1..], asked + added);
      var rest := Asked(f, cfg, next, acts[1..]);
      assert (asked + added) + rest == asked + (added + rest);
    }
  }

  /** GetFrame raises only if the child throws on a frame that some call wanted or queued in this run. */
  lemma RaisesForAsked(f: int -> Option<Frame>, cfg: Config, clients: nat, acts: seq<Act>, i: nat)
    requires cfg.prefetch > 0 && cfg.threads > 0 && Q.IsRun(f, cfg, Q.Init(cfg, clients), acts)
    requires i < |Q.Exec(f, cfg, Q.Init(cfg, clients), acts).clients|
    ensures Q.Exec(f, cfg, Q.Init(cfg, clients), acts).clients[i].Raised? ==>
      exists m :: m in Asked(f, cfg, Q.Init(cfg, clients), acts) && f(m).None?
  {
    hide Inv, Do, Asked;
    InitInv(f, cfg, clients);
    AskedRun(f, cfg, Q.Init(cfg, clients), acts, {});
    var asked := Asked(f, cfg, Q.Init(cfg, clients), acts);
    assert {} + asked == asked;
    assert ClientAsked(f, Q.Exec(f, cfg, Q.Init(cfg, clients), acts).clients[i], asked);
  }
}
