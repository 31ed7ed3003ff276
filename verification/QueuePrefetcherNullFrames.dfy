/**
  When QueuePrefetcher::GetFrame returns a null frame: exactly when the call's
  own lookup begins on a rolled-back cache entry. And it does happen.
 */
module QueuePrefetcherNullFrames {
  import opened KeyedList
  import opened LruCache
  import LI = LruInvariants
  import LT = LruTheorems
  import B = HandleBooks
  import opened Q = QueuePrefetcher
  import opened QueuePrefetcherTheorems

  /** The client is on its way to return a null frame, or has done so. */
  predicate Null(c: Client) {
    (c.Scheduling? || c.Enqueuing? || c.Spawning? || c.Returned?) && c.result.None?
  }

  /** Act a is client i's lookup, and it begins on a rolled-back entry. */
  ghost predicate StaleLook(s: Sys, a: Act, i: nat) {
    && a.Look? && a.i == i && i < |s.clients| && s.clients[i].Wanting?
    && LT.StaleRead(s.cache, Lookup(s.clients[i].n, true, None, a.newp))
  }

  // --------------------------------------------------------------- one lookup

  /** The lookup that skips the wait loop answers at once. */
  lemma StaleAnswers(c: Cache, step: Step)
    requires LI.Inv(c) && LT.StaleRead(c, step)
    ensures LruCache.Next(c, step).1.Ready?
  {
    assert c.main[0..] == c.main;
    var it :| it in c.main && it.key == step.key && LI.Stored(c, it) && c.heap[it.value.value].state == RolledBack;
    var i := Find(c.main, step.key).value;
    assert c.main[i] == it;
  }

  lemma LookupNullIff(f: int -> Option<Frame>, c: Cache, step: Step)
    requires LI.Inv(c) && LT.Agree(f, c) && LruCache.Enabled(c, step) && step.Lookup? && step.block
    ensures LruCache.Next(c, step).1 == Outcome.Ready(None) <==> LT.StaleRead(c, step)
  {
    hide LruCache.Next, LI.Inv, LT.Agree, LT.StaleRead;
    if LT.StaleRead(c, step) {
      StaleAnswers(c, step);
    }
    if LruCache.Next(c, step).1.Ready? {
      LT.ReadyAgrees(f, c, step);
      ReadyOrNull(f, c, step);
    }
  }

  /** A call's lookup makes it return null exactly when it begins on a rolled-back entry. */
  lemma LookNullIff(f: int -> Option<Frame>, cfg: Config, s: Sys, i: nat, newp: Ptr)
    requires Inv(f, cfg, s) && CanDo(cfg, s, Look(i, newp))
    ensures Null(Do(f, cfg, s, Look(i, newp)).clients[i]) <==> StaleLook(s, Look(i, newp), i)
  {
    hide LruCache.Next, LI.Inv, LT.Agree, LT.StaleRead, ClientsOk, CountsOk, Live, B.Ptrs, B.TaskOk;
    LookupNullIff(f, s.cache, Lookup(s.clients[i].n, true, None, newp));
  }

  // ------------------------------------------------------------------ one step

  /** Only a client's own acts change it. */
  lemma OthersStay(f: int -> Option<Frame>, cfg: Config, s: Sys, a: Act, i: nat)
    requires CanDo(cfg, s, a) && i < |s.clients|
    ensures |Do(f, cfg, s, a).clients| == |s.clients|
    ensures !(ClientAct(a) && a.i == i) ==> Do(f, cfg, s, a).clients[i] == s.clients[i]
  {
    hide LruCache.Next, InPool;
  }

  /** A wait ends with a frame, with the producer's place, or goes on. */
  lemma WakeNotNull(f: int -> Option<Frame>, cfg: Config, s: Sys, i: nat)
    requires Inv(f, cfg, s) && i < |s.clients| && s.clients[i].Waiting?
    ensures !Null(NextWake(s, i).clients[i])
  {
    hide B.Books, Inv, B.Ptrs, All, Waits, LruCache.Next, B.TaskOk;
    ClientReady(f, cfg, s, i);
    WaitsPut(s, i, s.clients[i]);
    B.WakeMoves(f, s.cache, s.clients[i].p, All(s), Waits(s));
  }

  lemma OwnStep(f: int -> Option<Frame>, cfg: Config, s: Sys, a: Act)
    requires ClientAct(a) && !a.Call? && !a.Look? && !a.WakeUp? && ClientCan(cfg, s, a)
    ensures Null(ClientDo(f, cfg, s, a).clients[a.i]) == Null(s.clients[a.i])
  {
    hide LruCache.Next, InPool;
  }

  lemma NullStep(f: int -> Option<Frame>, cfg: Config, s: Sys, a: Act, i: nat)
    requires Inv(f, cfg, s) && CanDo(cfg, s, a) && i < |s.clients|
    ensures |Do(f, cfg, s, a).clients| == |s.clients|
    ensures Null(Do(f, cfg, s, a).clients[i]) <==>
      if a.Look? && a.i == i then StaleLook(s, a, i) else Null(s.clients[i]) && !(a.Call? && a.i == i)
  {
    hide Inv, LruCache.Next, InPool, StaleLook;
    OthersStay(f, cfg, s, a, i);
    if ClientAct(a) && a.i == i {
      if a.Look? {
        LookNullIff(f, cfg, s, i, a.newp);
      } else if a.WakeUp? {
        WakeNotNull(f, cfg, s, i);
      } else if !a.Call? {
        OwnStep(f, cfg, s, a);
      }
    }
  }

  // ---------------------------------------------------------------- whole runs

  /** Whether client i's latest call, given as `stale` so far, looked its frame up on a rolled-back entry. */
  ghost predicate StaleCall(f: int -> Option<Frame>, cfg: Config, s: Sys, acts: seq<Act>, i: nat, stale: bool)
    requires Q.IsRun(f, cfg, s, acts)
    decreases |acts|
  {
    if |acts| == 0 then stale
    else
      var now := if acts[0].Look? && acts[0].i == i then StaleLook(s, acts[0], i) else stale && !(acts[0].Call? && acts[0].i == i);
      StaleCall(f, cfg, Do(f, cfg, s, acts[0]), acts[1..], i, now)
  }

  lemma {:induction false} NullRun(f: int -> Option<Frame>, cfg: Config, s: Sys, acts: seq<Act>, i: nat)
    requires Inv(f, cfg, s) && Q.IsRun(f, cfg, s, acts) && i < |s.clients|
    ensures var r := Q.Exec(f, cfg, s, acts);
      |r.clients| == |s.clients| && (Null(r.clients[i]) <==> StaleCall(f, cfg, s, acts, i, Null(s.clients[i])))
    decreases |acts|
  {
    hide Inv, Do, Null, StaleLook;
    if |acts| > 0 {
      StepInv(f, cfg, s, acts[0]);
      NullStep(f, cfg, s, acts[0], i);
      NullRun(f, cfg, Do(f, cfg, s, acts[0]), acts[1..], i);
    }
  }

  /**
    Exactly when a null frame is returned. In every run, with any number of
    clients: the frame that client i's call returned is null if and only if that
    call's own lookup began on a rolled-back entry; otherwise it is the child's.
   */
  lemma NullFrameIff(f: int -> Option<Frame>, cfg: Config, clients: nat, acts: seq<Act>, i: nat)
    requires cfg.prefetch > 0 && cfg.threads > 0 && Q.IsRun(f, cfg, Q.Init(cfg, clients), acts) && i < clients
    ensures var s := Q.Exec(f, cfg, Q.Init(cfg, clients), acts);
      && i < |s.clients|
      && (s.clients[i].Returned? ==>
            var c := s.clients[i];
            if StaleCall(f, cfg, Q.Init(cfg, clients), acts, i, false) then c.result == None
            else c.result.Some? && c.result == f(c.n))
  {
    hide Inv, Do, StaleCall;
    InitInv(f, cfg, clients);
    RunInv(f, cfg, Q.Init(cfg, clients), acts);
    NullRun(f, cfg, Q.Init(cfg, clients), acts, i);
    FrameRight(f, cfg, Q.Exec(f, cfg, Q.Init(cfg, clients), acts), i);
  }

  // ------------------------------------------------------------------ a witness

  const SMALL: Config := Config(2, 1, 8)

  /** Two clients ask for frame 7, whose producer throws; the first asks again before the second wakes up. */
  const RACE: seq<Act> := [
    Call(0, 7), Look(0, 0), Call(1, 7), Look(1, 1), Check(0), Produce(0), Settle(0), Call(0, 7), Look(0, 1), Schedule(0, 1)]

  function At(cache: Cache, first: Client, second: Client): Sys {
    Sys(cache, [], [], 0, false, [first, second], Open, 0, 0)
  }

  /** One act leads from s to r. */
  ghost predicate Leads(f: int -> Option<Frame>, s: Sys, a: Act, r: Sys) {
    CanDo(SMALL, s, a) && Do(f, SMALL, s, a) == r
  }

  lemma {:induction false} Chain(f: int -> Option<Frame>, states: seq<Sys>, acts: seq<Act>)
    requires |states| == |acts| + 1 && forall k :: 0 <= k < |acts| ==> Leads(f, states[k], acts[k], states[k + 1])
    ensures Q.IsRun(f, SMALL, states[0], acts) && Q.Exec(f, SMALL, states[0], acts) == states[|acts|]
    decreases |acts|
  {
    if |acts| > 0 {
      forall k | 0 <= k < |acts[1..]| ensures Leads(f, states[1..][k], acts[1..][k], states[1..][k + 1]) {
        assert Leads(f, states[k + 1], acts[k + 1], states[k + 1 + 1]);
      }
      assert Leads(f, states[0], acts[0], states[1]);
      Chain(f, states[1..], acts[1..]);
    }
  }

  const STOPS: seq<Sys> := [
    At(LruCache.Init(1, NoResize), Idle, Idle),
    At(LruCache.Init(1, NoResize), Wanting(7), Idle),
    At(LT.PRODUCED7, Checking(7, 0), Idle),
    At(LT.PRODUCED7, Checking(7, 0), Wanting(7)),
    At(LT.AWAITED7, Checking(7, 0), Waiting(7, 0)),
    At(LT.AWAITED7, Producing(7, 0), Waiting(7, 0)),
    At(LT.AWAITED7, Failing(7, 0), Waiting(7, 0)),
    At(LT.ROLLED7, Raised(7), Waiting(7, 0)),
    At(LT.ROLLED7, Wanting(7), Waiting(7, 0)),
    At(LT.ROLLED7, Scheduling(7, 8, 0, None), Waiting(7, 0)),
    At(LT.ROLLED7, Returned(7, None), Waiting(7, 0))]

  /** Putting a client back into a system of two. */
  lemma PutAt(cache: Cache, a: Client, b: Client, c: Client)
    ensures Put(At(cache, a, b), 0, c) == At(cache, c, b) && Put(At(cache, a, b), 1, c) == At(cache, a, c)
  {
    assert [a, b][0 := c] == [c, b] && [a, b][1 := c] == [a, c];
  }

  lemma RaceCalls(f: int -> Option<Frame>)
    ensures Leads(f, STOPS[0], RACE[0], STOPS[1]) && Leads(f, STOPS[2], RACE[2], STOPS[3]) && Leads(f, STOPS[7], RACE[7], STOPS[8])
  {
    hide LruCache.Init, LT.PRODUCED7, LT.ROLLED7;
    PutAt(LruCache.Init(1, NoResize), Idle, Idle, Wanting(7));
    PutAt(LT.PRODUCED7, Checking(7, 0), Idle, Wanting(7));
    PutAt(LT.ROLLED7, Raised(7), Waiting(7, 0), Wanting(7));
  }

  lemma FirstLooks(f: int -> Option<Frame>)
    ensures Leads(f, STOPS[1], RACE[1], STOPS[2]) && Leads(f, STOPS[3], RACE[3], STOPS[4])
  {
    LT.Look7Steps(1);
    hide LruCache.Next, LT.StaleRead;
    PutAt(LT.PRODUCED7, Wanting(7), Idle, Checking(7, 0));
    PutAt(LT.AWAITED7, Checking(7, 0), Wanting(7), Waiting(7, 0));
  }

  lemma LastLook(f: int -> Option<Frame>)
    ensures Leads(f, STOPS[8], RACE[8], STOPS[9]) && StaleLook(STOPS[8], RACE[8], 0)
  {
    LT.Look7Steps(1);
    hide LruCache.Next, LT.StaleRead;
    PutAt(LT.ROLLED7, Wanting(7), Waiting(7, 0), Scheduling(7, 8, 0, None));
  }

  lemma RaceFails(f: int -> Option<Frame>)
    requires f(7).None?
    ensures Leads(f, STOPS[4], RACE[4], STOPS[5]) && Leads(f, STOPS[5], RACE[5], STOPS[6])
  {
    hide LruCache.Next, LT.AWAITED7;
    PutAt(LT.AWAITED7, Checking(7, 0), Waiting(7, 0), Producing(7, 0));
    PutAt(LT.AWAITED7, Producing(7, 0), Waiting(7, 0), Failing(7, 0));
  }

  lemma RaceRollsBack(f: int -> Option<Frame>)
    ensures Leads(f, STOPS[6], RACE[6], STOPS[7])
  {
    LT.Look7Steps(1);
    hide LruCache.Next, LT.StaleRead;
    PutAt(LT.ROLLED7, Failing(7, 0), Waiting(7, 0), Raised(7));
  }

  lemma RaceReturns(f: int -> Option<Frame>)
    ensures Leads(f, STOPS[9], RACE[9], STOPS[10])
  {
    hide LruCache.Next;
    PutAt(LT.ROLLED7, Scheduling(7, 8, 0, None), Waiting(7, 0), Returned(7, None));
  }

  /** In this run of two clients, client 0 returned a null frame 7. */
  ghost predicate ReturnsNull(f: int -> Option<Frame>, acts: seq<Act>) {
    && Q.IsRun(f, SMALL, Q.Init(SMALL, 2), acts)
    && Q.Exec(f, SMALL, Q.Init(SMALL, 2), acts).clients == [Returned(7, None), Waiting(7, 0)]
  }

  /** A run of the code in which GetFrame(7) returns a null frame. */
  lemma NullFrameHappens(f: int -> Option<Frame>)
    requires f(7).None?
    ensures exists acts :: ReturnsNull(f, acts)
  {
    hide Leads, StaleLook, ReturnsNull, At, Q.Init;
    RaceCalls(f);
    FirstLooks(f);
    RaceFails(f);
    RaceRollsBack(f);
    LastLook(f);
    RaceReturns(f);
    RaceStart();
    Finish(f, STOPS, RACE);
  }

  lemma RaceStart()
    ensures Q.Init(SMALL, 2) == STOPS[0] && STOPS[10].clients == [Returned(7, None), Waiting(7, 0)]
  {
    assert Q.Init(SMALL, 2).clients == [Idle, Idle];
  }

  lemma Finish(f: int -> Option<Frame>, states: seq<Sys>, acts: seq<Act>)
    requires |states| == |acts| + 1 && forall k :: 0 <= k < |acts| ==> Leads(f, states[k], acts[k], states[k + 1])
    requires states[0] == Q.Init(SMALL, 2) && states[|acts|].clients == [Returned(7, None), Waiting(7, 0)]
    ensures ReturnsNull(f, acts)
  {
    hide Leads;
    Chain(f, states, acts);
  }
}
