/**
  The access-pattern detector of Prefetcher::GetFrame: it locks onto a frame
  stride after three repeats and drops the lock after three misses.
 */
module StrideLock {
  const PATTERN_LOCK_LENGTH: nat := 3

  datatype Stride = Stride(lockedPattern: int, hits: nat, misses: nat, pattern: int, isLocked: bool, last: int)

  const START := Stride(1, 0, 0, 1, false, 0)

  /** The stride that the scheduling loop uses. */
  function Step(t: Stride): int {
    if t.isLocked then t.lockedPattern else 1
  }

  /** The distance to the previous request; a repeated request counts as one step forward. */
  function Delta(t: Stride, n: int): (d: int)
    ensures d != 0
  {
    if n == t.last then 1 else n - t.last
  }

  function Observe(t: Stride, n: int): Stride {
    var d := Delta(t, n);
    if t.isLocked then
      var hits := if t.lockedPattern != d && t.pattern == d then t.hits + 1 else 0;
      var misses := if t.lockedPattern == d then 0 else t.misses + 1;
      if misses >= PATTERN_LOCK_LENGTH && hits >= PATTERN_LOCK_LENGTH then Stride(d, 0, 0, d, true, n)
      else Stride(t.lockedPattern, hits, misses, d, misses < PATTERN_LOCK_LENGTH, n)
    else
      var hits := if t.pattern == d then t.hits + 1 else 0;
      if hits >= PATTERN_LOCK_LENGTH then Stride(d, hits, 0, t.pattern, true, n)
      else Stride(t.lockedPattern, hits, if t.pattern == d then 0 else t.misses + 1, t.pattern, false, n)
  }

  function ObserveAll(t: Stride, requests: seq<int>): Stride
    decreases |requests|
  {
    if |requests| == 0 then t else ObserveAll(Observe(t, requests[0]), requests[1..])
  }

  /** What holds after any sequence of requests. */
  ghost predicate Inv(t: Stride) {
    && t.lockedPattern != 0 && t.pattern != 0
    && (t.isLocked && t.misses == 0 ==> t.pattern == t.lockedPattern)
    && (t.isLocked && t.misses > 0 ==> t.hits < t.misses < PATTERN_LOCK_LENGTH && t.pattern != t.lockedPattern)
    && (!t.isLocked ==> t.hits < PATTERN_LOCK_LENGTH)
  }

  lemma ObserveKeeps(t: Stride, n: int)
    requires Inv(t)
    ensures Inv(Observe(t, n)) && Step(Observe(t, n)) != 0
  {
  }

  lemma {:induction false} ReachableStride(t: Stride, requests: seq<int>)
    requires Inv(t)
    ensures Inv(ObserveAll(t, requests)) && Step(ObserveAll(t, requests)) != 0
    decreases |requests|
  {
    if |requests| > 0 {
      ObserveKeeps(t, requests[0]);
      ReachableStride(Observe(t, requests[0]), requests[1..]);
    }
  }

  /** The third consecutive off-pattern request ends the lock, never an earlier one. */
  lemma ThirdMissUnlocks(t: Stride, a: int, b: int, c: int)
    requires Inv(t) && t.isLocked && t.misses == 0
    requires var t1 := Observe(t, a); var t2 := Observe(t1, b);
      Delta(t, a) != t.lockedPattern && Delta(t1, b) != t.lockedPattern && Delta(t2, c) != t.lockedPattern
    ensures var t1 := Observe(t, a); var t2 := Observe(t1, b);
      && t1.isLocked && t2.isLocked && t2.lockedPattern == t.lockedPattern
      && !Observe(t2, c).isLocked
  {
    var t1 := Observe(t, a);
    assert t1.misses == 1 && t1.hits == 0 && t1.isLocked;
    var t2 := Observe(t1, b);
    assert t2.misses == 2 && t2.hits <= 1 && t2.isLocked;
  }

  /** k requests in a row at distance d. */
  function Repeat(t: Stride, d: int, k: nat): Stride
    decreases k
  {
    if k == 0 then t else Repeat(Observe(t, t.last + d), d, k - 1)
  }

  lemma {:induction false} StaysLocked(t: Stride, d: int, k: nat)
    requires Inv(t) && t.isLocked && t.lockedPattern == d
    ensures Repeat(t, d, k).isLocked && Repeat(t, d, k).lockedPattern == d
    decreases k
  {
    if k > 0 {
      StaysLocked(Observe(t, t.last + d), d, k - 1);
    }
  }

  /** Requests at distance d until an unlocked or locked detector is locked onto d. */
  ghost predicate OnWay(t: Stride, d: int, hits: nat) {
    && Inv(t) && t.last + d != t.last
    && ((t.isLocked && t.lockedPattern == d) || (t.pattern == d && t.hits >= hits))
  }

  lemma Nearer(t: Stride, d: int, hits: nat)
    requires OnWay(t, d, hits) && hits < PATTERN_LOCK_LENGTH
    ensures OnWay(Observe(t, t.last + d), d, hits + 1)
  {
  }

  /** From any locked state, four consecutive requests of one new stride lock onto it. */
  lemma RelocksInFour(t: Stride, d: int, k: nat)
    requires Inv(t) && t.isLocked && d != 0 && k >= 4
    ensures Repeat(t, d, k).isLocked && Repeat(t, d, k).lockedPattern == d
  {
    hide Observe, Inv;
    var t1 := Observe(t, t.last + d);
    var t2 := Observe(t1, t1.last + d);
    var t3 := Observe(t2, t2.last + d);
    var t4 := Observe(t3, t3.last + d);
    assert Repeat(t, d, k) == Repeat(t1, d, k - 1) == Repeat(t2, d, k - 2) == Repeat(t3, d, k - 3) == Repeat(t4, d, k - 4);
    FirstOff(t, d);
    Nearer(t1, d, 0);
    Nearer(t2, d, 1);
    Nearer(t3, d, 2);
    Arrived(t4, d);
    StaysLocked(t4, d, k - 4);
  }

  lemma FirstOff(t: Stride, d: int)
    requires Inv(t) && t.isLocked && d != 0
    ensures OnWay(Observe(t, t.last + d), d, 0)
  {
  }

  lemma Arrived(t: Stride, d: int)
    requires OnWay(t, d, PATTERN_LOCK_LENGTH)
    ensures Inv(t) && t.isLocked && t.lockedPattern == d
  {
  }

  /** Switching strides while locked, without unlocking first, never happens: that branch is dead. */
  lemma LockChangesOnlyThroughUnlock(t: Stride, n: int)
    requires Inv(t) && t.isLocked && Observe(t, n).isLocked
    ensures Observe(t, n).lockedPattern == t.lockedPattern
  {
  }

  /**
    An unlocked detector never adopts a new candidate: a steady stride d is
    locked onto, after three requests at the latest, exactly when it is the
    candidate left from the last lock (from the start: exactly when d is 1).
   */
  lemma {:induction false} UnlockedLocksIff(t: Stride, d: int, k: nat)
    requires Inv(t) && !t.isLocked && d != 0 && k >= PATTERN_LOCK_LENGTH - t.hits
    ensures Repeat(t, d, k).isLocked <==> d == t.pattern
    ensures d == t.pattern ==> Repeat(t, d, k).lockedPattern == d
  {
    if d != t.pattern {
      NeverLocks(t, d, k);
    } else {
      Approach(t, d, k);
    }
  }

  /** A new detector locks onto a steady stride exactly when that is 1, with the third request. */
  lemma StartLocksIff(d: int, k: nat)
    requires d != 0
    ensures Repeat(START, d, k).isLocked <==> d == 1 && k >= 3
  {
    hide Observe;
    if k >= 3 {
      UnlockedLocksIff(START, d, k);
    } else {
      NotYet(START, d, k);
    }
  }

  /** A repeated request is a request for one frame further, but for the frame remembered. */
  lemma RepeatIsForward(t: Stride)
    ensures Observe(t, t.last) == Observe(t, t.last + 1).(last := t.last)
  {
  }

  /** One request off the candidate, and an unlocked detector counts to three anew. */
  lemma MissRestarts(t: Stride, n: int, d: int, k: nat)
    requires Inv(t) && !t.isLocked && d != 0
    requires n - t.last != t.pattern && (n == t.last ==> t.pattern != 1)
    ensures Repeat(Observe(t, n), d, k).isLocked <==> d == t.pattern && k >= 3
  {
    var u := Observe(t, n);
    assert u.hits == 0 && !u.isLocked && u.pattern == t.pattern;
    ObserveKeeps(t, n);
    hide Observe, Inv;
    if k >= 3 {
      UnlockedLocksIff(u, d, k);
    } else {
      NotYet(u, d, k);
    }
  }

  /** One request at the locked stride, and it takes three misses again. */
  lemma HitForgives(t: Stride)
    requires Inv(t) && t.isLocked
    ensures var u := Observe(t, t.last + t.lockedPattern); u.isLocked && u.misses == 0 && u.lockedPattern == t.lockedPattern
  {
  }

  lemma {:induction false} NotYet(t: Stride, d: int, k: nat)
    requires !t.isLocked && t.hits + k < PATTERN_LOCK_LENGTH
    ensures !Repeat(t, d, k).isLocked
    decreases k
  {
    if k > 0 {
      NotYet(Observe(t, t.last + d), d, k - 1);
    }
  }

  lemma {:induction false} NeverLocks(t: Stride, d: int, k: nat)
    requires !t.isLocked && d != 0 && d != t.pattern
    ensures !Repeat(t, d, k).isLocked
    decreases k
  {
    if k > 0 {
      NeverLocks(Observe(t, t.last + d), d, k - 1);
    }
  }

  lemma {:induction false} Approach(t: Stride, d: int, k: nat)
    requires Inv(t) && !t.isLocked && d != 0 && d == t.pattern && k >= PATTERN_LOCK_LENGTH - t.hits
    ensures Repeat(t, d, k).isLocked && Repeat(t, d, k).lockedPattern == d
    decreases k
  {
    var t1 := Observe(t, t.last + d);
    if t1.isLocked {
      StaysLocked(t1, d, k - 1);
    } else {
      Approach(t1, d, k - 1);
    }
  }

  /** The detector's fields, updated in place at the head of GetFrame. */
  class Detector {
    var lockedPattern: int
    var patternHits: nat
    var patternMisses: nat
    var pattern: int
    var isLocked: bool
    var lastRequestedFrame: int

    ghost function Abs(): Stride
      reads this
    {
      Stride(lockedPattern, patternHits, patternMisses, pattern, isLocked, lastRequestedFrame)
    }

    constructor ()
      ensures Abs() == START && Inv(Abs())
    {
      lockedPattern, patternHits, patternMisses, pattern, isLocked, lastRequestedFrame := 1, 0, 0, 1, false, 0;
    }

    method Request(n: int)
      modifies this
      ensures Abs() == Observe(old(Abs()), n)
    {
      var d := n - lastRequestedFrame;
      lastRequestedFrame := n;
      if d == 0 {
        d := 1;
      }
      if isLocked {
        if lockedPattern == d {
          patternHits, patternMisses := 0, 0;
        } else if pattern == d {
          patternHits, patternMisses := patternHits + 1, patternMisses + 1;
        } else {
          patternHits, patternMisses := 0, patternMisses + 1;
        }
        pattern := d;
        if patternMisses >= PATTERN_LOCK_LENGTH && patternHits >= PATTERN_LOCK_LENGTH {
          lockedPattern, patternHits, patternMisses := pattern, 0, 0;
        } else if patternMisses >= PATTERN_LOCK_LENGTH && patternHits < PATTERN_LOCK_LENGTH {
          isLocked := false;
        }
      } else {
        if pattern == d {
          patternHits, patternMisses := patternHits + 1, 0;
        } else {
          patternHits, patternMisses := 0, patternMisses + 1;
        }
        if patternHits >= PATTERN_LOCK_LENGTH {
          lockedPattern, patternMisses, isLocked := d, 0, true;
        }
      }
    }
  }
}
