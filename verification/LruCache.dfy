/**
  The frame cache of LruCache.h on top of SimpleLruCache.h. Every region that
  holds the mutex is one total function on `Cache`; memory errors (a callback
  on an unset pointer, a ghost record lost while in use) raise `fault`.
 */
module LruCache {
  import opened KeyedList

  const GHOSTS_MIN_CAPACITY: nat := 50

  type Key = int
  type Frame = int
  type Ptr = nat

  datatype CacheMode = FastStart | OptimalSize | NoResize

  datatype EntryState = Empty | Available | RolledBack

  datatype Entry = Entry(key: Key, value: Option<Frame>, locks: int, ghosted: nat, state: EntryState)

  /** MinCapacity, MaxCapacity, RequestedCapacity and RealCapacity of one list. */
  datatype Limits = Limits(min: nat, max: Option<nat>, requested: nat, cap: nat)

  /**
    `main` holds entry pointers (None: slot reserved, pointer not stored yet),
    `ghosts` the ghost records. `handles` are the producer handles given out
    and not yet committed or rolled back, `waiting` the entries on which
    threads are blocked, `lost` every key evicted or refused storage so far.
   */
  datatype Cache = Cache(
    mode: CacheMode,
    main: seq<Item<Option<Ptr>>>,
    lim: Limits,
    ghosts: seq<Item<nat>>,
    ghostCapacity: nat,
    heap: map<Ptr, Entry>,
    handles: multiset<Ptr>,
    waiting: multiset<Ptr>,
    lost: multiset<Key>,
    fault: bool)

  datatype Outcome =
    | NotFound(p: Ptr)
    | Ready(value: Option<Frame>)
    | NotAvail
    | NoCache
    | Blocked(p: Ptr)
    | Done

  datatype Step =
    | Lookup(key: Key, block: bool, suppress: Option<bool>, newp: Ptr)
    | Wake(p: Ptr)
    | Write(p: Ptr, v: Frame)
    | Commit(p: Ptr)
    | Rollback(p: Ptr)
    | SetLimits(min: nat, max: nat)

  // ---------------------------------------------------------------- lists

  function Clamp(n: nat, lo: nat, hi: Option<nat>): nat {
    var m := if hi.Some? && n > hi.value then hi.value else n;
    if m < lo then lo else m
  }

  /** Ghosts.lookup: found or not, and the list with the record at its head. */
  function TouchGhost(ghosts: seq<Item<nat>>, capacity: nat, key: Key): (r: (bool, seq<Item<nat>>))
    ensures r.1 != [] && r.1[0].key == key
  {
    match Find(ghosts, key)
    case Some(i) => (true, ToFront(ghosts, i))
    case None => (false, [Item(key, 0)] + Cut(ghosts, capacity))
  }

  /** The evict callback on one position: veto, or move the key to the ghosts. */
  function Evict(s: Cache, pos: nat): Cache
    requires pos < |s.main|
  {
    var it := s.main[pos];
    if it.value.None? || it.value.value !in s.heap || s.ghostCapacity == 0 then s.(fault := true)
    else
      var p := it.value.value;
      if s.heap[p].locks > 0 then s
      else
        var (seen, gs) := TouchGhost(s.ghosts, s.ghostCapacity, it.key);
        var count := if seen then gs[0].value + 1 else s.heap[p].ghosted + 1;
        s.(main := Without(s.main, pos),
           ghosts := gs[0 := Item(it.key, count)],
           heap := s.heap - {p},
           lost := s.lost + multiset{it.key})
  }

  /** Offer positions pos-1 down to lo to the evict callback. */
  function TrimDown(s: Cache, pos: nat, lo: nat): (r: Cache)
    requires pos <= |s.main|
    ensures r.mode == s.mode && r.lim == s.lim && r.handles == s.handles && r.waiting == s.waiting
    decreases pos
  {
    if pos <= lo then s else TrimDown(Evict(s, pos - 1), pos - 1, lo)
  }

  function Trim(s: Cache): Cache {
    TrimDown(s, |s.main|, s.lim.cap)
  }

  function Resize(s: Cache, capacity: nat): Cache {
    Trim(s.(lim := s.lim.(requested := capacity, cap := Clamp(capacity, s.lim.min, s.lim.max))))
  }

  // --------------------------------------------------------------- lookup

  /** The found branch of lookup, up to the return or the first wait. */
  function Hit(s: Cache, i: nat, block: bool): (r: (Cache, Outcome))
    requires i < |s.main|
  {
    var s1 := s.(main := ToFront(s.main, i));
    if s.main[i].value.None? || s.main[i].value.value !in s.heap then (s1.(fault := true), Done)
    else
      var p := s.main[i].value.value;
      var e := s.heap[p];
      if !block && e.state != Available then (s1, NotAvail)
      else if e.state == Empty then
        (s1.(heap := s.heap[p := e.(locks := e.locks + 1)], waiting := s.waiting + multiset{p}), Blocked(p))
      else (s1, Ready(e.value))
  }

  /** A miss before the ghost list is consulted: trim, then reserve a slot. */
  function Reserve(s: Cache, key: Key): Cache {
    var s1 := Trim(s);
    if s1.lim.cap != 0 then s1.(main := [Item(key, None)] + s1.main) else s1
  }

  /** Growth while the slot is reserved: both lists are resized. */
  function Grow(s: Cache): Cache {
    var s1 := Resize(s, s.lim.cap + 1);
    var ghostCapacity := GHOSTS_MIN_CAPACITY + s1.lim.cap * 2;
    s1.(ghostCapacity := ghostCapacity, ghosts := Cut(s1.ghosts, ghostCapacity))
  }

  /** Ghost bookkeeping of a miss; the flag says that the miss asks for growth. */
  function Tune(s: Cache, key: Key): (Cache, bool) {
    var (seen, gs) := TouchGhost(s.ghosts, s.ghostCapacity, key);
    var grow := seen && gs[0].value > 1;
    var s1 := s.(ghosts := gs, fault := s.fault || s.ghostCapacity == 0);
    (if grow && s.mode != NoResize then Grow(s1) else s1, grow)
  }

  /** The end of a miss: store a new entry in the reserved slot, or refuse. */
  function Install(s: Cache, key: Key, reserved: bool, newp: Ptr): (Cache, Outcome) {
    match Find(s.ghosts, key)
    case None => (s.(fault := true), Done)
    case Some(g) =>
      if !reserved then
        (s.(ghosts := s.ghosts[g := Item(key, s.ghosts[g].value + 1)], lost := s.lost + multiset{key}), NoCache)
      else if s.main == [] || s.main[0] != Item(key, None) then (s.(fault := true), Done)
      else
        (s.(main := [Item(key, Some(newp))] + s.main[1..],
            heap := s.heap[newp := Entry(key, None, 1, s.ghosts[g].value, Empty)],
            handles := s.handles + multiset{newp}), NotFound(newp))
  }

  function Miss(s: Cache, key: Key, newp: Ptr): (Cache, Outcome) {
    var s1 := Reserve(s, key);
    var (s2, grow) := Tune(s1, key);
    Install(s2, key, s1.lim.cap != 0, newp)
  }

  function DoLookup(s: Cache, key: Key, block: bool, suppress: Option<bool>, newp: Ptr): (Cache, Outcome) {
    match Find(s.main, key)
    case Some(i) => Hit(s, i, block)
    case None => if suppress == Some(true) then (s, NoCache) else Miss(s, key, newp)
  }

  /** The value left in *suppressCaching: a growing miss silences the filters below. */
  function SuppressAfter(s: Cache, key: Key, suppress: Option<bool>): Option<bool> {
    if Find(s.main, key).None? && suppress.Some? && suppress != Some(true) && s.mode == OptimalSize && Tune(Reserve(s, key), key).1
    then Some(true) else suppress
  }

  /** One wake-up, genuine or spurious, of a thread blocked on p. */
  function DoWake(s: Cache, p: Ptr): (Cache, Outcome) {
    if p !in s.heap || p !in s.waiting then (s.(fault := true), Done)
    else
      var e := s.heap[p];
      match e.state
      case Empty => (s, Blocked(p))
      case Available =>
        (s.(heap := s.heap[p := e.(locks := e.locks - 1)], waiting := s.waiting - multiset{p}), Ready(e.value))
      case RolledBack =>
        (s.(heap := s.heap[p := e.(state := Empty)],
            waiting := s.waiting - multiset{p},
            handles := s.handles + multiset{p}), NotFound(p))
  }

  function DoWrite(s: Cache, p: Ptr, v: Frame): Cache {
    if p !in s.heap then s.(fault := true)
    else s.(heap := s.heap[p := s.heap[p].(value := Some(v))])
  }

  function DoCommit(s: Cache, p: Ptr): Cache {
    if p !in s.heap then s.(fault := true)
    else
      var e := s.heap[p];
      s.(heap := s.heap[p := e.(state := Available, locks := e.locks - 1)], handles := s.handles - multiset{p})
  }

  /** The sole lock removes the entry (it leaks, outside the list); otherwise a waiter must take over. */
  function DoRollback(s: Cache, p: Ptr): Cache {
    if p !in s.heap || s.heap[p].locks <= 0 then s.(fault := true)
    else
      var e := s.heap[p];
      var s1 := s.(handles := s.handles - multiset{p});
      if e.locks == 1 then
        match Find(s.main, e.key)
        case Some(i) => s1.(main := Without(s.main, i))
        case None => s1
      else s1.(heap := s.heap[p := e.(state := RolledBack, locks := e.locks - 1)])
  }

  function DoSetLimits(s: Cache, min: nat, max: nat): Cache {
    Resize(s.(lim := s.lim.(min := min, max := Some(max))), s.lim.requested)
  }

  // ----------------------------------------------------------------- runs

  function Init(capacity: nat, mode: CacheMode): Cache {
    Cache(mode, [], Limits(0, None, capacity, capacity), [], GHOSTS_MIN_CAPACITY, map[],
          multiset{}, multiset{}, multiset{}, false)
  }

  predicate Enabled(s: Cache, step: Step) {
    match step
    case Lookup(_, _, _, newp) => newp !in s.heap
    case Wake(p) => p in s.waiting
    case Write(p, _) => p in s.handles
    case Commit(p) => p in s.handles
    case Rollback(p) => p in s.handles
    case SetLimits(_, _) => true
  }

  function Next(s: Cache, step: Step): (Cache, Outcome) {
    match step
    case Lookup(key, block, suppress, newp) => DoLookup(s, key, block, suppress, newp)
    case Wake(p) => DoWake(s, p)
    case Write(p, v) => (DoWrite(s, p, v), Done)
    case Commit(p) => (DoCommit(s, p), Done)
    case Rollback(p) => (DoRollback(s, p), Done)
    case SetLimits(min, max) => (DoSetLimits(s, min, max), Done)
  }

  function Exec(s: Cache, steps: seq<Step>): Cache
    decreases |steps|
  {
    if |steps| == 0 then s else Exec(Next(s, steps[0]).0, steps[1..])
  }

  ghost predicate IsRun(s: Cache, steps: seq<Step>)
    decreases |steps|
  {
    |steps| == 0 || (Enabled(s, steps[0]) && IsRun(Next(s, steps[0]).0, steps[1..]))
  }
}
