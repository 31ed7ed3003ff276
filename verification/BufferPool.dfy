/**
  The pooled aligned allocator of BufferPool.cpp. Raw memory is a map from
  addresses to words; every block carries a five-word header below the pointer
  handed out, and later operations trust what they read there.
 */
module BufferPool {
  import opened Arithmetic
  import opened PowersOfTwo

  const WORD: nat := 8
  const HEADER: nat := 40
  const GUARD: int := 0x5555_5555

  // ------------------------------------------------------------------ layout

  function Max(a: nat, b: nat): nat {
    if a < b then b else a
  }

  /** The alignment really used. */
  function Effective(alignment: nat): nat {
    Max(alignment, WORD)
  }

  /** Bytes requested from malloc. */
  function RealSize(bytes: nat, alignment: nat): nat {
    bytes + HEADER + Effective(alignment) - 1
  }

  /** The pointer handed out: orig + offset with the low bits cleared. */
  function AlignedPtr(orig: nat, alignment: nat): nat {
    var top := orig + HEADER + Effective(alignment) - 1;
    top - top % Effective(alignment)
  }

  lemma AlignedPtrOk(orig: nat, bytes: nat, alignment: nat)
    requires IsPower2(Effective(alignment))
    ensures var p := AlignedPtr(orig, alignment);
      && p % Effective(alignment) == 0 && p % WORD == 0
      && orig + HEADER <= p < orig + HEADER + Effective(alignment) && p + bytes <= orig + RealSize(bytes, alignment)
  {
    var a := Effective(alignment);
    var top := orig + HEADER + a - 1;
    assert top - top % a == (top / a) * a;
    DivUnique(top / a, a, 0);
    assert IsPower2(4) && IsPower2(WORD);
    AlignedDown(AlignedPtr(orig, alignment), WORD, a);
  }

  // -------------------------------------------------------------- raw memory

  type Memory = map<nat, int>

  /** What a live block was made for: its malloc address and size, the bytes promised, the user word. */
  datatype Buf = Buf(orig: nat, size: nat, room: nat, user: nat)

  function WithHeader(mem: Memory, p: nat, b: Buf): Memory
    requires p >= HEADER
  {
    mem[p - 40 := GUARD][p - 32 := b.user][p - 24 := b.size][p - 16 := b.orig][p - 8 := GUARD]
  }

  ghost predicate HeaderOk(mem: Memory, p: nat, b: Buf) {
    && p >= HEADER && {p - 40, p - 32, p - 24, p - 16, p - 8} <= mem.Keys
    && mem[p - 40] == GUARD && mem[p - 32] == b.user && mem[p - 24] == b.size && mem[p - 16] == b.orig && mem[p - 8] == GUARD
  }

  /** Header and promised bytes lie inside the block. */
  predicate Inside(p: nat, b: Buf, limit: nat) {
    b.orig + HEADER <= p && p + b.room <= b.orig + b.size && p % WORD == 0 && b.orig + b.size <= limit
  }

  predicate Apart(b: Buf, c: Buf) {
    b.orig + b.size <= c.orig || c.orig + c.size <= b.orig
  }

  ghost predicate BlocksOk(live: map<nat, nat>, bufs: map<nat, Buf>, limit: nat) {
    && (forall p :: p in bufs ==> Inside(p, bufs[p], limit) && bufs[p].orig in live && live[bufs[p].orig] == bufs[p].size)
    && (forall p, q :: p in bufs && q in bufs && p != q ==> Apart(bufs[p], bufs[q]))
    && (forall o :: o in live ==> HasBlock(bufs, o))
  }

  ghost predicate HasBlock(bufs: map<nat, Buf>, o: nat) {
    exists p :: p in bufs && bufs[p].orig == o
  }

  ghost predicate HeadersOk(mem: Memory, bufs: map<nat, Buf>) {
    forall p :: p in bufs ==> HeaderOk(mem, p, bufs[p])
  }

  /** What malloc promises: a block of n bytes apart from all live ones. */
  ghost predicate MallocOk(live: map<nat, nat>, orig: nat, n: nat, limit: nat) {
    orig > 0 && orig + n <= limit && forall o :: o in live ==> o + live[o] <= orig || orig + n <= o
  }

  /** Pointers into blocks that are apart are at least a header apart. */
  lemma PtrsApart(p: nat, b: Buf, q: nat, c: Buf, limit: nat)
    requires Inside(p, b, limit) && Inside(q, c, limit) && Apart(b, c)
    ensures b.orig != c.orig
    ensures p + b.room <= q - HEADER || q + c.room <= p - HEADER
  {
  }

  lemma NewApart(live: map<nat, nat>, bufs: map<nat, Buf>, limit: nat, p: nat, b: Buf, q: nat)
    requires BlocksOk(live, bufs, limit) && Inside(p, b, limit) && MallocOk(live, b.orig, b.size, limit) && q in bufs
    ensures Apart(bufs[q], b) && Inside(q, bufs[q], limit)
    ensures p + b.room <= q - HEADER || q + bufs[q].room <= p - HEADER
    ensures bufs[q].orig != b.orig
  {
    PtrsApart(p, b, q, bufs[q], limit);
  }

  lemma StillHasBlock(bufs: map<nat, Buf>, p: nat, b: Buf, o: nat)
    requires p !in bufs && (HasBlock(bufs, o) || o == b.orig)
    ensures HasBlock(bufs[p := b], o)
  {
    var more := bufs[p := b];
    if o == b.orig {
      assert more[p].orig == o;
    } else {
      var q :| q in bufs && bufs[q].orig == o;
      assert more[q].orig == o;
    }
  }

  lemma NewBlock(live: map<nat, nat>, bufs: map<nat, Buf>, limit: nat, p: nat, b: Buf)
    requires BlocksOk(live, bufs, limit) && Inside(p, b, limit) && MallocOk(live, b.orig, b.size, limit)
    ensures p !in bufs && BlocksOk(live[b.orig := b.size], bufs[p := b], limit)
  {
    hide Inside, MallocOk, HasBlock, Apart;
    forall q | q in bufs ensures q != p && Apart(bufs[q], b) && Apart(b, bufs[q]) && bufs[q].orig != b.orig {
      NewApart(live, bufs, limit, p, b, q);
      ApartBoth(b, bufs[q]);
    }
    var all, more := live[b.orig := b.size], bufs[p := b];
    forall o | o in all ensures HasBlock(more, o) {
      StillHasBlock(bufs, p, b, o);
    }
  }

  lemma ApartBoth(b: Buf, c: Buf)
    ensures Apart(b, c) == Apart(c, b)
  {
  }

  lemma HeaderKept(mem: Memory, p: nat, b: Buf, q: nat, c: Buf)
    requires HeaderOk(mem, q, c) && p >= HEADER && (p <= q - HEADER || q <= p - HEADER)
    ensures HeaderOk(WithHeader(mem, p, b), q, c)
  {
  }

  lemma NewHeader(live: map<nat, nat>, mem: Memory, bufs: map<nat, Buf>, limit: nat, p: nat, b: Buf)
    requires BlocksOk(live, bufs, limit) && HeadersOk(mem, bufs)
    requires Inside(p, b, limit) && MallocOk(live, b.orig, b.size, limit)
    ensures HeadersOk(WithHeader(mem, p, b), bufs[p := b])
  {
    assert HeaderOk(WithHeader(mem, p, b), p, b);
    hide HeaderOk, WithHeader, BlocksOk, MallocOk;
    forall q | q in bufs && q != p ensures HeaderOk(WithHeader(mem, p, b), q, bufs[q]) {
      NewApart(live, bufs, limit, p, b, q);
      HeaderKept(mem, p, b, q, bufs[q]);
    }
  }

  lemma FreedBlock(live: map<nat, nat>, bufs: map<nat, Buf>, limit: nat, p: nat)
    requires BlocksOk(live, bufs, limit) && p in bufs
    ensures BlocksOk(live - {bufs[p].orig}, bufs - {p}, limit)
  {
    hide Inside;
    var fewer, o := bufs - {p}, bufs[p].orig;
    forall q | q in fewer ensures bufs[q].orig != o {
      PtrsApart(q, bufs[q], p, bufs[p], limit);
    }
    forall x | x in live - {o} ensures HasBlock(fewer, x) {
      assert HasBlock(bufs, x);
      var q :| q in bufs && bufs[q].orig == x;
      assert q in fewer;
    }
  }

  /** A caller stores into its own buffer: cells that reach outside [p, p + n) keep their words. */
  ghost predicate WritesInside(mem: Memory, mem': Memory, p: nat, n: nat) {
    forall a :: a in mem && (a + WORD <= p || p + n <= a) ==> a in mem' && mem'[a] == mem[a]
  }

  lemma HeaderSafe(mem: Memory, mem': Memory, p: nat, n: nat, q: nat, c: Buf)
    requires HeaderOk(mem, q, c) && WritesInside(mem, mem', p, n) && (q <= p || p + n <= q - HEADER)
    ensures HeaderOk(mem', q, c)
  {
  }

  /** No store through any buffer reaches any header. */
  lemma HeadersSafe(live: map<nat, nat>, mem: Memory, mem': Memory, bufs: map<nat, Buf>, limit: nat, p: nat, n: nat)
    requires BlocksOk(live, bufs, limit) && HeadersOk(mem, bufs) && p in bufs && n <= bufs[p].room
    requires WritesInside(mem, mem', p, n)
    ensures HeadersOk(mem', bufs)
  {
    hide HeaderOk, WritesInside, Inside, Apart;
    forall q | q in bufs ensures HeaderOk(mem', q, bufs[q]) {
      if q != p { PtrsApart(p, bufs[p], q, bufs[q], limit); }
      HeaderSafe(mem, mem', p, n, q, bufs[q]);
    }
  }

  // ----------------------------------------------------------- memory in use

  /** Sum of the block sizes of the buffers below address n. */
  function SumBelow(bufs: map<nat, Buf>, n: nat): nat {
    if n == 0 then 0 else SumBelow(bufs, n - 1) + (if n - 1 in bufs then bufs[n - 1].size else 0)
  }

  function Total(bufs: map<nat, Buf>, limit: nat): nat {
    SumBelow(bufs, limit + 1)
  }

  lemma {:induction false} SumAdd(bufs: map<nat, Buf>, n: nat, p: nat, b: Buf)
    requires p !in bufs
    ensures SumBelow(bufs[p := b], n) == SumBelow(bufs, n) + (if p < n then b.size else 0)
  {
    if n > 0 {
      SumAdd(bufs, n - 1, p, b);
    }
  }

  lemma SumRemove(bufs: map<nat, Buf>, n: nat, p: nat)
    requires p in bufs && p < n
    ensures SumBelow(bufs - {p}, n) == SumBelow(bufs, n) - bufs[p].size
  {
    SumAdd(bufs - {p}, n, p, bufs[p]);
    assert (bufs - {p})[p := bufs[p]] == bufs;
  }
}
