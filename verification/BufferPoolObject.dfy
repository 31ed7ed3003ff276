/**
  The pool as an object: buffers are handed out, reused and taken back, while
  callers may store anything into the buffers they hold.
 */
module BufferPoolObject {
  import opened KeyedList
  import opened PowersOfTwo
  import opened BufferPool

  datatype Desc = Desc(ptr: nat, size: nat, alignment: nat, inUse: bool)

  /** What a caller asked for. */
  datatype Request = Request(bytes: nat, alignment: nat)

  // --------------------------------------------------------------- invariant

  ghost predicate StoreOk(live: map<nat, nat>, mem: Memory, bufs: map<nat, Buf>, limit: nat, reported: int) {
    BlocksOk(live, bufs, limit) && HeadersOk(mem, bufs) && reported == Total(bufs, limit)
  }

  /** A pooled block: its header leads to its descriptor and back. */
  ghost predicate DescOk(bufs: map<nat, Buf>, id: nat, d: Desc) {
    && id > 0 && d.ptr in bufs && bufs[d.ptr].user == id && bufs[d.ptr].room == d.size
    && IsPower2(Effective(d.alignment)) && d.ptr % Effective(d.alignment) == 0
  }

  ghost predicate OwnerOk(bufs: map<nat, Buf>, descs: map<nat, Desc>, given: map<nat, Request>, p: nat)
    requires p in bufs
  {
    var id := bufs[p].user;
    if id == 0 then p in given else id in descs && descs[id].ptr == p && (descs[id].inUse <==> p in given)
  }

  predicate Serves(p: nat, b: Buf, q: Request) {
    q.bytes <= b.room && (IsPower2(q.alignment) ==> p % q.alignment == 0)
  }

  ghost predicate PoolOk(bufs: map<nat, Buf>, descs: map<nat, Desc>, given: map<nat, Request>) {
    && (forall id :: id in descs ==> DescOk(bufs, id, descs[id]))
    && (forall p :: p in bufs ==> OwnerOk(bufs, descs, given, p))
    && (forall p :: p in given ==> p in bufs && Serves(p, bufs[p], given[p]))
  }

  /** The multimap: every descriptor once, by increasing size. */
  ghost predicate OrderOk(descs: map<nat, Desc>, order: seq<nat>) {
    && (forall i :: 0 <= i < |order| ==> order[i] in descs)
    && (forall id :: id in descs ==> id in order)
    && (forall i, j :: 0 <= i < j < |order| ==> Before(descs, order[i], order[j]))
  }

  predicate Before(descs: map<nat, Desc>, a: nat, b: nat) {
    a != b && a in descs && b in descs && descs[a].size <= descs[b].size
  }

  /** The guarantees for one buffer in use: aligned, and with header and bytes inside its own live block. */
  lemma BufferSound(live: map<nat, nat>, mem: Memory, bufs: map<nat, Buf>, limit: nat, reported: int,
                    descs: map<nat, Desc>, given: map<nat, Request>, p: nat)
    requires StoreOk(live, mem, bufs, limit, reported) && PoolOk(bufs, descs, given) && p in given
    ensures p in bufs && bufs[p].orig in live && bufs[p].orig + HEADER <= p && p + given[p].bytes <= bufs[p].orig + live[bufs[p].orig]
    ensures IsPower2(given[p].alignment) ==> p % given[p].alignment == 0
    ensures HeaderOk(mem, p, bufs[p])
  {
    assert Inside(p, bufs[p], limit) && Serves(p, bufs[p], given[p]);
  }

  /** Two buffers in use are apart, headers included. */
  lemma BuffersApart(live: map<nat, nat>, mem: Memory, bufs: map<nat, Buf>, limit: nat, reported: int,
                     descs: map<nat, Desc>, given: map<nat, Request>, p: nat, q: nat)
    requires StoreOk(live, mem, bufs, limit, reported) && PoolOk(bufs, descs, given) && p in given && q in given && p != q
    ensures p + given[p].bytes <= q - HEADER || q + given[q].bytes <= p - HEADER
  {
    PtrsApart(p, bufs[p], q, bufs[q], limit);
  }

  // ------------------------------------------------------------ pool changes

  lemma ReuseOk(bufs: map<nat, Buf>, descs: map<nat, Desc>, given: map<nat, Request>, id: nat, q: Request)
    requires PoolOk(bufs, descs, given) && id in descs && !descs[id].inUse
    requires q.bytes <= descs[id].size && q.alignment <= descs[id].alignment
    ensures descs[id].ptr !in given
    ensures PoolOk(bufs, descs[id := descs[id].(inUse := true)], given[descs[id].ptr := q])
  {
    var d := descs[id];
    var descs', given' := descs[id := d.(inUse := true)], given[d.ptr := q];
    assert DescOk(bufs, id, d) && OwnerOk(bufs, descs, given, d.ptr);
    if IsPower2(q.alignment) {
      AlignedDown(d.ptr, q.alignment, Effective(d.alignment));
    }
    forall p | p in bufs ensures OwnerOk(bufs, descs', given', p) {
      assert OwnerOk(bufs, descs, given, p);
    }
  }

  lemma RequestAligned(p: nat, alignment: nat)
    requires IsPower2(Effective(alignment)) && p % Effective(alignment) == 0
    ensures IsPower2(alignment) ==> p % alignment == 0
  {
    if IsPower2(alignment) {
      AlignedDown(p, alignment, Effective(alignment));
    }
  }

  lemma UnpooledOk(bufs: map<nat, Buf>, descs: map<nat, Desc>, given: map<nat, Request>, p: nat, b: Buf, q: Request)
    requires PoolOk(bufs, descs, given) && p !in bufs && b.user == 0 && Serves(p, b, q)
    ensures PoolOk(bufs[p := b], descs, given[p := q])
  {
    hide Serves;
    var bufs', given' := bufs[p := b], given[p := q];
    forall x | x in bufs' ensures OwnerOk(bufs', descs, given', x) {
      if x != p { assert OwnerOk(bufs, descs, given, x); }
    }
    forall id | id in descs ensures DescOk(bufs', id, descs[id]) {
      assert DescOk(bufs, id, descs[id]);
    }
  }

  lemma PooledOk(bufs: map<nat, Buf>, descs: map<nat, Desc>, given: map<nat, Request>, p: nat, b: Buf, q: Request)
    requires PoolOk(bufs, descs, given) && p !in bufs && b.user > 0 && b.user !in descs && b.room == q.bytes && Serves(p, b, q)
    requires IsPower2(Effective(q.alignment)) && p % Effective(q.alignment) == 0
    ensures PoolOk(bufs[p := b], descs[b.user := Desc(p, q.bytes, q.alignment, true)], given[p := q])
  {
    hide Serves, IsPower2;
    var d := Desc(p, q.bytes, q.alignment, true);
    var bufs', descs', given' := bufs[p := b], descs[b.user := d], given[p := q];
    forall x | x in bufs' ensures OwnerOk(bufs', descs', given', x) {
      if x != p { assert OwnerOk(bufs, descs, given, x); }
    }
    forall id | id in descs' ensures DescOk(bufs', id, descs'[id]) {
      if id != b.user { assert DescOk(bufs, id, descs[id]); }
    }
  }

  lemma ReturnOk(bufs: map<nat, Buf>, descs: map<nat, Desc>, given: map<nat, Request>, p: nat)
    requires PoolOk(bufs, descs, given) && p in given && bufs[p].user > 0
    ensures var id := bufs[p].user;
      id in descs && descs[id].ptr == p && PoolOk(bufs, descs[id := descs[id].(inUse := false)], given - {p})
  {
    hide Serves;
    assert OwnerOk(bufs, descs, given, p);
    var id := bufs[p].user;
    var descs', given' := descs[id := descs[id].(inUse := false)], given - {p};
    assert DescOk(bufs, id, descs[id]);
    forall x | x in bufs ensures OwnerOk(bufs, descs', given', x) {
      assert OwnerOk(bufs, descs, given, x);
    }
  }

  lemma ReleaseOk(bufs: map<nat, Buf>, descs: map<nat, Desc>, given: map<nat, Request>, p: nat)
    requires PoolOk(bufs, descs, given) && p in bufs
    ensures PoolOk(bufs - {p}, descs - {bufs[p].user}, given - {p})
  {
    hide Serves;
    var id := bufs[p].user;
    var bufs', descs', given' := bufs - {p}, descs - {id}, given - {p};
    assert OwnerOk(bufs, descs, given, p);
    forall x | x in bufs' ensures OwnerOk(bufs', descs', given', x) {
      assert OwnerOk(bufs, descs, given, x);
    }
    forall k | k in descs' ensures DescOk(bufs', k, descs'[k]) {
      assert DescOk(bufs, k, descs[k]);
    }
  }

  function Inserted(order: seq<nat>, id: nat, at: nat): (r: seq<nat>)
    requires at <= |order|
    ensures |r| == |order| + 1 && r[at] == id
    ensures forall i :: 0 <= i < at ==> r[i] == order[i]
    ensures forall i :: at < i < |r| ==> r[i] == order[i - 1]
  {
    order[..at] + [id] + order[at..]
  }

  lemma InsertedBefore(descs: map<nat, Desc>, order: seq<nat>, id: nat, d: Desc, at: nat, i: nat, j: nat)
    requires OrderOk(descs, order) && id !in descs && at <= |order| && i < j <= |order|
    requires i < at ==> descs[order[i]].size <= d.size
    requires at < j ==> d.size < descs[order[j - 1]].size
    ensures Before(descs[id := d], Inserted(order, id, at)[i], Inserted(order, id, at)[j])
  {
    hide Inserted;
    var a, b := if i <= at then i else i - 1, if j <= at then j else j - 1;
    if i != at && j != at {
      assert Before(descs, order[a], order[b]);
    }
  }

  lemma InsertOk(descs: map<nat, Desc>, order: seq<nat>, id: nat, d: Desc, at: nat)
    requires OrderOk(descs, order) && id !in descs && at <= |order|
    requires forall i :: 0 <= i < at ==> descs[order[i]].size <= d.size
    requires forall i :: at <= i < |order| ==> d.size < descs[order[i]].size
    ensures OrderOk(descs[id := d], Inserted(order, id, at))
  {
    hide Inserted, Before;
    var order', descs' := Inserted(order, id, at), descs[id := d];
    forall i, j | 0 <= i < j < |order'| ensures Before(descs', order'[i], order'[j]) {
      InsertedBefore(descs, order, id, d, at, i, j);
    }
    forall k | k in descs ensures k in order' {
      var i :| 0 <= i < |order| && order[i] == k;
      assert order'[if i < at then i else i + 1] == k;
    }
  }

  lemma RelabelOrder(descs: map<nat, Desc>, order: seq<nat>, id: nat, d: Desc)
    requires OrderOk(descs, order) && id in descs && d.size == descs[id].size
    ensures OrderOk(descs[id := d], order)
  {
    forall i, j | 0 <= i < j < |order| ensures Before(descs[id := d], order[i], order[j]) {
      assert Before(descs, order[i], order[j]);
    }
  }

  predicate Free(d: Desc, q: Request) {
    !d.inUse && d.size >= q.bytes && d.alignment >= q.alignment
  }

  ghost predicate FreeFit(descs: map<nat, Desc>, q: Request) {
    exists id :: id in descs && Free(descs[id], q)
  }

  /** A pooled buffer that was taken back serves any request that is not larger. */
  lemma ReturnedFits(descs: map<nat, Desc>, id: nat, p: nat, made: Request, q: Request)
    requires id in descs && descs[id] == Desc(p, made.bytes, made.alignment, true)
    requires q.bytes <= made.bytes && q.alignment <= made.alignment
    ensures FreeFit(descs[id := descs[id].(inUse := false)], q)
  {
    assert Free(descs[id := descs[id].(inUse := false)][id], q);
  }

  /** p belongs to a free descriptor that fits q, and no smaller one does. */
  ghost predicate SmallestFree(descs: map<nat, Desc>, p: nat, q: Request) {
    exists id :: id in descs && descs[id].ptr == p && Free(descs[id], q)
      && forall k :: k in descs && Free(descs[k], q) ==> descs[id].size <= descs[k].size
  }

  // --------------------------------------------------------------- the object

  class Pool {
    const limit: nat
    var descs: map<nat, Desc>
    var order: seq<nat>
    var nextId: nat
    var mem: Memory
    var live: map<nat, nat>
    var reported: int
    ghost var bufs: map<nat, Buf>
    ghost var given: map<nat, Request>

    constructor (limit: nat)
      ensures Valid() && this.limit == limit && given == map[] && reported == 0 && live == map[]
    {
      this.limit := limit;
      descs, order, nextId, mem, live, reported := map[], [], 1, map[], map[], 0;
      bufs, given := map[], map[];
      new;
      SumNone(limit + 1);
    }

    ghost predicate Valid()
      reads this
    {
      && StoreOk(live, mem, bufs, limit, reported) && PoolOk(bufs, descs, given) && OrderOk(descs, order)
      && nextId > 0 && forall id :: id in descs ==> id < nextId
    }

    /** malloc, align, write the header; `orig` is what malloc answers. */
    method PrivateAlloc(bytes: nat, alignment: nat, user: nat, orig: Option<nat>) returns (r: Option<nat>)
      requires StoreOk(live, mem, bufs, limit, reported)
      requires orig.Some? ==> MallocOk(live, orig.value, RealSize(bytes, alignment), limit)
      modifies this`mem, this`live, this`reported, this`bufs
      ensures StoreOk(live, mem, bufs, limit, reported)
      ensures r.Some? <==> orig.Some? && IsPower2(Effective(alignment))
      ensures r.None? ==> bufs == old(bufs) && live == old(live) && mem == old(mem) && reported == old(reported)
      ensures r.Some? ==>
        && r.value !in old(bufs) && bufs == old(bufs)[r.value := Buf(orig.value, RealSize(bytes, alignment), bytes, user)]
        && r.value % Effective(alignment) == 0
        && reported == old(reported) + bytes + 5 * 8 + (if alignment < 8 then 8 else alignment) - 1
    {
      hide IsPower2, BlocksOk, HeadersOk, MallocOk;
      var a := Effective(alignment);
      if !IsPower2(a) || orig.None? {
        return None;
      }
      var total := RealSize(bytes, alignment);
      var p := AlignedPtr(orig.value, alignment);
      AlignedPtrOk(orig.value, bytes, alignment);
      var b := Buf(orig.value, total, bytes, user);
      assert Inside(p, b, limit) by { MallocFits(live, orig.value, total, limit); }
      NewBlock(live, bufs, limit, p, b);
      NewHeader(live, mem, bufs, limit, p, b);
      SumAdd(bufs, limit + 1, p, b);
      live := live[orig.value := total];
      mem := WithHeader(mem, p, b);
      reported := reported + total;
      bufs := bufs[p := b];
      return Some(p);
    }

    /** What the header says is true: the size reported before is taken back and the right block is freed. */
    method PrivateFree(p: nat)
      requires StoreOk(live, mem, bufs, limit, reported) && p in bufs
      modifies this`live, this`reported, this`bufs
      ensures StoreOk(live, mem, bufs, limit, reported)
      ensures bufs == old(bufs) - {p} && live == old(live) - {old(bufs)[p].orig}
      ensures reported == old(reported) - old(bufs)[p].size
    {
      hide BlocksOk;
      HeaderThere(live, mem, bufs, limit, p);
      FreedBlock(live, bufs, limit, p);
      SumRemove(bufs, limit + 1, p);
      reported := reported - mem[p - 24];
      var orig := mem[p - 16];
      live := live - {orig};
      bufs := bufs - {p};
    }

    /** The search through the multimap from lower_bound(bytes). */
    method FindFree(q: Request) returns (r: Option<nat>)
      requires OrderOk(descs, order)
      ensures r.Some? ==> r.value in descs && Free(descs[r.value], q)
      ensures r.Some? ==> forall id :: id in descs && Free(descs[id], q) ==> descs[r.value].size <= descs[id].size
      ensures r.None? ==> forall id :: id in descs ==> !Free(descs[id], q)
    {
      for i := 0 to |order|
        invariant forall j :: 0 <= j < i ==> !Free(descs[order[j]], q)
      {
        if Free(descs[order[i]], q) {
          forall id | id in descs && Free(descs[id], q) ensures descs[order[i]].size <= descs[id].size {
            var j :| 0 <= j < |order| && order[j] == id;
            assert i < j ==> Before(descs, order[i], order[j]);
          }
          return Some(order[i]);
        }
      }
      forall id | id in descs ensures !Free(descs[id], q) {
        var j :| 0 <= j < |order| && order[j] == id;
      }
      return None;
    }

    method UpperBound(bytes: nat) returns (at: nat)
      requires OrderOk(descs, order)
      ensures at <= |order|
      ensures forall i :: 0 <= i < at ==> descs[order[i]].size <= bytes
      ensures forall i :: at <= i < |order| ==> bytes < descs[order[i]].size
    {
      at := 0;
      while at < |order| && descs[order[at]].size <= bytes
        invariant at <= |order| && forall i :: 0 <= i < at ==> descs[order[i]].size <= bytes
      {
        at := at + 1;
      }
      assert forall i :: at < i < |order| ==> Before(descs, order[at], order[i]);
    }

    /**
      A buffer that nobody else holds: aligned and large enough. A free pooled
      block that fits is reused, the smallest first, before malloc is asked.
     */
    method Allocate(bytes: nat, alignment: nat, pool: bool, orig: Option<nat>) returns (r: Option<nat>)
      requires Valid()
      requires orig.Some? ==> MallocOk(live, orig.value, RealSize(bytes, alignment), limit)
      modifies this
      ensures Valid()
      ensures r.None? <==> (orig.None? || !IsPower2(Effective(alignment))) && !(pool && FreeFit(old(descs), Request(bytes, alignment)))
      ensures r.None? ==> given == old(given) && live == old(live)
      ensures r.Some? ==> r.value !in old(given) && given == old(given)[r.value := Request(bytes, alignment)]
      ensures pool && FreeFit(old(descs), Request(bytes, alignment)) ==>
        && r.Some? && live == old(live) && reported == old(reported) && SmallestFree(old(descs), r.value, Request(bytes, alignment))
        && exists id :: id in old(descs) && old(descs)[id].ptr == r.value && descs == old(descs)[id := old(descs)[id].(inUse := true)]
      ensures r.Some? && !(pool && FreeFit(old(descs), Request(bytes, alignment))) ==>
        && r.value in bufs && (bufs[r.value].user > 0 <==> pool)
        && descs == (if pool then old(descs)[bufs[r.value].user := Desc(r.value, bytes, alignment, true)] else old(descs))
        && reported == old(reported) + bytes + 5 * 8 + (if alignment < 8 then 8 else alignment) - 1
    {
      hide StoreOk, PoolOk, OrderOk;
      var q := Request(bytes, alignment);
      if pool {
        var found := FindFree(q);
        if found.Some? {
          var d := descs[found.value];
          ReuseOk(bufs, descs, given, found.value, q);
          RelabelOrder(descs, order, found.value, d.(inUse := true));
          descs := descs[found.value := d.(inUse := true)];
          given := given[d.ptr := q];
          return Some(d.ptr);
        }
        r := AllocatePooled(q, orig);
      } else {
        r := AllocateUnpooled(q, orig);
      }
    }

    method AllocatePooled(q: Request, orig: Option<nat>) returns (r: Option<nat>)
      requires Valid()
      requires orig.Some? ==> MallocOk(live, orig.value, RealSize(q.bytes, q.alignment), limit)
      modifies this
      ensures Valid()
      ensures r.None? <==> orig.None? || !IsPower2(Effective(q.alignment))
      ensures r.None? ==> given == old(given) && live == old(live)
      ensures r.Some? ==> r.value !in old(given) && given == old(given)[r.value := q]
      ensures r.Some? ==> r.value in bufs && bufs[r.value].user > 0 && descs == old(descs)[bufs[r.value].user := Desc(r.value, q.bytes, q.alignment, true)]
      ensures r.Some? ==> reported == old(reported) + q.bytes + 5 * 8 + (if q.alignment < 8 then 8 else q.alignment) - 1
    {
      hide StoreOk, OrderOk, IsPower2;
      var id := nextId;
      r := PrivateAlloc(q.bytes, q.alignment, id, orig);
      if r.Some? {
        RequestAligned(r.value, q.alignment);
        PooledOk(old(bufs), descs, given, r.value, bufs[r.value], q);
        var at := UpperBound(q.bytes);
        var d := Desc(r.value, q.bytes, q.alignment, true);
        InsertOk(descs, order, id, d, at);
        hide PoolOk;
        descs := descs[id := d];
        order := Inserted(order, id, at);
        given := given[r.value := q];
        nextId := nextId + 1;
      }
    }

    method AllocateUnpooled(q: Request, orig: Option<nat>) returns (r: Option<nat>)
      requires Valid()
      requires orig.Some? ==> MallocOk(live, orig.value, RealSize(q.bytes, q.alignment), limit)
      modifies this
      ensures Valid()
      ensures r.None? <==> orig.None? || !IsPower2(Effective(q.alignment))
      ensures r.None? ==> given == old(given) && live == old(live)
      ensures r.Some? ==> r.value !in old(given) && given == old(given)[r.value := q]
      ensures r.Some? ==> r.value in bufs && bufs[r.value].user == 0 && descs == old(descs)
      ensures r.Some? ==> reported == old(reported) + q.bytes + 5 * 8 + (if q.alignment < 8 then 8 else q.alignment) - 1
    {
      hide StoreOk, OrderOk, IsPower2;
      r := PrivateAlloc(q.bytes, q.alignment, 0, orig);
      if r.Some? {
        RequestAligned(r.value, q.alignment);
        UnpooledOk(old(bufs), descs, given, r.value, bufs[r.value], q);
        hide PoolOk;
        given := given[r.value := q];
      }
    }

    /** Takes a buffer back: a pooled block stays for reuse, any other is freed. */
    method Release(p: Option<nat>)
      requires Valid() && (p.Some? ==> p.value in given)
      modifies this
      ensures Valid()
      ensures given == if p.Some? then old(given) - {p.value} else old(given)
      ensures p.Some? && p.value in old(bufs) && old(bufs)[p.value].user == 0 ==>
        live == old(live) - {old(bufs)[p.value].orig} && reported == old(reported) - old(bufs)[p.value].size
      ensures p.None? || (p.value in old(bufs) && old(bufs)[p.value].user > 0) ==> live == old(live) && reported == old(reported)
      ensures p.None? || (p.value in old(bufs) && old(bufs)[p.value].user == 0) ==> descs == old(descs)
      ensures p.Some? && p.value in old(bufs) && old(bufs)[p.value].user > 0 ==>
        var id := old(bufs)[p.value].user; id in old(descs) && descs == old(descs)[id := old(descs)[id].(inUse := false)]
    {
      hide StoreOk, PoolOk, OrderOk;
      if p.None? {
        return;
      }
      GivenThere(bufs, descs, given, p.value);
      StoredHeader(live, mem, bufs, limit, reported, p.value);
      var data := mem[p.value - 32];
      if data != 0 {
        ReturnOk(bufs, descs, given, p.value);
        RelabelOrder(descs, order, data, descs[data].(inUse := false));
        descs := descs[data := descs[data].(inUse := false)];
      } else {
        ReleaseOk(bufs, descs, given, p.value);
        NoZero(bufs, descs, given);
        assert descs - {0} == descs;
        PrivateFree(p.value);
      }
      given := given - {p.value};
    }

    /** A caller stores into a buffer it holds. */
    method Write(p: nat, mem': Memory)
      requires Valid() && p in given && WritesInside(mem, mem', p, given[p].bytes)
      modifies this`mem
      ensures Valid() && mem == mem'
    {
      HeadersSafe(live, mem, mem', bufs, limit, p, given[p].bytes);
      mem := mem';
    }

    /** The destructor frees every pooled block; only unpooled buffers stay. */
    method Destroy()
      requires Valid()
      modifies this
      ensures StoreOk(live, mem, bufs, limit, reported) && order == [] && descs == map[]
      ensures forall p :: p in bufs <==> p in old(bufs) && old(bufs)[p].user == 0
    {
      hide StoreOk, PoolOk, OrderOk;
      while order != []
        invariant StoreOk(live, mem, bufs, limit, reported) && PoolOk(bufs, descs, given) && OrderOk(descs, order)
        invariant forall p :: p in bufs ==> p in old(bufs) && bufs[p] == old(bufs)[p]
        invariant forall p :: p in old(bufs) && old(bufs)[p].user == 0 ==> p in bufs
        decreases |order|
      {
        FirstDesc(bufs, descs, given, order);
        var id := order[0];
        var p := descs[id].ptr;
        ReleaseOk(bufs, descs, given, p);
        DropFirst(descs, order);
        PrivateFree(p);
        order, descs, given := order[1..], descs - {id}, given - {p};
      }
      NonePooled(bufs, descs, given);
    }
  }

  lemma FirstDesc(bufs: map<nat, Buf>, descs: map<nat, Desc>, given: map<nat, Request>, order: seq<nat>)
    requires PoolOk(bufs, descs, given) && OrderOk(descs, order) && order != []
    ensures order[0] in descs && descs[order[0]].ptr in bufs && bufs[descs[order[0]].ptr].user == order[0] > 0
  {
    assert DescOk(bufs, order[0], descs[order[0]]);
  }

  lemma NonePooled(bufs: map<nat, Buf>, descs: map<nat, Desc>, given: map<nat, Request>)
    requires PoolOk(bufs, descs, given) && OrderOk(descs, [])
    ensures descs == map[] && forall p :: p in bufs ==> bufs[p].user == 0
  {
    assert forall p :: p in bufs ==> OwnerOk(bufs, descs, given, p);
  }

  lemma GivenThere(bufs: map<nat, Buf>, descs: map<nat, Desc>, given: map<nat, Request>, p: nat)
    requires PoolOk(bufs, descs, given) && p in given
    ensures p in bufs
  {
  }

  lemma StoredHeader(live: map<nat, nat>, mem: Memory, bufs: map<nat, Buf>, limit: nat, reported: int, p: nat)
    requires StoreOk(live, mem, bufs, limit, reported) && p in bufs
    ensures HeaderOk(mem, p, bufs[p])
  {
  }

  lemma {:induction false} SumNone(n: nat)
    ensures SumBelow(map[], n) == 0
  {
    if n > 0 {
      SumNone(n - 1);
    }
  }

  lemma MallocFits(live: map<nat, nat>, orig: nat, n: nat, limit: nat)
    requires MallocOk(live, orig, n, limit)
    ensures orig + n <= limit
  {
  }

  lemma HeaderThere(live: map<nat, nat>, mem: Memory, bufs: map<nat, Buf>, limit: nat, p: nat)
    requires BlocksOk(live, bufs, limit) && HeadersOk(mem, bufs) && p in bufs
    ensures HeaderOk(mem, p, bufs[p]) && HEADER <= p < limit + 1
  {
    assert Inside(p, bufs[p], limit) && HeaderOk(mem, p, bufs[p]);
  }

  lemma NoZero(bufs: map<nat, Buf>, descs: map<nat, Desc>, given: map<nat, Request>)
    requires PoolOk(bufs, descs, given)
    ensures 0 !in descs
  {
    forall id | id in descs ensures id > 0 { assert DescOk(bufs, id, descs[id]); }
  }

  lemma DropFirst(descs: map<nat, Desc>, order: seq<nat>)
    requires OrderOk(descs, order) && order != []
    ensures OrderOk(descs - {order[0]}, order[1..])
  {
    var rest := order[1..];
    forall i, j | 0 <= i < j < |rest| ensures Before(descs - {order[0]}, rest[i], rest[j]) {
      assert Before(descs, order[i + 1], order[j + 1]) && Before(descs, order[0], order[i + 1]) && Before(descs, order[0], order[j + 1]);
    }
    forall id | id in descs && id != order[0] ensures id in rest {
      var i :| 0 <= i < |order| && order[i] == id;
      assert rest[i - 1] == id;
    }
  }
}
