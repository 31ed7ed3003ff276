/**
  The sliding source buffer of ResampleAudio::GetAudio (audio.cpp): samples that
  the previous call fetched are moved to the front and reused. Samples are
  interleaved; `child` maps position * channels + channel to a value.
 */
module SourceWindow {
  import opened Arithmetic

  function Max(a: nat, b: nat): nat {
    if a < b then b else a
  }

  /** last_start, last_samples and the buffer's first last_samples samples. */
  datatype Window = Window(start: int, samples: nat, data: seq<int>)

  const EMPTY: Window := Window(0, 0, [])

  /** Sample counts are ints, and there is data for every sample. */
  predicate Fits(w: Window, ch: nat) {
    |w.data| == w.samples * ch && w.samples < INT_LIMIT
  }

  /** The child's samples [start, start + samples), fetched in one piece. */
  function Fetch(child: int -> int, ch: nat, start: int, samples: nat): Window {
    Window(start, samples, seq(samples * ch, k => child(start * ch + k)))
  }

  function Offset(w: Window, want: int): int {
    Int32(want - w.start)
  }

  function Overlap(w: Window, want: int): nat {
    var overlap := Int32(w.samples - Offset(w, want));
    if Offset(w, want) < 0 || overlap <= 0 then 0 else overlap
  }

  lemma OverlapIs(w: Window, want: int, ch: nat)
    requires Fits(w, ch) && Overlap(w, want) > 0
    ensures 0 <= Offset(w, want) && Overlap(w, want) == w.samples - Offset(w, want)
    ensures 0 <= Offset(w, want) * ch <= |w.data|
    ensures |w.data| - Offset(w, want) * ch == Overlap(w, want) * ch
  {
    Distribute(Offset(w, want), Overlap(w, want), ch);
  }

  /** What the move leaves at the front of the buffer. */
  function Kept(w: Window, ch: nat, want: int): (r: seq<int>)
    requires Fits(w, ch)
    ensures |r| == Overlap(w, want) * ch
  {
    if Overlap(w, want) == 0 then []
    else
      OverlapIs(w, want, ch);
      w.data[Offset(w, want) * ch..]
  }

  /** One call: keep the overlap, fetch the rest. */
  function Slide(child: int -> int, ch: nat, w: Window, want: int, need: nat): (r: Window)
    requires Fits(w, ch) && need < INT_LIMIT
    ensures r.start == want && need <= r.samples && Fits(r, ch)
  {
    var overlap := Overlap(w, want);
    var rest := if need > overlap then need - overlap else 0;
    Distribute(overlap, rest, ch);
    OverlapAtMost(w, want);
    Window(want, Max(overlap, need), Kept(w, ch, want) + Fetch(child, ch, want + overlap, rest).data)
  }

  lemma OverlapAtMost(w: Window, want: int)
    ensures Overlap(w, want) < INT_LIMIT
    ensures w.samples < INT_LIMIT ==> Overlap(w, want) <= w.samples
  {
  }

  /**
    What a jump that fits an int keeps: the part of the old window from the wanted
    start on, and nothing when it steps back or beyond.
   */
  lemma KeptIs(w: Window, want: int)
    requires w.samples < INT_LIMIT && -INT_LIMIT <= want - w.start < INT_LIMIT
    ensures Overlap(w, want) == if w.start <= want < w.start + w.samples then w.start + w.samples - want else 0
  {
  }

  /** The distance to the wanted start survives the cast, or the call reuses nothing. */
  predicate HonestJump(w: Window, want: int) {
    -INT_LIMIT <= want - w.start < INT_LIMIT || Overlap(w, want) == 0
  }

  /** A window that holds the child's samples still does after the call. */
  lemma SlideExact(child: int -> int, ch: nat, w: Window, want: int, need: nat)
    requires w == Fetch(child, ch, w.start, w.samples) && w.samples < INT_LIMIT && need < INT_LIMIT
    requires HonestJump(w, want)
    ensures var r := Slide(child, ch, w, want, need); r == Fetch(child, ch, want, r.samples)
  {
    var r, overlap := Slide(child, ch, w, want, need), Overlap(w, want);
    Distribute(want, overlap, ch);
    if overlap > 0 {
      OverlapIs(w, want, ch);
      Distribute(w.start, want - w.start, ch);
    }
    assert r.data == Fetch(child, ch, want, r.samples).data;
  }

  /**
    Exactly when reuse is right for every child: the jump fits an int, or there
    is no overlap. Otherwise a child whose samples all differ shows the error.
   */
  lemma ReuseExactIff(ch: nat, start: int, samples: nat, want: int, need: nat)
    requires ch > 0 && samples < INT_LIMIT && need < INT_LIMIT
    ensures HonestJump(Window(start, samples, []), want) <==>
      forall child: int -> int ::
        var w := Fetch(child, ch, start, samples);
        var r := Slide(child, ch, w, want, need); r == Fetch(child, ch, want, r.samples)
  {
    if HonestJump(Window(start, samples, []), want) {
      forall child: int -> int
        ensures var w := Fetch(child, ch, start, samples); var r := Slide(child, ch, w, want, need); r == Fetch(child, ch, want, r.samples)
      {
        SlideExact(child, ch, Fetch(child, ch, start, samples), want, need);
      }
    } else {
      FalseReuse(ch, start, samples, want, need);
    }
  }

  lemma FalseReuse(ch: nat, start: int, samples: nat, want: int, need: nat)
    requires ch > 0 && samples < INT_LIMIT && need < INT_LIMIT && !HonestJump(Window(start, samples, []), want)
    ensures var child := (k: int) => k;
      var w := Fetch(child, ch, start, samples);
      var r := Slide(child, ch, w, want, need); r != Fetch(child, ch, want, r.samples)
  {
    var child := (k: int) => k;
    var w := Fetch(child, ch, start, samples);
    var r := Slide(child, ch, w, want, need);
    OverlapIs(w, want, ch);
    assert r.data[0] == w.data[Offset(w, want) * ch] == start * ch + Offset(w, want) * ch;
    Distribute(start, Offset(w, want), ch);
    Differ(start + Offset(w, want), want, ch);
    assert Fetch(child, ch, want, r.samples).data[0] == want * ch;
  }

  // -------------------------------------------------------------- whole runs

  /** srcbuffer_size in bytes (None before the first allocation) and the window. */
  datatype Buffer = Unallocated | Buffer(bytes: nat, window: Window)

  datatype Request = Request(want: int, need: nat)

  /**
    One call of GetAudio, as the stretch of the source it resamples; positions
    have 15 fraction bits.
   */
  datatype Call = Call(from: int, to: int)

  /** What a call asks for: its stretch, and the filter's reach on either side. */
  function AskFor(xoff: nat, call: Call): (q: Request)
    requires call.from <= call.to
    ensures q.want == call.from / 0x8000 - xoff
    ensures q.want + q.need - 1 == call.from / 0x8000 + (call.to - call.from) / 0x8000 + xoff
  {
    Request(call.from / 0x8000 - xoff, (call.to - call.from) / 0x8000 + 2 * xoff + 1)
  }

  function Bytes(q: Request, ch: nat, width: nat): nat {
    q.need * ch * width
  }

  /** The size in samples and in bytes is an int. */
  predicate Small(q: Request, ch: nat, width: nat) {
    q.need < INT_LIMIT && Bytes(q, ch, width) < INT_LIMIT
  }

  /** The byte count is cast to an int before it is compared. */
  predicate Allocates(b: Buffer, ch: nat, width: nat, q: Request) {
    b.Unallocated? || Int32(Bytes(q, ch, width)) > b.bytes
  }

  /** Bytes in the buffer when the samples are stored. */
  function Room(b: Buffer, ch: nat, width: nat, q: Request): int {
    if Allocates(b, ch, width, q) then Int32(Bytes(q, ch, width)) else b.bytes
  }

  /** The buffer has room for the request if and only if its byte count is an int; otherwise the code writes past it. */
  lemma RoomIff(b: Buffer, ch: nat, width: nat, q: Request)
    requires b.Buffer? ==> b.bytes < INT_LIMIT
    ensures Bytes(q, ch, width) <= Room(b, ch, width, q) <==> Bytes(q, ch, width) < INT_LIMIT
  {
    hide Bytes;
  }

  /** Allocation forgets the samples. */
  function Before(b: Buffer, ch: nat, width: nat, q: Request): Window {
    if Allocates(b, ch, width, q) then EMPTY else b.window
  }

  function Serve(child: int -> int, ch: nat, width: nat, b: Buffer, q: Request): Buffer
    requires Fits(Before(b, ch, width, q), ch) && Small(q, ch, width)
  {
    Buffer(Room(b, ch, width, q),
           Slide(child, ch, Before(b, ch, width, q), q.want, q.need))
  }

  /** Every request is an int number of samples away from the last one, and of int size. */
  predicate Modest(requests: seq<Request>, ch: nat, width: nat) {
    && (forall i :: 0 <= i < |requests| ==> Small(requests[i], ch, width))
    && (forall i :: 0 < i < |requests| ==> -INT_LIMIT <= requests[i].want - requests[i - 1].want < INT_LIMIT)
  }

  function ServeAll(child: int -> int, ch: nat, width: nat, requests: seq<Request>): (b: Buffer)
    requires forall i :: 0 <= i < |requests| ==> Small(requests[i], ch, width)
    ensures b.Buffer? ==> Fits(b.window, ch) && b.bytes < INT_LIMIT
    ensures requests != [] ==> b.Buffer? && b.window.start == requests[|requests| - 1].want
  {
    if requests == [] then Unallocated
    else Serve(child, ch, width, ServeAll(child, ch, width, requests[..|requests| - 1]), requests[|requests| - 1])
  }

  /** A call allocates a new buffer exactly if none before it needed as many bytes; the buffer never shrinks. */
  lemma {:induction false} AllocatesIff(child: int -> int, ch: nat, width: nat, requests: seq<Request>, q: Request)
    requires (forall i :: 0 <= i < |requests| ==> Small(requests[i], ch, width)) && Small(q, ch, width)
    ensures Allocates(ServeAll(child, ch, width, requests), ch, width, q) <==>
      forall i :: 0 <= i < |requests| ==> requests[i].need * ch * width < q.need * ch * width
    decreases |requests|
  {
    hide Slide;
    if requests != [] {
      var n := |requests| - 1;
      AllocatesIff(child, ch, width, requests[..n], q);
      AllocatesIff(child, ch, width, requests[..n], requests[n]);
      assert forall i :: 0 <= i < |requests| ==> requests[i] == if i < n then requests[..n][i] else requests[n];
    }
  }

  /** After any sequence of calls whose jumps fit an int, the buffer holds what a full fetch would give. */
  lemma {:induction false} AlwaysExact(child: int -> int, ch: nat, width: nat, requests: seq<Request>)
    requires requests != [] && Modest(requests, ch, width)
    ensures var b, q := ServeAll(child, ch, width, requests), requests[|requests| - 1];
      && b.Buffer? && b.window.samples >= q.need
      && b.window == Fetch(child, ch, q.want, b.window.samples)
    decreases |requests|
  {
    var n := |requests| - 1;
    var b, q := ServeAll(child, ch, width, requests[..n]), requests[n];
    if n > 0 {
      assert -INT_LIMIT <= requests[n].want - requests[n - 1].want < INT_LIMIT;
      AlwaysExact(child, ch, width, requests[..n]);
    }
    assert EMPTY.data == Fetch(child, ch, 0, 0).data;
    SlideExact(child, ch, Before(b, ch, width, q), q.want, q.need);
  }

  lemma WindowReads(child: int -> int, ch: nat, w: Window, t: int, c: nat)
    requires w == Fetch(child, ch, w.start, w.samples) && w.start <= t < w.start + w.samples && c < ch
    ensures 0 <= (t - w.start) * ch + c < |w.data| && w.data[(t - w.start) * ch + c] == child(t * ch + c)
  {
    Distribute(t - w.start, w.start, ch);
    Distribute(t - w.start, w.start + w.samples - t, ch);
    var rest := w.start + w.samples - t;
    assert rest * ch == (rest - 1) * ch + ch;
    assert (rest - 1) * ch >= 0 && (t - w.start) * ch >= 0;
  }

  ghost predicate Forward(calls: seq<Call>) {
    forall i :: 0 <= i < |calls| ==> calls[i].from <= calls[i].to
  }

  function AskForAll(xoff: nat, calls: seq<Call>): seq<Request>
    requires Forward(calls)
  {
    seq(|calls|, i requires 0 <= i < |calls| => AskFor(xoff, calls[i]))
  }

  /**
    What the filter pass of a call finds, after any sequence of calls whose jumps
    and sizes fit an int: for every source sample from xoff before the first to
    xoff behind the last one of its stretch, and every channel, the child's value.
   */
  lemma PassReads(child: int -> int, ch: nat, width: nat, xoff: nat, calls: seq<Call>, t: int, c: nat)
    requires calls != [] && Forward(calls) && Modest(AskForAll(xoff, calls), ch, width) && c < ch
    requires var call := calls[|calls| - 1];
      call.from / 0x8000 - xoff <= t <= call.from / 0x8000 + (call.to - call.from) / 0x8000 + xoff
    ensures var b := ServeAll(child, ch, width, AskForAll(xoff, calls));
      var at := (t - (calls[|calls| - 1].from / 0x8000 - xoff)) * ch + c;
      b.Buffer? && 0 <= at < |b.window.data| && b.window.data[at] == child(t * ch + c)
  {
    var requests := AskForAll(xoff, calls);
    assert requests[|requests| - 1] == AskFor(xoff, calls[|calls| - 1]);
    AlwaysExact(child, ch, width, requests);
    WindowReads(child, ch, ServeAll(child, ch, width, requests).window, t, c);
  }

  /** Two calls of equal size, 2^32 + k samples apart. */
  function FarApart(start: int, need: nat, k: nat): seq<Request> {
    [Request(start, need), Request(start + 2 * INT_LIMIT + k, need)]
  }

  /**
    An int offset that wrapped, for every size of window (at least 87 samples in
    the code: Xoff is 43 or more): the second call takes the old samples for
    fresh ones, and the buffer then does not hold what a full fetch would give.
   */
  lemma FalseReuseHappens(ch: nat, width: nat, start: int, need: nat, k: nat)
    requires ch > 0 && Small(Request(start, need), ch, width) && k < need
    ensures var child, requests := (c: int) => c, FarApart(start, need, k);
      var b := ServeAll(child, ch, width, requests);
      b.Buffer? && b.window.start == requests[1].want && b.window != Fetch(child, ch, requests[1].want, b.window.samples)
  {
    var child, requests := (c: int) => c, FarApart(start, need, k);
    var b := ServeAll(child, ch, width, requests[..1]);
    AlwaysExact(child, ch, width, requests[..1]);
    FirstCall(child, ch, width, requests);
    hide Slide, Overlap, Fetch;
    Wrapped(start, need, k);
    FalseReuse(ch, start, need, requests[1].want, need);
  }

  /** The first call allocates exactly what it needs, so the second does not allocate. */
  lemma FirstCall(child: int -> int, ch: nat, width: nat, requests: seq<Request>)
    requires |requests| == 2 && requests[0].need == requests[1].need && Small(requests[0], ch, width)
    ensures var b := ServeAll(child, ch, width, requests[..1]);
      && b.Buffer? && b.window.samples == requests[0].need && b.window.start == requests[0].want
      && ServeAll(child, ch, width, requests) == Serve(child, ch, width, b, requests[1])
      && Before(b, ch, width, requests[1]) == b.window
  {
    assert requests[..1][..0] == [];
    assert Overlap(EMPTY, requests[0].want) == 0;
    assert ServeAll(child, ch, width, requests[..1]) == Serve(child, ch, width, Unallocated, requests[0]);
  }

  lemma Wrapped(start: int, samples: nat, k: nat)
    requires k < samples < INT_LIMIT
    ensures !HonestJump(Window(start, samples, []), start + 2 * INT_LIMIT + k)
  {
  }
}
