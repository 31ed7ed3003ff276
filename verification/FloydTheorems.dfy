/**
  Floyd-Steinberg diffusion over whole images: exact conservation, bounds that
  depend on the bit difference alone, and the one width for which they fail.
 */
module FloydTheorems {
  import opened Arithmetic
  import opened FloydSteinberg

  // -------------------------------------------------------- conservation

  function Total(s: seq<int>): int {
    if s == [] then 0 else s[0] + Total(s[1..])
  }

  lemma {:induction false} TotalUpdate(s: seq<int>, i: nat, v: int)
    requires i < |s|
    ensures Total(s[i := v]) == Total(s) - s[i] + v
    decreases |s|
  {
    if i > 0 {
      TotalUpdate(s[1..], i - 1, v);
      assert s[i := v][1..] == s[1..][i - 1 := v];
    } else {
      assert s[0 := v][1..] == s[1..];
    }
  }

  lemma HalfIs(m: Mode)
    requires m.diff >= 1
    ensures Half(m) == Pow2(m.diff - 1) && 2 * Half(m) == Pow2(m.diff)
  {
  }

  /** Error held by the buffer and the carried error together. */
  function Held(st: Diffusion): int {
    Total(st.buf) + st.next
  }

  lemma DiffuseTotal(buf: seq<int>, x: nat, dir: int, err: int)
    requires 1 <= x < |buf| - 1 && (dir == 1 || dir == -1)
    ensures Total(Diffuse(buf, x, dir, err)) == Total(buf) + E3(err) + E5(err) - buf[x + dir]
  {
    hide E3, E5, Total;
    ThreeUpdates(buf, x, dir, E3(err), E5(err));
  }

  lemma ThreeUpdates(buf: seq<int>, x: nat, dir: int, a: int, b: int)
    requires 1 <= x < |buf| - 1 && (dir == 1 || dir == -1)
    ensures Total(buf[x - dir := buf[x - dir] + a][x := buf[x] + b][x + dir := 0]) == Total(buf) + a + b - buf[x + dir]
  {
    hide Total;
    var b1 := buf[x - dir := buf[x - dir] + a];
    var b2 := b1[x := buf[x] + b];
    assert b1[x] == buf[x] && b2[x + dir] == buf[x + dir];
    TotalUpdate(buf, x - dir, buf[x - dir] + a);
    TotalUpdate(b1, x, buf[x] + b);
    TotalUpdate(b2, x + dir, 0);
  }

  /** One pixel: what is not quantized is held, nothing is lost. */
  lemma PixelConserves(m: Mode, st: Diffusion, x: nat, dir: int, src: int)
    requires m.diff >= 1 && 1 <= x < |st.buf| - 1 && (dir == 1 || dir == -1)
    ensures var r := Pixel(m, st, x, dir, src);
      src + Held(st) - (if m.low then Half(m) else 0)
      == Quantize(m, st.next, src) * (2 * Half(m)) + Held(r)
  {
    hide Quantize, E3, E5, Diffuse, Half;
    DiffuseTotal(st.buf, x, dir, Error(m, st.next, src));
  }

  /** Sum of the source pixels visited before pixel k of row y. */
  function Visited(rows: seq<seq<int>>, width: nat, y: nat, k: nat): int
    requires Image(rows, width) && k <= width && (y < |rows| || (y == |rows| && k == 0))
    decreases y, k
  {
    if k > 0 then Visited(rows, width, y, k - 1) + rows[y][Column(y, k - 1, width)]
    else if y > 0 then Visited(rows, width, y - 1, width)
    else 0
  }

  /** How many pixels that is. */
  function Seen(width: nat, y: nat, k: nat): nat
    decreases y
  {
    if y == 0 then k else Seen(width, y - 1, width) + k
  }

  lemma {:induction false} SeenIs(width: nat, y: nat, k: nat)
    ensures Seen(width, y, k) == y * width + k
    decreases y
  {
    if y > 0 {
      SeenIs(width, y - 1, width);
      Distribute(y - 1, 1, width);
    }
  }

  lemma {:induction false} ZeroTotal(n: nat)
    ensures Total(seq(n, _ => 0)) == 0
    decreases n
  {
    if n > 0 {
      ZeroTotal(n - 1);
      assert seq(n, _ => 0)[1..] == seq(n - 1, _ => 0);
    }
  }

  /** Source sum of `count` visited pixels, accounted for by state st. */
  ghost predicate Conserved(m: Mode, visited: int, st: Diffusion, count: int)
    requires m.diff >= 1
  {
    visited == st.quantTotal * Pow2(m.diff) + Held(st) + (if m.low then count * Pow2(m.diff - 1) else 0)
  }

  lemma ConservedStep(m: Mode, visited: int, st: Diffusion, count: int, x: nat, dir: int, src: int)
    requires m.diff >= 1 && 1 <= x < |st.buf| - 1 && (dir == 1 || dir == -1)
    requires Conserved(m, visited, st, count)
    ensures Conserved(m, visited + src, Pixel(m, st, x, dir, src), count + 1)
  {
    hide Half, Quantize, Error, Diffuse, E7, Held, Pow2;
    HalfIs(m);
    PixelConserves(m, st, x, dir, src);
    Distribute(st.quantTotal, Quantize(m, st.next, src), 2 * Half(m));
    Distribute(count, 1, Half(m));
  }

  /**
    Conservation over any prefix of the serpentine walk: source so far equals
    2^D times the unclamped quantized values plus the error still held, with
    2^(D-1) more per pixel in low-dither mode.
   */
  lemma {:induction false} Conserves(m: Mode, rows: seq<seq<int>>, width: nat, y: nat, k: nat)
    requires m.diff >= 1 && Image(rows, width) && k <= width && (y < |rows| || (y == |rows| && k == 0))
    ensures Conserved(m, Visited(rows, width, y, k), StateAt(m, rows, width, y, k), Seen(width, y, k))
    decreases y, k
  {
    hide Conserved, StateAt, Pixel, Error, Quantize, Diffuse, E7, Half, Visited, Seen;
    WalkStep(rows, width, y, k);
    if k > 0 {
      Conserves(m, rows, width, y, k - 1);
      var x := Column(y, k - 1, width);
      StateNext(m, rows, width, y, k - 1);
      ConservedStep(m, Visited(rows, width, y, k - 1), StateAt(m, rows, width, y, k - 1), Seen(width, y, k - 1), x + 1, Dir(y), rows[y][x]);
    } else if y > 0 {
      Turn(m, rows, width, y);
      Conserves(m, rows, width, y - 1, width);
    } else {
      StartsEmpty(m, rows, width);
    }
  }

  lemma StateNext(m: Mode, rows: seq<seq<int>>, width: nat, y: nat, k: nat)
    requires m.diff >= 1 && Image(rows, width) && k < width && y < |rows|
    ensures var x := Column(y, k, width);
      StateAt(m, rows, width, y, k + 1) == Pixel(m, StateAt(m, rows, width, y, k), x + 1, Dir(y), rows[y][x])
  {
    hide Pixel;
  }

  /** How the sum and the number of visited pixels move. */
  lemma WalkStep(rows: seq<seq<int>>, width: nat, y: nat, k: nat)
    requires Image(rows, width) && k <= width && (y < |rows| || (y == |rows| && k == 0))
    ensures k > 0 ==>
      && Visited(rows, width, y, k) == Visited(rows, width, y, k - 1) + rows[y][Column(y, k - 1, width)]
      && Seen(width, y, k) == Seen(width, y, k - 1) + 1
    ensures k == 0 && y > 0 ==>
      Visited(rows, width, y, 0) == Visited(rows, width, y - 1, width) && Seen(width, y, 0) == Seen(width, y - 1, width)
    ensures k == 0 && y == 0 ==> Visited(rows, width, 0, 0) == 0 && Seen(width, 0, 0) == 0
  {
  }

  lemma StartsEmpty(m: Mode, rows: seq<seq<int>>, width: nat)
    requires m.diff >= 1 && Image(rows, width)
    ensures Conserved(m, 0, StateAt(m, rows, width, 0, 0), 0)
  {
    ZeroTotal(width + 2);
  }

  /** The serpentine walk visits every pixel exactly once. */
  lemma {:induction false} VisitsAll(rows: seq<seq<int>>, width: nat, y: nat)
    requires Image(rows, width) && y < |rows|
    ensures Visited(rows, width, y, width) == Visited(rows, width, y, 0) + Total(rows[y])
  {
    if y % 2 == 0 {
      ForwardSum(rows, width, y, width);
      assert rows[y][..width] == rows[y];
    } else {
      BackwardSum(rows, width, y, width);
      assert rows[y][0..] == rows[y];
    }
  }

  lemma {:induction false} TotalAppend(s: seq<int>, v: int)
    ensures Total(s + [v]) == Total(s) + v
    decreases |s|
  {
    if s == [] {
      assert s + [v] == [v];
    } else {
      TotalAppend(s[1..], v);
      assert (s + [v])[1..] == s[1..] + [v];
    }
  }

  lemma {:induction false} ForwardSum(rows: seq<seq<int>>, width: nat, y: nat, k: nat)
    requires Image(rows, width) && y < |rows| && k <= width && y % 2 == 0
    ensures Visited(rows, width, y, k) == Visited(rows, width, y, 0) + Total(rows[y][..k])
    decreases k
  {
    if k > 0 {
      ForwardSum(rows, width, y, k - 1);
      TotalAppend(rows[y][..k - 1], rows[y][k - 1]);
      assert rows[y][..k] == rows[y][..k - 1] + [rows[y][k - 1]];
    }
  }

  lemma {:induction false} BackwardSum(rows: seq<seq<int>>, width: nat, y: nat, k: nat)
    requires Image(rows, width) && y < |rows| && k <= width && y % 2 == 1
    ensures Visited(rows, width, y, k) == Visited(rows, width, y, 0) + Total(rows[y][width - k..])
    decreases k
  {
    if k > 0 {
      BackwardSum(rows, width, y, k - 1);
      assert rows[y][width - k..][1..] == rows[y][width - (k - 1)..];
    }
  }

  function ImageTotal(rows: seq<seq<int>>): int {
    if rows == [] then 0 else ImageTotal(rows[..|rows| - 1]) + Total(rows[|rows| - 1])
  }

  /**
    The walk goes on without a jump: rightwards first, each pixel next to the one
    before in the direction of its row, and each row begins under the end of the last.
   */
  lemma Serpentine(y: nat, k: nat, width: nat)
    requires k < width
    ensures Column(0, k, width) == k
    ensures k + 1 < width ==> Column(y, k + 1, width) == Column(y, k, width) + Dir(y)
    ensures Column(y + 1, 0, width) == Column(y, width - 1, width) && Dir(y + 1) == -Dir(y)
  {
  }

  lemma {:induction false} VisitedIsTotal(rows: seq<seq<int>>, width: nat, y: nat)
    requires Image(rows, width) && y <= |rows|
    ensures Visited(rows, width, y, 0) == ImageTotal(rows[..y])
    decreases y
  {
    if y > 0 {
      VisitedIsTotal(rows, width, y - 1);
      VisitsAll(rows, width, y - 1);
      assert rows[..y][..y - 1] == rows[..y - 1];
    }
  }

  // ----------------------------------------------------------- stability

  lemma ErrorWithin(m: Mode, next: int, src: int)
    requires m.diff >= 1
    ensures -Half(m) <= Error(m, next, src) < Half(m)
  {
    var h := Half(m);
    var n := Sum(m, next, src) + h;
    assert n == (n / (2 * h)) * (2 * h) + n % (2 * h);
  }

  /** The error is what the quantized value, in units of 2^D, leaves of pixel and carried error; it is in [-2^(D-1), 2^(D-1)). */
  lemma ErrorRange(m: Mode, next: int, src: int)
    requires m.diff >= 1
    ensures Error(m, next, src) == src + next - (if m.low then Pow2(m.diff - 1) else 0) - Quantize(m, next, src) * Pow2(m.diff)
    ensures 0 - Pow2(m.diff - 1) <= Error(m, next, src) < Pow2(m.diff - 1)
  {
    hide Quantize;
    HalfIs(m);
    ErrorWithin(m, next, src);
  }

  /**
    Where the error of a pixel goes: 4/16, to the nearest, into the cell behind
    it, 5/16 into its own, and the rest, with what the cell ahead holds, to the
    next pixel; the cell ahead is emptied and no other one changes.
   */
  lemma Spreads(m: Mode, rows: seq<seq<int>>, width: nat, y: nat, k: nat)
    requires m.diff >= 1 && Image(rows, width) && k < width && y < |rows|
    ensures var st, r := StateAt(m, rows, width, y, k), StateAt(m, rows, width, y, k + 1);
      var x, dir := if y % 2 == 0 then k else width - 1 - k, if y % 2 == 0 then 1 else -1;
      var err := Error(m, st.next, rows[y][x]);
      var behind, own := r.buf[x + 1 - dir] - st.buf[x + 1 - dir], r.buf[x + 1] - st.buf[x + 1];
      && 4 * err - 8 < 16 * behind <= 4 * err + 8
      && 5 * err - 8 < 16 * own <= 5 * err + 8
      && behind + own + (r.next - st.buf[x + 1 + dir]) == err
      && r.buf[x + 1 + dir] == 0
      && forall i :: 0 <= i < |st.buf| && i != x + 1 && i != x + 1 - dir && i != x + 1 + dir ==> r.buf[i] == st.buf[i]
  {
    hide StateAt, Error, Pixel, Image;
    StateStep(m, rows, width, y, k);
  }

  /** Sixteen times each share of an error of magnitude at most h. */
  lemma Shares(err: int, h: int)
    requires -h <= err < h
    ensures -(4 * h + 4) <= 16 * E3(err) <= 4 * h + 4
    ensures -(5 * h + 7) <= 16 * E5(err) <= 5 * h + 7
    ensures -(7 * h + 16) <= 16 * E7(err) <= 7 * h + 16
  {
  }

  predicate Within(v: int, bound: int) {
    -bound <= 16 * v <= bound
  }

  predicate CellsWithin(buf: seq<int>, bound: int) {
    forall i :: 0 <= i < |buf| ==> Within(buf[i], bound)
  }

  /** Before a pixel: its own cell is fresh, the one behind can still take one share. */
  ghost predicate Calm(st: Diffusion, x: nat, dir: int, first: bool, h: int)
    requires 1 <= x < |st.buf| - 1 && (dir == 1 || dir == -1)
  {
    && CellsWithin(st.buf, 14 * h + 18)
    && Within(st.next, 21 * h + 34)
    && (if first then Within(st.buf[x], 5 * h + 7) else st.buf[x] == 0)
    && Within(st.buf[x - dir], 10 * h + 14)
  }

  /** After a pixel: ready for the next one in the row, and for turning round here. */
  lemma PixelCalm(m: Mode, st: Diffusion, x: nat, dir: int, src: int, first: bool)
    requires m.diff >= 1 && 1 <= x < |st.buf| - 1 && (dir == 1 || dir == -1)
    requires Calm(st, x, dir, first, Half(m))
    ensures var r := Pixel(m, st, x, dir, src);
      && (1 <= x + dir < |st.buf| - 1 ==> Calm(r, x + dir, dir, false, Half(m)))
      && (!first ==> Calm(r, x, -dir, true, Half(m)))
      && CellsWithin(r.buf, 14 * Half(m) + 18) && Within(r.next, 21 * Half(m) + 34)
  {
    hide Quantize, Half, E3, E5, E7, Error;
    var err := Error(m, st.next, src);
    ErrorWithin(m, st.next, src);
    Shares(err, Half(m));
    var r := Pixel(m, st, x, dir, src);
    assert Within(st.buf[x + dir], 14 * Half(m) + 18);
    assert r.buf[x - dir] == st.buf[x - dir] + E3(err) && r.buf[x] == st.buf[x] + E5(err) && r.buf[x + dir] == 0;
  }

  /** Calm at every visited pixel, across all row turns, if a row has at least two pixels. */
  lemma {:induction false} StaysCalm(m: Mode, rows: seq<seq<int>>, width: nat, y: nat, k: nat)
    requires m.diff >= 1 && Image(rows, width) && width >= 2 && k < width && y < |rows|
    ensures Calm(StateAt(m, rows, width, y, k), Column(y, k, width) + 1, Dir(y), k == 0, Half(m))
    decreases y, k
  {
    hide Pixel, Calm, Half, StateAt, Error, Diffuse, E7;
    if k > 0 {
      StaysCalm(m, rows, width, y, k - 1);
      StateNext(m, rows, width, y, k - 1);
      var x := Column(y, k - 1, width);
      PixelCalm(m, StateAt(m, rows, width, y, k - 1), x + 1, Dir(y), rows[y][x], k - 1 == 0);
    } else if y > 0 {
      StaysCalm(m, rows, width, y - 1, width - 1);
      StateNext(m, rows, width, y - 1, width - 1);
      var x := Column(y - 1, width - 1, width);
      PixelCalm(m, StateAt(m, rows, width, y - 1, width - 1), x + 1, Dir(y - 1), rows[y - 1][x], false);
      Turn(m, rows, width, y);
    } else {
      StartCalm(m, rows, width);
    }
  }

  lemma Turn(m: Mode, rows: seq<seq<int>>, width: nat, y: nat)
    requires m.diff >= 1 && Image(rows, width) && 0 < y <= |rows|
    ensures StateAt(m, rows, width, y, 0) == StateAt(m, rows, width, y - 1, width)
  {
  }

  lemma StartCalm(m: Mode, rows: seq<seq<int>>, width: nat)
    requires m.diff >= 1 && Image(rows, width) && width >= 1
    ensures Calm(StateAt(m, rows, width, 0, 0), 1, 1, true, Half(m))
  {
  }

  /** The carried error and every buffer cell, padding included, stay within 2^(D+1). */
  predicate Bounded(m: Mode, st: Diffusion) {
    && 0 - Pow2(m.diff + 1) <= st.next <= Pow2(m.diff + 1)
    && forall i :: 0 <= i < |st.buf| ==> 0 - Pow2(m.diff + 1) <= st.buf[i] <= Pow2(m.diff + 1)
  }

  lemma FourHalves(m: Mode)
    requires m.diff >= 1
    ensures 4 * Half(m) == Pow2(m.diff + 1)
  {
    assert Pow2(m.diff + 1) == 2 * Pow2(m.diff) == 4 * Pow2(m.diff - 1);
  }

  lemma WithinBounded(m: Mode, st: Diffusion)
    requires m.diff >= 1 && CellsWithin(st.buf, 14 * Half(m) + 18) && Within(st.next, 21 * Half(m) + 34)
    ensures Bounded(m, st)
  {
    FourHalves(m);
    assert forall i :: 0 <= i < |st.buf| ==> Within(st.buf[i], 14 * Half(m) + 18);
  }

  lemma Stable(m: Mode, rows: seq<seq<int>>, width: nat, y: nat, k: nat)
    requires m.diff >= 1 && Image(rows, width) && width >= 2 && k <= width && (y < |rows| || (y == |rows| && k == 0))
    ensures Bounded(m, StateAt(m, rows, width, y, k))
  {
    hide Pixel, Calm, Half, StateAt, Bounded;
    if k > 0 {
      StaysCalm(m, rows, width, y, k - 1);
      StateStep(m, rows, width, y, k - 1);
      var x := Column(y, k - 1, width);
      PixelCalm(m, StateAt(m, rows, width, y, k - 1), x + 1, Dir(y), rows[y][x], k - 1 == 0);
      WithinBounded(m, StateAt(m, rows, width, y, k));
    } else if y > 0 {
      Turn(m, rows, width, y);
      Stable(m, rows, width, y - 1, width);
    } else {
      StartBounded(m, rows, width);
    }
  }

  lemma StartBounded(m: Mode, rows: seq<seq<int>>, width: nat)
    requires m.diff >= 1 && Image(rows, width)
    ensures Bounded(m, StateAt(m, rows, width, 0, 0))
  {
  }

  lemma {:induction false} TotalBound(s: seq<int>, b: int)
    requires forall i :: 0 <= i < |s| ==> -b <= s[i] <= b
    ensures -(|s| * b) <= Total(s) <= |s| * b
    decreases |s|
  {
    if s != [] {
      TotalBound(s[1..], b);
      assert |s| * b == |s[1..]| * b + b;
    }
  }

  /** Whole-image brightness drift is limited by the width alone, whatever the height and the pixels. */
  lemma BrightnessDrift(m: Mode, rows: seq<seq<int>>, width: nat)
    requires m.diff >= 1 && Image(rows, width) && width >= 2
    ensures var st := StateAt(m, rows, width, |rows|, 0);
      var drift := ImageTotal(rows) - st.quantTotal * Pow2(m.diff) - (if m.low then |rows| * width * Pow2(m.diff - 1) else 0);
      drift == Held(st) && -((width + 3) * Pow2(m.diff + 1)) <= drift <= (width + 3) * Pow2(m.diff + 1)
  {
    hide StateAt, Half, Total, ImageTotal, Pow2;
    var st := StateAt(m, rows, width, |rows|, 0);
    Conserves(m, rows, width, |rows|, 0);
    SeenIs(width, |rows|, 0);
    VisitedIsTotal(rows, width, |rows|);
    assert rows[..|rows|] == rows;
    Stable(m, rows, width, |rows|, 0);
    TotalBound(st.buf, Pow2(m.diff + 1));
    assert (width + 3) * Pow2(m.diff + 1) == (width + 2) * Pow2(m.diff + 1) + Pow2(m.diff + 1);
  }

  // ---------------------------------------------- the width that is not stable

  lemma {:induction false} PrefixState(m: Mode, rows: seq<seq<int>>, more: seq<seq<int>>, width: nat, y: nat, k: nat)
    requires m.diff >= 1 && Image(rows, width) && Image(rows + more, width)
    requires k <= width && (y < |rows| || (y == |rows| && k == 0))
    ensures StateAt(m, rows + more, width, y, k) == StateAt(m, rows, width, y, k)
    decreases y, k
  {
    hide Pixel;
    if k > 0 {
      PrefixState(m, rows, more, width, y, k - 1);
    } else if y > 0 {
      PrefixState(m, rows, more, width, y - 1, width);
    }
  }

  /** The pixel in [0, 2^D) that leaves the most negative error, given the carried one. */
  function Adversary(m: Mode, next: int): (src: int)
    requires m.diff >= 1
    ensures 0 <= src < 2 * Half(m)
  {
    (-Half(m) - next + (if m.low then Half(m) else 0)) % (2 * Half(m))
  }

  lemma AdversaryWins(m: Mode, next: int)
    requires m.diff >= 1
    ensures Error(m, next, Adversary(m, next)) == -Half(m)
  {
    var h := Half(m);
    var g := -h - next + (if m.low then h else 0);
    var j := -(g / (2 * h));
    assert g == (g / (2 * h)) * (2 * h) + g % (2 * h);
    var src := Adversary(m, next);
    assert Sum(m, next, src) + h == j * (2 * h);
    DivUnique(j, 2 * h, 0);
  }

  /** A one-pixel-wide image of any height whose pixels are all in [0, 2^D). */
  function Column1(m: Mode, height: nat): (rows: seq<seq<int>>)
    requires m.diff >= 1
    ensures Image(rows, 1) && |rows| == height
    ensures forall y :: 0 <= y < height ==> 0 <= rows[y][0] < 2 * Half(m)
    decreases height
  {
    if height == 0 then []
    else
      var rows := Column1(m, height - 1);
      rows + [[Adversary(m, StateAt(m, rows, 1, height - 1, 0).next)]]
  }

  /** In a column of width one the middle cell is never consumed: its error grows with every row. */
  lemma {:induction false} ColumnDrifts(m: Mode, height: nat)
    requires m.diff >= 2
    ensures StateAt(m, Column1(m, height), 1, height, 0).buf[1] <= 0 - height
    decreases height
  {
    hide StateAt, Adversary, E5, Half, Error, Diffuse, Pixel, E7;
    if height == 0 {
      StartsZero(m, [], 1);
    } else {
      ColumnDrifts(m, height - 1);
      var rows := Column1(m, height - 1);
      var next := StateAt(m, rows, 1, height - 1, 0).next;
      PrefixState(m, rows, [[Adversary(m, next)]], 1, height - 1, 0);
      Turn(m, Column1(m, height), 1, height);
      StateStep(m, Column1(m, height), 1, height - 1, 0);
      MiddleCell(StateAt(m, rows, 1, height - 1, 0).buf, Dir(height - 1), -Half(m));
      AdversaryWins(m, next);
      WorstShare(m);
    }
  }

  lemma MiddleCell(buf: seq<int>, dir: int, err: int)
    requires |buf| == 3 && (dir == 1 || dir == -1)
    ensures Diffuse(buf, 1, dir, err)[1] == buf[1] + E5(err)
  {
  }

  lemma WorstShare(m: Mode)
    requires m.diff >= 2
    ensures E5(-Half(m)) <= -1
  {
    assert Half(m) == 2 * Pow2(m.diff - 2);
  }

  /** With a bit difference of one every share but the forward one is zero. */
  lemma {:induction false} OneBitStable(m: Mode, rows: seq<seq<int>>, width: nat, y: nat, k: nat)
    requires m.diff == 1 && Image(rows, width) && k <= width && (y < |rows| || (y == |rows| && k == 0))
    ensures var st := StateAt(m, rows, width, y, k);
      -1 <= st.next <= 0 && forall i :: 0 <= i < |st.buf| ==> st.buf[i] == 0
    decreases y, k
  {
    hide Pixel, StateAt, Error, E7;
    if k > 0 {
      OneBitStable(m, rows, width, y, k - 1);
      StateStep(m, rows, width, y, k - 1);
      OneBitError(m, StateAt(m, rows, width, y, k - 1).next, rows[y][Column(y, k - 1, width)]);
    } else if y > 0 {
      Turn(m, rows, width, y);
      OneBitStable(m, rows, width, y - 1, width);
    } else {
      StartsZero(m, rows, width);
    }
  }

  lemma OneBitError(m: Mode, next: int, src: int)
    requires m.diff == 1
    ensures var err := Error(m, next, src); E3(err) == 0 && E5(err) == 0 && -1 <= E7(err) <= 0
  {
    hide Error;
    ErrorWithin(m, next, src);
    assert Half(m) == Pow2(0) == 1;
    assert E3(-1) == E5(-1) == E3(0) == E5(0) == 0;
  }

  lemma StartsZero(m: Mode, rows: seq<seq<int>>, width: nat)
    requires m.diff >= 1 && Image(rows, width)
    ensures var st := StateAt(m, rows, width, 0, 0); st.next == 0 && forall i :: 0 <= i < |st.buf| ==> st.buf[i] == 0
  {
  }

  lemma {:induction false} NoPixels(m: Mode, rows: seq<seq<int>>, y: nat)
    requires m.diff >= 1 && Image(rows, 0) && y <= |rows|
    ensures Bounded(m, StateAt(m, rows, 0, y, 0))
    decreases y
  {
    if y > 0 {
      NoPixels(m, rows, y - 1);
    }
  }

  /** The errors stay within 2^(D+1) at every point of every image with pixels in [0, top]. */
  ghost predicate AlwaysBounded(m: Mode, width: nat, top: int)
    requires m.diff >= 1
  {
    forall rows: seq<seq<int>>, y: nat, k: nat ::
      Image(rows, width) && Pixels(rows, top) && k <= width && (y < |rows| || (y == |rows| && k == 0)) ==>
        Bounded(m, StateAt(m, rows, width, y, k))
  }

  ghost predicate Pixels(rows: seq<seq<int>>, top: int) {
    forall y, x :: 0 <= y < |rows| && 0 <= x < |rows[y]| ==> 0 <= rows[y][x] <= top
  }

  /** Exactly when the diffusion is stable: any width but one, or a bit difference of one. */
  lemma StableIff(m: Mode, width: nat, top: int)
    requires m.diff >= 1 && top >= Pow2(m.diff) - 1
    ensures AlwaysBounded(m, width, top) <==> (width != 1 || m.diff == 1)
  {
    hide StateAt, Half, Pow2;
    HalfIs(m);
    FourHalves(m);
    if width == 1 && m.diff > 1 {
      var height := 4 * Half(m) + 1;
      ColumnDrifts(m, height);
      var rows := Column1(m, height);
      assert Image(rows, 1) && Pixels(rows, top);
      assert !Bounded(m, StateAt(m, rows, width, height, 0));
    } else {
      forall rows: seq<seq<int>>, y: nat, k: nat |
        Image(rows, width) && Pixels(rows, top) && k <= width && (y < |rows| || (y == |rows| && k == 0))
        ensures Bounded(m, StateAt(m, rows, width, y, k))
      {
        if width >= 2 { Stable(m, rows, width, y, k); }
        else if width == 0 { NoPixels(m, rows, y); }
        else { OneBitStable(m, rows, width, y, k); }
      }
    }
  }

  // ------------------------------------------------------------ stored pixels

  lemma {:induction false} Pow2Sum(a: nat, b: nat)
    ensures Pow2(a + b) == Pow2(a) * Pow2(b)
    decreases b
  {
    if b > 0 {
      Pow2Sum(a, b - 1);
      assert Pow2(a + b) == 2 * Pow2(a + (b - 1));
      Associate(2, Pow2(a), Pow2(b - 1));
      Associate(Pow2(a), 2, Pow2(b - 1));
    }
  }

  lemma StepsBelow(q: int, n: int, scale: nat)
    requires scale > 0
    ensures q < n ==> q * scale <= n * scale - scale
    ensures q >= n ==> q * scale >= n * scale
    ensures q <= 0 ==> q * scale <= 0
    ensures q >= 0 ==> q * scale >= 0
  {
    var d := n - q;
    Distribute(d, q, scale);
    assert d >= 1 ==> d * scale >= scale;
    assert d <= 0 ==> d * scale <= 0;
  }

  /** Without low-depth scaling the clamp bites exactly when the quantized value leaves [0, 2^dither). */
  lemma ClampIff(m: Mode, q: int)
    requires !m.low
    ensures 0 <= Store(m, q) <= Pow2(m.dither + m.shift) - 1
    ensures Store(m, q) == q * Pow2(m.shift) <==> 0 <= q < Pow2(m.dither)
    ensures q < 0 ==> Store(m, q) == 0
    ensures q >= Pow2(m.dither) ==> Store(m, q) == Pow2(m.dither + m.shift) - 1
  {
    Pow2Sum(m.dither, m.shift);
    StepsBelow(q, Pow2(m.dither), Pow2(m.shift));
    StepsBelow(q, 0, Pow2(m.shift));
  }

  /** Low dither depths: what exceeds the dither depth is stored as its largest value is, and the scaled value is clamped. */
  lemma LowClamp(m: Mode, q: int)
    requires m.low
    ensures 0 <= Store(m, q) <= Pow2(m.dither + m.shift) - 1
    ensures q >= Pow2(m.dither) ==> Store(m, q) == Store(m, Pow2(m.dither) - 1)
    ensures q < Pow2(m.dither) && 0 <= m.scale(q) < Pow2(m.dither + m.shift) ==> Store(m, q) == m.scale(q)
    ensures q < Pow2(m.dither) && m.scale(q) < 0 ==> Store(m, q) == 0
    ensures q < Pow2(m.dither) && m.scale(q) >= Pow2(m.dither + m.shift) ==> Store(m, q) == Pow2(m.dither + m.shift) - 1
  {
  }

  lemma QuantizedNear(m: Mode, next: int, src: int, n: nat)
    requires m.diff >= 1 && -4 * Half(m) <= next <= 4 * Half(m) && 0 <= src < n * (2 * Half(m)) && !m.low
    ensures -2 <= Quantize(m, next, src) <= n + 2
  {
    hide Half;
    var d := 2 * Half(m);
    var sum := src + next + Half(m);
    var q := Quantize(m, next, src);
    assert q * d <= sum < q * d + d;
    StepsBelow(q, n + 3, d);
    StepsBelow(q, -2, d);
    Distribute(n, 3, d);
  }

  /**
    The clamp costs little: on any image at least two pixels wide with pixels of
    the source depth, a quantized value is at most two steps outside the range
    of the dither depth, and inside it the stored pixel is exact.
   */
  lemma StoredNear(m: Mode, rows: seq<seq<int>>, width: nat, y: nat, x: nat)
    requires m.diff >= 1 && !m.low && Image(rows, width) && width >= 2 && y < |rows| && x < width
    requires Pixels(rows, Pow2(m.dither + m.diff) - 1)
    ensures var q := Quantize(m, StateAt(m, rows, width, y, Column(y, x, width)).next, rows[y][x]);
      && -2 <= q <= Pow2(m.dither) + 2
      && OutputAt(m, rows, width, y, x) == Store(m, q)
      && (0 <= q < Pow2(m.dither) ==> OutputAt(m, rows, width, y, x) == q * Pow2(m.shift))
  {
    hide StateAt, Half, Quantize, Store, Pow2;
    var st := StateAt(m, rows, width, y, Column(y, x, width));
    HalfIs(m);
    FourHalves(m);
    Pow2Sum(m.dither, m.diff);
    Stable(m, rows, width, y, Column(y, x, width));
    QuantizedNear(m, st.next, rows[y][x], Pow2(m.dither));
    ClampIff(m, Quantize(m, st.next, rows[y][x]));
  }

  // -------------------------------------------------------------- flat images

  /** Every pixel is v steps of 2^D, plus the half step that low dither depths take off. */
  ghost predicate Flat(m: Mode, rows: seq<seq<int>>, v: int)
    requires m.diff >= 1
  {
    forall y, x :: 0 <= y < |rows| && 0 <= x < |rows[y]| ==>
      rows[y][x] == v * Pow2(m.diff) + (if m.low then Pow2(m.diff - 1) else 0)
  }

  lemma FlatPixel(m: Mode, v: int, src: int)
    requires m.diff >= 1 && src == v * Pow2(m.diff) + (if m.low then Pow2(m.diff - 1) else 0)
    ensures Quantize(m, 0, src) == v && Error(m, 0, src) == 0
  {
    HalfIs(m);
    DivUnique(v, Pow2(m.diff), Half(m));
  }

  lemma ZeroShares()
    ensures E3(0) == 0 && E5(0) == 0 && E7(0) == 0
  {
  }

  /** No error is held anywhere. */
  predicate Silent(st: Diffusion) {
    st.next == 0 && forall i :: 0 <= i < |st.buf| ==> st.buf[i] == 0
  }

  lemma NothingSpreads(buf: seq<int>, x: nat, dir: int)
    requires 1 <= x < |buf| - 1 && (dir == 1 || dir == -1) && buf[x + dir] == 0
    ensures Diffuse(buf, x, dir, 0) == buf
  {
    hide E3, E5;
    ZeroShares();
  }

  lemma StaysSilent(m: Mode, st: Diffusion, x: nat, dir: int, src: int)
    requires m.diff >= 1 && 1 <= x < |st.buf| - 1 && (dir == 1 || dir == -1)
    requires Silent(st) && Error(m, 0, src) == 0
    ensures Silent(Pixel(m, st, x, dir, src))
  {
    hide Error, Quantize, Diffuse, E7, E5, E3, Pow2, Half, Sum;
    ZeroShares();
    NothingSpreads(st.buf, x, dir);
  }

  /** On a flat image no error ever arises. */
  lemma {:induction false} FlatSilent(m: Mode, rows: seq<seq<int>>, width: nat, v: int, y: nat, k: nat)
    requires m.diff >= 1 && Image(rows, width) && Flat(m, rows, v) && k <= width && (y < |rows| || (y == |rows| && k == 0))
    ensures Silent(StateAt(m, rows, width, y, k))
    decreases y, k
  {
    hide Pixel, StateAt, Error, Quantize, Pow2, Silent;
    if k > 0 {
      FlatSilent(m, rows, width, v, y, k - 1);
      StateNext(m, rows, width, y, k - 1);
      var x := Column(y, k - 1, width);
      FlatPixel(m, v, rows[y][x]);
      StaysSilent(m, StateAt(m, rows, width, y, k - 1), x + 1, Dir(y), rows[y][x]);
    } else if y > 0 {
      Turn(m, rows, width, y);
      FlatSilent(m, rows, width, v, y - 1, width);
    } else {
      StartsSilent(m, rows, width);
    }
  }

  lemma StartsSilent(m: Mode, rows: seq<seq<int>>, width: nat)
    requires m.diff >= 1 && Image(rows, width)
    ensures Silent(StateAt(m, rows, width, 0, 0))
  {
  }

  /**
    A flat image of v steps comes out as v everywhere, brought to the target
    depth: shifted, or by the scaling of low dither depths.
   */
  lemma FlatStays(m: Mode, rows: seq<seq<int>>, width: nat, v: int, y: nat, x: nat)
    requires m.diff >= 1 && Image(rows, width) && Flat(m, rows, v) && 0 <= v < Pow2(m.dither) && y < |rows| && x < width
    ensures !m.low ==> OutputAt(m, rows, width, y, x) == v * Pow2(m.shift)
    ensures m.low && 0 <= m.scale(v) < Pow2(m.dither + m.shift) ==> OutputAt(m, rows, width, y, x) == m.scale(v)
  {
    hide StateAt, Quantize, Pow2;
    FlatSilent(m, rows, width, v, y, Column(y, x, width));
    FlatPixel(m, v, rows[y][x]);
    if !m.low { ClampIff(m, v); }
  }
}
