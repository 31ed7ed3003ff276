/**
  Serpentine Floyd-Steinberg error diffusion of convert_bits.cpp: the error
  buffer and the carried error are updated in place across all row turns.
 */
module FloydSteinberg {
  function Pow2(d: nat): (r: nat)
    ensures r >= 1
  {
    if d == 0 then 1 else 2 * Pow2(d - 1)
  }

  /**
    Bit difference, low dither depth (below 8 bits) or not, dither depth, bits
    from there to the target depth, and the rounded float scaling of low modes.
   */
  datatype Mode = Mode(diff: nat, low: bool, dither: nat, shift: nat, scale: int -> int)

  function Clamp(v: int, lo: int, hi: int): int {
    var m := if v < hi then v else hi;
    if m > lo then m else lo
  }

  /** max_pixel_value_target. */
  function Top(m: Mode): int {
    Pow2(m.dither + m.shift) - 1
  }

  /** How a quantized value is stored: scaled to the target depth, then clamped. */
  function Store(m: Mode, quantized: int): int {
    var v := if m.low then m.scale(if quantized < Pow2(m.dither) - 1 then quantized else Pow2(m.dither) - 1) else quantized * Pow2(m.shift);
    Clamp(v, 0, Top(m))
  }

  /** 2^(D-1), the rounder; a quantization step is twice that. */
  function Half(m: Mode): (h: int)
    ensures h >= 0 && (m.diff >= 1 ==> h >= 1)
  {
    if m.diff == 0 then 0 else Pow2(m.diff - 1)
  }

  /** buf has one padding cell on each side; quantTotal sums the unclamped quantized values so far. */
  datatype Diffusion = Diffusion(buf: seq<int>, next: int, quantTotal: int)

  function Sum(m: Mode, next: int, src: int): int {
    src + next - (if m.low then Half(m) else 0)
  }

  function Quantize(m: Mode, next: int, src: int): int
    requires m.diff >= 1
  {
    (Sum(m, next, src) + Half(m)) / (2 * Half(m))
  }

  function Error(m: Mode, next: int, src: int): int
    requires m.diff >= 1
  {
    Sum(m, next, src) - Quantize(m, next, src) * (2 * Half(m))
  }

  function E3(err: int): int { (err * 4 + 8) / 16 }

  function E5(err: int): int { (err * 5 + 8) / 16 }

  function E7(err: int): int { err - E3(err) - E5(err) }

  /** diffuse_floyd on cell x of a buffer with its padding, dir = 1 or -1. */
  function Diffuse(buf: seq<int>, x: nat, dir: int, err: int): seq<int>
    requires 1 <= x < |buf| - 1 && (dir == 1 || dir == -1)
  {
    buf[x - dir := buf[x - dir] + E3(err)][x := buf[x] + E5(err)][x + dir := 0]
  }

  function Pixel(m: Mode, st: Diffusion, x: nat, dir: int, src: int): Diffusion
    requires m.diff >= 1 && 1 <= x < |st.buf| - 1 && (dir == 1 || dir == -1)
  {
    var err := Error(m, st.next, src);
    Diffusion(Diffuse(st.buf, x, dir, err), st.buf[x + dir] + E7(err), st.quantTotal + Quantize(m, st.next, src))
  }

  function Dir(y: nat): int {
    if y % 2 == 0 then 1 else -1
  }

  /** Column of the k-th pixel visited in row y. */
  function Column(y: nat, k: nat, width: nat): nat
    requires k < width
  {
    if y % 2 == 0 then k else width - 1 - k
  }

  ghost predicate Image(rows: seq<seq<int>>, width: nat) {
    forall y :: 0 <= y < |rows| ==> |rows[y]| == width
  }

  /** The state before the k-th pixel of row y is visited. */
  function StateAt(m: Mode, rows: seq<seq<int>>, width: nat, y: nat, k: nat): (st: Diffusion)
    requires m.diff >= 1 && Image(rows, width) && k <= width && (y < |rows| || (y == |rows| && k == 0))
    ensures |st.buf| == width + 2
    decreases y, k
  {
    if k > 0 then
      var x := Column(y, k - 1, width);
      Pixel(m, StateAt(m, rows, width, y, k - 1), x + 1, Dir(y), rows[y][x])
    else if y > 0 then StateAt(m, rows, width, y - 1, width)
    else Diffusion(seq(width + 2, _ => 0), 0, 0)
  }

  lemma StateStep(m: Mode, rows: seq<seq<int>>, width: nat, y: nat, k: nat)
    requires m.diff >= 1 && Image(rows, width) && k < width && y < |rows|
    ensures var st := StateAt(m, rows, width, y, k); var x := Column(y, k, width); var src := rows[y][x];
      var err := Error(m, st.next, src);
      && StateAt(m, rows, width, y, k + 1) == Pixel(m, st, x + 1, Dir(y), src)
      && StateAt(m, rows, width, y, k + 1).buf == Diffuse(st.buf, x + 1, Dir(y), err)
      && StateAt(m, rows, width, y, k + 1).next == st.buf[x + 1 + Dir(y)] + E7(err)
  {
  }

  /** What the loops store in column x of row y. */
  function OutputAt(m: Mode, rows: seq<seq<int>>, width: nat, y: nat, x: nat): int
    requires m.diff >= 1 && Image(rows, width) && x < width && y < |rows|
  {
    Store(m, Quantize(m, StateAt(m, rows, width, y, Column(y, x, width)).next, rows[y][x]))
  }

  /** The conversion loops: forward on even rows, backward on odd rows. */
  method Convert(m: Mode, rows: seq<seq<int>>, width: nat, dst: array2<int>) returns (errors: array<int>, nextError: int)
    requires m.diff >= 1 && Image(rows, width) && dst.Length0 == |rows| && dst.Length1 == width
    modifies dst
    ensures fresh(errors)
    ensures forall y, x :: 0 <= y < |rows| && 0 <= x < width ==> dst[y, x] == OutputAt(m, rows, width, y, x)
    ensures errors[..] == StateAt(m, rows, width, |rows|, 0).buf && nextError == StateAt(m, rows, width, |rows|, 0).next
  {
    errors := new int[width + 2](_ => 0);
    nextError := 0;
    assert errors[..] == StateAt(m, rows, width, 0, 0).buf;
    for y := 0 to |rows|
      invariant fresh(errors) && errors.Length == width + 2
      invariant errors[..] == StateAt(m, rows, width, y, 0).buf && nextError == StateAt(m, rows, width, y, 0).next
      invariant forall j, x :: 0 <= j < y && 0 <= x < width ==> dst[j, x] == OutputAt(m, rows, width, j, x)
    {
      hide OutputAt;
      nextError := ConvertRow(m, rows, width, y, dst, errors, nextError);
    }
  }

  method ConvertRow(m: Mode, rows: seq<seq<int>>, width: nat, y: nat, dst: array2<int>, errors: array<int>, carried: int)
    returns (nextError: int)
    requires m.diff >= 1 && Image(rows, width) && y < |rows| && dst.Length0 == |rows| && dst.Length1 == width
    requires errors[..] == StateAt(m, rows, width, y, 0).buf && carried == StateAt(m, rows, width, y, 0).next
    modifies dst, errors
    ensures errors[..] == StateAt(m, rows, width, y, width).buf && nextError == StateAt(m, rows, width, y, width).next
    ensures forall x :: 0 <= x < width ==> dst[y, x] == OutputAt(m, rows, width, y, x)
    ensures forall j, x :: 0 <= j < |rows| && 0 <= x < width && j != y ==> dst[j, x] == old(dst[j, x])
  {
    hide StateAt, Image, OutputAt;
    nextError := carried;
    for k := 0 to width
      invariant errors[..] == StateAt(m, rows, width, y, k).buf && nextError == StateAt(m, rows, width, y, k).next
      invariant forall x :: 0 <= x < width && Column(y, x, width) < k ==> dst[y, x] == OutputAt(m, rows, width, y, x)
      invariant forall j, x :: 0 <= j < |rows| && 0 <= x < width && j != y ==> dst[j, x] == old(dst[j, x])
    {
      var x := if y % 2 == 0 then k else width - 1 - k;
      nextError := VisitPixel(m, rows, width, y, x, dst, errors, nextError);
    }
  }

  method VisitPixel(m: Mode, rows: seq<seq<int>>, width: nat, y: nat, x: nat, dst: array2<int>, errors: array<int>, carried: int)
    returns (nextError: int)
    requires m.diff >= 1 && Image(rows, width) && y < |rows| && x < width && dst.Length0 == |rows| && dst.Length1 == width
    requires var st := StateAt(m, rows, width, y, Column(y, x, width)); errors[..] == st.buf && carried == st.next
    modifies dst, errors
    ensures var st := StateAt(m, rows, width, y, Column(y, x, width) + 1); errors[..] == st.buf && nextError == st.next
    ensures dst[y, x] == OutputAt(m, rows, width, y, x)
    ensures forall j, i :: 0 <= j < |rows| && 0 <= i < width && !(j == y && i == x) ==> dst[j, i] == old(dst[j, i])
  {
    hide Quantize, Error, Diffuse, StateAt, Pixel, E7, Pow2;
    StateStep(m, rows, width, y, Column(y, x, width));
    var quantized;
    quantized, nextError := PixelInPlace(m, rows[y][x], errors, x + 1, Dir(y), carried);
    var pix;
    if m.low {
      pix := m.scale(if quantized < Pow2(m.dither) - 1 then quantized else Pow2(m.dither) - 1);
    } else {
      pix := quantized * Pow2(m.shift);
    }
    dst[y, x] := Clamp(pix, 0, Pow2(m.dither + m.shift) - 1);
  }

  /** The loop body for one pixel. */
  method PixelInPlace(m: Mode, src: int, errors: array<int>, x: nat, dir: int, carried: int) returns (quantized: int, nextError: int)
    requires m.diff >= 1 && 1 <= x < errors.Length - 1 && (dir == 1 || dir == -1)
    modifies errors
    ensures quantized == Quantize(m, carried, src)
    ensures errors[..] == Diffuse(old(errors[..]), x, dir, Error(m, carried, src))
    ensures nextError == old(errors[x + dir]) + E7(Error(m, carried, src))
  {
    var err := carried;
    if m.low {
      err := err - Half(m);
    }
    var sum := src + err;
    assert sum == Sum(m, carried, src);
    quantized := (Sum(m, carried, src) + Half(m)) / (2 * Half(m));
    err := Sum(m, carried, src) - quantized * (2 * Half(m));
    assert err == Error(m, carried, src);
    hide Error, Quantize, Sum, Half, E3, E5, E7, Diffuse;
    nextError := DiffuseInPlace(err, errors, x, dir);
  }

  method DiffuseInPlace(err: int, errors: array<int>, x: nat, dir: int) returns (nextError: int)
    requires 1 <= x < errors.Length - 1 && (dir == 1 || dir == -1)
    modifies errors
    ensures errors[..] == Diffuse(old(errors[..]), x, dir, err)
    ensures nextError == old(errors[x + dir]) + E7(err)
  {
    hide E3, E5, E7;
    var e3, e5, e7 := E3(err), E5(err), E7(err);
    nextError := errors[x + dir];
    errors[x - dir] := errors[x - dir] + e3;
    errors[x] := errors[x] + e5;
    errors[x + dir] := 0;
    nextError := nextError + e7;
  }
}
