/**
  Ordered dithering of convert_bits.cpp: the conversion loop, and exactly when
  flat areas keep their brightness.
 */
module OrderedDither {
  import opened Arithmetic
  import opened DitherTables
  import opened GridSums

  // --------------------------------------------------------- Hermite's identity

  function Quo(w: nat, d: nat): nat
    requires d > 0
  {
    w / d
  }

  lemma Small(i: nat, q: nat, r: nat)
    requires i < 4 && r < q
    ensures i * q + r < 4 * q
  {
  }

  lemma Quarter(j: nat, i: nat, q: nat)
    ensures (4 * j + i) * q == j * (4 * q) + i * q
  {
  }

  lemma DivSplit(k: nat, q: nat, r: nat)
    requires q > 0 && r < q
    ensures (k * q + r) / (4 * q) == k / 4
  {
    var j, i := k / 4, k % 4;
    Quarter(j, i, q);
    Small(i, q, r);
    DivUnique(j, 4 * q, i * q + r);
  }

  lemma Shifted(w: nat, q: nat, b: nat)
    requires q > 0
    ensures Quo(w + q * b, 4 * q) == (Quo(w, q) + b) / 4
  {
    var k, r := w / q, w % q;
    assert w == k * q + r;
    assert w + q * b == (k + b) * q + r;
    DivSplit(k + b, q, r);
  }

  /** Four offsets of a quarter each: Hermite's identity for four. */
  lemma Hermite4(w: nat, q: nat)
    requires q > 0
    ensures Quo(w, 4 * q) + Quo(w + q * 1, 4 * q) + Quo(w + q * 2, 4 * q) + Quo(w + q * 3, 4 * q) == Quo(w, q)
  {
    hide Quo;
    assert w + q * 0 == w;
    Shifted(w, q, 0);
    Shifted(w, q, 1);
    Shifted(w, q, 2);
    Shifted(w, q, 3);
    FourQuarters(Quo(w, q));
  }

  lemma FourQuarters(k: nat)
    ensures (k + 0) / 4 + (k + 1) / 4 + (k + 2) / 4 + (k + 3) / 4 == k
  {
  }

  // -------------------------------------------------------- the dither identity

  /** What the table's position (y, x) makes of v at scale n, before clamping. */
  function Level(order: nat, n: nat, v: nat): (int, int) -> int {
    (y, x) => if y < 0 || x < 0 then 0 else Quo(v + Bayer(order, n, y, x), Cells(n))
  }

  lemma LevelBlock(order: nat, n: nat, v: nat, y: nat, x: nat)
    requires n > 0
    ensures Block(Level(order, n, v))(y, x) == Level(order, n - 1, v)(y, x)
  {
    hide Quo;
    var q, m := Cells(n - 1), Bayer(order, n - 1, y, x);
    assert 2 * y / 2 == y && (2 * y + 1) / 2 == y && 2 * x / 2 == x && (2 * x + 1) / 2 == x;
    assert 2 * y % 2 == 0 && (2 * y + 1) % 2 == 1 && 2 * x % 2 == 0 && (2 * x + 1) % 2 == 1;
    assert Bayer(order, n, 2 * y, 2 * x) == m;
    assert Bayer(order, n, 2 * y, 2 * x + 1) == q * Quad(order, 0, 1) + m;
    assert Bayer(order, n, 2 * y + 1, 2 * x) == q * Quad(order, 1, 0) + m;
    assert Bayer(order, n, 2 * y + 1, 2 * x + 1) == q * 1 + m;
    Hermite4(v + m, q);
  }

  /** Over one tile of the pattern the quotients add up to v. */
  lemma {:induction false} TileSum(order: nat, n: nat, v: nat)
    ensures Grid(Level(order, n, v), 0, 0, Side(n), Side(n)) == v
    decreases n
  {
    if n == 0 {
      assert Level(order, 0, v)(0, 0) == v;
      assert RowSums(Level(order, 0, v), 0, 1)(0) == Sum(RowOf(Level(order, 0, v), 0), 0, 1);
      assert Sum(RowOf(Level(order, 0, v), 0), 0, 1) == Sum(RowOf(Level(order, 0, v), 0), 0, 0) + v;
      assert Sum(RowSums(Level(order, 0, v), 0, 1), 0, 1) == Sum(RowSums(Level(order, 0, v), 0, 1), 0, 0) + v;
    } else {
      hide Block, Level, Grid;
      GridBlocks(Level(order, n, v), Side(n - 1));
      forall y, x | 0 <= y < 0 + Side(n - 1) && 0 <= x < 0 + Side(n - 1)
        ensures Block(Level(order, n, v))(y, x) == Level(order, n - 1, v)(y, x)
      {
        LevelBlock(order, n, v, y, x);
      }
      GridSame(Block(Level(order, n, v)), Level(order, n - 1, v), 0, 0, Side(n - 1), Side(n - 1));
      TileSum(order, n - 1, v);
    }
  }

  // --------------------------------------------------------------- conversion

  function Min(a: int, b: int): int {
    if a < b then a else b
  }

  /**
    One conversion: odd bit difference or not, table order, dither and target
    depth, and the rounded float scaling used for dither depths below eight.
   */
  datatype Dither = Dither(odd: bool, order: nat, dither: nat, target: nat, scale: int -> int)

  predicate Sound(m: Dither) {
    IsOrder(m.order) && m.dither <= m.target && (m.dither < 8 ==> m.dither < m.target)
  }

  /** 2^d for the bit difference d, which is 2 * order, or one less. */
  function Unit(m: Dither): (u: nat)
    requires IsOrder(m.order)
    ensures u > 0
  {
    if m.odd then 2 * Cells(m.order - 1) else Cells(m.order)
  }

  function Entry(m: Dither, y: int, x: int): nat
    requires IsOrder(m.order)
  {
    var r, c := y % Side(m.order), x % Side(m.order);
    TableIsBayer(m.order, r, c);
    OddTableIsHalf(m.order, r, c);
    (if m.odd then OddMatrix(m.order) else Matrix(m.order))[r][c]
  }

  lemma EntryIs(m: Dither, y: int, x: int)
    requires IsOrder(m.order)
    ensures var r, c := y % Side(m.order), x % Side(m.order);
      Entry(m, y, x) ==
        if !m.odd then Bayer(m.order, m.order, r, c)
        else if Misprint(m.order, r, c) then 75
        else Bayer(m.order, m.order, r, c) / 2
  {
    TableIsBayer(m.order, y % Side(m.order), x % Side(m.order));
    OddTableIsHalf(m.order, y % Side(m.order), x % Side(m.order));
  }

  /** Half of t, towards zero: the cast of src + corr - (2^d - 1) / 2 to an int. */
  function HalfTruncated(t: int): int {
    if t >= 0 then t / 2 else -((-t) / 2)
  }

  /** The value at dither depth: centred for low depths. */
  function Dithered(m: Dither, src: nat, y: int, x: int): int
    requires IsOrder(m.order)
  {
    if m.dither < 8 then HalfTruncated(2 * (src + Entry(m, y, x)) - (Unit(m) - 1)) / Unit(m)
    else Quo(src + Entry(m, y, x), Unit(m))
  }

  function Pixel(m: Dither, src: nat, y: int, x: int): int
    requires Sound(m)
  {
    var v := Dithered(m, src, y, x);
    var top := Side(m.dither) - 1;
    var scaled :=
      if m.target == m.dither then v
      else if m.dither < 8 then m.scale(Min(v, top))
      else Min(v, top) * Side(m.target - m.dither);
    var clamped := Min(scaled, Side(m.target) - 1);
    if clamped > 0 then clamped else 0
  }

  method Convert(m: Dither, src: array2<nat>, dst: array2<int>)
    requires Sound(m) && src.Length0 == dst.Length0 && src.Length1 == dst.Length1
    modifies dst
    ensures forall y, x :: 0 <= y < dst.Length0 && 0 <= x < dst.Length1 ==> dst[y, x] == Pixel(m, src[y, x], y, x)
  {
    hide Side, Cells, Quo, Entry, Unit;
    for y := 0 to dst.Length0
      invariant forall j, i :: 0 <= j < y && 0 <= i < dst.Length1 ==> dst[j, i] == Pixel(m, src[j, i], j, i)
    {
      hide Pixel;
      for x := 0 to dst.Length1
        invariant forall j, i :: 0 <= j < y && 0 <= i < dst.Length1 ==> dst[j, i] == Pixel(m, src[j, i], j, i)
        invariant forall i :: 0 <= i < x ==> dst[y, i] == Pixel(m, src[y, i], y, i)
      {
        dst[y, x] := ConvertPixel(m, src[y, x], y, x);
      }
    }
  }

  /** The loop body. */
  method ConvertPixel(m: Dither, src: nat, y: nat, x: nat) returns (pixel: int)
    requires Sound(m)
    ensures pixel == Pixel(m, src, y, x)
  {
    hide Side, Cells, Quo, Entry, Unit, HalfTruncated;
    var corr := Entry(m, y, x);
    if m.dither < 8 {
      pixel := HalfTruncated(2 * (src + corr) - (Unit(m) - 1)) / Unit(m);
    } else {
      pixel := Quo(src + corr, Unit(m));
    }
    if m.target != m.dither {
      pixel := Min(pixel, Side(m.dither) - 1);
      if m.dither < 8 {
        pixel := m.scale(pixel);
      } else {
        pixel := pixel * Side(m.target - m.dither);
      }
    }
    pixel := Min(pixel, Side(m.target) - 1);
    if pixel < 0 {
      pixel := 0;
    }
  }

  // ---------------------------------------------------------- any one pixel

  /** The bit difference d. */
  function Difference(m: Dither): nat
    requires IsOrder(m.order)
  {
    if m.odd then 2 * m.order - 1 else 2 * m.order
  }

  lemma {:induction false} CellsAreSides(n: nat)
    ensures Cells(n) == Side(2 * n)
    decreases n
  {
    if n > 0 {
      CellsAreSides(n - 1);
      assert Side(2 * n) == 2 * Side(2 * n - 1) == 4 * Side(2 * (n - 1));
    }
  }

  lemma UnitIs(m: Dither)
    requires IsOrder(m.order)
    ensures Unit(m) == Side(Difference(m))
  {
    CellsAreSides(m.order);
    CellsAreSides(m.order - 1);
    assert Side(2 * (m.order - 1) + 1) == 2 * Side(2 * (m.order - 1));
  }

  lemma DivRange(t: int, u: nat)
    requires u > 0
    ensures (t / u) * u <= t < (t / u + 1) * u
  {
    assert t == (t / u) * u + t % u;
    Distribute(t / u, 1, u);
  }

  /**
    Dither depths below eight, at any pixel of any picture: the value q that is
    scaled to the target is the whole number of steps in the source less half a
    step plus the table entry, or, for a source below half a step, 0 or -1, as that
    is above -1 or not; it is cut off at the largest value of the dither depth before the scaling and
    clamped to the target afterwards.
   */
  lemma LowPixel(m: Dither, src: nat, y: int, x: int)
    requires Sound(m) && m.dither < 8
    ensures var u, q := Side(Difference(m)), Dithered(m, src, y, x);
      && u == 2 * (u / 2)
      && (src >= u / 2 ==> q * u <= src - u / 2 + Entry(m, y, x) < (q + 1) * u)
      && (src < u / 2 ==> q == if src + Entry(m, y, x) + 1 >= u / 2 then 0 else -1)
      && var v := m.scale(if q < Side(m.dither) - 1 then q else Side(m.dither) - 1);
      Pixel(m, src, y, x) == if v < 0 then 0 else if v > Side(m.target) - 1 then Side(m.target) - 1 else v
  {
    UnitIs(m);
    UnitEven(m);
    hide Entry, Side, Unit;
    var u, c := Unit(m), Entry(m, y, x);
    var t := HalfTruncated(2 * (src + c) - (u - 1));
    EntryBelow(m, y, x);
    DivRange(t, u);
    if src >= u / 2 {
      assert t == src - u / 2 + c;
    } else {
      assert -u < t < u;
      SmallQuotient(t, u);
      assert t >= 0 <==> src + c + 1 >= u / 2;
    }
  }

  lemma SmallQuotient(t: int, u: nat)
    requires u > 0 && 0 - u < t < u
    ensures t / u == if t >= 0 then 0 else -1
  {
    if t >= 0 { DivUnique(0, u, t); } else { DivUnique(-1, u, t + u); }
  }

  // -------------------------------------------------------------- flat areas

  lemma {:induction false} BayerBelow(order: nat, n: nat, y: nat, x: nat)
    ensures Bayer(order, n, y, x) < Cells(n)
    decreases n
  {
    if n > 0 {
      BayerBelow(order, n - 1, y / 2, x / 2);
      var q, b := Cells(n - 1), Quad(order, y % 2, x % 2);
      assert q * b <= q * 3;
    }
  }

  lemma {:induction false} SideSum(a: nat, b: nat)
    ensures Side(a + b) == Side(a) * Side(b)
    decreases b
  {
    if b > 0 {
      SideSum(a, b - 1);
      assert Side(a + b) == 2 * Side(a + (b - 1));
      Associate(Side(a), 2, Side(b - 1));
      Associate(2, Side(a), Side(b - 1));
    }
  }

  /** Scaling back never meets the second clamp. */
  lemma PixelIs(m: Dither, v: nat, y: int, x: int)
    requires Sound(m) && m.dither >= 8
    ensures Pixel(m, v, y, x) == Side(m.target - m.dither) * Min(Quo(v + Entry(m, y, x), Unit(m)), Side(m.dither) - 1)
  {
    hide Quo, Entry, Unit;
    SideSum(m.dither, m.target - m.dither);
    var f, t := Side(m.target - m.dither), Side(m.dither);
    Below(Min(Quo(v + Entry(m, y, x), Unit(m)), t - 1), f, t);
  }

  lemma Below(n: int, f: nat, t: nat)
    requires 0 <= n <= t - 1 && f > 0
    ensures n * f == f * n && 0 <= n * f <= t * f - 1
  {
    var k := t - 1 - n;
    Distribute(k, n, f);
    Distribute(k + n, 1, f);
    NonNegative(k, f);
    NonNegative(n, f);
  }

  lemma NonNegative(a: nat, b: nat)
    ensures a * b >= 0
  {
  }

  lemma QuoAtMost(w: nat, d: nat, k: nat)
    requires d > 0 && w < (k + 1) * d
    ensures Quo(w, d) <= k
  {
    var q := w / d;
    assert q * d <= w;
    assert q >= k + 1 ==> q * d >= (k + 1) * d;
  }

  lemma QuoAtLeast(w: nat, d: nat, k: nat)
    requires d > 0 && w >= k * d
    ensures Quo(w, d) >= k
  {
    var q := w / d;
    assert w < (q + 1) * d;
    assert q + 1 <= k ==> (q + 1) * d <= k * d;
  }

  lemma {:induction false} SidesAreCells(n: nat)
    ensures Side(n) * Side(n) == Cells(n)
    decreases n
  {
    if n > 0 {
      SidesAreCells(n - 1);
      var s := Side(n - 1);
      assert (2 * s) * (2 * s) == 4 * (s * s);
    }
  }

  /** Halving table entry and unit is the same as doubling the value. */
  lemma HalfEntry(v: nat, c: nat, u: nat)
    requires u > 0
    ensures Quo(v + c / 2, u) == Quo(2 * v + c, 2 * u)
  {
    var w := v + c / 2;
    var q, r := w / u, w % u;
    assert w == q * u + r;
    assert 2 * v + c == q * (2 * u) + (2 * r + c % 2);
    DivUnique(q, 2 * u, 2 * r + c % 2);
  }

  /** How often a tile holds each correction: once, or twice for odd differences. */
  function Copies(m: Dither): nat {
    if m.odd then 2 else 1
  }

  /** The table as its pattern would have it. */
  function Pattern(m: Dither, y: int, x: int): nat
    requires IsOrder(m.order)
  {
    var b := Bayer(m.order, m.order, y % Side(m.order), x % Side(m.order));
    if m.odd then b / 2 else b
  }

  lemma PatternLevel(m: Dither, v: nat, y: nat, x: nat)
    requires IsOrder(m.order) && y < Side(m.order) && x < Side(m.order)
    ensures Quo(v + Pattern(m, y, x), Unit(m)) == Level(m.order, m.order, Copies(m) * v)(y, x)
    ensures Pattern(m, y, x) < Unit(m)
  {
    hide Quo, Bayer;
    SmallMod(y, Side(m.order));
    SmallMod(x, Side(m.order));
    var b := Bayer(m.order, m.order, y, x);
    BayerBelow(m.order, m.order, y, x);
    assert Cells(m.order) == 4 * Cells(m.order - 1);
    if m.odd {
      HalfEntry(v, b, Unit(m));
    }
  }

  lemma SmallMod(k: nat, n: nat)
    requires k < n
    ensures k % n == k
  {
  }

  lemma Times(k: nat, n: nat)
    ensures (k + 1) * n == k * n + n
  {
  }

  function Flat(m: Dither, v: nat): (int, int) -> int
    requires Sound(m)
  {
    (y, x) => Pixel(m, v, y, x)
  }

  /** What the pattern would give in place of the table. */
  function Ideal(m: Dither, v: nat): (int, int) -> int
    requires Sound(m)
  {
    (y, x) => Side(m.target - m.dither) * Min(Quo(v + Pattern(m, y, x), Unit(m)), Side(m.dither) - 1)
  }

  /** Within one tile: a quotient, or the largest value everywhere. */
  lemma IdealCell(m: Dither, v: nat, y: nat, x: nat)
    requires Sound(m) && y < Side(m.order) && x < Side(m.order)
    ensures var top := Side(m.dither) - 1;
      Ideal(m, v)(y, x) == Side(m.target - m.dither) * (if v <= top * Unit(m) then Level(m.order, m.order, Copies(m) * v)(y, x) else top)
  {
    PatternLevel(m, v, y, x);
    hide Quo, Pattern, Level, Unit, Side;
    var u, c, top := Unit(m), Pattern(m, y, x), Side(m.dither) - 1;
    Times(top, u);
    if v <= top * u {
      QuoAtMost(v + c, u, top);
    } else {
      QuoAtLeast(v + c, u, top);
    }
  }

  /** The pattern is exact over a tile, up to the largest value that the target can show. */
  lemma IdealTile(m: Dither, v: nat)
    requires Sound(m)
    ensures Grid(Ideal(m, v), 0, 0, Side(m.order), Side(m.order))
      == Side(m.target - m.dither) * (Copies(m) * Min(v, (Side(m.dither) - 1) * Unit(m)))
  {
    hide Pattern, Level, Unit, Quo, Cells, Bayer, Grid;
    var f, k, scale, top := Ideal(m, v), Side(m.order), Side(m.target - m.dither), Side(m.dither) - 1;
    if v <= top * Unit(m) {
      forall y, x | 0 <= y < k && 0 <= x < k ensures f(y, x) == scale * Level(m.order, m.order, Copies(m) * v)(y, x) {
        IdealCell(m, v, y, x);
      }
      hide Ideal, Side;
      GridScale(Level(m.order, m.order, Copies(m) * v), f, scale, k);
      TileSum(m.order, m.order, Copies(m) * v);
    } else {
      forall y, x | 0 <= y < k && 0 <= x < k ensures f(y, x) == (scale * top) * Ones()(y, x) {
        IdealCell(m, v, y, x);
      }
      hide Ideal, Ones, Side;
      GridScale(Ones(), f, scale * top, k);
      GridOnes(k);
      SidesAreCells(m.order);
      UnitCopies(m);
      Saturated(scale, top, Copies(m), Unit(m));
    }
  }

  lemma UnitCopies(m: Dither)
    requires IsOrder(m.order)
    ensures Copies(m) * Unit(m) == Cells(m.order)
  {
  }

  lemma Saturated(scale: int, top: int, copies: int, unit: int)
    ensures (scale * top) * (copies * unit) == scale * (copies * (top * unit))
  {
    Associate(scale, top, copies * unit);
    Associate(top, copies, unit);
    Associate(copies, top, unit);
  }

  lemma FlatPeriod(m: Dither, v: nat)
    requires Sound(m)
    ensures forall y, x :: Flat(m, v)(y + Side(m.order), x) == Flat(m, v)(y, x)
    ensures forall y, x :: Flat(m, v)(y, x + Side(m.order)) == Flat(m, v)(y, x)
  {
    hide Matrix, OddMatrix, Cells, Quo, HalfTruncated, Unit;
    forall y: int ensures (y + Side(m.order)) % Side(m.order) == y % Side(m.order) { ModShift(y, Side(m.order)); }
  }

  /** By how much the misprinted entry raises the sum of a tile. */
  function Excess(m: Dither, v: nat): int
    requires Sound(m)
  {
    if m.odd && m.order == 4 && v <= (Side(m.dither) - 1) * 128 && 53 <= v % 128 <= 62 then Side(m.target - m.dither) else 0
  }

  lemma Unit16(m: Dither)
    requires m.order == 4 && m.odd
    ensures Unit(m) == 128 && Side(4) == 16 && Bayer(4, 4, 9, 0) == 130
  {
    assert Cells(0) == 1 && Cells(1) == 4 && Cells(2) == 16 && Cells(3) == 64;
    assert Side(0) == 1 && Side(1) == 2 && Side(2) == 4 && Side(3) == 8;
    assert Bayer(4, 0, 0, 0) == 0;
    assert Bayer(4, 1, 1, 0) == 2 && Bayer(4, 2, 2, 0) == 2 && Bayer(4, 3, 4, 0) == 2;
  }

  /** At the misprinted cell: one more for ten residues of v, unless the output is at its largest anyway. */
  lemma MisprintCell(m: Dither, v: nat)
    requires Sound(m) && m.dither >= 8 && m.odd && m.order == 4
    ensures Flat(m, v)(9, 0) == Ideal(m, v)(9, 0) + Excess(m, v)
  {
    hide Entry, Pattern, Pixel, Side, Quo, Unit;
    Unit16(m);
    MisprintEntries(m);
    PixelIs(m, v, 9, 0);
    var top, scale := Side(m.dither) - 1, Side(m.target - m.dither);
    var a, b := Min(Quo(v + 75, 128), top), Min(Quo(v + 65, 128), top);
    Residues(v, top);
    assert a == b || a == b + 1;
    assert scale * (b + 1) == scale * b + scale;
  }

  lemma MisprintEntries(m: Dither)
    requires m.odd && m.order == 4
    ensures Entry(m, 9, 0) == 75 && Pattern(m, 9, 0) == 65
  {
    hide Bayer, Entry;
    Unit16(m);
    EntryIs(m, 9, 0);
  }

  lemma Residues(v: nat, top: nat)
    ensures var a, b := Min(Quo(v + 75, 128), top), Min(Quo(v + 65, 128), top);
      a - b == if v <= top * 128 && 53 <= v % 128 <= 62 then 1 else 0
  {
  }

  lemma FlatIsIdeal(m: Dither, v: nat, y: nat, x: nat)
    requires Sound(m) && m.dither >= 8 && y < Side(m.order) && x < Side(m.order) && !(m.odd && Misprint(m.order, y, x))
    ensures Flat(m, v)(y, x) == Ideal(m, v)(y, x)
  {
    hide Quo, Bayer, Pixel, Entry;
    SmallMod(y, Side(m.order));
    SmallMod(x, Side(m.order));
    EntryIs(m, y, x);
    PixelIs(m, v, y, x);
  }

  lemma FlatTile(m: Dither, v: nat)
    requires Sound(m) && m.dither >= 8
    ensures var k := Side(m.order); Grid(Flat(m, v), 0, 0, k, k) == Grid(Ideal(m, v), 0, 0, k, k) + Excess(m, v)
  {
    hide Flat, Ideal, Grid;
    var k := Side(m.order);
    if m.odd && m.order == 4 {
      Unit16(m);
      forall y, x | 0 <= y < k && 0 <= x < k && (y != 9 || x != 0) ensures Flat(m, v)(y, x) == Ideal(m, v)(y, x) {
        FlatIsIdeal(m, v, y, x);
      }
      MisprintCell(m, v);
      GridChange(Flat(m, v), Ideal(m, v), k, 9, 0);
    } else {
      forall y, x | 0 <= y < 0 + k && 0 <= x < 0 + k ensures Flat(m, v)(y, x) == Ideal(m, v)(y, x) {
        FlatIsIdeal(m, v, y, x);
      }
      GridSame(Flat(m, v), Ideal(m, v), 0, 0, k, k);
    }
  }

  /**
    Flat areas. Over any tile-sized window of a constant picture the outputs add
    up to the source value, twice that for odd differences, times the back-scaling
    factor: up to the largest value 2^s - 2^d that the target can show, and but
    for one more where the misprinted table entry shows.
   */
  lemma FlatWindow(m: Dither, v: nat, y0: nat, x0: nat)
    requires Sound(m) && m.dither >= 8
    ensures Grid(Flat(m, v), y0, x0, Side(m.order), Side(m.order))
      == Side(m.target - m.dither) * (Copies(m) * Min(v, (Side(m.dither) - 1) * Unit(m))) + Excess(m, v)
  {
    hide Pixel, Cells, Bayer, Grid, Quo, Flat, Excess;
    FlatPeriod(m, v);
    GridPeriod(Flat(m, v), y0, x0, Side(m.order));
    FlatTile(m, v);
    IdealTile(m, v);
  }

  /** Exactly when every flat area of value v keeps its brightness: not saturated, and the misprint does not show. */
  lemma FlatExactIff(m: Dither, v: nat)
    requires Sound(m) && m.dither >= 8
    ensures (forall y0: nat, x0: nat ::
        Grid(Flat(m, v), y0, x0, Side(m.order), Side(m.order)) == Side(m.target - m.dither) * (Copies(m) * v))
      <==> v <= (Side(m.dither) - 1) * Unit(m) && !(m.odd && m.order == 4 && 53 <= v % 128 <= 62)
  {
    hide Flat, Grid, Pixel;
    forall y0: nat, x0: nat
      ensures Grid(Flat(m, v), y0, x0, Side(m.order), Side(m.order))
        == Side(m.target - m.dither) * (Copies(m) * Min(v, (Side(m.dither) - 1) * Unit(m))) + Excess(m, v)
    {
      FlatWindow(m, v, y0, x0);
    }
    if m.odd && m.order == 4 { Unit16(m); }
    var scale, copies, top := Side(m.target - m.dither), Copies(m), (Side(m.dither) - 1) * Unit(m);
    assert Grid(Flat(m, v), 0, 0, Side(m.order), Side(m.order)) == scale * (copies * Min(v, top)) + Excess(m, v);
    if v > top {
      Differ(Min(v, top), v, scale * copies);
      Associate(scale, copies, Min(v, top));
      Associate(scale, copies, v);
    }
  }

  // --------------------------------------------------- dither depths below eight

  function AtLeastZero(v: int): int {
    if v > 0 then v else 0
  }

  /** A flat picture at dither depth, before it is scaled to the target. */
  function LowFlat(m: Dither, v: nat): (int, int) -> int
    requires IsOrder(m.order)
  {
    (y, x) => AtLeastZero(Dithered(m, v, y, x))
  }

  /** Centring is a shift by half a step, and what is below that is zero. */
  lemma CentredIs(m: Dither, v: nat, y: int, x: int)
    requires IsOrder(m.order) && m.dither < 8 && Entry(m, y, x) < Unit(m)
    ensures var half := Unit(m) / 2;
      LowFlat(m, v)(y, x) == if v >= half then Quo(v - half + Entry(m, y, x), Unit(m)) else 0
  {
    hide Entry, Quo;
    var u, c := Unit(m), Entry(m, y, x);
    var half := u / 2;
    assert u == 2 * half by { UnitEven(m); }
    var t := HalfTruncated(2 * (v + c) - (u - 1));
    if v >= half {
      assert t == v - half + c;
      assert t / u == Quo(v - half + c, u) by { QuoIs(t, u); }
    } else {
      assert -u < t < u;
      assert t / u <= 0 by { QuoLow(t, u); }
    }
  }

  lemma UnitEven(m: Dither)
    requires IsOrder(m.order)
    ensures Unit(m) % 2 == 0
  {
    assert Cells(m.order) == 4 * Cells(m.order - 1);
    hide Cells;
    Even(Cells(m.order - 1));
    Even(2 * Cells(m.order - 1));
  }

  lemma Even(k: nat)
    ensures (2 * k) % 2 == 0
  {
  }

  lemma QuoIs(w: nat, d: nat)
    requires d > 0
    ensures w / d == Quo(w, d)
  {
  }

  lemma QuoLow(t: int, d: nat)
    requires d > 0 && t < d
    ensures t / d <= 0
  {
    var q := t / d;
    assert q * d <= t;
    assert q >= 1 ==> q * d >= d;
  }

  /** By how much the misprinted entry raises the sum of a tile at low depth. */
  function LowExcess(m: Dither, v: nat): int {
    if m.odd && m.order == 4 && v >= 64 && 53 <= (v - 64) % 128 <= 62 then 1 else 0
  }

  /** The pattern in place of the table. */
  function LowIdeal(m: Dither, v: nat): (int, int) -> int
    requires IsOrder(m.order)
  {
    (y, x) => if v >= Unit(m) / 2 then Quo(v - Unit(m) / 2 + Pattern(m, y, x), Unit(m)) else 0
  }

  lemma LowIdealTile(m: Dither, v: nat)
    requires IsOrder(m.order)
    ensures Grid(LowIdeal(m, v), 0, 0, Side(m.order), Side(m.order)) == Copies(m) * AtLeastZero(v - Unit(m) / 2)
  {
    hide Pattern, Level, Unit, Quo, Cells, Bayer, Grid;
    var f, k, w := LowIdeal(m, v), Side(m.order), v - Unit(m) / 2;
    if w >= 0 {
      forall y, x | 0 <= y < 0 + k && 0 <= x < 0 + k ensures f(y, x) == Level(m.order, m.order, Copies(m) * w)(y, x) {
        PatternLevel(m, w, y, x);
      }
      hide LowIdeal, Side;
      GridSame(f, Level(m.order, m.order, Copies(m) * w), 0, 0, k, k);
      TileSum(m.order, m.order, Copies(m) * w);
    } else {
      forall y, x | 0 <= y < k && 0 <= x < k ensures f(y, x) == 0 * Ones()(y, x) {}
      hide LowIdeal, Side, Ones;
      GridScale(Ones(), f, 0, k);
    }
  }

  lemma EntryBelow(m: Dither, y: int, x: int)
    requires IsOrder(m.order)
    ensures Entry(m, y, x) < Unit(m)
  {
    hide Entry, Bayer;
    EntryIs(m, y, x);
    var r, c := y % Side(m.order), x % Side(m.order);
    BayerBelow(m.order, m.order, r, c);
    assert Cells(m.order) == 4 * Cells(m.order - 1);
    if m.odd && m.order == 4 { Unit16(m); }
  }

  lemma LowCell(m: Dither, v: nat, y: nat, x: nat)
    requires IsOrder(m.order) && m.dither < 8 && y < Side(m.order) && x < Side(m.order) && !(m.odd && Misprint(m.order, y, x))
    ensures LowFlat(m, v)(y, x) == LowIdeal(m, v)(y, x)
  {
    hide Quo, Bayer, Entry, LowFlat, Unit;
    SmallMod(y, Side(m.order));
    SmallMod(x, Side(m.order));
    EntryIs(m, y, x);
    EntryBelow(m, y, x);
    CentredIs(m, v, y, x);
  }

  lemma LowMisprint(m: Dither, v: nat)
    requires m.dither < 8 && m.odd && m.order == 4
    ensures LowFlat(m, v)(9, 0) == LowIdeal(m, v)(9, 0) + LowExcess(m, v)
  {
    hide Entry, Pattern, Unit, LowFlat;
    Unit16(m);
    MisprintEntries(m);
    EntryBelow(m, 9, 0);
    CentredIs(m, v, 9, 0);
  }

  /**
    Flat areas at low depth. Before the scaling to the target, the values over
    any tile-sized window add up to the source value less half a step, twice that
    for odd differences: the centred dither is exact too, up to the misprint.
   */
  lemma LowFlatWindow(m: Dither, v: nat, y0: nat, x0: nat)
    requires IsOrder(m.order) && m.dither < 8
    ensures Grid(LowFlat(m, v), y0, x0, Side(m.order), Side(m.order)) == Copies(m) * AtLeastZero(v - Unit(m) / 2) + LowExcess(m, v)
  {
    hide Grid, Unit, LowIdeal;
    var k := Side(m.order);
    LowPeriod(m, v);
    hide LowFlat;
    GridPeriod(LowFlat(m, v), y0, x0, k);
    LowIdealTile(m, v);
    if m.odd && m.order == 4 {
      Unit16(m);
      forall y, x | 0 <= y < k && 0 <= x < k && (y != 9 || x != 0) ensures LowFlat(m, v)(y, x) == LowIdeal(m, v)(y, x) {
        LowCell(m, v, y, x);
      }
      LowMisprint(m, v);
      GridChange(LowFlat(m, v), LowIdeal(m, v), k, 9, 0);
    } else {
      forall y, x | 0 <= y < 0 + k && 0 <= x < 0 + k ensures LowFlat(m, v)(y, x) == LowIdeal(m, v)(y, x) {
        LowCell(m, v, y, x);
      }
      GridSame(LowFlat(m, v), LowIdeal(m, v), 0, 0, k, k);
    }
  }

  lemma LowPeriod(m: Dither, v: nat)
    requires IsOrder(m.order)
    ensures forall y, x :: LowFlat(m, v)(y + Side(m.order), x) == LowFlat(m, v)(y, x)
    ensures forall y, x :: LowFlat(m, v)(y, x + Side(m.order)) == LowFlat(m, v)(y, x)
  {
    hide Matrix, OddMatrix, Cells, Quo, HalfTruncated, Unit;
    forall y: int ensures (y + Side(m.order)) % Side(m.order) == y % Side(m.order) { ModShift(y, Side(m.order)); }
  }
}
