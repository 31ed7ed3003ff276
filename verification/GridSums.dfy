/** Sums over windows of a grid: by blocks, over full periods, scaled. */
module GridSums {
  // -------------------------------------------------------------------- sums

  function Sum(f: int -> int, lo: int, n: nat): int {
    if n == 0 then 0 else Sum(f, lo, n - 1) + f(lo + n - 1)
  }

  lemma {:induction false} SumSame(f: int -> int, g: int -> int, lo: int, n: nat)
    requires forall k :: lo <= k < lo + n ==> f(k) == g(k)
    ensures Sum(f, lo, n) == Sum(g, lo, n)
    decreases n
  {
    if n > 0 {
      SumSame(f, g, lo, n - 1);
    }
  }

  function Halved(f: int -> int): int -> int {
    k => f(2 * k) + f(2 * k + 1)
  }

  lemma {:induction false} SumPairs(f: int -> int, n: nat)
    ensures Sum(f, 0, 2 * n) == Sum(Halved(f), 0, n)
    decreases n
  {
    if n > 0 {
      SumPairs(f, n - 1);
      assert Sum(f, 0, 2 * n) == Sum(f, 0, 2 * n - 1) + f(2 * n - 1);
      assert Sum(f, 0, 2 * n - 1) == Sum(f, 0, 2 * n - 2) + f(2 * n - 2);
    }
  }

  /** g is f plus h, so are their sums. */
  lemma {:induction false} SumAdd(f: int -> int, g: int -> int, h: int -> int, lo: int, n: nat)
    requires forall k :: lo <= k < lo + n ==> g(k) == f(k) + h(k)
    ensures Sum(g, lo, n) == Sum(f, lo, n) + Sum(h, lo, n)
    decreases n
  {
    if n > 0 {
      SumAdd(f, g, h, lo, n - 1);
    }
  }

  lemma {:induction false} SumFirst(f: int -> int, lo: int, n: nat)
    requires n > 0
    ensures Sum(f, lo, n) == f(lo) + Sum(f, lo + 1, n - 1)
    decreases n
  {
    if n > 1 {
      SumFirst(f, lo, n - 1);
    }
  }

  /** A full period sums to the same wherever it starts. */
  lemma {:induction false} SumPeriod(f: int -> int, lo: nat, n: nat)
    requires n > 0 && forall k :: f(k + n) == f(k)
    ensures Sum(f, lo, n) == Sum(f, 0, n)
    decreases lo
  {
    if lo > 0 {
      SumPeriod(f, lo - 1, n);
      SumFirst(f, lo - 1, n);
      assert f(lo - 1 + n) == f(lo - 1);
      assert Sum(f, lo, n) == Sum(f, lo, n - 1) + f(lo + n - 1);
    }
  }

  function RowOf(f: (int, int) -> int, y: int): int -> int {
    x => f(y, x)
  }

  function RowSums(f: (int, int) -> int, x0: int, cols: nat): int -> int {
    y => Sum(RowOf(f, y), x0, cols)
  }

  /** The sum of f over `rows` rows from y0 and `cols` columns from x0. */
  function Grid(f: (int, int) -> int, y0: int, x0: int, rows: nat, cols: nat): int {
    Sum(RowSums(f, x0, cols), y0, rows)
  }

  lemma GridSame(f: (int, int) -> int, g: (int, int) -> int, y0: int, x0: int, rows: nat, cols: nat)
    requires forall y, x :: y0 <= y < y0 + rows && x0 <= x < x0 + cols ==> f(y, x) == g(y, x)
    ensures Grid(f, y0, x0, rows, cols) == Grid(g, y0, x0, rows, cols)
  {
    forall y | y0 <= y < y0 + rows ensures RowSums(f, x0, cols)(y) == RowSums(g, x0, cols)(y) {
      SumSame(RowOf(f, y), RowOf(g, y), x0, cols);
    }
    SumSame(RowSums(f, x0, cols), RowSums(g, x0, cols), y0, rows);
  }

  /** A full period in both directions sums to the same wherever it starts. */
  lemma GridPeriod(f: (int, int) -> int, y0: nat, x0: nat, n: nat)
    requires n > 0 && (forall y, x :: f(y + n, x) == f(y, x)) && (forall y, x :: f(y, x + n) == f(y, x))
    ensures Grid(f, y0, x0, n, n) == Grid(f, 0, 0, n, n)
  {
    forall y ensures RowSums(f, x0, n)(y) == RowSums(f, 0, n)(y) {
      SumPeriod(RowOf(f, y), x0, n);
    }
    SumSame(RowSums(f, x0, n), RowSums(f, 0, n), y0, n);
    forall y ensures RowSums(f, 0, n)(y + n) == RowSums(f, 0, n)(y) {
      SumSame(RowOf(f, y + n), RowOf(f, y), 0, n);
    }
    SumPeriod(RowSums(f, 0, n), y0, n);
  }

  function Block(f: (int, int) -> int): (int, int) -> int {
    (y, x) => f(2 * y, 2 * x) + f(2 * y, 2 * x + 1) + f(2 * y + 1, 2 * x) + f(2 * y + 1, 2 * x + 1)
  }

  lemma BlockRow(f: (int, int) -> int, n: nat, y: int)
    ensures Sum(RowOf(f, 2 * y), 0, 2 * n) + Sum(RowOf(f, 2 * y + 1), 0, 2 * n) == Sum(RowOf(Block(f), y), 0, n)
  {
    SumPairs(RowOf(f, 2 * y), n);
    SumPairs(RowOf(f, 2 * y + 1), n);
    SumAdd(Halved(RowOf(f, 2 * y)), RowOf(Block(f), y), Halved(RowOf(f, 2 * y + 1)), 0, n);
  }

  /** Summing by 2x2 blocks. */
  lemma GridBlocks(f: (int, int) -> int, n: nat)
    ensures Grid(f, 0, 0, 2 * n, 2 * n) == Grid(Block(f), 0, 0, n, n)
  {
    hide Block, RowOf, Sum;
    SumPairs(RowSums(f, 0, 2 * n), n);
    forall y | 0 <= y < n ensures Halved(RowSums(f, 0, 2 * n))(y) == RowSums(Block(f), 0, n)(y) {
      BlockRow(f, n, y);
    }
    SumSame(Halved(RowSums(f, 0, 2 * n)), RowSums(Block(f), 0, n), 0, n);
  }

  lemma {:induction false} SumScale(f: int -> int, g: int -> int, c: int, lo: int, n: nat)
    requires forall k :: lo <= k < lo + n ==> g(k) == c * f(k)
    ensures Sum(g, lo, n) == c * Sum(f, lo, n)
    decreases n
  {
    if n > 0 {
      SumScale(f, g, c, lo, n - 1);
      assert c * (Sum(f, lo, n - 1) + f(lo + n - 1)) == c * Sum(f, lo, n - 1) + c * f(lo + n - 1);
    }
  }

  lemma GridScale(f: (int, int) -> int, g: (int, int) -> int, c: int, n: nat)
    requires forall y, x :: 0 <= y < n && 0 <= x < n ==> g(y, x) == c * f(y, x)
    ensures Grid(g, 0, 0, n, n) == c * Grid(f, 0, 0, n, n)
  {
    forall y | 0 <= y < n ensures RowSums(g, 0, n)(y) == c * RowSums(f, 0, n)(y) {
      SumScale(RowOf(f, y), RowOf(g, y), c, 0, n);
    }
    SumScale(RowSums(f, 0, n), RowSums(g, 0, n), c, 0, n);
  }

  function Ones(): (int, int) -> int {
    (y, x) => 1
  }

  lemma {:induction false} SumConstant(f: int -> int, c: int, lo: int, n: nat)
    requires forall k :: f(k) == c
    ensures Sum(f, lo, n) == n * c
    decreases n
  {
    if n > 0 {
      SumConstant(f, c, lo, n - 1);
      assert n * c == (n - 1) * c + c;
    }
  }

  lemma GridOnes(n: nat)
    ensures Grid(Ones(), 0, 0, n, n) == n * n
  {
    forall y ensures RowSums(Ones(), 0, n)(y) == n {
      SumConstant(RowOf(Ones(), y), 1, 0, n);
    }
    SumConstant(RowSums(Ones(), 0, n), n, 0, n);
  }

  /** Two functions that differ in one place. */
  lemma {:induction false} SumChange(f: int -> int, g: int -> int, lo: int, n: nat, at: int)
    requires lo <= at < lo + n && forall k :: lo <= k < lo + n && k != at ==> f(k) == g(k)
    ensures Sum(f, lo, n) == Sum(g, lo, n) + f(at) - g(at)
    decreases n
  {
    if at == lo + n - 1 {
      SumSame(f, g, lo, n - 1);
    } else {
      SumChange(f, g, lo, n - 1, at);
    }
  }

  lemma GridChange(f: (int, int) -> int, g: (int, int) -> int, n: nat, y0: int, x0: int)
    requires 0 <= y0 < n && 0 <= x0 < n
    requires forall y, x :: 0 <= y < n && 0 <= x < n && (y != y0 || x != x0) ==> f(y, x) == g(y, x)
    ensures Grid(f, 0, 0, n, n) == Grid(g, 0, 0, n, n) + f(y0, x0) - g(y0, x0)
  {
    forall y | 0 <= y < n && y != y0 ensures RowSums(f, 0, n)(y) == RowSums(g, 0, n)(y) {
      SumSame(RowOf(f, y), RowOf(g, y), 0, n);
    }
    SumChange(RowOf(f, y0), RowOf(g, y0), 0, n, x0);
    SumChange(RowSums(f, 0, n), RowSums(g, 0, n), 0, n, y0);
  }
}
