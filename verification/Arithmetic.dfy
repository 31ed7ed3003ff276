/** Facts about products, quotients and remainders that the solver needs in small steps. */
module Arithmetic {
  const INT_LIMIT: int := 0x8000_0000

  /** The cast to a 32-bit int. */
  function Int32(x: int): (r: int)
    ensures -INT_LIMIT <= r < INT_LIMIT
    ensures -INT_LIMIT <= x < INT_LIMIT ==> r == x
  {
    (x + INT_LIMIT) % (2 * INT_LIMIT) - INT_LIMIT
  }

  lemma Distribute(a: int, b: int, c: int)
    ensures (a + b) * c == a * c + b * c
  {
  }

  lemma Associate(a: int, b: int, c: int)
    ensures a * (b * c) == (a * b) * c
  {
  }

  lemma Cancel(a: nat, b: nat, c: nat)
    requires c > 0
    ensures a * c > b * c <==> a > b
  {
    var d := a - b;
    Distribute(d, b, c);
    assert d >= 1 ==> d * c >= c;
    assert d <= 0 ==> d * c <= 0;
  }

  lemma Differ(a: int, b: int, c: nat)
    requires a != b && c > 0
    ensures a * c != b * c
  {
    var d := a - b;
    Distribute(d, b, c);
    assert d >= 1 ==> d * c >= c;
    assert d <= -1 ==> d * c <= 0 - c;
  }

  /** Quotient and remainder are unique. */
  lemma DivUnique(j: int, d: int, r: int)
    requires 0 <= r < d
    ensures (j * d + r) / d == j && (j * d + r) % d == r
  {
    var x := j * d + r;
    var e := j - x / d;
    assert e * d == x % d - r;
    assert e >= 1 ==> e * d >= d;
    assert e <= -1 ==> e * d <= 0 - d;
  }

  lemma ModShift(y: int, n: int)
    requires n > 0
    ensures (y + n) % n == y % n
  {
    var j, r := y / n, y % n;
    Distribute(j, 1, n);
    DivUnique(j + 1, n, r);
  }

  /** Divisibility is transitive. */
  lemma Divides(x: int, b: int, a: int)
    requires a > 0 && b > 0 && x % b == 0 && b % a == 0
    ensures x % a == 0
  {
    var k, m := x / b, b / a;
    assert x == k * b && b == m * a;
    Associate(k, m, a);
    DivUnique(k * m, a, 0);
  }

  lemma DoubleBoth(a: int, b: int)
    requires a > 0 && b % a == 0
    ensures (2 * b) % (2 * a) == 0
  {
    var k := b / a;
    assert b == k * a;
    Associate(k, 2, a);
    assert k * (2 * a) == 2 * b;
    DivUnique(k, 2 * a, 0);
  }
}
