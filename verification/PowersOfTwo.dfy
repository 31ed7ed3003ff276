/** Powers of two and what being aligned to one implies. */
module PowersOfTwo {
  import opened Arithmetic

  predicate IsPower2(n: nat) {
    n == 1 || (n > 1 && n % 2 == 0 && IsPower2(n / 2))
  }

  lemma {:induction false} PowersDivide(a: nat, b: nat)
    requires IsPower2(a) && IsPower2(b) && a <= b
    ensures b % a == 0
    decreases b
  {
    if a > 1 {
      PowersDivide(a / 2, b / 2);
      DoubleBoth(a / 2, b / 2);
    }
  }

  /** A multiple of a larger power of two is a multiple of a smaller one. */
  lemma AlignedDown(x: nat, a: nat, b: nat)
    requires IsPower2(a) && IsPower2(b) && a <= b && x % b == 0
    ensures x % a == 0
  {
    PowersDivide(a, b);
    Divides(x, b, a);
  }
}
