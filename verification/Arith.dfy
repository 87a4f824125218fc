/** Products, division and remainder on integers.  As for the reals, products go through a
function that the callers hide. */
module Arith {

  function Mul(x: int, y: int): int { x * y }

  lemma MulLaws(x: int, y: int, z: int)
    ensures Mul(x + y, z) == Mul(x, z) + Mul(y, z)
    ensures Mul(z, x + y) == Mul(z, x) + Mul(z, y)
    ensures Mul(x, y) == Mul(y, x)
    ensures Mul(1, x) == x == Mul(x, 1) && Mul(0, x) == 0 == Mul(x, 0)
  {}

  lemma MulAssociate(x: int, y: int, z: int)
    ensures Mul(x, Mul(y, z)) == Mul(Mul(x, y), z)
  {}

  lemma MulNonNegative(x: int, w: int)
    requires x >= 0 && w >= 0
    ensures Mul(x, w) >= 0
  {}

  lemma MulOrder(a: int, b: int, w: int)
    requires w >= 0
    ensures a <= b ==> Mul(a, w) <= Mul(b, w)
    ensures a < b ==> Mul(a, w) + w <= Mul(b, w)
  {
    hide Mul;
    if a < b {
      MulNonNegative(b - a - 1, w);
      MulLaws(b - a - 1, a + 1, w);
      MulLaws(a, 1, w);
      MulLaws(w, 0, 0);
    }
  }

  lemma QuotientUnique(a: int, b: int, w: int, r: int, t: int)
    requires 0 <= r < w && 0 <= t < w && Mul(a, w) + r == Mul(b, w) + t
    ensures a == b && r == t
  {
    hide Mul;
    MulOrder(a, b, w);
    MulOrder(b, a, w);
  }

  lemma DivModForm(x: nat, w: nat)
    requires w > 0
    ensures x == Mul(x / w, w) + x % w && 0 <= x % w < w && 0 <= x / w
  {}

  /** Quotient and remainder of a number given in quotient-remainder form. */
  lemma DivMod(q: nat, w: nat, r: nat, x: nat)
    requires r < w && x == Mul(q, w) + r
    ensures x / w == q && x % w == r
  {
    hide Mul;
    DivModForm(x, w);
    QuotientUnique(x / w, q, w, x % w, r);
  }

  lemma ModSmall(x: nat, w: nat)
    requires x < w
    ensures x % w == x && x / w == 0
  {
    hide Mul;
    MulLaws(0, 0, w);
    DivMod(0, w, x, x);
  }

  /** Adding less than w changes the remainder; adding w does not. */
  lemma ModShift(x: nat, d: nat, w: nat)
    requires 0 < d <= w
    ensures (x + d) % w == x % w <==> d == w
    ensures (x + w) / w == x / w + 1
  {
    hide Mul;
    DivModForm(x, w);
    DivModForm(x + d, w);
    MulLaws(x / w, 1, w);
    MulLaws(w, 0, 0);
    MulLaws((x + d) / w, -(x / w), w);
    DivMod(x / w + 1, w, x % w, x + w);
    if (x + d) % w == x % w && d < w {
      MulOrder((x + d) / w, x / w, w);
      MulOrder(x / w, (x + d) / w, w);
      assert false;
    }
  }

  /** The sum of the first n counts. */
  function PrefixSum(counts: seq<nat>, n: nat): nat
    requires n <= |counts|
  {
    if n == 0 then 0 else PrefixSum(counts, n - 1) + counts[n - 1]
  }

  lemma PrefixSumOfNone(counts: seq<nat>)
    ensures PrefixSum(counts, 0) == 0
  {}

  lemma PrefixSumStep(counts: seq<nat>, n: nat)
    requires n < |counts|
    ensures PrefixSum(counts, n + 1) == PrefixSum(counts, n) + counts[n]
  {}

  lemma {:induction false} PrefixSumMonotone(counts: seq<nat>, m: nat, n: nat)
    requires m <= n <= |counts|
    ensures PrefixSum(counts, m) <= PrefixSum(counts, n)
    ensures m < n ==> PrefixSum(counts, m) + counts[m] <= PrefixSum(counts, n)
  {
    if m < n {
      PrefixSumMonotone(counts, m, n - 1);
    }
  }
}
