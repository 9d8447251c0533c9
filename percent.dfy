/**
 * `Math.round(part / total * 100)` for whole numbers and a positive total, as both the local
 * roadmap store and the home screen compute a percentage, taken on the exact quotient: the
 * rounded value is `floor((200 * part + total) / (2 * total))`. JavaScript rounds the quotient
 * and the product to doubles first, so where the exact value is a half the computed one can
 * fall just below it and round down (29 of 200 gives 14 there, 15 here).
 */
module Percent {
  /** The percentage rounded half up: the whole number nearest to `100 * part / total`. */
  function RoundedPercent(part: int, total: int): (p: int)
    requires total > 0
    ensures 2 * total * p <= 200 * part + total < 2 * total * (p + 1)
    ensures 0 <= part <= total ==> 0 <= p <= 100
    ensures part == 0 ==> p == 0
    ensures part == total ==> p == 100
  {
    var p := (200 * part + total) / (2 * total);
    RoundedPercentBounds(part, total, p);
    p
  }

  lemma {:induction false} RoundedPercentBounds(part: int, total: int, p: int)
    requires total > 0 && p == (200 * part + total) / (2 * total)
    ensures 2 * total * p <= 200 * part + total < 2 * total * (p + 1)
    ensures 0 <= part <= total ==> 0 <= p <= 100
    ensures part == 0 ==> p == 0
    ensures part == total ==> p == 100
  {
    var d := 2 * total;
    var n := 200 * part + total;
    assert d * p <= n < d * (p + 1);
    if part <= total {
      assert n < d * 101;
      if p > 100 {
        MulMonotone(d, 101, p);
      }
    }
    if part == 0 {
      assert n < d * 1;
      if p > 0 {
        MulMonotone(d, 1, p);
      }
    }
    if part == total {
      assert n == d * 100 + total;
      if p < 100 {
        MulMonotone(d, p + 1, 100);
      }
    }
    if part >= 0 && p < 0 {
      MulMonotone(d, p + 1, 0);
    }
  }

  lemma {:induction false} MulMonotone(d: nat, a: int, b: int)
    requires a <= b
    ensures d * a <= d * b
  {
    assert d * b - d * a == d * (b - a);
  }
}
