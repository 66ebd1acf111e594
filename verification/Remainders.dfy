/** Division with remainder by a variable divisor. */
module Remainders {
  lemma AtLeast(a: int, step: int)
    requires a >= 1 && step > 0
    ensures a * step >= step
  {
    Positive(a - 1, step);
  }

  lemma Positive(a: int, b: int)
    requires a >= 0 && b >= 0
    ensures a * b >= 0
  {
  }

  lemma OnlyZeroBetween(a: int, step: int, d: int)
    requires step > 0 && a * step == d && -step < d < step
    ensures a == 0
  {
    if a >= 1 {
      AtLeast(a, step);
    } else if a <= -1 {
      assert (-a) * step == -(a * step);
      AtLeast(-a, step);
    }
  }

  lemma UniqueRemainder(x: int, step: int, q: int, r: int)
    requires 0 <= r < step && x == q * step + r
    ensures x % step == r && x / step == q
  {
    var p, s := x / step, x % step;
    assert x == p * step + s;
    assert (p - q) * step == r - s;
    OnlyZeroBetween(p - q, step, r - s);
  }

  lemma AddStep(x: int, step: int)
    requires step > 0
    ensures (x + step) % step == x % step
  {
    var q, r := x / step, x % step;
    assert x == q * step + r;
    assert x + step == (q + 1) * step + r;
    UniqueRemainder(x + step, step, q + 1, r);
  }

  lemma SmallRemainder(x: int, step: int)
    requires 0 <= x < step
    ensures x % step == x
  {
    UniqueRemainder(x, step, 0, x);
  }
}
