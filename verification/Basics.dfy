/** Small facts used throughout: optional values, regrouping, and division with remainder. */
module Basics {

  datatype Option<T> = None | Some(value: T)

  lemma Regroup<T>(a: seq<T>, b: seq<T>, c: seq<T>)
    ensures (a + b) + c == a + (b + c)
  {
  }

  /** A multiple that is not zero is at least one divisor away from it. */
  lemma Far(a: int, d: int)
    requires a != 0 && d > 0
    ensures a * d >= d || a * d <= -d
  {
  }

  lemma MulSum(a: int, b: int, c: int)
    ensures (a + b) * c == a * c + b * c
  {
  }

  lemma QuotientIs(x: int, d: int, q: int, r: int)
    requires 0 <= r < d && x == q * d + r
    ensures x / d == q && x % d == r
  {
    var k := x / d;
    assert x == k * d + x % d;
    MulSum(k, -q, d);
    if k != q {
      Far(k - q, d);
    }
  }
}
