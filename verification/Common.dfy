/** What several components share: optional values, minimum and maximum, and C++ integer division. */
module Common {

  datatype Option<+T> = None | Some(value: T)

  function Max(a: int, b: int): int { if a > b then a else b }

  function Min(a: int, b: int): int { if a < b then a else b }

  /** Integer division that truncates toward zero. */
  function TruncDiv(a: int, b: int): int
    requires b > 0
  {
    if a >= 0 then a / b else -((-a) / b)
  }

  lemma WholeMultiple(k: int, d: int)
    requires d > 0
    ensures k >= 1 ==> k * d >= d
    ensures k <= -1 ==> k * d <= -d
  {
  }

  /** Quotient and remainder are what they multiply back to. */
  lemma QuotientIs(n: int, q: int, r: int, d: int)
    requires d > 0 && n == q * d + r && 0 <= r < d
    ensures n / d == q && n % d == r
  {
    var k := n / d - q;
    assert n == (n / d) * d + n % d;
    assert k * d == r - n % d;
    WholeMultiple(k, d);
  }
}
