/** Identity, time and option primitives shared by the escrow and trust modules. */
module Base {

  /** An opaque unique identifier (a v4 UUID in the system): only equality is observable. */
  type Uuid(==)

  /** The optional value of a record field (`Option<T>`). */
  datatype Option<T> = None | Some(value: T)

  /** Timestamps are whole seconds; `Duration::days(d)` is `d * SecondsPerDay` seconds. */
  const SecondsPerDay: int := 86400

  /** Integer division that truncates toward zero, as `/` on Rust's `i64` does. */
  function TruncDiv(a: int, b: int): (q: int)
    requires b > 0
    ensures a >= 0 ==> 0 <= q <= a
    ensures a <= 0 ==> a <= q <= 0
  {
    if a >= 0 then
      DivAtMost(a, b);
      a / b
    else
      DivAtMost(-a, b);
      -((-a) / b)
  }

  /** Dividing a non-negative number by a positive one never enlarges it. */
  lemma DivAtMost(a: int, b: int)
    requires a >= 0 && b > 0
    ensures 0 <= a / b <= a
  {
    DivBounds(a, b);
    MulAtLeast(a / b, b);
  }

  lemma MulAtLeast(q: int, b: int)
    requires q >= 0 && b >= 1
    ensures q <= q * b
  {
    assert q * b == q + q * (b - 1);
  }

  /** A multiple of `k` divides by `k` exactly: the truncated quotient is the factor. */
  lemma TruncDivOfMultiple(x: int, k: int)
    requires k > 0
    ensures TruncDiv(x * k, k) == x
  {
    if x >= 0 {
      ExactQuotient(x, k);
    } else {
      assert x * k == -((-x) * k);
      ExactQuotient(-x, k);
    }
  }

  lemma ExactQuotient(y: int, k: int)
    requires y >= 0 && k > 0
    ensures y * k >= 0 && (y * k) / k == y
  {
    MulAtLeast(y, k);
    var q, r := (y * k) / k, (y * k) % k;
    assert y * k == q * k + r && 0 <= r < k;
    SmallMultipleIsZero(y - q, k, r);
  }

  /** The only multiple of `k` in [0, k) is 0. */
  lemma SmallMultipleIsZero(d: int, k: int, r: int)
    requires k > 0 && 0 <= r < k && d * k == r
    ensures d == 0
  {
    if d >= 1 {
      MulAtLeast(k, d);
    } else if d <= -1 {
      MulAtLeast(k, -d);
    }
  }

  /** The truncated quotient never overshoots the dividend in either direction. */
  lemma TruncDivBounds(a: int, b: int)
    requires b > 0
    ensures a >= 0 ==> 0 <= TruncDiv(a, b) * b <= a < TruncDiv(a, b) * b + b
    ensures a < 0 ==> TruncDiv(a, b) * b - b < a <= TruncDiv(a, b) * b <= 0
  {
    if a >= 0 {
      DivBounds(a, b);
    } else {
      DivBounds(-a, b);
    }
  }

  /** Euclidean division of a non-negative dividend brackets it between two multiples. */
  lemma DivBounds(a: int, b: int)
    requires a >= 0 && b > 0
    ensures 0 <= (a / b) * b <= a < (a / b) * b + b
  {
    var q, r := a / b, a % b;
    assert a == q * b + r && 0 <= r < b;
    assert q >= 0;
    assert q * b >= 0;
  }

  function Min(a: real, b: real): (m: real)
    ensures m <= a && m <= b && (m == a || m == b)
  {
    if a <= b then a else b
  }

  function Max(a: real, b: real): (m: real)
    ensures m >= a && m >= b && (m == a || m == b)
  {
    if a >= b then a else b
  }
}
