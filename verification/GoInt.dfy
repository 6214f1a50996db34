/** Fixed-width integer semantics of Go: wrap-around of int64 and uint64, and the
    division that truncates toward zero. */
module GoInt {
  const TWO_TO_32: int := 0x1_0000_0000
  const TWO_TO_64: int := 0x1_0000_0000_0000_0000
  const MAX_INT64: int := 0x7fff_ffff_ffff_ffff
  const MIN_INT64: int := -0x8000_0000_0000_0000
  const MAX_UINT64: int := 0xffff_ffff_ffff_ffff

  newtype uint8 = x: int | 0 <= x < 256
  newtype uint64 = x: int | 0 <= x < TWO_TO_64

  type U64 = x: nat | x <= MAX_UINT64
  type I64 = x: int | MIN_INT64 <= x <= MAX_INT64
  type Byte = b: int | 0 <= b < 256

  predicate InInt64(x: int) {
    MIN_INT64 <= x <= MAX_INT64
  }

  /** The int64 value that Go's `+`, `-` and `*` leave when the exact result is `x`. */
  function Wrap64(x: int): (r: int)
    ensures InInt64(r)
    ensures InInt64(x) ==> r == x
  {
    if InInt64(x) then x else (x - MIN_INT64) % TWO_TO_64 + MIN_INT64
  }

  /** The uint64 value that Go's `+`, `-` and `*` leave when the exact result is `x`. */
  function WrapU64(x: int): (r: int)
    ensures 0 <= r <= MAX_UINT64
    ensures 0 <= x <= MAX_UINT64 ==> r == x
  {
    if 0 <= x <= MAX_UINT64 then x else x % TWO_TO_64
  }

  /** Go's integer division. */
  function TruncDiv(a: int, b: int): int
    requires b > 0
  {
    if a >= 0 then a / b else -((-a) / b)
  }

  lemma MulBound(m: nat, d: int)
    requires m > 0
    ensures d >= 1 ==> m * d >= m
    ensures d <= -1 ==> m * d + m <= 0
  {
  }

  lemma DivModFromParts(x: int, a: int, m: nat, r: nat)
    requires x == m * a + r && r < m
    ensures x % m == r && x / m == a
  {
    var d := x / m - a;
    assert m * d == r - x % m;
    MulBound(m, d);
  }

  lemma Distribute(a: int, b: int, c: int)
    ensures (a + b) * c == a * c + b * c
    ensures c * (a + b) == c * a + c * b
  {
  }

  lemma ProductSign(n: nat, x: int)
    ensures x <= 0 ==> n * x <= 0
    ensures x >= 0 ==> n * x >= 0
  {
  }

  lemma ProductOrdered(a: nat, b: nat, c: nat)
    requires a <= b
    ensures a * c <= b * c
  {
    ProductSign(c, b - a);
    Distribute(a, b - a, c);
  }

  lemma QuotientWithin(s: int, n: nat, lo: int, hi: int)
    requires n > 0 && n * lo <= s <= n * hi
    ensures lo <= s / n <= hi
  {
    var q := s / n;
    Distribute(q, -lo, n);
    Distribute(q, -hi, n);
    MulBound(n, q - lo);
    MulBound(n, q - hi);
  }

  lemma DivOrdered(a: int, b: int, n: nat)
    requires n > 0 && a <= b
    ensures a / n <= b / n
  {
    Distribute(b / n, -(a / n), n);
    MulBound(n, b / n - a / n);
  }

  lemma Remainder(s: int, n: nat)
    requires n > 0
    ensures s - n * (s / n) == s % n && 0 <= s % n < n
  {
  }

  lemma WrapIsMod(x: int)
    ensures Wrap64(x) == (x - MIN_INT64) % TWO_TO_64 + MIN_INT64
  {
    if InInt64(x) {
      DivModFromParts(x - MIN_INT64, 0, TWO_TO_64, x - MIN_INT64);
    }
  }

  /** Adding up with wrap-around at every step wraps the exact sum. */
  lemma WrapOfSum(a: int, b: int)
    ensures Wrap64(Wrap64(a) + b) == Wrap64(a + b)
  {
    WrapIsMod(a);
    WrapIsMod(Wrap64(a) + b);
    WrapIsMod(a + b);
    var x, y := a - MIN_INT64, (a - MIN_INT64) % TWO_TO_64 + b;
    DivModFromParts(x + b, x / TWO_TO_64 + y / TWO_TO_64, TWO_TO_64, y % TWO_TO_64);
  }

  lemma UnsignedIsMod(x: int)
    ensures WrapU64(x) == x % TWO_TO_64
  {
    if 0 <= x <= MAX_UINT64 {
      DivModFromParts(x, 0, TWO_TO_64, x);
    }
  }

  lemma WrapOfSumU64(a: int, b: int)
    ensures WrapU64(WrapU64(a) + b) == WrapU64(a + b)
  {
    UnsignedIsMod(a);
    UnsignedIsMod(WrapU64(a) + b);
    UnsignedIsMod(a + b);
    var y := a % TWO_TO_64 + b;
    DivModFromParts(a + b, a / TWO_TO_64 + y / TWO_TO_64, TWO_TO_64, y % TWO_TO_64);
  }

  /** q is p / ratio rounded toward zero. */
  predicate QuotientTowardZero(p: int, ratio: int, q: int) {
    if p >= 0 then 0 <= q && q * ratio <= p < q * ratio + ratio
    else q <= 0 && q * ratio - ratio < p <= q * ratio
  }

  lemma TruncDivIsQuotient(p: int, ratio: int)
    requires ratio > 0
    ensures QuotientTowardZero(p, ratio, TruncDiv(p, ratio))
  {
    Remainder(if p >= 0 then p else -p, ratio);
    if p >= 0 {
      ProductSign(p, ratio - 1);
      DivOrdered(0, p, ratio);
    } else {
      DivOrdered(0, -p, ratio);
    }
  }

  lemma WholeQuotient(p: int)
    ensures QuotientTowardZero(p, 1, p)
  {
  }

  /** Adding an even multiple of m leaves the parity of the quotient by m. */
  lemma EvenShift(b: nat, m: nat, c: nat)
    requires m > 0
    ensures (b + m * (2 * c)) / m % 2 == b / m % 2
  {
    Distribute(b / m, 2 * c, m);
    DivModFromParts(b + m * (2 * c), b / m + 2 * c, m, b % m);
    DivModFromParts(b / m + 2 * c, b / m / 2 + c, 2, b / m % 2);
  }
}
