/** Minimum and maximum, multiples, and facts about multiplication and division used by several modules. */
module Arithmetic {
  lemma {:induction false} MulAtLeast(k: int, d: nat)
    requires k >= 1
    ensures k * d >= d
  {
    assert k * d == (k - 1) * d + d;
  }

  lemma {:induction false} MulMonotone(a: int, b: int, x: nat)
    requires a <= b
    ensures a * x <= b * x
  {
    assert (b - a) * x == b * x - a * x;
  }

  // Quotient and remainder are unique.
  lemma {:induction false} Quotient(x: int, d: nat, q: int, r: nat)
    requires x == q * d + r && r < d
    ensures x / d == q && x % d == r
  {
    var p, s := x / d, x % d;
    assert x == p * d + s;
    assert (p - q) * d == r - s;
    assert (q - p) * d == s - r;
    if p > q {
      MulAtLeast(p - q, d);
    } else if p < q {
      MulAtLeast(q - p, d);
    }
  }

  // Adding the same number to numbers that agree modulo m.
  lemma {:induction false} SumModulo(a: int, b: int, c: int, m: nat)
    requires m > 0 && a % m == b % m
    ensures (a + c) % m == (b + c) % m
  {
    var q, r := (b + c) / m, (b + c) % m;
    assert a + c == (q + (a / m - b / m)) * m + r by {
      assert a == a / m * m + a % m && b == b / m * m + b % m;
      assert (q + (a / m - b / m)) * m == q * m + (a / m * m - b / m * m);
    }
    Quotient(a + c, m, q + (a / m - b / m), r);
  }

  function Max(a: int, b: int): (m: int)
    ensures a <= m && b <= m
  {
    if a < b then b else a
  }

  function Min(a: int, b: int): (m: int)
    ensures m <= a && m <= b
  {
    if a < b then a else b
  }

  // Where the k-th of equally large pieces starts.
  ghost function Offset(k: nat, size: nat): nat { k * size }

  lemma {:induction false} OffsetNext(k: nat, size: nat)
    ensures Offset(k + 1, size) == Offset(k, size) + size && Offset(0, size) == 0
  {
    assert (k + 1) * size == k * size + size;
  }

  lemma {:induction false} OffsetsApart(j: nat, k: nat, size: nat)
    requires j < k
    ensures Offset(j, size) + size <= Offset(k, size)
  {
    MulAtLeast(k - j, size);
    assert (k - j) * size == k * size - j * size;
  }

  function Pow2(n: nat): (p: nat)
    ensures p > 0
  {
    if n == 0 then 1 else 2 * Pow2(n - 1)
  }

  lemma {:induction false} PowGrows(m: nat, n: nat)
    requires m <= n
    ensures Pow2(m) <= Pow2(n)
    decreases n
  {
    if m < n {
      PowGrows(m, n - 1);
    }
  }
}
