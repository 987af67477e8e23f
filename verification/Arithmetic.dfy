/** Facts about products and quotients that the solver does not find alone. */
module Arithmetic {

  function Pow2(k: nat): (p: nat)
    ensures p > 0
  {
    if k == 0 then 1 else 2 * Pow2(k - 1)
  }

  lemma {:induction false} Pow2Monotone(a: nat, b: nat)
    ensures a <= b ==> Pow2(a) <= Pow2(b)
  {
    if a < b {
      Pow2Monotone(a, b - 1);
    }
  }

  /** `a * b` by repeated addition. Specifications use it for products of two variables. */
  function Times(a: nat, b: nat): nat {
    if b == 0 then 0 else a + Times(a, b - 1)
  }

  lemma {:induction false} TimesIsProduct(a: nat, b: nat)
    ensures Times(a, b) == a * b
    decreases b
  {
    if b > 0 {
      TimesIsProduct(a, b - 1);
    }
  }

  lemma {:induction false} TimesGrows(a: nat, b: nat, c: nat)
    requires b <= c
    ensures Times(a, b) <= Times(a, c)
    decreases c
  {
    if b < c {
      TimesGrows(a, b, c - 1);
    }
  }

  /** `x % n` by repeated subtraction. */
  function Remainder(x: nat, n: nat): (r: nat)
    requires n > 0
    ensures r < n
  {
    if x < n then x else Remainder(x - n, n)
  }

  lemma {:induction false} RemainderIsMod(x: nat, n: nat)
    requires n > 0
    ensures Remainder(x, n) == x % n
    decreases x
  {
    if x < n {
      ModUnique(x, 0, n, x);
    } else {
      RemainderIsMod(x - n, n);
      Distribute(x / n, 1, n);
      assert x - n == (x / n - 1) * n + x % n;
      ModUnique(x - n, x / n - 1, n, x % n);
    }
  }

  lemma Distribute(a: int, b: int, n: int)
    ensures (a - b) * n == a * n - b * n
  {
  }

  lemma AtLeastOnce(a: int, n: int)
    requires a >= 1 && n > 0
    ensures a * n >= n
  {
  }

  lemma ModUnique(x: int, q: int, n: int, j: int)
    requires 0 <= j < n && x == q * n + j
    ensures x % n == j && x / n == q
  {
    QuotientUnique(x / n, x % n, q, n, j);
  }

  lemma QuotientUnique(d: int, m: int, q: int, n: int, j: int)
    requires 0 <= j < n && 0 <= m < n && d * n + m == q * n + j
    ensures d == q && m == j
  {
    Distribute(d, q, n);
    Distribute(q, d, n);
    if d > q {
      AtLeastOnce(d - q, n);
    } else if d < q {
      AtLeastOnce(q - d, n);
    }
  }

  lemma RoomAbove(q: int, top: int, n: int, k: int)
    requires 0 <= k < n && q * n + k < top * n
    ensures q * n + n <= top * n
  {
    Distribute(top, q, n);
    if q < top {
      AtLeastOnce(top - q, n);
    } else {
      Distribute(q, top, n);
      if q > top {
        AtLeastOnce(q - top, n);
      }
    }
  }

  lemma ProductGrows(a: int, b: int, n: int)
    requires a < b && n > 0
    ensures a * n < b * n
  {
    Distribute(b, a, n);
    AtLeastOnce(b - a, n);
  }

  lemma ProductOrder(a: int, b: int, n: int)
    requires n > 0
    ensures a * n <= b * n <==> a <= b
  {
    if a < b {
      ProductGrows(a, b, n);
    } else if b < a {
      ProductGrows(b, a, n);
    }
  }

  /** Reducing a summand first does not change a remainder. */
  lemma ReduceFirst(x: nat, y: nat, n: nat)
    requires n > 0
    ensures (x % n + y) % n == (x + y) % n
  {
    var q, m := x / n, x % n;
    var p, r := (m + y) / n, (m + y) % n;
    assert x == q * n + m && m + y == p * n + r;
    Distribute(q, -p, n);
    ModUnique(x + y, q + p, n, r);
  }

  /** Halving first does not change a quotient. */
  lemma Halve(i: nat, p: nat)
    requires p > 0
    ensures i / 2 / p == i / (2 * p)
  {
    var h, b := i / 2, i % 2;
    var q, r := h / p, h % p;
    assert i == q * (2 * p) + (2 * r + b) by {
      Distribute(q, 0, 2 * p);
      assert q * (2 * p) == 2 * (q * p);
    }
    ModUnique(i, q, 2 * p, 2 * r + b);
  }
}
