/** Quotients and remainders, powers of two and the bits of a number. */
module Arithmetic {
  lemma {:induction false} ProductsApart(n: nat, q: nat, p: nat)
    requires q < p
    ensures n * q + n <= n * p
  {
    assert n * p == n * (q + 1) + n * (p - q - 1);
  }

  /** Indices closer than the capacity use different slots. */
  lemma {:induction false} SlotsDiffer(i: nat, j: nat, n: nat)
    requires i < j < i + n
    ensures i % n != j % n
  {
    var q, p := i / n, j / n;
    assert i == n * q + i % n;
    assert j == n * p + j % n;
    if q < p {
      ProductsApart(n, q, p);
    } else if p < q {
      ProductsApart(n, p, q);
    }
  }

  lemma {:induction false} ModUnique(x: nat, m: nat, q: nat, r: nat)
    requires x == q * m + r && r < m
    ensures x % m == r && x / m == q
  {
    var q' := x / m;
    assert x == m * q' + x % m;
    if q' < q {
      ProductsApart(m, q', q);
    } else if q < q' {
      ProductsApart(m, q, q');
    }
  }


  function Pow2(n: nat): nat {
    if n == 0 then 1 else 2 * Pow2(n - 1)
  }

  function Quotient(x: nat, n: nat): nat
    requires n > 0
  {
    x / n
  }

  lemma {:induction false} QuotientRemainder(x: nat, n: nat)
    requires n > 0
    ensures x == n * Quotient(x, n) + x % n
  {
  }

  lemma {:induction false} QuotientMono(i: nat, j: nat, n: nat)
    requires n > 0 && i <= j
    ensures Quotient(i, n) <= Quotient(j, n)
  {
    var p, q := i / n, j / n;
    assert i == n * p + i % n && j == n * q + j % n;
    if q < p {
      ProductsApart(n, q, p);
    }
  }

  lemma {:induction false} Pow2Add(m: nat, n: nat)
    ensures Pow2(m + n) == Pow2(m) * Pow2(n)
  {
    if m > 0 {
      Pow2Add(m - 1, n);
    }
  }

  lemma {:induction false} Pow2Mono(m: nat, n: nat)
    requires m <= n
    ensures Pow2(m) <= Pow2(n)
  {
    if m < n {
      Pow2Mono(m, n - 1);
    }
  }

  /** `x & y`, bit by bit. */
  function And(x: nat, y: nat): nat {
    if x == 0 || y == 0 then 0 else 2 * And(x / 2, y / 2) + (x % 2) * (y % 2)
  }

  lemma {:induction false} HalvesMod(x: nat, m: nat)
    requires m > 0
    ensures x % (2 * m) == 2 * (x / 2 % m) + x % 2
  {
    var q, r := x / 2 / m, x / 2 % m;
    assert x / 2 == q * m + r;
    assert x == q * (2 * m) + (2 * r + x % 2);
    ModUnique(x, 2 * m, q, 2 * r + x % 2);
  }

  /** Masking with a power of two less one is the remainder. */
  lemma {:induction false} MaskIsRemainder(x: nat, k: nat)
    ensures Pow2(k) >= 1 && And(x, Pow2(k) - 1) == x % Pow2(k)
  {
    if k == 0 {
    } else {
      MaskIsRemainder(x / 2, k - 1);
      var m := Pow2(k - 1);
      HalvesMod(x, m);
      assert (2 * m - 1) / 2 == m - 1 && (2 * m - 1) % 2 == 1;
    }
  }

  /** `x % n` by repeated subtraction: the place of `x` on a ring of `n`. */
  function Ring(x: nat, n: nat): (r: nat)
    requires n > 0
    ensures r < n
  {
    if x < n then x else Ring(x - n, n)
  }

  lemma {:induction false} RingIsRemainder(x: nat, n: nat)
    requires n > 0
    ensures Ring(x, n) == x % n
  {
    if x >= n {
      RingIsRemainder(x - n, n);
      QuotientRemainder(x - n, n);
      ModUnique(x, n, Quotient(x - n, n) + 1, (x - n) % n);
    } else {
      ModUnique(x, n, 0, x);
    }
  }

  lemma {:induction false} RingSucc(x: nat, n: nat)
    requires n > 0
    ensures Ring(Ring(x, n) + 1, n) == Ring(x + 1, n)
  {
    if x >= n {
      RingSucc(x - n, n);
    }
  }

  /** Positions less than a full turn apart are different places. */
  lemma {:induction false} RingDiffers(x: nat, y: nat, n: nat)
    requires x < y < x + n
    ensures Ring(x, n) != Ring(y, n)
  {
    if x >= n {
      RingDiffers(x - n, y - n, n);
    } else if y >= n {
      assert Ring(y, n) == y - n;
    }
  }
}
