/** Finite sums, polynomials in coefficient form, and roots of unity modulo `p`. */
module Polynomial {
  import opened Modular

  function Sum(n: nat, f: nat -> int): int
  {
    if n == 0 then 0 else Sum(n - 1, f) + f(n - 1)
  }

  lemma {:induction false} SumCong(n: nat, f: nat -> int, g: nat -> int, p: int)
    requires p > 0 && forall i: nat :: i < n ==> f(i) % p == g(i) % p
    ensures Sum(n, f) % p == Sum(n, g) % p
  {
    if n != 0 {
      SumCong(n - 1, f, g, p);
      AddCong(Sum(n - 1, f), Sum(n - 1, g), f(n - 1), g(n - 1), p);
    }
  }

  lemma {:induction false} SumEqual(n: nat, f: nat -> int, g: nat -> int)
    requires forall i: nat :: i < n ==> f(i) == g(i)
    ensures Sum(n, f) == Sum(n, g)
  {
    if n != 0 {
      SumEqual(n - 1, f, g);
    }
  }

  lemma {:induction false} SumScale(n: nat, a: int, f: nat -> int, g: nat -> int)
    requires forall i: nat :: i < n ==> g(i) == a * f(i)
    ensures Sum(n, g) == a * Sum(n, f)
  {
    if n != 0 {
      SumScale(n - 1, a, f, g);
      assert a * (Sum(n - 1, f) + f(n - 1)) == a * Sum(n - 1, f) + a * f(n - 1);
    }
  }

  lemma {:induction false} SumAdd(n: nat, f: nat -> int, g: nat -> int, h: nat -> int)
    requires forall i: nat :: i < n ==> h(i) == f(i) + g(i)
    ensures Sum(n, h) == Sum(n, f) + Sum(n, g)
  {
    if n != 0 {
      SumAdd(n - 1, f, g, h);
    }
  }

  lemma {:induction false} SumZero(n: nat, f: nat -> int)
    requires forall i: nat :: i < n ==> f(i) == 0
    ensures Sum(n, f) == 0
  {
    if n != 0 {
      SumZero(n - 1, f);
    }
  }

  /** A sum with one non-zero term. */
  lemma {:induction false} SumSingle(n: nat, j: nat, f: nat -> int)
    requires j < n && forall i: nat :: i < n && i != j ==> f(i) == 0
    ensures Sum(n, f) == f(j)
  {
    if j == n - 1 {
      SumZero(n - 1, f);
    } else {
      SumSingle(n - 1, j, f);
    }
  }

  /** Rows first or columns first. */
  lemma {:induction false} SumSwap(n: nat, m: nat, f: (nat, nat) -> int)
    ensures Sum(n, (i: nat) => Sum(m, (j: nat) => f(i, j))) == Sum(m, (j: nat) => Sum(n, (i: nat) => f(i, j)))
  {
    if n == 0 {
      SumZero(m, (j: nat) => Sum(n, (i: nat) => f(i, j)));
    } else {
      SumSwap(n - 1, m, f);
      SumAdd(m, (j: nat) => Sum(n - 1, (i: nat) => f(i, j)), (j: nat) => f(n - 1, j),
             (j: nat) => Sum(n, (i: nat) => f(i, j)));
    }
  }

  /** A sum of rows is congruent to the sum of the columns of the same table. */
  lemma DoubleSum(n: nat, m: nat, f: (nat, nat) -> int, rows: nat -> int, cols: nat -> int, p: int)
    requires p > 0
    requires forall i: nat :: i < n ==> rows(i) == Sum(m, (j: nat) => f(i, j))
    requires forall j: nat :: j < m ==> cols(j) % p == Sum(n, (i: nat) => f(i, j)) % p
    ensures Sum(n, rows) % p == Sum(m, cols) % p
  {
    SumEqual(n, rows, (i: nat) => Sum(m, (j: nat) => f(i, j)));
    SumSwap(n, m, f);
    SumCong(m, cols, (j: nat) => Sum(n, (i: nat) => f(i, j)), p);
  }

  /** A sum over [0, 2n) split into its even and odd terms. */
  lemma {:induction false} SumEvenOdd(n: nat, f: nat -> int, even: nat -> int, odd: nat -> int)
    requires forall i: nat {:trigger even(i)} :: i < n ==> even(i) == f(2 * i)
    requires forall i: nat {:trigger odd(i)} :: i < n ==> odd(i) == f(2 * i + 1)
    ensures Sum(n + n, f) == Sum(n, even) + Sum(n, odd)
  {
    if n != 0 {
      SumEvenOdd(n - 1, f, even, odd);
      assert Sum(n + n, f) == Sum(n + n - 1, f) + f(2 * (n - 1) + 1);
      assert Sum(n + n - 1, f) == Sum((n - 1) + (n - 1), f) + f(2 * (n - 1));
    }
  }

  /** A sum over [0, n + m) split at n. */
  lemma {:induction false} SumHalves(n: nat, m: nat, f: nat -> int, upper: nat -> int)
    requires forall i: nat {:trigger upper(i)} :: i < m ==> upper(i) == f(n + i)
    ensures Sum(n + m, f) == Sum(n, f) + Sum(m, upper)
  {
    if m != 0 {
      SumHalves(n, m - 1, f, upper);
    }
  }

  /** The polynomial with coefficients `c` at `x`. */
  function Eval(c: seq<int>, x: int): int
  {
    Sum(|c|, (j: nat) => if j < |c| then c[j] * Pow(x, j) else 0)
  }

  lemma EvalCong(c: seq<int>, x: int, y: int, p: int)
    requires p > 0 && x % p == y % p
    ensures Eval(c, x) % p == Eval(c, y) % p
  {
    forall j: nat | j < |c|
      ensures (c[j] * Pow(x, j)) % p == (c[j] * Pow(y, j)) % p
    {
      PowCong(x, y, j, p);
      MulCong(c[j], c[j], Pow(x, j), Pow(y, j), p);
    }
    SumCong(|c|, (j: nat) => if j < |c| then c[j] * Pow(x, j) else 0,
            (j: nat) => if j < |c| then c[j] * Pow(y, j) else 0, p);
  }

  /** The quotient of x^n - y^n by x - y. */
  function Geometric(x: int, y: int, n: nat): int
  {
    Sum(n, (m: nat) => if m < n then Pow(x, m) * Pow(y, n - 1 - m) else 0)
  }

  lemma {:induction false} GeometricStep(x: int, y: int, n: nat)
    ensures Geometric(x, y, n + 1) == y * Geometric(x, y, n) + Pow(x, n)
  {
    var f := (m: nat) => if m < n then Pow(x, m) * Pow(y, n - 1 - m) else 0;
    var g := (m: nat) => if m < n + 1 then Pow(x, m) * Pow(y, n - m) else 0;
    forall m: nat | m < n
      ensures g(m) == y * f(m)
    {
      assert Pow(y, n - m) == y * Pow(y, n - 1 - m);
      assert Pow(x, m) * (y * Pow(y, n - 1 - m)) == y * (Pow(x, m) * Pow(y, n - 1 - m));
    }
    SumScale(n, y, f, g);
    assert g(n) == Pow(x, n) * Pow(y, 0) == Pow(x, n);
    assert Sum(n + 1, g) == Sum(n, g) + g(n);
    SumEqual(n + 1, g, (m: nat) => if m < n + 1 then Pow(x, m) * Pow(y, n + 1 - 1 - m) else 0);
  }

  lemma {:induction false} GeometricSum(x: int, y: int, n: nat)
    ensures (x - y) * Geometric(x, y, n) == Pow(x, n) - Pow(y, n)
  {
    if n == 0 {
      assert Geometric(x, y, 0) == 0;
    } else {
      var g, a, b := Geometric(x, y, n - 1), Pow(x, n - 1), Pow(y, n - 1);
      GeometricSum(x, y, n - 1);
      GeometricStep(x, y, n - 1);
      GeometricAlgebra(x, y, g, a, b);
    }
  }

  lemma GeometricAlgebra(x: int, y: int, g: int, a: int, b: int)
    requires (x - y) * g == a - b
    ensures (x - y) * (y * g + a) == x * a - y * b
  {
    assert (x - y) * (y * g) == y * ((x - y) * g);
  }

  lemma GeometricCong(x: int, y: int, y': int, n: nat, p: int)
    requires p > 0 && y % p == y' % p
    ensures Geometric(x, y, n) % p == Geometric(x, y', n) % p
  {
    forall m: nat | m < n
      ensures (Pow(x, m) * Pow(y, n - 1 - m)) % p == (Pow(x, m) * Pow(y', n - 1 - m)) % p
    {
      PowCong(y, y', n - 1 - m, p);
      MulCong(Pow(x, m), Pow(x, m), Pow(y, n - 1 - m), Pow(y', n - 1 - m), p);
    }
    SumCong(n, (m: nat) => if m < n then Pow(x, m) * Pow(y, n - 1 - m) else 0,
            (m: nat) => if m < n then Pow(x, m) * Pow(y', n - 1 - m) else 0, p);
  }
}
