/** Roots of unity of order 2^k modulo `p`, the identities behind the barycentric formula, and bit reversal. */
module RootsOfUnity {
  import opened Modular
  import opened Polynomial

  /** `w` generates the 2^k-th roots of unity: it is 1 for k = 0 and otherwise its 2^(k-1)-th power is -1. */
  ghost predicate PrimitiveRoot(w: int, k: nat, p: nat)
  {
    p > 2 && if k == 0 then w % p == 1 else Pow(w, Exp2(k - 1)) % p == p - 1
  }

  lemma MinusOneSquared(a: int, p: nat)
    requires p > 2 && a % p == p - 1
    ensures (a * a) % p == 1
  {
    DivModUnique(-1, -1, p - 1, p);
    MulCong(a, -1, a, -1, p);
    SmallMod(1, p);
  }

  lemma {:induction false} MinusOneOdd(e: nat)
    ensures Pow(-1, 2 * e) == 1 && Pow(-1, 2 * e + 1) == -1
  {
    if e != 0 {
      MinusOneOdd(e - 1);
      assert Pow(-1, 2 * e) == -1 * Pow(-1, 2 * e - 1);
    }
  }

  lemma RootSquared(w: int, k: nat, p: nat)
    requires k > 0 && PrimitiveRoot(w, k, p)
    ensures PrimitiveRoot(w * w, k - 1, p)
  {
    if k == 1 {
      assert Pow(w, 1) == w * Pow(w, 0) == w;
      MinusOneSquared(w, p);
    } else {
      PowMul(w, 2, Exp2(k - 2));
      assert Pow(w, 2) == w * Pow(w, 1) == w * w;
    }
  }

  lemma RootPeriod(w: int, k: nat, p: nat)
    requires PrimitiveRoot(w, k, p)
    ensures Pow(w, Exp2(k)) % p == 1
  {
    if k == 0 {
      assert Pow(w, 1) == w * Pow(w, 0) == w;
    } else {
      PowAdd(w, Exp2(k - 1), Exp2(k - 1));
      MinusOneSquared(Pow(w, Exp2(k - 1)), p);
    }
  }

  /** No power with an exponent that 2^k does not divide is 1. */
  lemma {:induction false} RootOrder(w: int, k: nat, e: nat, p: nat)
    requires PrimitiveRoot(w, k, p) && e % Exp2(k) != 0
    ensures Pow(w, e) % p != 1
    decreases k
  {
    if e % 2 == 0 {
      var h := e / 2;
      RootSquared(w, k, p);
      if h % Exp2(k - 1) == 0 {
        var q := h / Exp2(k - 1);
        assert h == Exp2(k - 1) * q;
        assert e == q * Exp2(k) + 0;
        DivModUnique(e, q, 0, Exp2(k));
      }
      RootOrder(w * w, k - 1, h, p);
      PowMul(w, 2, h);
      assert Pow(w, 2) == w * Pow(w, 1) == w * w;
    } else {
      OddPowerNotOne(w, k, e, p);
    }
  }

  lemma OddPowerNotOne(w: int, k: nat, e: nat, p: nat)
    requires k > 0 && PrimitiveRoot(w, k, p) && e % 2 == 1
    ensures Pow(w, e) % p != 1
  {
    var h := Exp2(k - 1);
    if Pow(w, e) % p == 1 {
      PowMul(w, h, e);
      PowMul(w, e, h);
      assert h * e == e * h;
      SmallMod(1, p);
      PowCong(Pow(w, e), 1, h, p);
      PowOne(h);
      DivModUnique(-1, -1, p - 1, p);
      PowCong(Pow(w, h), -1, e, p);
      MinusOneOdd(e / 2);
    }
  }

  lemma RootPowerPeriod(w: int, k: nat, e: nat, p: nat)
    requires PrimitiveRoot(w, k, p)
    ensures Pow(Pow(w, e), Exp2(k)) % p == 1
  {
    var n := Exp2(k);
    RootPeriod(w, k, p);
    RootPower(w, e, n);
    SmallMod(1, p);
    PowCong(Pow(w, n), 1, e, p);
    PowOne(e);
  }

  lemma OrthogonalityDividing(x: int, n: nat, p: nat)
    requires p > 2 && x % p == 1
    ensures Sum(n, (i: nat) => Pow(x, i)) % p == n % p
  {
    SmallMod(1, p);
    forall i: nat | i < n
      ensures Pow(x, i) % p == 1 % p
    {
      PowCong(x, 1, i, p);
      PowOne(i);
    }
    SumCong(n, (i: nat) => Pow(x, i), (i: nat) => 1, p);
    SumOnes(n);
  }

  lemma {:induction false} PowersAsGeometric(x: int, n: nat)
    ensures (x - 1) * Sum(n, (i: nat) => Pow(x, i)) == Pow(x, n) - 1
  {
    if n != 0 {
      PowersAsGeometric(x, n - 1);
      GeometricStepAlgebra(x, Sum(n - 1, (i: nat) => Pow(x, i)), Pow(x, n - 1));
    }
  }

  lemma GeometricStepAlgebra(x: int, s: int, a: int)
    requires (x - 1) * s == a - 1
    ensures (x - 1) * (s + a) == x * a - 1
  {
  }

  lemma OrthogonalityVanishing(x: int, n: nat, p: nat)
    requires IsField(p) && p > 2 && x % p != 1 && Pow(x, n) % p == 1
    ensures Sum(n, (i: nat) => Pow(x, i)) % p == 0
  {
    PowersAsGeometric(x, n);
    SmallMod(1, p);
    SmallMod(0, p);
    AddCong(Pow(x, n), 1, 1, 1, p);
    if (x - 1) % p == 0 {
      AddCong(x - 1, 0, 1, 1, p);
    }
    NoZeroDivisors(x - 1, Sum(n, (i: nat) => Pow(x, i)), p);
  }

  lemma PowerOfPeriod(w: int, k: nat, e: nat, p: nat)
    requires PrimitiveRoot(w, k, p) && e % Exp2(k) == 0
    ensures Pow(w, e) % p == 1
  {
    DivExact(e, Exp2(k));
    var n, q := Exp2(k), e / Exp2(k);
    PowMul(w, n, q);
    RootPeriod(w, k, p);
    SmallMod(1, p);
    PowCong(Pow(w, n), 1, q, p);
    PowOne(q);
  }

  /** Orthogonality: the sum of all roots raised to `e` is N when N divides `e` and 0 otherwise. */
  lemma Orthogonality(w: int, k: nat, e: nat, p: nat)
    requires IsField(p) && PrimitiveRoot(w, k, p)
    ensures Sum(Exp2(k), (i: nat) => Pow(Pow(w, e), i)) % p == if e % Exp2(k) == 0 then Exp2(k) % p else 0
  {
    RootPowerPeriod(w, k, e, p);
    if e % Exp2(k) == 0 {
      PowerOfPeriod(w, k, e, p);
      OrthogonalityDividing(Pow(w, e), Exp2(k), p);
    } else {
      RootOrder(w, k, e, p);
      OrthogonalityVanishing(Pow(w, e), Exp2(k), p);
    }
  }

  lemma {:induction false} SumOnes(n: nat)
    ensures Sum(n, (i: nat) => 1) == n
  {
    if n != 0 {
      SumOnes(n - 1);
    }
  }

  lemma IndexDifference(n: nat, j: nat, m: nat)
    requires j < n && m < n
    ensures (n + j - m) % n == 0 <==> j == m
  {
    if j == m {
      DivModUnique(n, 1, 0, n);
    } else if j > m {
      DivModUnique(n + j - m, 1, j - m, n);
    } else {
      DivModUnique(n + j - m, 0, n + j - m, n);
    }
  }

  lemma RootPower(w: int, i: nat, e: nat)
    ensures Pow(Pow(w, i), e) == Pow(Pow(w, e), i)
  {
    PowMul(w, i, e);
    PowMul(w, e, i);
    assert i * e == e * i;
  }

  lemma OrthogonalityTransposed(w: int, k: nat, e: nat, p: nat)
    requires IsField(p) && PrimitiveRoot(w, k, p)
    ensures Sum(Exp2(k), (i: nat) => Pow(Pow(w, i), e)) % p == if e % Exp2(k) == 0 then Exp2(k) % p else 0
  {
    forall i: nat ensures Pow(Pow(w, i), e) == Pow(Pow(w, e), i) {
      RootPower(w, i, e);
    }
    SumEqual(Exp2(k), (i: nat) => Pow(Pow(w, i), e), (i: nat) => Pow(Pow(w, e), i));
    Orthogonality(w, k, e, p);
  }

  /** Row `i`, column `m` of the table summed in `Moment`. */
  function MomentEntry(w: int, z: int, m: nat, e: nat, i: nat): int
  {
    Pow(z, m) * Pow(Pow(w, i), e)
  }

  lemma MomentColumn(w: int, k: nat, z: int, j: nat, m: nat, p: nat, f: nat -> int)
    requires IsField(p) && PrimitiveRoot(w, k, p) && j < Exp2(k) && m < Exp2(k)
    requires forall i: nat :: f(i) == MomentEntry(w, z, m, Exp2(k) + j - m, i)
    ensures Sum(Exp2(k), f) % p == (if m == j then Pow(z, j) * Exp2(k) else 0) % p
  {
    var s := (i: nat) => Pow(Pow(w, i), Exp2(k) + j - m);
    SumScale(Exp2(k), Pow(z, m), s, f);
    IndicatorSum(w, k, j, m, p);
    ScaledIndicator(Pow(z, m), Sum(Exp2(k), s), Exp2(k), m == j, p);
  }

  lemma IndicatorSum(w: int, k: nat, j: nat, m: nat, p: nat)
    requires IsField(p) && PrimitiveRoot(w, k, p) && j < Exp2(k) && m < Exp2(k)
    ensures Sum(Exp2(k), (i: nat) => Pow(Pow(w, i), Exp2(k) + j - m)) % p == if m == j then Exp2(k) % p else 0
  {
    OrthogonalityTransposed(w, k, Exp2(k) + j - m, p);
    IndexDifference(Exp2(k), j, m);
  }

  lemma ScaledIndicator(a: int, s: int, n: int, hit: bool, p: nat)
    requires p > 0 && s % p == if hit then n % p else 0
    ensures (a * s) % p == (if hit then a * n else 0) % p
  {
    SmallMod(0, p);
    MulCong(a, a, s, if hit then n else 0, p);
  }

  /** The barycentric identity for the monomial x^j. */
  lemma Moment(w: int, k: nat, z: int, j: nat, p: nat, rows: nat -> int)
    requires IsField(p) && PrimitiveRoot(w, k, p) && j < Exp2(k)
    requires forall i: nat :: rows(i) == Pow(Pow(w, i), j + 1) * Geometric(z, Pow(w, i), Exp2(k))
    ensures Sum(Exp2(k), rows) % p == (Pow(z, j) * Exp2(k)) % p
  {
    var n := Exp2(k);
    var g := (i: nat, m: nat) => if m < n then MomentEntry(w, z, m, n + j - m, i) else 0;
    var cols := (m: nat) => if m == j then Pow(z, j) * n else 0;
    forall i: nat
      ensures rows(i) == Sum(n, (m: nat) => g(i, m))
    {
      MomentTerm(w, i, z, j, n);
      SumEqual(n, (m: nat) => if m < n then MomentEntry(w, z, m, n + j - m, i) else 0, (m: nat) => g(i, m));
    }
    forall m: nat | m < n
      ensures cols(m) % p == Sum(n, (i: nat) => g(i, m)) % p
    {
      MomentColumn(w, k, z, j, m, p, (i: nat) => g(i, m));
    }
    DoubleSum(n, n, g, rows, cols, p);
    SumSingle(n, j, cols);
  }

  lemma MomentTerm(w: int, i: nat, z: int, j: nat, n: nat)
    ensures Pow(Pow(w, i), j + 1) * Geometric(z, Pow(w, i), n)
         == Sum(n, (m: nat) => if m < n then MomentEntry(w, z, m, n + j - m, i) else 0)
  {
    var x := Pow(w, i);
    var a := Pow(x, j + 1);
    forall m: nat | m < n
      ensures MomentEntry(w, z, m, n + j - m, i) == a * (Pow(z, m) * Pow(x, n - 1 - m))
    {
      PowAdd(x, j + 1, n - 1 - m);
      assert j + 1 + (n - 1 - m) == n + j - m;
      MulLeftComm(Pow(z, m), a, Pow(x, n - 1 - m));
    }
    SumScale(n, a, (m: nat) => if m < n then Pow(z, m) * Pow(x, n - 1 - m) else 0,
             (m: nat) => if m < n then MomentEntry(w, z, m, n + j - m, i) else 0);
  }

  /** One root's share of the barycentric sum for the polynomial `c`. */
  function Share(c: seq<int>, x: int, z: int): int
  {
    Eval(c, x) * x * Geometric(z, x, |c|)
  }

  /** The barycentric identity for every polynomial with fewer than 2^k coefficients. */
  lemma Barycentric(c: seq<int>, w: int, k: nat, z: int, p: nat, rows: nat -> int)
    requires IsField(p) && PrimitiveRoot(w, k, p) && |c| == Exp2(k)
    requires forall i: nat :: rows(i) == Share(c, Pow(w, i), z)
    ensures Sum(Exp2(k), rows) % p == (Exp2(k) * Eval(c, z)) % p
  {
    var n := Exp2(k);
    var f := (i: nat, j: nat) => if j < |c| then c[j] * (Pow(Pow(w, i), j + 1) * Geometric(z, Pow(w, i), |c|)) else 0;
    var e := (j: nat) => if j < |c| then c[j] * Pow(z, j) else 0;
    var cols := (j: nat) => n * e(j);
    forall i: nat
      ensures rows(i) == Sum(n, (j: nat) => f(i, j))
    {
      ShareExpanded(c, Pow(w, i), z);
      SumEqual(n, (j: nat) => if j < |c| then c[j] * (Pow(Pow(w, i), j + 1) * Geometric(z, Pow(w, i), |c|)) else 0,
               (j: nat) => f(i, j));
    }
    forall j: nat | j < n
      ensures cols(j) % p == Sum(n, (i: nat) => f(i, j)) % p
    {
      BarycentricColumn(c[j], w, k, z, j, p, (i: nat) => f(i, j));
    }
    DoubleSum(n, n, f, rows, cols, p);
    SumScale(n, n, e, cols);
  }

  lemma BarycentricColumn(a: int, w: int, k: nat, z: int, j: nat, p: nat, f: nat -> int)
    requires IsField(p) && PrimitiveRoot(w, k, p) && j < Exp2(k)
    requires forall i: nat :: f(i) == a * (Pow(Pow(w, i), j + 1) * Geometric(z, Pow(w, i), Exp2(k)))
    ensures Sum(Exp2(k), f) % p == (Exp2(k) * (a * Pow(z, j))) % p
  {
    var n, t := Exp2(k), Pow(z, j);
    var m := (i: nat) => Pow(Pow(w, i), j + 1) * Geometric(z, Pow(w, i), Exp2(k));
    SumScale(n, a, m, f);
    Moment(w, k, z, j, p, m);
    MulCong(a, a, Sum(n, m), t * n, p);
    MulLeftComm(n, a, t);
    assert n * t == t * n;
  }

  lemma ShareExpanded(c: seq<int>, x: int, z: int)
    ensures Share(c, x, z)
         == Sum(|c|, (j: nat) => if j < |c| then c[j] * (Pow(x, j + 1) * Geometric(z, x, |c|)) else 0)
  {
    var n, a := |c|, x * Geometric(z, x, |c|);
    var f := (j: nat) => if j < |c| then c[j] * Pow(x, j) else 0;
    var g := (j: nat) => if j < |c| then c[j] * (Pow(x, j + 1) * Geometric(z, x, |c|)) else 0;
    forall j: nat | j < n
      ensures g(j) == a * f(j)
    {
      assert Pow(x, j + 1) == x * Pow(x, j);
      ShareAlgebra(c[j], x, Pow(x, j), Geometric(z, x, n));
    }
    SumScale(n, a, f, g);
    SumEqual(n, f, (j: nat) => if j < |c| then c[j] * Pow(x, j) else 0);
    SumEqual(n, g, (j: nat) => if j < |c| then c[j] * (Pow(x, j + 1) * Geometric(z, x, |c|)) else 0);
    ShareAlgebra(1, x, Eval(c, x), Geometric(z, x, n));
  }

  lemma ShareAlgebra(c: int, x: int, y: int, g: int)
    ensures c * ((x * y) * g) == (x * g) * (c * y) && y * x * g == (x * g) * y
  {
    assert (x * y) * g == (x * g) * y;
    MulLeftComm(c, x * g, y);
  }

  // ----- Bit reversal -----

  /** The low `width` bits of `i` in reverse order. */
  function ReverseBits(i: nat, width: nat): (r: nat)
    ensures r < Exp2(width)
  {
    if width == 0 then 0 else (if i % 2 == 1 then Exp2(width - 1) else 0) + ReverseBits(i / 2, width - 1)
  }

  lemma {:induction false} ReverseZero(width: nat)
    ensures ReverseBits(0, width) == 0
  {
    if width != 0 {
      ReverseZero(width - 1);
    }
  }

  lemma {:induction false} ReverseBitsScaled(i: nat, k: nat, width: nat)
    requires i < Exp2(k) && k <= width
    ensures ReverseBits(i, width) == ReverseBits(i, k) * Exp2(width - k)
    decreases k
  {
    if k == 0 {
      ReverseZero(width);
    } else {
      var b, r, s := i % 2, ReverseBits(i / 2, k - 1), Exp2(width - k);
      ReverseBitsScaled(i / 2, k - 1, width - 1);
      Exp2Add(k - 1, width - k);
      ScaleSum(if b == 1 then 1 else 0, Exp2(k - 1), r, s);
    }
  }

  /** Reversing a wider word and shifting the surplus away reverses the low bits. */
  lemma ReverseBitsShifted(i: nat, k: nat, width: nat)
    requires i < Exp2(k) && k <= width
    ensures ReverseBits(i, width) / Exp2(width - k) == ReverseBits(i, k)
  {
    ReverseBitsScaled(i, k, width);
    DivModUnique(ReverseBits(i, width), ReverseBits(i, k), 0, Exp2(width - k));
  }

  lemma ReverseBitsHalves(i: nat, k: nat)
    requires k > 0
    ensures ReverseBits(2 * i, k) == ReverseBits(i, k - 1)
    ensures ReverseBits(2 * i + 1, k) == Exp2(k - 1) + ReverseBits(i, k - 1)
  {
    assert (2 * i) / 2 == i && (2 * i) % 2 == 0 && (2 * i + 1) / 2 == i && (2 * i + 1) % 2 == 1;
  }

  /** `r` visits the values of `f` in bit-reversed order. */
  ghost predicate BitReversed(k: nat, f: nat -> int, r: nat -> int)
  {
    forall i: nat {:trigger f(ReverseBits(i, k))} :: i < Exp2(k) ==> r(i) == f(ReverseBits(i, k))
  }

  /** Visiting the indices in bit-reversed order does not change a sum. */
  lemma {:induction false} BitReversedSum(k: nat, f: nat -> int, r: nat -> int)
    requires BitReversed(k, f, r)
    ensures Sum(Exp2(k), r) == Sum(Exp2(k), f)
    decreases k, 1
  {
    if k == 0 {
      BitReversedBase(f, r);
    } else {
      BitReversedStep(k, f, r, (i: nat) => r(2 * i), (i: nat) => r(2 * i + 1), (i: nat) => f(Exp2(k - 1) + i));
    }
  }

  lemma {:induction false} BitReversedStep(k: nat, f: nat -> int, r: nat -> int,
                                           even: nat -> int, odd: nat -> int, upper: nat -> int)
    requires k > 0 && BitReversed(k, f, r)
    requires forall i: nat {:trigger even(i)} :: even(i) == r(2 * i)
    requires forall i: nat {:trigger odd(i)} :: odd(i) == r(2 * i + 1)
    requires forall i: nat {:trigger upper(i)} :: upper(i) == f(Exp2(k - 1) + i)
    ensures Sum(Exp2(k), r) == Sum(Exp2(k), f)
    decreases k, 0
  {
    BitReversedHalves(k, f, r, even, odd, upper);
    BitReversedSum(k - 1, f, even);
    BitReversedSum(k - 1, upper, odd);
    BitReversedJoin(Exp2(k - 1), f, r, even, odd, upper);
  }

  lemma BitReversedBase(f: nat -> int, r: nat -> int)
    requires BitReversed(0, f, r)
    ensures Sum(Exp2(0), r) == Sum(Exp2(0), f)
  {
    assert r(0) == f(ReverseBits(0, 0));
    SumOfOne(r);
    SumOfOne(f);
  }

  lemma SumOfOne(f: nat -> int)
    ensures Sum(1, f) == f(0)
  {
    assert Sum(1, f) == Sum(0, f) + f(0);
  }

  lemma BitReversedJoin(h: nat, f: nat -> int, r: nat -> int, even: nat -> int, odd: nat -> int, upper: nat -> int)
    requires forall i: nat {:trigger even(i)} :: even(i) == r(2 * i)
    requires forall i: nat {:trigger odd(i)} :: odd(i) == r(2 * i + 1)
    requires forall i: nat {:trigger upper(i)} :: upper(i) == f(h + i)
    requires Sum(h, even) == Sum(h, f) && Sum(h, odd) == Sum(h, upper)
    ensures Sum(h + h, r) == Sum(h + h, f)
  {
    SumHalves(h, h, f, upper);
    SumEvenOdd(h, r, even, odd);
  }

  lemma BitReversedHalves(k: nat, f: nat -> int, r: nat -> int, even: nat -> int, odd: nat -> int, upper: nat -> int)
    requires k > 0
    requires BitReversed(k, f, r)
    requires forall i: nat {:trigger even(i)} :: even(i) == r(2 * i)
    requires forall i: nat {:trigger odd(i)} :: odd(i) == r(2 * i + 1)
    requires forall i: nat {:trigger upper(i)} :: upper(i) == f(Exp2(k - 1) + i)
    ensures BitReversed(k - 1, f, even) && BitReversed(k - 1, upper, odd)
  {
    forall i: nat | i < Exp2(k - 1)
      ensures even(i) == f(ReverseBits(i, k - 1)) && odd(i) == upper(ReverseBits(i, k - 1))
    {
      ReverseBitsHalves(i, k);
      assert r(2 * i) == f(ReverseBits(2 * i, k)) && r(2 * i + 1) == f(ReverseBits(2 * i + 1, k));
    }
  }

  lemma {:induction false} ReverseBitsTop(b: bool, r: nat, k: nat)
    requires r < Exp2(k)
    ensures ReverseBits((if b then Exp2(k) else 0) + r, k + 1) == 2 * ReverseBits(r, k) + if b then 1 else 0
  {
    var x := (if b then Exp2(k) else 0) + r;
    if k == 0 {
      assert ReverseBits(x / 2, 0) == 0;
    } else {
      var y := (if b then Exp2(k - 1) else 0) + r / 2;
      assert x % 2 == r % 2 && x / 2 == y;
      ReverseBitsTop(b, r / 2, k - 1);
    }
  }

  /** Bit reversal is its own inverse on k-bit indices. */
  lemma {:induction false} ReverseBitsInvolution(i: nat, k: nat)
    requires i < Exp2(k)
    ensures ReverseBits(ReverseBits(i, k), k) == i
  {
    if k != 0 {
      ReverseBitsInvolution(i / 2, k - 1);
      ReverseBitsTop(i % 2 == 1, ReverseBits(i / 2, k - 1), k - 1);
    }
  }
}
