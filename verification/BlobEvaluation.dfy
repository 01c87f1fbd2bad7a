/** Evaluation of an evaluation-form blob at a point: bit-reversed roots of unity, Montgomery batch
    inversion and the barycentric formula, over any prime field with a root of unity of order 2^s. */
module BlobEvaluation {
  import opened Modular
  import opened Polynomial
  import opened RootsOfUnity

  function FAdd(a: int, b: int, p: nat): int
    requires p > 0
  {
    (a + b) % p
  }

  function FSub(a: int, b: int, p: nat): int
    requires p > 0
  {
    (a - b) % p
  }

  function FMul(a: int, b: int, p: nat): int
    requires p > 0
  {
    (a * b) % p
  }

  /** `c` are the coefficients of a polynomial of degree below 2^k that takes the given values on the
      bit-reversed powers of `w`. */
  ghost predicate Interpolates(c: seq<int>, values: seq<int>, w: int, k: nat, p: nat)
    requires p > 0
  {
    && |c| == |values| == Exp2(k)
    && forall i: nat {:trigger values[i]} :: i < |values| ==>
         Eval(c, Pow(w, ReverseBits(i, k))) % p == values[i] % p
  }

  /** The blob's domain generator: the 2^s-th root raised to 2^(s-k). */
  function DomainGenerator(g: int, s: nat, k: nat): int
    requires k <= s
  {
    Pow(g, Exp2(s - k))
  }

  lemma {:induction false} DomainGeneratorIsPrimitive(g: int, s: nat, k: nat, p: nat)
    requires k <= s && PrimitiveRoot(g, s, p)
    ensures PrimitiveRoot(DomainGenerator(g, s, k), k, p)
  {
    if k == 0 {
      RootPeriod(g, s, p);
    } else {
      PowMul(g, Exp2(s - k), Exp2(k - 1));
      Exp2Add(s - k, k - 1);
    }
  }

  /** Field inversion: absent exactly for zero. */
  method Invert(a: int, p: nat) returns (found: bool, b: int)
    requires IsField(p) && 0 <= a < p
    ensures found == (a != 0)
    ensures found ==> IsInverse(a, b, p)
  {
    b := 0;
    while b < p
      invariant 0 <= b <= p
      invariant forall x :: 0 <= x < b ==> !IsInverse(a, x, p)
    {
      if (a * b) % p == 1 % p {
        if a == 0 {
          SmallMod(0, p);
          SmallMod(1, p);
        }
        return true, b;
      }
      b := b + 1;
    }
    found := false;
    assert !Invertible(a, p);
  }

  // ----- Batch inversion -----

  /** The product of the first `n` elements. */
  function Product(d: seq<int>, n: nat): int
    requires n <= |d|
  {
    if n == 0 then 1 else Product(d, n - 1) * d[n - 1]
  }

  lemma {:induction false} ProductNonZero(d: seq<int>, n: nat, p: nat)
    requires IsField(p) && n <= |d| && forall i :: 0 <= i < n ==> d[i] % p != 0
    ensures Product(d, n) % p != 0
  {
    if n == 0 {
      SmallMod(1, p);
    } else {
      ProductNonZero(d, n - 1, p);
      if Product(d, n) % p == 0 {
        NoZeroDivisors(Product(d, n - 1), d[n - 1], p);
      }
    }
  }

  /** The running inverse times a prefix product inverts one denominator, and the running inverse
      times that denominator inverts the shorter product. */
  lemma BatchInversionStep(inv: int, prefix: int, d: int, product: int, p: nat)
    requires p >= 2 && (inv * (product * d)) % p == 1 && prefix % p == product % p
    ensures (FMul(inv, prefix, p) * d) % p == 1
    ensures (FMul(inv, d, p) * product) % p == 1
  {
    ModIdem(inv * prefix, p);
    MulCong(inv, inv, prefix, product, p);
    MulCong(FMul(inv, prefix, p), inv * product, d, d, p);
    assert (inv * product) * d == inv * (product * d);
    ModIdem(inv * d, p);
    MulCong(FMul(inv, d, p), inv * d, product, product, p);
    assert (inv * d) * product == inv * (product * d);
  }

  // ----- The barycentric sum -----

  /** One index's contribution once its denominator has been cancelled. */
  function Contribution(value: int, root: int, z: int, n: nat): int
  {
    value * root * Geometric(z, root, n)
  }

  function TailSum(values: seq<int>, roots: seq<int>, z: int, i: nat): int
    requires i <= |values| == |roots|
    decreases |values| - i
  {
    if i == |values| then 0
    else Contribution(values[i], roots[i], z, |values|) + TailSum(values, roots, z, i + 1)
  }

  /** Multiplying by z^n - 1 turns division by z - root into a geometric sum. */
  lemma CancelDenominator(value: int, root: int, z: int, n: nat, d: int, dinv: int, p: nat)
    requires p >= 2 && Pow(root, n) % p == 1 && d % p == (z - root) % p && (dinv * d) % p == 1
    ensures ((Pow(z, n) - 1) * (value * root * dinv)) % p == Contribution(value, root, z, n) % p
  {
    var zn, g, a := Pow(z, n) - 1, Geometric(z, root, n), value * root;
    SmallMod(1, p);
    AddCong(Pow(z, n), Pow(z, n), 1, Pow(root, n), p);
    GeometricSum(z, root, n);
    MulCong(z - root, d, g, g, p);
    assert zn % p == (d * g) % p;
    MulCong(zn, d * g, a * dinv, a * dinv, p);
    CancelAlgebra(d, g, a, dinv);
    MulCong(dinv * d, 1, a * g, a * g, p);
  }

  lemma CancelAlgebra(d: int, g: int, a: int, dinv: int)
    ensures (d * g) * (a * dinv) == (dinv * d) * (a * g)
  {
    assert (d * g) * (a * dinv) == d * (g * (a * dinv));
    assert g * (a * dinv) == (a * g) * dinv;
    assert d * ((a * g) * dinv) == (dinv * d) * (a * g);
  }

  lemma {:induction false} TailSumIsSum(values: seq<int>, roots: seq<int>, z: int, i: nat, f: nat -> int)
    requires i <= |values| == |roots|
    requires forall j: nat :: j < |values| ==> f(j) == Contribution(values[j], roots[j], z, |values|)
    ensures Sum(|values|, f) == Sum(i, f) + TailSum(values, roots, z, i)
    decreases |values| - i
  {
    if i < |values| {
      TailSumIsSum(values, roots, z, i + 1, f);
    }
  }

  lemma ContributionCong(c: seq<int>, value: int, root: int, x: int, z: int, p: nat)
    requires p > 0 && root % p == x % p && Eval(c, x) % p == value % p
    ensures Contribution(value, root, z, |c|) % p == Share(c, x, z) % p
  {
    var n := |c|;
    MulCong(value, Eval(c, x), root, x, p);
    GeometricCong(z, root, x, n, p);
    MulCong(value * root, Eval(c, x) * x, Geometric(z, root, n), Geometric(z, x, n), p);
  }

  /** The contributions of all indices add up to N times the polynomial at z. */
  lemma ContributionsTotal(c: seq<int>, values: seq<int>, roots: seq<int>, w: int, k: nat, z: int, p: nat)
    requires IsField(p) && PrimitiveRoot(w, k, p) && Interpolates(c, values, w, k, p) && |roots| == |values|
    requires forall i: nat :: i < |roots| ==> roots[i] % p == Pow(w, ReverseBits(i, k)) % p
    ensures TailSum(values, roots, z, 0) % p == (Exp2(k) * Eval(c, z)) % p
  {
    var n := |values|;
    var f := (i: nat) => if i < n then Contribution(values[i], roots[i], z, n) else 0;
    var g := (i: nat) => Share(c, Pow(w, i), z);
    var r := (i: nat) => g(ReverseBits(i, k));
    TailSumIsSum(values, roots, z, 0, f);
    forall i: nat | i < n
      ensures f(i) % p == r(i) % p
    {
      ContributionCong(c, values[i], roots[i], Pow(w, ReverseBits(i, k)), z, p);
    }
    SumCong(n, f, r, p);
    BitReversedSum(k, g, r);
    Barycentric(c, w, k, z, p, g);
  }

  /** The final scaling by 1/N. */
  lemma ScaleByInverse(zn: int, n: int, ninv: int, sum: int, value: int, p: nat)
    requires p >= 2 && (n * ninv) % p == 1 && (zn * sum) % p == (n * value) % p
    ensures FMul(FMul(zn, ninv, p), sum, p) == value % p
  {
    ModIdem(zn * ninv, p);
    MulCong(FMul(zn, ninv, p), zn * ninv, sum, sum, p);
    assert (zn * ninv) * sum == ninv * (zn * sum);
    MulCong(ninv, ninv, zn * sum, n * value, p);
    MulLeftComm(ninv, n, value);
    assert ninv * (n * value) == (n * ninv) * value;
    SmallMod(1, p);
    MulCong(n * ninv, 1, value, value, p);
  }

  // ----- The domain -----

  /** `roots` lists the canonical residues of the bit-reversed powers of `w`. */
  ghost predicate IsDomain(roots: seq<int>, w: int, k: nat, p: nat)
    requires p > 0
  {
    |roots| == Exp2(k) && forall i: nat {:trigger roots[i]} :: i < |roots| ==> roots[i] == Pow(w, ReverseBits(i, k)) % p
  }

  /** The powers in bit-reversed order; `width` is the width of a machine index, whose bits the source reverses and
      shifts. */
  method BitReversedRoots(omega: int, k: nat, p: nat, width: nat) returns (roots: seq<int>)
    requires p >= 2 && k <= width
    ensures IsDomain(roots, omega, k, p)
  {
    var n := Exp2(k);
    var natural := [1 % p];
    while |natural| < n
      invariant 1 <= |natural| <= n
      invariant forall j: nat {:trigger natural[j]} :: j < |natural| ==> natural[j] == Pow(omega, j) % p
    {
      var i := |natural|;
      ModIdem(Pow(omega, i - 1), p);
      MulCong(natural[i - 1], Pow(omega, i - 1), omega, omega, p);
      assert Pow(omega, i) == omega * Pow(omega, i - 1);
      natural := natural + [FMul(natural[i - 1], omega, p)];
    }
    roots := [];
    while |roots| < n
      invariant |roots| <= n
      invariant forall j: nat {:trigger roots[j]} :: j < |roots| ==> roots[j] == Pow(omega, ReverseBits(j, k)) % p
    {
      var i := |roots|;
      ReverseBitsShifted(i, k, width);
      roots := roots + [natural[ReverseBits(i, width) / Exp2(width - k)]];
    }
  }

  lemma DomainPeriod(roots: seq<int>, w: int, k: nat, i: nat, p: nat)
    requires PrimitiveRoot(w, k, p) && IsDomain(roots, w, k, p) && i < |roots|
    ensures Pow(roots[i], |roots|) % p == 1
  {
    var x := Pow(w, ReverseBits(i, k));
    ModIdem(x, p);
    PowCong(roots[i], x, |roots|, p);
    RootPowerPeriod(w, k, ReverseBits(i, k), p);
  }

  /** The domain generator and its residue describe the same domain. */
  lemma DomainOfResidue(roots: seq<int>, w: int, k: nat, p: nat)
    requires p > 2 && IsDomain(roots, w % p, k, p)
    ensures IsDomain(roots, w, k, p)
  {
    ModIdem(w, p);
    forall i: nat | i < |roots|
      ensures roots[i] == Pow(w, ReverseBits(i, k)) % p
    {
      PowCong(w % p, w, ReverseBits(i, k), p);
    }
  }

  method Denominators(roots: seq<int>, z: int, p: nat) returns (d: seq<int>)
    requires p >= 2 && 0 <= z < p && (forall i :: 0 <= i < |roots| ==> 0 <= roots[i] < p) && z !in roots
    ensures |d| == |roots| && forall i :: 0 <= i < |d| ==> d[i] == FSub(z, roots[i], p) && d[i] % p != 0
  {
    d := [];
    while |d| < |roots|
      invariant |d| <= |roots|
      invariant forall i :: 0 <= i < |d| ==> d[i] == FSub(z, roots[i], p) && d[i] % p != 0
    {
      var root := roots[|d|];
      var diff := FSub(z, root, p);
      ModIdem(z - root, p);
      if diff == 0 {
        SmallMod(0, p);
        AddCong(z - root, 0, root, root, p);
        SmallMod(z, p);
        SmallMod(root, p);
      }
      d := d + [diff];
    }
  }

  method Prefixes(d: seq<int>, p: nat) returns (prefixes: seq<int>, product: int)
    requires p >= 2
    ensures |prefixes| == |d| && product == Product(d, |d|) % p
    ensures forall i: nat {:trigger prefixes[i]} :: i < |d| ==> prefixes[i] == Product(d, i) % p
  {
    prefixes, product := [], 1;
    SmallMod(1, p);
    while |prefixes| < |d|
      invariant |prefixes| <= |d| && product == Product(d, |prefixes|) % p
      invariant forall i: nat {:trigger prefixes[i]} :: i < |prefixes| ==> prefixes[i] == Product(d, i) % p
    {
      var i := |prefixes|;
      prefixes := prefixes + [product];
      ModIdem(Product(d, i), p);
      MulCong(product, Product(d, i), d[i], d[i], p);
      product := FMul(product, d[i], p);
    }
  }

  /** The descending loop: every denominator's inverse is read off the running inverse. */
  method WeightedSum(values: seq<int>, roots: seq<int>, z: int, d: seq<int>, prefixes: seq<int>, productInverse: int,
                     p: nat)
    returns (sum: int)
    requires p >= 2 && |values| == |roots| == |d| == |prefixes|
    requires forall i :: 0 <= i < |roots| ==> d[i] == FSub(z, roots[i], p) && Pow(roots[i], |roots|) % p == 1
    requires forall i: nat {:trigger prefixes[i]} :: i < |d| ==> prefixes[i] == Product(d, i) % p
    requires (productInverse * Product(d, |d|)) % p == 1
    ensures ((Pow(z, |values|) - 1) * sum) % p == TailSum(values, roots, z, 0) % p
  {
    var n := |values|;
    var inv := productInverse;
    ghost var zn := Pow(z, n) - 1;
    sum := 0;
    var i := n;
    while i > 0
      invariant 0 <= i <= n
      invariant (inv * Product(d, i)) % p == 1
      invariant (zn * sum) % p == TailSum(values, roots, z, i) % p
    {
      i := i - 1;
      ModIdem(Product(d, i), p);
      BatchInversionStep(inv, prefixes[i], d[i], Product(d, i), p);
      var dinv := FMul(inv, prefixes[i], p);
      inv := FMul(inv, d[i], p);
      var term := FMul(FMul(values[i], roots[i], p), dinv, p);
      WeightedSumStep(zn, sum, term, values[i], roots[i], z, n, d[i], dinv, TailSum(values, roots, z, i + 1), p);
      sum := FAdd(sum, term, p);
    }
  }

  lemma WeightedSumStep(zn: int, sum: int, term: int, value: int, root: int, z: int, n: nat, d: int, dinv: int,
                        tail: int, p: nat)
    requires p >= 2 && zn == Pow(z, n) - 1 && (zn * sum) % p == tail % p
    requires Pow(root, n) % p == 1 && d == FSub(z, root, p) && (dinv * d) % p == 1
    requires term == FMul(FMul(value, root, p), dinv, p)
    ensures (zn * FAdd(sum, term, p)) % p == (Contribution(value, root, z, n) + tail) % p
  {
    TermResidue(value, root, dinv, p);
    ModIdem(z - root, p);
    CancelDenominator(value, root, z, n, d, dinv, p);
    MulCong(zn, zn, term, value * root * dinv, p);
    AccumulateResidue(zn, sum, term, Contribution(value, root, z, n), tail, p);
  }

  lemma TermResidue(value: int, root: int, dinv: int, p: nat)
    requires p >= 2
    ensures FMul(FMul(value, root, p), dinv, p) % p == (value * root * dinv) % p
  {
    ModIdem(value * root, p);
    MulCong(FMul(value, root, p), value * root, dinv, dinv, p);
    ModIdem(value * root * dinv, p);
  }

  lemma AccumulateResidue(zn: int, sum: int, term: int, contribution: int, tail: int, p: nat)
    requires p >= 2 && (zn * sum) % p == tail % p && (zn * term) % p == contribution % p
    ensures (zn * FAdd(sum, term, p)) % p == (contribution + tail) % p
  {
    ModIdem(sum + term, p);
    MulCong(zn, zn, FAdd(sum, term, p), sum + term, p);
    AddMultiples(sum, term, zn);
    assert zn * (sum + term) == (sum + term) * zn && zn * sum == sum * zn && zn * term == term * zn;
    AddCong(zn * term, contribution, zn * sum, tail, p);
  }

  lemma DomainSizeInvertible(k: nat, p: nat)
    requires IsField(p) && p > 2
    ensures Exp2(k) % p != 0
  {
    if k == 0 {
      SmallMod(1, p);
    } else {
      DomainSizeInvertible(k - 1, p);
      SmallMod(2, p);
      if Exp2(k) % p == 0 {
        NoZeroDivisors(2, Exp2(k - 1), p);
      }
    }
  }

  /** Off the domain: the batch-inverted barycentric formula. */
  method BarycentricValue(p: nat, ghost w: int, k: nat, values: seq<int>, roots: seq<int>, z: int) returns (y: int)
    requires IsField(p) && PrimitiveRoot(w, k, p) && |values| == Exp2(k) && 0 <= z < p
    requires IsDomain(roots, w, k, p) && z !in roots
    ensures 0 <= y < p
    ensures forall c :: Interpolates(c, values, w, k, p) ==> y == Eval(c, z) % p
  {
    var n := |values|;
    forall i: nat | i < n
      ensures 0 <= roots[i] < p && Pow(roots[i], n) % p == 1
    {
      DomainPeriod(roots, w, k, i, p);
    }
    var d := Denominators(roots, z, p);
    var prefixes, product := Prefixes(d, p);
    ProductNonZero(d, n, p);
    var found, productInverse := Invert(product, p);
    assert found;
    ModIdem(Product(d, n), p);
    MulCong(productInverse, productInverse, product, Product(d, n), p);
    assert product * productInverse == productInverse * product;
    SmallMod(1, p);
    var sum := WeightedSum(values, roots, z, d, prefixes, productInverse, p);
    DomainSizeInvertible(k, p);
    var invertible, ninv := Invert(n % p, p);
    assert invertible;
    ModIdem(n, p);
    MulCong(n % p, n, ninv, ninv, p);
    var zn := FSub(Pow(z, n) % p, 1, p);
    y := FMul(FMul(zn, ninv, p), sum, p);
    forall c | Interpolates(c, values, w, k, p)
      ensures y == Eval(c, z) % p
    {
      BarycentricConclusion(c, values, roots, w, k, z, zn, ninv, sum, p);
    }
  }

  lemma BarycentricConclusion(c: seq<int>, values: seq<int>, roots: seq<int>, w: int, k: nat, z: int,
                              zn: int, ninv: int, sum: int, p: nat)
    requires IsField(p) && PrimitiveRoot(w, k, p) && Interpolates(c, values, w, k, p) && IsDomain(roots, w, k, p)
    requires zn == FSub(Pow(z, |values|) % p, 1, p) && (|values| * ninv) % p == 1
    requires ((Pow(z, |values|) - 1) * sum) % p == TailSum(values, roots, z, 0) % p
    ensures FMul(FMul(zn, ninv, p), sum, p) == Eval(c, z) % p
  {
    var n := |values|;
    forall i: nat | i < n
      ensures roots[i] % p == Pow(w, ReverseBits(i, k)) % p
    {
      ModIdem(Pow(w, ReverseBits(i, k)), p);
    }
    ContributionsTotal(c, values, roots, w, k, z, p);
    ModIdem(Pow(z, n), p);
    AddCong(Pow(z, n) % p, Pow(z, n), 1, 1, p);
    ModIdem(Pow(z, n) - 1, p);
    MulCong(zn, Pow(z, n) - 1, sum, sum, p);
    ScaleByInverse(zn, n, ninv, sum, Eval(c, z), p);
  }

  /** On the domain the stored value is the polynomial's value. */
  lemma OnDomain(values: seq<int>, roots: seq<int>, w: int, k: nat, index: nat, p: nat)
    requires p > 2 && IsDomain(roots, w, k, p) && |values| == |roots| && index < |roots| && 0 <= values[index] < p
    ensures forall c :: Interpolates(c, values, w, k, p) ==> values[index] == Eval(c, roots[index]) % p
  {
    var x := Pow(w, ReverseBits(index, k));
    forall c | Interpolates(c, values, w, k, p)
      ensures values[index] == Eval(c, roots[index]) % p
    {
      ModIdem(x, p);
      EvalCong(c, roots[index], x, p);
      SmallMod(values[index], p);
    }
  }

  // ----- The interpolating polynomial exists -----

  /** Coefficients by the inverse discrete Fourier transform. */
  function Coefficient(values: seq<int>, w: int, k: nat, ninv: int, j: nat): int
    requires |values| == Exp2(k)
  {
    ninv * Sum(|values|, (i: nat) => CoefficientTerm(values, w, k, i, j))
  }

  function CoefficientTerm(values: seq<int>, w: int, k: nat, i: nat, j: nat): int
    requires |values| == Exp2(k)
  {
    if i < |values| then values[ReverseBits(i, k)] * Pow(Pow(w, |values| - i), j) else 0
  }

  function Coefficients(values: seq<int>, w: int, k: nat, ninv: int): (c: seq<int>)
    requires |values| == Exp2(k)
  {
    seq(|values|, (j: nat) => Coefficient(values, w, k, ninv, j))
  }

  /** One value's share of the interpolant at the t-th root. */
  lemma InverseTransformRow(values: seq<int>, w: int, k: nat, i: nat, t: nat, p: nat, f: nat -> int)
    requires IsField(p) && PrimitiveRoot(w, k, p) && |values| == Exp2(k) && i < |values| && t < |values|
    requires forall j: nat :: f(j) == CoefficientTerm(values, w, k, i, j) * Pow(Pow(w, t), j)
    ensures Sum(|values|, f) % p == (if i == t then values[ReverseBits(i, k)] * |values| else 0) % p
  {
    var n, v := |values|, values[ReverseBits(i, k)];
    var s := (j: nat) => Pow(Pow(w, n + t - i), j);
    forall j: nat
      ensures f(j) == v * s(j)
    {
      RowPower(v, w, n - i, t, j);
    }
    SumScale(n, v, s, f);
    Orthogonality(w, k, n + t - i, p);
    IndexDifference(n, t, i);
    ScaledIndicator(v, Sum(n, s), n, i == t, p);
  }

  lemma RowPower(v: int, w: int, a: nat, b: nat, j: nat)
    ensures v * Pow(Pow(w, a), j) * Pow(Pow(w, b), j) == v * Pow(Pow(w, a + b), j)
  {
    PowAdd(w, a, b);
    PowProduct(Pow(w, a), Pow(w, b), j);
    RowAlgebra(v, Pow(Pow(w, a), j), Pow(Pow(w, b), j));
  }

  lemma {:induction false} PowProduct(a: int, b: int, e: nat)
    ensures Pow(a * b, e) == Pow(a, e) * Pow(b, e)
  {
    if e != 0 {
      PowProduct(a, b, e - 1);
      PowProductAlgebra(a, b, Pow(a, e - 1), Pow(b, e - 1));
    }
  }

  lemma PowProductAlgebra(a: int, b: int, x: int, y: int)
    ensures (a * b) * (x * y) == (a * x) * (b * y)
  {
    assert b * (x * y) == x * (b * y);
    assert a * (x * (b * y)) == (a * x) * (b * y);
  }

  /** The interpolant takes the right value at the t-th natural root. */
  lemma InverseTransform(values: seq<int>, w: int, k: nat, ninv: int, t: nat, p: nat)
    requires IsField(p) && PrimitiveRoot(w, k, p) && |values| == Exp2(k) && t < |values|
    requires (|values| * ninv) % p == 1
    ensures Eval(Coefficients(values, w, k, ninv), Pow(w, t)) % p == values[ReverseBits(t, k)] % p
  {
    var n, c, x := |values|, Coefficients(values, w, k, ninv), Pow(w, t);
    var table := (j: nat, i: nat) => CoefficientTerm(values, w, k, i, j) * Pow(x, j);
    var rows := (j: nat) => Sum(n, (i: nat) => table(j, i));
    var cols := (i: nat) => if i == t then values[ReverseBits(t, k)] * n else 0;
    var e := (j: nat) => if j < |c| then c[j] * Pow(x, j) else 0;
    forall i: nat | i < n
      ensures cols(i) % p == Sum(n, (j: nat) => table(j, i)) % p
    {
      InverseTransformRow(values, w, k, i, t, p, (j: nat) => table(j, i));
    }
    DoubleSum(n, n, table, rows, cols, p);
    SumSingle(n, t, cols);
    forall j: nat | j < n
      ensures e(j) == ninv * rows(j)
    {
      CoefficientRow(values, w, k, ninv, j, x, (i: nat) => table(j, i));
    }
    SumScale(n, ninv, rows, e);
    CancelSize(ninv, n, values[ReverseBits(t, k)], Sum(n, rows), p);
  }

  lemma CoefficientRow(values: seq<int>, w: int, k: nat, ninv: int, j: nat, x: int, row: nat -> int)
    requires |values| == Exp2(k) && forall i: nat :: row(i) == CoefficientTerm(values, w, k, i, j) * Pow(x, j)
    ensures Coefficient(values, w, k, ninv, j) * Pow(x, j) == ninv * Sum(|values|, row)
  {
    var inner := (i: nat) => CoefficientTerm(values, w, k, i, j);
    SumScale(|values|, Pow(x, j), inner, row);
    RowAlgebra(ninv, Sum(|values|, inner), Pow(x, j));
  }

  lemma RowAlgebra(a: int, b: int, c: int)
    ensures a * b * c == a * (c * b)
  {
  }

  lemma CancelSize(ninv: int, n: int, v: int, s: int, p: nat)
    requires p >= 2 && (n * ninv) % p == 1 && s % p == (v * n) % p
    ensures (ninv * s) % p == v % p
  {
    MulCong(ninv, ninv, s, v * n, p);
    assert ninv * (v * n) == (n * ninv) * v;
    SmallMod(1, p);
    MulCong(n * ninv, 1, v, v, p);
  }

  /** Some polynomial of degree below 2^k takes the values, so the result of EvaluateBlob is determined. */
  lemma InterpolantExists(values: seq<int>, w: int, k: nat, p: nat) returns (c: seq<int>)
    requires IsField(p) && PrimitiveRoot(w, k, p) && |values| == Exp2(k)
    ensures Interpolates(c, values, w, k, p)
  {
    var n := |values|;
    DomainSizeInvertible(k, p);
    assert Invertible(n % p, p);
    var ninv :| IsInverse(n % p, ninv, p);
    ModIdem(n, p);
    MulCong(n % p, n, ninv, ninv, p);
    SmallMod(1, p);
    c := Coefficients(values, w, k, ninv);
    forall i: nat | i < n
      ensures Eval(c, Pow(w, ReverseBits(i, k))) % p == values[i] % p
    {
      InverseTransform(values, w, k, ninv, ReverseBits(i, k), p);
      ReverseBitsInvolution(i, k);
    }
  }

  /** Two polynomials of degree below 2^k with the same values on the domain agree everywhere. */
  lemma InterpolantUnique(c: seq<int>, e: seq<int>, values: seq<int>, w: int, k: nat, x: int, p: nat)
    requires IsField(p) && PrimitiveRoot(w, k, p)
    requires Interpolates(c, values, w, k, p) && Interpolates(e, values, w, k, p)
    ensures Eval(c, x) % p == Eval(e, x) % p
  {
    var n := |values|;
    var roots := seq(n, (i: nat) => Pow(w, ReverseBits(i, k)));
    ContributionsTotal(c, values, roots, w, k, x, p);
    ContributionsTotal(e, values, roots, w, k, x, p);
    DomainSizeInvertible(k, p);
    CancelFactor(n, Eval(c, x), Eval(e, x), p);
  }

  lemma CancelFactor(n: int, a: int, b: int, p: nat)
    requires IsField(p) && n % p != 0 && (n * a) % p == (n * b) % p
    ensures a % p == b % p
  {
    AddCong(n * a, n * b, n * b, n * b, p);
    assert n * a - n * b == n * (a - b);
    SmallMod(0, p);
    NoZeroDivisors(n, a - b, p);
    AddCong(a - b, 0, b, b, p);
  }

  /** On every machine whose indices have k bits or more and for every point, on or off the domain, the result is the
      value at `z` of every polynomial of degree below 2^k that takes `values` on the bit-reversed roots. */
  method EvaluateBlob(p: nat, g: int, s: nat, k: nat, values: seq<int>, z: int, width: nat) returns (y: int)
    requires IsField(p) && PrimitiveRoot(g, s, p) && k <= s && k <= width
    requires |values| == Exp2(k) && 0 <= z < p && forall i :: 0 <= i < |values| ==> 0 <= values[i] < p
    ensures 0 <= y < p
    ensures forall c :: Interpolates(c, values, DomainGenerator(g, s, k), k, p) ==> y == Eval(c, z) % p
  {
    ghost var w := DomainGenerator(g, s, k);
    DomainGeneratorIsPrimitive(g, s, k, p);
    var omega := Pow(g, Exp2(s - k)) % p;
    var roots := BitReversedRoots(omega, k, p, width);
    DomainOfResidue(roots, w, k, p);
    var index := 0;
    while index < |roots|
      invariant 0 <= index <= |roots| && z !in roots[..index]
    {
      if roots[index] == z {
        y := values[index];
        OnDomain(values, roots, w, k, index, p);
        return;
      }
      index := index + 1;
    }
    assert roots[..index] == roots;
    y := BarycentricValue(p, w, k, values, roots, z);
  }
}
