/** A polynomial of degree below n over a field has fewer than n roots, unless all its coefficients vanish. */
module PolynomialRoots {
  import opened Modular
  import opened Polynomial
  import Ordered

  /** Every coefficient is a multiple of the modulus. */
  ghost predicate Vanishes(c: seq<int>, p: nat)
    requires p > 0
  {
    forall i :: 0 <= i < |c| ==> c[i] % p == 0
  }

  lemma ShiftTerm(a: int, x: int, y: int)
    ensures a * (x * y) == x * (a * y)
  {
  }

  /** Horner's step. */
  lemma EvalStep(c: seq<int>, x: int)
    requires c != []
    ensures Eval(c, x) == c[0] + x * Eval(c[1..], x)
  {
    var n, d := |c|, c[1..];
    var f := (j: nat) => if j < |c| then c[j] * Pow(x, j) else 0;
    var g := (j: nat) => if j < |d| then d[j] * Pow(x, j) else 0;
    var upper := (j: nat) => f(1 + j);
    forall j: nat | j < n - 1
      ensures upper(j) == x * g(j)
    {
      assert Pow(x, 1 + j) == x * Pow(x, j);
      ShiftTerm(c[1 + j], x, Pow(x, j));
    }
    SumHalves(1, n - 1, f, upper);
    SumScale(n - 1, x, g, upper);
    assert Sum(1, f) == Sum(0, f) + f(0);
    assert f(0) == c[0] * Pow(x, 0) == c[0];
  }

  /** Synthetic division by x - r. */
  function Quotient(c: seq<int>, r: int): (q: seq<int>)
    ensures |q| == if c == [] then 0 else |c| - 1
  {
    if |c| <= 1 then [] else [Eval(c[1..], r)] + Quotient(c[1..], r)
  }

  lemma DivisionAlgebra(x: int, r: int, ex: int, er: int, q: int)
    requires ex - er == (x - r) * q
    ensures x * ex - r * er == (x - r) * (er + x * q)
  {
    assert x * (ex - er) == (x - r) * (x * q);
  }

  /** Dividing leaves the value at r as the remainder. */
  lemma {:induction false} Division(c: seq<int>, r: int, x: int)
    requires c != []
    ensures Eval(c, x) - Eval(c, r) == (x - r) * Eval(Quotient(c, r), x)
  {
    EvalStep(c, x);
    EvalStep(c, r);
    var d := c[1..];
    if d == [] {
      assert Eval(d, x) == 0 && Eval(d, r) == 0 && Eval(Quotient(c, r), x) == 0;
    } else {
      Division(d, r, x);
      EvalStep(Quotient(c, r), x);
      assert Quotient(c, r)[1..] == Quotient(d, r);
      DivisionAlgebra(x, r, Eval(d, x), Eval(d, r), Eval(Quotient(d, r), x));
    }
  }

  lemma MultipleOf(a: int, b: int, p: nat)
    requires p > 0 && b % p == 0
    ensures (a * b) % p == 0
  {
    SmallMod(0, p);
    MulCong(a, a, b, 0, p);
  }

  lemma AddMultiple(a: int, b: int, p: nat)
    requires p > 0 && b % p == 0
    ensures (a + b) % p == a % p
  {
    SmallMod(0, p);
    AddCong(a, a, b, 0, p);
  }

  lemma {:induction false} VanishingValue(c: seq<int>, x: int, p: nat)
    requires p > 0 && Vanishes(c, p)
    ensures Eval(c, x) % p == 0
  {
    if c == [] {
      SmallMod(0, p);
    } else {
      EvalStep(c, x);
      VanishingValue(c[1..], x, p);
      MultipleOf(x, Eval(c[1..], x), p);
      AddMultiple(c[0], x * Eval(c[1..], x), p);
    }
  }

  /** A root at which only the constant term could count makes that vanish too. */
  lemma ConstantVanishes(c: seq<int>, r: int, p: nat)
    requires p > 0 && c != [] && Vanishes(c[1..], p) && Eval(c, r) % p == 0
    ensures Vanishes(c, p)
  {
    var d, e := c[1..], Eval(c[1..], r);
    assert c[0] % p == 0 by {
      EvalStep(c, r);
      VanishingValue(d, r, p);
      MultipleOf(r, e, p);
      AddMultiple(c[0], r * e, p);
    }
    forall i | 0 <= i < |c|
      ensures c[i] % p == 0
    {
      if i > 0 {
        assert c[i] == d[i - 1];
      }
    }
  }

  /** If the quotient vanishes, so do all coefficients but the first. */
  lemma {:induction false} VanishingQuotient(c: seq<int>, r: int, p: nat)
    requires p > 0 && c != [] && Vanishes(Quotient(c, r), p)
    ensures Vanishes(c[1..], p)
  {
    var d := c[1..];
    if d != [] {
      var q := Quotient(c, r);
      assert q[0] == Eval(d, r) && q[1..] == Quotient(d, r);
      assert Vanishes(q[1..], p);
      VanishingQuotient(d, r, p);
      ConstantVanishes(d, r, p);
    }
  }

  /** A root whose quotient vanishes belongs to a vanishing polynomial. */
  lemma RootOfVanishing(c: seq<int>, r: int, p: nat)
    requires p > 0 && c != [] && Vanishes(Quotient(c, r), p) && Eval(c, r) % p == 0
    ensures Vanishes(c, p)
  {
    VanishingQuotient(c, r, p);
    ConstantVanishes(c, r, p);
  }

  /** Every other root is a root of the quotient. */
  lemma OtherRoot(c: seq<int>, r: int, x: int, p: nat)
    requires IsField(p) && c != [] && 0 <= r < p && 0 <= x < p && x != r
    requires Eval(c, r) % p == 0 && Eval(c, x) % p == 0
    ensures Eval(Quotient(c, r), x) % p == 0
  {
    Division(c, r, x);
    SmallMod(0, p);
    AddCong(Eval(c, x), 0, Eval(c, r), 0, p);
    SmallMod(x, p);
    SmallMod(r, p);
    if (x - r) % p == 0 {
      AddCong(x - r, 0, r, r, p);
    }
    NoZeroDivisors(x - r, Eval(Quotient(c, r), x), p);
  }

  ghost predicate AreRoots(c: seq<int>, points: set<int>, p: nat)
    requires p > 0
  {
    forall z {:trigger z in points} :: z in points ==> 0 <= z < p && Eval(c, z) % p == 0
  }

  /** Fewer roots than coefficients. */
  lemma {:induction false} FewRoots(c: seq<int>, points: set<int>, p: nat)
    requires IsField(p) && !Vanishes(c, p) && AreRoots(c, points, p)
    ensures |points| < |c|
    decreases |c|
  {
    if points != {} {
      var r := Ordered.Member(points);
      var q := Quotient(c, r);
      if Vanishes(q, p) {
        RootOfVanishing(c, r, p);
      } else {
        forall z | z in points - {r}
          ensures 0 <= z < p && Eval(q, z) % p == 0
        {
          OtherRoot(c, r, z, p);
        }
        FewRoots(q, points - {r}, p);
        assert |points| == |points - {r}| + 1;
      }
    }
  }

  function Difference(c: seq<int>, e: seq<int>): (d: seq<int>)
    requires |c| == |e|
    ensures |d| == |c|
  {
    seq(|c|, i requires 0 <= i < |c| => c[i] - e[i])
  }

  lemma {:induction false} EvalDifference(c: seq<int>, e: seq<int>, x: int)
    requires |c| == |e|
    ensures Eval(Difference(c, e), x) == Eval(c, x) - Eval(e, x)
  {
    if c != [] {
      var d := Difference(c, e);
      EvalDifference(c[1..], e[1..], x);
      assert d[1..] == Difference(c[1..], e[1..]);
      EvalStep(c, x);
      EvalStep(e, x);
      EvalStep(d, x);
      DifferenceAlgebra(x, Eval(c[1..], x), Eval(e[1..], x));
    }
  }

  lemma DifferenceAlgebra(x: int, a: int, b: int)
    ensures x * (a - b) == x * a - x * b
  {
  }

  /** Two polynomials of degree below n that differ at one point agree at fewer than n points. */
  lemma AgreeRarely(c: seq<int>, e: seq<int>, x: int, points: set<int>, p: nat)
    requires IsField(p) && |c| == |e| && Eval(c, x) % p != Eval(e, x) % p
    requires forall z {:trigger z in points} :: z in points ==> 0 <= z < p && Eval(c, z) % p == Eval(e, z) % p
    ensures |points| < |c|
  {
    var d := Difference(c, e);
    forall z | z in points
      ensures 0 <= z < p && Eval(d, z) % p == 0
    {
      EvalDifference(c, e, z);
      AddCong(Eval(c, z), Eval(e, z), Eval(e, z), Eval(e, z), p);
      SmallMod(0, p);
    }
    EvalDifference(c, e, x);
    if Vanishes(d, p) {
      VanishingValue(d, x, p);
      SmallMod(0, p);
      AddCong(Eval(d, x), 0, Eval(e, x), Eval(e, x), p);
    }
    FewRoots(d, points, p);
  }
}
